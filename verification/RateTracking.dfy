/**
 * Rates that a production system advertises while it mutates the resources directly
 * (packages/core/src/production-system.ts:460-500, 1214-1245), for resources without a `finalizeTick`.
 */
module RateTracking {
  import opened Wrappers
  import opened ResourceRows
  import opened Texts
  import opened Production

  /** What a rate yields per second at full throttle. */
  function PerSecond(g: Generator): real -> real {
    rate => rate * (g.owned * g.multiplier)
  }

  /** `computeRateConsumptionRatio` before it is clamped: how much of the first `n` consumptions can be afforded. */
  function AffordableRatio(available: nat -> real, rates: seq<Rate>, earn: real -> real, n: nat): real
    requires n <= |rates|
  {
    if n == 0 then 1.0
    else
      var before := AffordableRatio(available, rates, earn, n - 1);
      var i, required := rates[n - 1].index, earn(rates[n - 1].rate);
      if required <= 0.0 then before
      else if available(i) <= 0.0 then 0.0
      else MinOf(before, available(i) / required)
  }

  function RateRatio(available: nat -> real, rates: seq<Rate>, earn: real -> real): real {
    ClampRatio(AffordableRatio(available, rates, earn, |rates|))
  }

  function AmountsOf(s: State): nat -> real {
    (i: nat) => DirectAmount(s, i)
  }

  /** `applyIncome` or `applyExpense` of one resource. */
  function WithRate(stocks: seq<Stock>, i: nat, x: real, field: RateField): (r: seq<Stock>)
    ensures |r| == |stocks|
  {
    if i >= |stocks| || x <= 0.0 then stocks
    else stocks[i := if field == Income then stocks[i].(income := stocks[i].income + x)
                     else stocks[i].(expense := stocks[i].expense + x)]
  }

  /** `applyRateTrackingAdjustments` over the first `n` rates. */
  function Advertised(stocks: seq<Stock>, rates: seq<Rate>, amount: real -> real, field: RateField,
                      n: nat): (r: seq<Stock>)
    requires n <= |rates|
    ensures |r| == |stocks|
  {
    if n == 0 then stocks
    else WithRate(Advertised(stocks, rates, amount, field, n - 1), rates[n - 1].index, amount(rates[n - 1].rate), field)
  }

  /** What is advertised per second for a rate, at a ratio. */
  function Throttle(g: Generator, ratio: real): real -> real {
    rate => PerSecond(g)(rate) * ratio
  }

  /** `applyDirectRateTracking` for one generator. */
  function Tracked(cfg: Config, s: State, g: Generator, seconds: real): State {
    if g.owned <= 0.0 || !g.enabled then s
    else
      var produces, consumes := ValidRates(cfg, g.produces, |g.produces|), ValidRates(cfg, g.consumes, |g.consumes|);
      var ratio := RateRatio(AmountsOf(s), consumes, EarnedIn(g, seconds));
      if ratio <= 0.0 then s
      else
        var raised := Advertised(s.stocks, produces, Throttle(g, ratio), Income, |produces|);
        s.(stocks := Advertised(raised, consumes, Throttle(g, ratio), Expense, |consumes|))
  }

  /** A generator's turn: its rates are advertised before it runs. */
  function TrackingRunner(cfg: Config, seconds: real): (State, Generator) -> State {
    (s: State, g: Generator) => RunGenerator(cfg, DirectContext(), Tracked(cfg, s, g, seconds), g, seconds)
  }

  function TrackingFlow(cfg: Config, s: State, gs: seq<Generator>, deltaMs: real): State {
    Fold(TrackingRunner(cfg, deltaMs / 1000.0), s, gs, |gs|)
  }

  // ----- the ratio is the largest that can be afforded

  /** A share of a consumption is within what is available of it, if it asks for anything. */
  ghost predicate WithinAt(x: real, available: real, required: real) {
    required > 0.0 ==> ShareOf(x)(required) <= available
  }

  ghost predicate Within(x: real, available: nat -> real, rates: seq<Rate>, earn: real -> real, n: nat)
    requires n <= |rates|
  {
    forall k | 0 <= k < n :: WithinAt(x, available(rates[k].index), earn(rates[k].rate))
  }

  lemma TimesPositive(x: real, y: real)
    requires x > 0.0 && y > 0.0
    ensures x * y > 0.0
  {
  }

  lemma QuotientIsLargest(x: real, available: real, required: real)
    requires x > 0.0 && required > 0.0
    ensures available > 0.0 ==> (x <= available / required <==> ShareOf(x)(required) <= available)
    ensures available <= 0.0 ==> ShareOf(x)(required) > available
  {
    var share := ShareOf(x)(required);
    assert share == required * x == x * required;
    TimesPositive(x, required);
    if available > 0.0 {
      var q := available / required;
      DividedTimes(available, required);
      if x < q {
        ScaledBelow(x, q, required, share, available);
      } else if q < x {
        ScaledBelow(q, x, required, available, share);
      }
    }
  }

  lemma {:induction false} RatioIsNotNegative(available: nat -> real, rates: seq<Rate>, earn: real -> real, n: nat)
    requires n <= |rates|
    ensures 0.0 <= AffordableRatio(available, rates, earn, n) <= 1.0
  {
    if n > 0 {
      RatioIsNotNegative(available, rates, earn, n - 1);
      var i, required := rates[n - 1].index, earn(rates[n - 1].rate);
      if required > 0.0 && available(i) > 0.0 {
        DividedTimes(available(i), required);
        QuotientIsPositive(available(i), required);
      }
    }
  }

  lemma QuotientIsPositive(x: real, y: real)
    requires x > 0.0 && y > 0.0
    ensures x / y > 0.0
  {
  }

  /** One consumption of which nothing is available stops everything. */
  lemma {:induction false} RatioStaysZero(available: nat -> real, rates: seq<Rate>, earn: real -> real, m: nat, n: nat)
    requires m <= n <= |rates| && AffordableRatio(available, rates, earn, m) == 0.0
    ensures AffordableRatio(available, rates, earn, n) == 0.0
  {
    if m < n {
      RatioStaysZero(available, rates, earn, m, n - 1);
      var i, required := rates[n - 1].index, earn(rates[n - 1].rate);
      if required > 0.0 && available(i) > 0.0 {
        QuotientIsPositive(available(i), required);
      }
    }
  }

  lemma {:induction false} RatioIsLargestSoFar(x: real, available: nat -> real, rates: seq<Rate>, earn: real -> real,
                                               n: nat)
    requires n <= |rates| && 0.0 < x <= 1.0
    ensures x <= AffordableRatio(available, rates, earn, n) <==> Within(x, available, rates, earn, n)
  {
    if n > 0 {
      var m := n - 1;
      RatioIsLargestSoFar(x, available, rates, earn, m);
      var i, required := rates[m].index, earn(rates[m].rate);
      if required > 0.0 {
        QuotientIsLargest(x, available(i), required);
      }
      assert Within(x, available, rates, earn, n)
        <==> Within(x, available, rates, earn, m) && WithinAt(x, available(i), required);
    }
  }

  /**
   * The advertised ratio is the largest share of all consumptions, up to all of them, that leaves each one
   * within what is available of it.
   */
  lemma RatioIsLargest(x: real, available: nat -> real, rates: seq<Rate>, earn: real -> real)
    requires 0.0 < x <= 1.0
    ensures x <= RateRatio(available, rates, earn) <==> Within(x, available, rates, earn, |rates|)
    ensures 0.0 <= RateRatio(available, rates, earn) <= 1.0
  {
    RatioIsLargestSoFar(x, available, rates, earn, |rates|);
    RatioIsNotNegative(available, rates, earn, |rates|);
  }

  // ----- what is advertised

  /** What the first `n` rates advertise for resource `i`. */
  function RateTotal(rates: seq<Rate>, amount: real -> real, i: nat, n: nat): real
    requires n <= |rates|
  {
    if n == 0 then 0.0
    else
      var x := amount(rates[n - 1].rate);
      RateTotal(rates, amount, i, n - 1) + (if rates[n - 1].index == i && x > 0.0 then x else 0.0)
  }

  /** Each resource's rate rises by what all rates of it advertise; its amount and its other rate stay. */
  lemma {:induction false} AdvertisedAt(stocks: seq<Stock>, rates: seq<Rate>, amount: real -> real, field: RateField,
                                        i: nat, n: nat)
    requires n <= |rates| && i < |stocks|
    ensures var t := Advertised(stocks, rates, amount, field, n)[i];
            t == if field == Income then stocks[i].(income := stocks[i].income + RateTotal(rates, amount, i, n))
                 else stocks[i].(expense := stocks[i].expense + RateTotal(rates, amount, i, n))
  {
    if n > 0 {
      AdvertisedAt(stocks, rates, amount, field, i, n - 1);
    }
  }

  /** A generator's turn adds to each resource's rates what its productions and consumptions advertise. */
  lemma TrackedRates(cfg: Config, s: State, g: Generator, seconds: real, i: nat)
    requires i < |s.stocks| && g.owned > 0.0 && g.enabled
    ensures |Tracked(cfg, s, g, seconds).stocks| == |s.stocks|
    ensures var produces, consumes :=
            ValidRates(cfg, g.produces, |g.produces|), ValidRates(cfg, g.consumes, |g.consumes|);
            var ratio := RateRatio(AmountsOf(s), consumes, EarnedIn(g, seconds));
            var income := if ratio <= 0.0 then 0.0 else RateTotal(produces, Throttle(g, ratio), i, |produces|);
            var expense := if ratio <= 0.0 then 0.0 else RateTotal(consumes, Throttle(g, ratio), i, |consumes|);
            Tracked(cfg, s, g, seconds).stocks[i]
            == s.stocks[i].(income := s.stocks[i].income + income, expense := s.stocks[i].expense + expense)
  {
    var produces, consumes := ValidRates(cfg, g.produces, |g.produces|), ValidRates(cfg, g.consumes, |g.consumes|);
    var ratio := RateRatio(AmountsOf(s), consumes, EarnedIn(g, seconds));
    if ratio > 0.0 {
      AdvertisedAt(s.stocks, produces, Throttle(g, ratio), Income, i, |produces|);
      var raised := Advertised(s.stocks, produces, Throttle(g, ratio), Income, |produces|);
      AdvertisedAt(raised, consumes, Throttle(g, ratio), Expense, i, |consumes|);
    }
  }

  /** What is advertised per second comes, over a tick, to that share of what the tick earns. */
  lemma AdvertisedIsEarned(g: Generator, rate: real, ratio: real, seconds: real)
    ensures Throttle(g, ratio)(rate) == rate * (g.owned * g.multiplier) * ratio
    ensures Throttle(g, ratio)(rate) * seconds == EarnedIn(g, seconds)(rate) * ratio
  {
    var x := rate * (g.owned * g.multiplier);
    assert PerSecond(g)(rate) == x && EarnedIn(g, seconds)(rate) == x * seconds;
    assert x * ratio * seconds == x * seconds * ratio;
  }

  // ----- tracking is invisible to production

  predicate SameButRate(a: Stock, b: Stock) {
    a.amount == b.amount && a.capacity == b.capacity
  }

  /** The same state, as far as production is concerned: only rates may differ. */
  ghost predicate SameButRates(d: State, s: State) {
    && d == s.(stocks := d.stocks) && |d.stocks| == |s.stocks|
    && forall i | 0 <= i < |s.stocks| :: SameButRate(d.stocks[i], s.stocks[i])
  }

  lemma StocksStaySame(a: Stock, b: Stock, x: real)
    requires SameButRate(a, b)
    ensures SameButRate(CreditedStock(a, x), CreditedStock(b, x)) && SameButRate(DebitedStock(a, x), DebitedStock(b, x))
  {
  }

  lemma SameAfterCredit(d: State, s: State, id: Text, i: nat, x: real)
    requires SameButRates(d, s)
    ensures SameButRates(DirectContext().credit(d, id, i, x), DirectContext().credit(s, id, i, x))
  {
    if i < |s.stocks| {
      StocksStaySame(d.stocks[i], s.stocks[i], x);
      var d', s' := CreditDirectly(d, id, i, x), CreditDirectly(s, id, i, x);
      forall j | 0 <= j < |s.stocks|
        ensures SameButRate(d'.stocks[j], s'.stocks[j])
      {
        DirectEffects(d, id, i, x, j);
        DirectEffects(s, id, i, x, j);
        assert SameButRate(d.stocks[j], s.stocks[j]);
      }
    }
  }

  lemma SameAfterDebit(d: State, s: State, id: Text, i: nat, x: real)
    requires SameButRates(d, s)
    ensures SameButRates(DirectContext().debit(d, id, i, x), DirectContext().debit(s, id, i, x))
  {
    if i < |s.stocks| {
      StocksStaySame(d.stocks[i], s.stocks[i], x);
      var d', s' := DebitDirectly(d, id, i, x), DebitDirectly(s, id, i, x);
      forall j | 0 <= j < |s.stocks|
        ensures SameButRate(d'.stocks[j], s'.stocks[j])
      {
        DirectEffects(d, id, i, x, j);
        DirectEffects(s, id, i, x, j);
        assert SameButRate(d.stocks[j], s.stocks[j]);
      }
    }
  }

  lemma RatesDoNotMatter()
    ensures Simulates((d: State, s: State) => SameButRates(d, s), DirectContext(), DirectContext())
  {
    var R, c := (d: State, s: State) => SameButRates(d, s), DirectContext();
    forall d: State, s: State, i: nat | R(d, s)
      ensures c.amount(d, i) == c.amount(s, i)
    {
      if i < |s.stocks| {
        assert SameButRate(d.stocks[i], s.stocks[i]);
      }
    }
    assert SharesAccumulators(R) && SameAmounts(R, c, c);
    forall d: State, s: State, id: Text, i: nat, x: real | R(d, s) && x > 0.0
      ensures R(c.credit(d, id, i, x), c.credit(s, id, i, x)) && R(c.debit(d, id, i, x), c.debit(s, id, i, x))
    {
      SameAfterCredit(d, s, id, i, x);
      SameAfterDebit(d, s, id, i, x);
    }
    assert Preserves(R, c.credit, c.credit) && Preserves(R, c.debit, c.debit);
  }

  lemma TrackedIsSame(cfg: Config, d: State, s: State, g: Generator, seconds: real)
    requires SameButRates(d, s)
    ensures SameButRates(Tracked(cfg, d, g, seconds), s)
  {
    if g.owned > 0.0 && g.enabled {
      var t := Tracked(cfg, d, g, seconds);
      forall i | 0 <= i < |s.stocks|
        ensures |t.stocks| == |s.stocks| && SameButRate(t.stocks[i], s.stocks[i])
      {
        TrackedRates(cfg, d, g, seconds, i);
        assert SameButRate(d.stocks[i], s.stocks[i]);
      }
    }
  }

  /** Production leaves every rate as it is. */
  ghost predicate SameRates(s: State, base: seq<Stock>) {
    && |s.stocks| == |base|
    && forall i | 0 <= i < |base| :: s.stocks[i].income == base[i].income && s.stocks[i].expense == base[i].expense
  }

  lemma SameRatesAfter(s: State, base: seq<Stock>, id: Text, i: nat, x: real)
    requires SameRates(s, base)
    ensures SameRates(DirectContext().credit(s, id, i, x), base) && SameRates(DirectContext().debit(s, id, i, x), base)
  {
    if i < |s.stocks| {
      var credited, debited := CreditDirectly(s, id, i, x), DebitDirectly(s, id, i, x);
      forall j | 0 <= j < |base|
        ensures credited.stocks[j].income == base[j].income && credited.stocks[j].expense == base[j].expense
        ensures debited.stocks[j].income == base[j].income && debited.stocks[j].expense == base[j].expense
      {
        DirectEffects(s, id, i, x, j);
      }
    }
  }

  lemma RatesAreKept(base: seq<Stock>)
    ensures Simulates((d: State, s: State) => d == s && SameRates(s, base), DirectContext(), DirectContext())
  {
    var R, c := (d: State, s: State) => d == s && SameRates(s, base), DirectContext();
    assert SharesAccumulators(R) && SameAmounts(R, c, c);
    forall d: State, s: State, id: Text, i: nat, x: real | R(d, s) && x > 0.0
      ensures R(c.credit(d, id, i, x), c.credit(s, id, i, x)) && R(c.debit(d, id, i, x), c.debit(s, id, i, x))
    {
      SameRatesAfter(s, base, id, i, x);
    }
    assert Preserves(R, c.credit, c.credit) && Preserves(R, c.debit, c.debit);
  }

  /** So what a generator advertises is still there after it ran. */
  lemma AdvertisedRatesStay(cfg: Config, s: State, g: Generator, seconds: real)
    ensures SameRates(TrackingRunner(cfg, seconds)(s, g), Tracked(cfg, s, g, seconds).stocks)
  {
    var t, c := Tracked(cfg, s, g, seconds), DirectContext();
    RatesAreKept(t.stocks);
    RunGeneratorRespects((d: State, s: State) => d == s && SameRates(s, t.stocks), cfg, c, c, t, t, g, seconds);
  }

  /** Advertising rates changes nothing but rates: amounts, accumulators and reports are those of a plain run. */
  lemma TrackingIsInvisible(cfg: Config, s: State, gs: seq<Generator>, deltaMs: real)
    ensures SameButRates(TrackingFlow(cfg, s, gs, deltaMs), DirectFlow(cfg, s, gs, deltaMs))
  {
    var R, c, seconds := (d: State, s: State) => SameButRates(d, s), DirectContext(), deltaMs / 1000.0;
    var run, run' := TrackingRunner(cfg, seconds), Runner(cfg, c, seconds);
    RatesDoNotMatter();
    forall d: State, t: State, g: Generator | R(d, t)
      ensures R(run(d, g), run'(t, g))
    {
      TrackedIsSame(cfg, d, t, g, seconds);
      RunGeneratorRespects(R, cfg, c, c, Tracked(cfg, d, g, seconds), t, g, seconds);
    }
    FoldRespects(R, run, run', s, s, gs, |gs|);
  }
}
