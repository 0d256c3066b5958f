/**
 * When a spend of phase 3 can be refused: an input named twice is throttled as if each mention were alone
 * (packages/core/src/production-system.ts).
 */
module ProductionRefusals {
  import opened Wrappers
  import opened ResourceRows
  import opened Texts
  import opened Production

  function Twice(): Generator {
    Generator(Ascii("smelter"), 1.0, true, 1.0, [],
              [DeclaredRate(Ascii("ore"), 10.0), DeclaredRate(Ascii("ore"), 10.0)])
  }

  function TenOre(): State {
    State([Stock(10.0, Infinite, 0.0, 0.0)], map[], map[], map[], map[], map[], [])
  }

  function OreRate(): Rate {
    Rate(Ascii("ore"), 0, 10.0)
  }

  function OrePeek(): Peek {
    Peek(ConsumeKey(Twice(), OreRate()), 0, 10.0, 10.0)
  }

  lemma OreRates(cfg: Config)
    requires cfg.indices == map[Ascii("ore") := 0]
    ensures ValidRates(cfg, Twice().consumes, 2) == [OreRate(), OreRate()]
  {
    var consumes, none: seq<Rate> := Twice().consumes, [];
    assert ValidRates(cfg, consumes, 0) == none;
    assert ValidRates(cfg, consumes, 1) == none + [OreRate()];
    assert ValidRates(cfg, consumes, 2) == none + [OreRate()] + [OreRate()];
  }

  lemma OrePrepared(align: real -> real, c: Context, s: State, earn: real -> real)
    requires align(10.0) == earn(10.0) == c.amount(s, 0) == 10.0 && s.accumulators == map[] && s.legacy == map[]
    ensures Prepare(align, c, s, Twice(), [OreRate(), OreRate()], earn, 2)
            == Prepared(s, [OrePeek(), OrePeek()], 1.0, true)
  {
    var rates, none: seq<Peek>, key := [OreRate(), OreRate()], [], ConsumeKey(Twice(), OreRate());
    var p0, p1 := Prepared(s, none, 1.0, false), Prepared(s, none + [OrePeek()], 1.0, true);
    assert Prepare(align, c, s, Twice(), rates, earn, 0) == p0;
    assert PrepareOne(align, c, p0, key, 0, 10.0) == p1;
    assert Prepare(align, c, s, Twice(), rates, earn, 1) == p1;
    assert PrepareOne(align, c, p1, key, 0, 10.0) == Prepared(s, none + [OrePeek()] + [OrePeek()], 1.0, true);
  }

  lemma OreRefused(share: real -> real)
    requires share(10.0) == 10.0
    ensures !NothingRefused(Fold(Consumer(DirectContext(), share), TenOre(), [OrePeek(), OrePeek()], 2).events)
  {
    var c, peeks := DirectContext(), [OrePeek(), OrePeek()];
    var s1 := ConsumeOne(c, TenOre(), OrePeek(), share);
    assert Fold(Consumer(c, share), TenOre(), peeks, 1) == s1 && s1.stocks[0].amount == 0.0;
    var s2 := ConsumeOne(c, s1, OrePeek(), share);
    assert s2.events[|s1.events|].Refused?;
  }

  /** Naming one input twice throttles each mention as if it were alone, so the second one is refused. */
  lemma RepeatedInputIsRefused(cfg: Config)
    requires cfg.indices == map[Ascii("ore") := 0] && ToApply(cfg, 10.0) == 10.0
    ensures NothingRefused(TenOre().events) && AllBounded(TenOre())
    ensures !NothingRefused(RunGenerator(cfg, DirectContext(), TenOre(), Twice(), 1.0).events)
  {
    OreRates(cfg);
    assert EarnedIn(Twice(), 1.0)(10.0) == 10.0 && ShareOf(1.0)(10.0) == 10.0;
    OrePrepared(Aligned(cfg), DirectContext(), TenOre(), EarnedIn(Twice(), 1.0));
    OreRefused(ShareOf(1.0));
    assert ValidRates(cfg, Twice().produces, 0) == [];
    TenOreIsBounded();
  }

  lemma TenOreIsBounded()
    ensures AllBounded(TenOre())
  {
    assert BoundedStock(TenOre().stocks[0]);
  }

  // ----- any two mentions of one resource can ask for too much

  predicate IsOf(cfg: Config, key: Key, i: nat) {
    key.resourceId in cfg.indices && cfg.indices[key.resourceId] == i
  }

  /** Inputs on resource `i` are about to ask for `ask`; every other input owes `debt`. */
  function Asking(cfg: Config, g: Generator, rates: seq<Rate>, i: nat, ask: real, debt: real): map<Key, real> {
    map k | 0 <= k < |rates| :: ConsumeKey(g, rates[k]) := if IsOf(cfg, ConsumeKey(g, rates[k]), i) then ask else -debt
  }

  /** A full stock of resource `i`, and nothing else. */
  function Scarce(cfg: Config, g: Generator, rates: seq<Rate>, i: nat, size: nat, stock: real, ask: real,
                  debt: real): State
  {
    State(seq(size, j => if j == i then Stock(stock, Finite(stock), 0.0, 0.0) else Stock(0.0, Infinite, 0.0, 0.0)),
          map[], map[], map[], Asking(cfg, g, rates, i, ask, debt), map[], [])
  }

  /** The stock covers one such input, but not two; `debt` covers what a tick earns. */
  ghost predicate CoversOne(cfg: Config, rates: seq<Rate>, earn: real -> real, stock: real, ask: real, debt: real) {
    && ask + debt + cfg.threshold <= stock < (ask - debt - cfg.threshold) + (ask - debt - cfg.threshold)
    && debt >= 0.0 && forall k | 0 <= k < |rates| :: -debt <= earn(rates[k].rate) <= debt
  }

  lemma {:induction false} EarningsAreBounded(rates: seq<Rate>, earn: real -> real, n: nat) returns (debt: real)
    requires n <= |rates|
    ensures debt >= 0.0 && forall k | 0 <= k < n :: -debt <= earn(rates[k].rate) <= debt
  {
    debt := 0.0;
    if n > 0 {
      var before := EarningsAreBounded(rates, earn, n - 1);
      var last := earn(rates[n - 1].rate);
      debt := MaxOf(before, MaxOf(last, -last));
    }
  }

  lemma {:induction false} IndicesAreBounded(indices: map<Text, nat>, ids: set<Text>) returns (size: nat)
    requires ids <= indices.Keys
    ensures forall id | id in ids :: indices[id] < size
    decreases ids
  {
    size := 0;
    if ids != {} {
      var id :| id in ids;
      var rest := IndicesAreBounded(indices, ids - {id});
      size := if indices[id] < rest then rest else indices[id] + 1;
    }
  }

  lemma AtLeastOnce(x: real, y: real)
    requires 0.0 < y <= x
    ensures x / y >= 1.0
  {
    DividedTimes(x, y);
  }

  /** An input that throttles nothing, and asks for at least `x` if it draws on resource `i`. */
  ghost predicate AsksInFull(align: real -> real, s: State, g: Generator, r: Rate, earn: real -> real, i: nat,
                             x: real)
  {
    var peek := PeekAt(align, s, ConsumeKey(g, r), r.index, earn(r.rate));
    Throttled(1.0, DirectAmount(s, r.index), peek) == 1.0 && (r.index == i ==> peek.toApply >= x)
  }

  lemma InputsAskInFull(cfg: Config, g: Generator, rates: seq<Rate>, earn: real -> real, i: nat, size: nat,
                        stock: real, ask: real, debt: real, k: nat)
    requires RatesOk(cfg, rates) && k < |rates| && i < size && CoversOne(cfg, rates, earn, stock, ask, debt)
    ensures AsksInFull(Aligned(cfg), Scarce(cfg, g, rates, i, size, stock, ask, debt), g, rates[k], earn, i,
                       ask - debt - cfg.threshold)
  {
    var s, key := Scarce(cfg, g, rates, i, size, stock, ask, debt), ConsumeKey(g, rates[k]);
    assert RateOk(cfg, rates[k]);
    assert key in s.accumulators && s.accumulators[key] == if rates[k].index == i then ask else -debt;
    var peek := PeekAt(Aligned(cfg), s, key, rates[k].index, earn(rates[k].rate));
    ToApplyIsAligned(cfg, peek.total);
    if rates[k].index == i {
      AtLeastOnce(stock, peek.total);
      AtLeastOnce(stock, peek.toApply);
    }
  }

  /** The first `n` inputs throttle nothing, and those on resource `i` are about to apply at least `x`. */
  ghost predicate InFull(s: State, rates: seq<Rate>, i: nat, x: real, p: Prepared, n: nat)
    requires n <= |rates|
  {
    && p.state == s && p.ratio == 1.0 && |p.peeks| == n
    && forall k | 0 <= k < n :: p.peeks[k].index == rates[k].index && (rates[k].index == i ==> p.peeks[k].toApply >= x)
  }

  lemma PreparesInFull(align: real -> real, s: State, g: Generator, rates: seq<Rate>, earn: real -> real, i: nat,
                       x: real, p: Prepared, n: nat)
    requires n < |rates| && AsksInFull(align, s, g, rates[n], earn, i, x)
    requires s.legacy == map[] && InFull(s, rates, i, x, p, n)
    ensures var r := rates[n];
            InFull(s, rates, i, x,
                   PrepareOne(align, DirectContext(), p, ConsumeKey(g, r), r.index, earn(r.rate)), n + 1)
  {
    assert Claimed(s, ConsumeKey(g, rates[n])) == s;
  }

  /** Then phase 1 throttles nothing at all. */
  lemma {:induction false} PreparedInFull(align: real -> real, s: State, g: Generator, rates: seq<Rate>,
                                          earn: real -> real, i: nat, x: real, n: nat)
    requires n <= |rates| && s.legacy == map[]
    requires forall k | 0 <= k < |rates| :: AsksInFull(align, s, g, rates[k], earn, i, x)
    ensures InFull(s, rates, i, x, Prepare(align, DirectContext(), s, g, rates, earn, n), n)
  {
    if n > 0 {
      var m := n - 1;
      PreparedInFull(align, s, g, rates, earn, i, x, m);
      var before := Prepare(align, DirectContext(), s, g, rates, earn, m);
      PrepareNext(align, DirectContext(), s, g, rates, earn, m, before);
      PreparesInFull(align, s, g, rates, earn, i, x, before, m);
    }
  }

  /** A spend that is not refused takes all it asks for. */
  lemma ConsumeTakes(s: State, p: Peek, share: real -> real, i: nat)
    requires i < |s.stocks|
    ensures var t := Consumer(DirectContext(), share)(s, p);
            && |t.stocks| == |s.stocks| && (NothingRefused(t.events) ==> NothingRefused(s.events))
            && (NothingRefused(t.events) && p.index == i && share(p.toApply) > 0.0 ==>
                  t.stocks[i].amount == s.stocks[i].amount - share(p.toApply) >= 0.0)
            && (p.index != i || share(p.toApply) <= 0.0 ==> t.stocks[i] == s.stocks[i])
  {
    var t := Consumer(DirectContext(), share)(s, p);
    assert |s.events| <= |t.events| && t.events[..|s.events|] == s.events;
    if NothingRefused(t.events) {
      forall k | 0 <= k < |s.events|
        ensures !s.events[k].Refused?
      {
        assert t.events[..|s.events|][k] == t.events[k];
      }
    }
    if share(p.toApply) > 0.0 && p.index == i && s.stocks[i].amount < share(p.toApply) {
      assert t.events[|s.events|] == Refused(p.key.resourceId);
    }
  }

  /** Unless something was refused, at least `x` of resource `i` is gone, and no more than there was. */
  ghost predicate Took(s: State, t: State, i: nat, x: real)
    requires i < |s.stocks|
  {
    && |t.stocks| == |s.stocks|
    && (NothingRefused(t.events) ==> 0.0 <= t.stocks[i].amount <= s.stocks[i].amount - x)
  }

  lemma TakesMore(s: State, t: State, p: Peek, share: real -> real, i: nat, taken: real, x: real)
    requires i < |s.stocks| && Took(s, t, i, taken)
    requires x == 0.0 || (p.index == i && share(p.toApply) >= x > 0.0)
    ensures Took(s, Consumer(DirectContext(), share)(t, p), i, taken + x)
  {
    ConsumeTakes(t, p, share, i);
  }

  /** Phase 3 takes two shares of one resource, unless it is refused one. */
  lemma {:induction false} TwoSharesTaken(s: State, peeks: seq<Peek>, share: real -> real, x: real, j: nat, k: nat,
                                          n: nat)
    requires j < k < |peeks| && n <= |peeks| && peeks[j].index == peeks[k].index < |s.stocks| && x > 0.0
    requires s.stocks[peeks[j].index].amount >= 0.0 && share(peeks[j].toApply) >= x && share(peeks[k].toApply) >= x
    ensures Took(s, Fold(Consumer(DirectContext(), share), s, peeks, n), peeks[j].index,
                 (if j < n then x else 0.0) + (if k < n then x else 0.0))
  {
    if n > 0 {
      var m := n - 1;
      TwoSharesTaken(s, peeks, share, x, j, k, m);
      TakesMore(s, Fold(Consumer(DirectContext(), share), s, peeks, m), peeks[m], share, peeks[j].index,
                (if j < m then x else 0.0) + (if k < m then x else 0.0), if m == j || m == k then x else 0.0);
    }
  }

  /** When two inputs each want more than half of a full stock, the second one is refused. */
  lemma SecondShareIsRefused(align: real -> real, p: Prepared, g: Generator, produces: seq<Rate>, earn: real -> real,
                             i: nat, stock: real, x: real, j: nat, k: nat)
    requires p.ratio == 1.0 && j < k < |p.peeks| && p.peeks[j].index == p.peeks[k].index == i < |p.state.stocks|
    requires p.state.stocks[i].amount == stock && p.state.stocks[i].capacity == Finite(stock) && 0.0 <= stock < x + x
    requires p.peeks[j].toApply >= x && p.peeks[k].toApply >= x
    ensures !NothingRefused(Settle(align, DirectContext(), p, g, produces, earn).events)
  {
    var scale := ShareOf(if p.willApply then 1.0 else 0.0);
    var after := Fold(Producer(align, DirectContext(), g, earn, scale), p.state, produces, |produces|);
    ProductionGrows(align, p.state, g, produces, earn, scale);
    assert BoundedStock(p.state.stocks[i]) && after.stocks[i].amount == stock;
    TwoSharesTaken(after, p.peeks, ShareOf(1.0), x, j, k, |p.peeks|);
  }

  /** So two mentions of resource `i` that ask in full are one too many. */
  lemma PhasesAreRefused(align: real -> real, s: State, g: Generator, produces: seq<Rate>, consumes: seq<Rate>,
                         earn: real -> real, i: nat, stock: real, x: real, j: nat, k: nat)
    requires forall n | 0 <= n < |consumes| :: AsksInFull(align, s, g, consumes[n], earn, i, x)
    requires j < k < |consumes| && consumes[j].index == consumes[k].index == i < |s.stocks| && s.legacy == map[]
    requires s.stocks[i].amount == stock && s.stocks[i].capacity == Finite(stock) && 0.0 <= stock < x + x
    ensures !NothingRefused(RunPhases(align, DirectContext(), s, g, produces, consumes, earn).events)
  {
    PreparedInFull(align, s, g, consumes, earn, i, x, |consumes|);
    SecondShareIsRefused(align, Prepare(align, DirectContext(), s, g, consumes, earn, |consumes|), g, produces, earn, i,
                         stock, x, j, k);
  }

  lemma ScarceIsInOrder(cfg: Config, g: Generator, rates: seq<Rate>, i: nat, size: nat, stock: real, ask: real,
                        debt: real)
    requires stock >= 0.0 && i < size && forall id | id in cfg.indices :: cfg.indices[id] < size
    ensures var s := Scarce(cfg, g, rates, i, size, stock, ask, debt);
            Indexed(cfg, s) && AllBounded(s) && NothingRefused(s.events)
  {
  }

  lemma RefusableState(cfg: Config, g: Generator, produces: seq<Rate>, consumes: seq<Rate>, earn: real -> real,
                       i: nat, size: nat, debt: real, j: nat, k: nat) returns (s: State)
    requires RatesOk(cfg, consumes) && j < k < |consumes| && consumes[j].index == consumes[k].index == i < size
    requires debt >= 0.0 && forall n | 0 <= n < |consumes| :: -debt <= earn(consumes[n].rate) <= debt
    requires forall id | id in cfg.indices :: cfg.indices[id] < size
    ensures Indexed(cfg, s) && AllBounded(s) && NothingRefused(s.events)
    ensures !NothingRefused(RunPhases(Aligned(cfg), DirectContext(), s, g, produces, consumes, earn).events)
  {
    var ask := 3.0 * debt + 3.0 * cfg.threshold + 1.0;
    var stock := ask + debt + cfg.threshold;
    s := Scarce(cfg, g, consumes, i, size, stock, ask, debt);
    forall n | 0 <= n < |consumes|
      ensures AsksInFull(Aligned(cfg), s, g, consumes[n], earn, i, ask - debt - cfg.threshold)
    {
      InputsAskInFull(cfg, g, consumes, earn, i, size, stock, ask, debt, n);
    }
    ScarceIsInOrder(cfg, g, consumes, i, size, stock, ask, debt);
    PhasesAreRefused(Aligned(cfg), s, g, produces, consumes, earn, i, stock, ask - debt - cfg.threshold, j, k);
  }

  /** Whatever the generator and the length of the tick, an input named twice is refused in some state. */
  lemma RepeatedInputsAreRefusable(cfg: Config, g: Generator, seconds: real) returns (s: State)
    requires g.owned > 0.0 && g.enabled && !DistinctInputs(ValidRates(cfg, g.consumes, |g.consumes|))
    ensures Indexed(cfg, s) && AllBounded(s) && NothingRefused(s.events)
    ensures !NothingRefused(RunGenerator(cfg, DirectContext(), s, g, seconds).events)
  {
    var produces, consumes := ValidRates(cfg, g.produces, |g.produces|), ValidRates(cfg, g.consumes, |g.consumes|);
    var earn := EarnedIn(g, seconds);
    var j, k :| 0 <= j < k < |consumes| && consumes[j].index == consumes[k].index;
    assert RateOk(cfg, consumes[j]);
    var i := consumes[j].index;
    var size := IndicesAreBounded(cfg.indices, cfg.indices.Keys);
    var debt := EarningsAreBounded(consumes, earn, |consumes|);
    s := RefusableState(cfg, g, produces, consumes, earn, i, size, debt, j, k);
  }

  /** So the spends of a generator never fail, whatever the state, exactly when its inputs are distinct resources. */
  lemma NeverRefusedIffDistinct(cfg: Config, g: Generator, seconds: real)
    requires g.owned > 0.0 && g.enabled
    ensures DistinctInputs(ValidRates(cfg, g.consumes, |g.consumes|)) <==>
              forall s: State | Indexed(cfg, s) && AllBounded(s) && NothingRefused(s.events) ::
                NothingRefused(RunGenerator(cfg, DirectContext(), s, g, seconds).events)
  {
    if DistinctInputs(ValidRates(cfg, g.consumes, |g.consumes|)) {
      forall s: State | Indexed(cfg, s) && AllBounded(s) && NothingRefused(s.events)
        ensures NothingRefused(RunGenerator(cfg, DirectContext(), s, g, seconds).events)
      {
        DistinctInputsAreNeverRefused(cfg, s, g, seconds);
      }
    } else {
      var s := RepeatedInputsAreRefusable(cfg, g, seconds);
    }
  }
}
