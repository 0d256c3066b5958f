/**
 * The production system itself (packages/core/src/production-system.ts): accumulator maps, shadow maps
 * and phase loops that change in place, against the functions of `Production`.
 */
module ProductionSystems {
  import opened Wrappers
  import opened ResourceRows
  import T = ResourceTracking
  import opened Texts
  import P = Production
  import opened Production
  import opened RateTracking
  import opened ProductionTurns
  import K = AccumulatorKeys
  import opened UriComponents

  /** Writing the shadow, or the resources. */
  function ContextFor(shadowed: bool): P.Context {
    if shadowed then ShadowContext() else DirectContext()
  }

  /** Rates recorded for resources that exist. */
  ghost predicate InRange(s: State) {
    forall i | i in s.income || i in s.expense :: i < |s.stocks|
  }

  class ProductionSystem {
    const cfg: Config
    const useFinalizeTickRates: bool
    const trackRates: bool
    /** Rates are advertised while the resources are mutated directly, which takes resources without `finalizeTick`. */
    const tracksDirectly: bool
    const stocks: array<Stock>
    var amounts: map<nat, real>
    var income: map<nat, real>
    var expense: map<nat, real>
    var accumulators: map<P.Key, real>
    var legacyAccumulators: map<Text, real>
    var events: seq<Event>

    ghost predicate Valid()
      reads this
    {
      forall id | id in cfg.indices :: cfg.indices[id] < stocks.Length
    }

    /** Everything a tick reads and writes. */
    ghost function State(): State
      reads this, stocks
    {
      P.State(stocks[..], amounts, income, expense, accumulators, legacyAccumulators, events)
    }

    constructor (cfg: Config, initial: seq<Stock>, useFinalizeTickRates: bool, trackRates: bool, hasFinalizeTick: bool)
      requires forall id | id in cfg.indices :: cfg.indices[id] < |initial|
      requires useFinalizeTickRates ==> hasFinalizeTick
      ensures Valid() && fresh(stocks) && State() == P.State(initial, map[], map[], map[], map[], map[], [])
      ensures this.cfg == cfg && this.useFinalizeTickRates == useFinalizeTickRates
      ensures this.trackRates == (trackRates || useFinalizeTickRates)
              && tracksDirectly == (trackRates && !hasFinalizeTick)
    {
      this.cfg, this.useFinalizeTickRates := cfg, useFinalizeTickRates;
      this.trackRates, tracksDirectly := trackRates || useFinalizeTickRates, trackRates && !hasFinalizeTick;
      amounts, income, expense := map[], map[], map[];
      accumulators, legacyAccumulators, events := map[], map[], [];
      var copy := new Stock[|initial|](i requires 0 <= i < |initial| => initial[i]);
      stocks := copy;
      new;
      assert stocks[..] == initial;
    }

    /** Keeps the positive rates whose resource exists. */
    method ValidateRates(rates: seq<DeclaredRate>) returns (validated: seq<P.Rate>)
      ensures validated == ValidRates(cfg, rates, |rates|)
    {
      validated := [];
      for i := 0 to |rates|
        invariant validated == ValidRates(cfg, rates, i)
      {
        var d := rates[i];
        if d.rate > 0.0 && d.resourceId in cfg.indices {
          validated := validated + [P.Rate(d.resourceId, cfg.indices[d.resourceId], d.rate)];
        }
      }
    }

    method GetAmount(shadowed: bool, index: nat) returns (amount: real)
      requires index < stocks.Length
      ensures amount == ContextFor(shadowed).amount(State(), index)
    {
      amount := stocks[index].amount;
      if shadowed && index in amounts {
        amount := amounts[index];
      }
    }

    method AddToResource(resourceId: Text, index: nat, x: real)
      requires index < stocks.Length
      modifies this, stocks
      ensures State() == CreditDirectly(old(State()), resourceId, index, x)
    {
      var stock := stocks[index];
      var next := stock.capacity.Clamp(stock.amount + x);
      stocks[index] := stock.(amount := next);
      if next - stock.amount > 0.0 {
        events := events + [Produced(resourceId, next - stock.amount)];
      }
    }

    method AddToShadow(resourceId: Text, index: nat, x: real)
      requires index < stocks.Length
      modifies this
      ensures State() == CreditShadow(old(State()), resourceId, index, x)
    {
      var current := At(amounts, index, stocks[index].amount);
      var next := ClampAmount(current + x, ShadowCapacity(stocks[index].capacity));
      amounts := amounts[index := next];
      var applied := next - current;
      if applied > 0.0 {
        income := income[index := At(income, index, 0.0) + applied];
        events := events + [Produced(resourceId, applied)];
      }
    }

    method AddProduction(shadowed: bool, resourceId: Text, index: nat, x: real)
      requires index < stocks.Length
      modifies this, stocks
      ensures State() == ContextFor(shadowed).credit(old(State()), resourceId, index, x)
    {
      if shadowed {
        AddToShadow(resourceId, index, x);
      } else {
        AddToResource(resourceId, index, x);
      }
    }

    method SpendResource(resourceId: Text, index: nat, x: real)
      requires index < stocks.Length
      modifies this, stocks
      ensures State() == DebitDirectly(old(State()), resourceId, index, x)
    {
      var stock := stocks[index];
      if stock.amount < x {
        events := events + [Refused(resourceId)];
      } else {
        stocks[index] := stock.(amount := stock.amount - x);
        events := events + [Consumed(resourceId, x)];
      }
    }

    method SpendShadow(resourceId: Text, index: nat, x: real)
      requires index < stocks.Length
      modifies this
      ensures State() == DebitShadow(old(State()), resourceId, index, x)
    {
      var current := At(amounts, index, stocks[index].amount);
      if current < x {
        events := events + [Refused(resourceId)];
      } else {
        amounts := amounts[index := current - x];
        if x > 0.0 {
          expense := expense[index := At(expense, index, 0.0) + x];
        }
        events := events + [Consumed(resourceId, x)];
      }
    }

    method SpendConsumption(shadowed: bool, resourceId: Text, index: nat, x: real)
      requires index < stocks.Length
      modifies this, stocks
      ensures State() == ContextFor(shadowed).debit(old(State()), resourceId, index, x)
    {
      if shadowed {
        SpendShadow(resourceId, index, x);
      } else {
        SpendResource(resourceId, index, x);
      }
    }

    /** Looks at what a delta brings an accumulator to; only a legacy value moves. */
    method Accumulate(key: P.Key, index: nat, delta: real) returns (p: Peek)
      modifies this
      ensures State() == Claimed(old(State()), key)
      ensures p == PeekAt(Aligned(cfg), State(), key, index, delta)
    {
      var legacyKey := LegacyKey(key);
      if legacyKey in legacyAccumulators {
        accumulators := accumulators[key := legacyAccumulators[legacyKey]];
        legacyAccumulators := legacyAccumulators - {legacyKey};
      }
      var total := At(accumulators, key, 0.0) + delta;
      p := Peek(key, index, total, ToApply(cfg, total));
    }

    method Commit(key: P.Key, rest: real)
      modifies this
      ensures State() == Committed(old(State()), key, rest)
    {
      accumulators := accumulators[key := rest];
    }

    /** One consumption of phase 1: what it may apply, and what it leaves of the ratio. */
    method PrepareStep(shadowed: bool, key: P.Key, index: nat, earned: real, before: seq<Peek>, ratio: real,
                       applies: bool)
      returns (peeks: seq<Peek>, left: real, willApply: bool)
      requires index < stocks.Length
      modifies this
      ensures Prepared(State(), peeks, left, willApply)
           == PrepareOne(Aligned(cfg), ContextFor(shadowed), Prepared(old(State()), before, ratio, applies), key, index,
                         earned)
    {
      var peek := Accumulate(key, index, earned);
      var available := GetAmount(shadowed, index);
      peeks, left, willApply := before + [peek], Throttled(ratio, available, peek), applies || peek.toApply > 0.0;
    }

    method PrepareRate(shadowed: bool, g: Generator, rates: seq<P.Rate>, earn: real -> real, i: nat, ghost s0: P.State,
                       before: seq<Peek>, ratio: real, applies: bool)
      returns (peeks: seq<Peek>, left: real, willApply: bool)
      requires Valid() && RatesOk(cfg, rates) && i < |rates|
      requires Prepare(Aligned(cfg), ContextFor(shadowed), s0, g, rates, earn, i)
            == Prepared(State(), before, ratio, applies)
      modifies this
      ensures Prepare(Aligned(cfg), ContextFor(shadowed), s0, g, rates, earn, i + 1)
           == Prepared(State(), peeks, left, willApply)
    {
      var r := rates[i];
      assert RateOk(cfg, r);
      PrepareNext(Aligned(cfg), ContextFor(shadowed), s0, g, rates, earn, i, Prepared(State(), before, ratio, applies));
      peeks, left, willApply := PrepareStep(shadowed, ConsumeKey(g, r), r.index, earn(r.rate), before, ratio, applies);
    }

    method PrepareConsumptionPhase(shadowed: bool, g: Generator, rates: seq<P.Rate>, earn: real -> real)
      returns (peeks: seq<Peek>, ratio: real, willApply: bool)
      requires Valid() && RatesOk(cfg, rates)
      modifies this
      ensures Prepare(Aligned(cfg), ContextFor(shadowed), old(State()), g, rates, earn, |rates|)
           == Prepared(State(), peeks, ratio, willApply)
    {
      ghost var s0 := State();
      peeks, ratio, willApply := [], 1.0, |rates| == 0;
      for i := 0 to |rates|
        invariant Prepare(Aligned(cfg), ContextFor(shadowed), s0, g, rates, earn, i)
               == Prepared(State(), peeks, ratio, willApply)
      {
        peeks, ratio, willApply := PrepareRate(shadowed, g, rates, earn, i, s0, peeks, ratio, willApply);
      }
    }

    /** Commits one production and credits its share. */
    method Produce(shadowed: bool, p: Peek, share: real -> real)
      requires p.index < stocks.Length
      modifies this, stocks
      ensures State() == ProduceOne(ContextFor(shadowed), old(State()), p, share)
    {
      var applied := share(p.toApply);
      Commit(p.key, p.total - applied);
      if applied > 0.0 {
        AddProduction(shadowed, p.key.resourceId, p.index, applied);
      }
    }

    /** Phase 2 accumulates and applies one production after the other. */
    method ProduceStep(shadowed: bool, key: P.Key, index: nat, earned: real, share: real -> real)
      requires index < stocks.Length
      modifies this, stocks
      ensures State() == Earn(Aligned(cfg), ContextFor(shadowed), old(State()), key, index, earned, share)
    {
      var p := Accumulate(key, index, earned);
      Produce(shadowed, p, share);
    }

    method ExecuteProductionPhase(shadowed: bool, g: Generator, rates: seq<P.Rate>, earn: real -> real,
                                  share: real -> real)
      requires Valid() && RatesOk(cfg, rates)
      modifies this, stocks
      ensures State() == Fold(Producer(Aligned(cfg), ContextFor(shadowed), g, earn, share), old(State()),
                              rates, |rates|)
    {
      ghost var s0, step := State(), Producer(Aligned(cfg), ContextFor(shadowed), g, earn, share);
      for i := 0 to |rates|
        invariant State() == Fold(step, s0, rates, i)
      {
        var r := rates[i];
        assert RateOk(cfg, r);
        ghost var before := State();
        ProduceStep(shadowed, ProduceKey(g, r), r.index, earn(r.rate), share);
        assert State() == step(before, r);
      }
    }

    method ConsumeStep(shadowed: bool, p: Peek, share: real -> real)
      requires p.index < stocks.Length
      modifies this, stocks
      ensures State() == ConsumeOne(ContextFor(shadowed), old(State()), p, share)
    {
      var applied := share(p.toApply);
      Commit(p.key, p.total - applied);
      if applied > 0.0 {
        SpendConsumption(shadowed, p.key.resourceId, p.index, applied);
      }
    }

    method ExecuteConsumptionPhase(shadowed: bool, peeks: seq<Peek>, share: real -> real)
      requires forall k | 0 <= k < |peeks| :: peeks[k].index < stocks.Length
      modifies this, stocks
      ensures State() == Fold(Consumer(ContextFor(shadowed), share), old(State()), peeks, |peeks|)
    {
      ghost var s0, step := State(), Consumer(ContextFor(shadowed), share);
      for i := 0 to |peeks|
        invariant State() == Fold(step, s0, peeks, i)
      {
        ghost var before := State();
        ConsumeStep(shadowed, peeks[i], share);
        assert State() == step(before, peeks[i]);
      }
    }

    /** The three phases of one generator. */
    method ExecuteProductionPhases(shadowed: bool, g: Generator, produces: seq<P.Rate>, consumes: seq<P.Rate>,
                                   earn: real -> real)
      requires Valid() && RatesOk(cfg, produces) && RatesOk(cfg, consumes)
      modifies this, stocks
      ensures State() == RunPhases(Aligned(cfg), ContextFor(shadowed), old(State()), g, produces, consumes, earn)
    {
      ghost var s0, c := State(), ContextFor(shadowed);
      var peeks, raw, willApply := PrepareConsumptionPhase(shadowed, g, consumes, earn);
      ghost var p := Prepared(State(), peeks, raw, willApply);
      PeeksFollowRates(Aligned(cfg), c, s0, g, consumes, earn, |consumes|);
      forall k | 0 <= k < |peeks|
        ensures peeks[k].index < stocks.Length
      {
        assert RateOk(cfg, consumes[k]);
      }
      var ratio := ClampRatio(raw);
      ExecuteProductionPhase(shadowed, g, produces, earn, ShareOf(if willApply then ratio else 0.0));
      ExecuteConsumptionPhase(shadowed, peeks, ShareOf(ratio));
      assert State() == Settle(Aligned(cfg), c, p, g, produces, earn);
    }

    method ExecuteGenerator(shadowed: bool, g: Generator, seconds: real)
      requires Valid()
      modifies this, stocks
      ensures State() == RunGenerator(cfg, ContextFor(shadowed), old(State()), g, seconds)
    {
      if g.owned <= 0.0 || !g.enabled {
        return;
      }
      var produces := ValidateRates(g.produces);
      var consumes := ValidateRates(g.consumes);
      ExecuteProductionPhases(shadowed, g, produces, consumes, EarnedIn(g, seconds));
    }

    method ExecuteGenerators(shadowed: bool, gs: seq<Generator>, seconds: real)
      requires Valid()
      modifies this, stocks
      ensures State() == RunGenerators(cfg, ContextFor(shadowed), old(State()), gs, seconds)
    {
      ghost var s0, run := State(), Runner(cfg, ContextFor(shadowed), seconds);
      for i := 0 to |gs|
        invariant State() == Fold(run, s0, gs, i)
      {
        ghost var before := State();
        ExecuteGenerator(shadowed, gs[i], seconds);
        assert State() == run(before, gs[i]);
      }
    }

    /** How much of all consumptions the current amounts allow; nothing once one of them has nothing left. */
    method ComputeRateConsumptionRatio(consumes: seq<P.Rate>, earn: real -> real) returns (ratio: real)
      requires Valid() && RatesOk(cfg, consumes)
      ensures ratio == RateRatio(AmountsOf(State()), consumes, earn)
    {
      ghost var amounts := AmountsOf(State());
      ratio := 1.0;
      for i := 0 to |consumes|
        invariant ratio == AffordableRatio(amounts, consumes, earn, i)
      {
        assert RateOk(cfg, consumes[i]);
        var required, available := earn(consumes[i].rate), stocks[consumes[i].index].amount;
        if required > 0.0 {
          if available <= 0.0 {
            RatioStaysZero(amounts, consumes, earn, i + 1, |consumes|);
            return 0.0;
          }
          ratio := MinOf(ratio, available / required);
        }
      }
      ratio := ClampRatio(ratio);
    }

    method ApplyRateTrackingAdjustments(rates: seq<P.Rate>, amount: real -> real, field: RateField)
      requires Valid() && RatesOk(cfg, rates)
      modifies stocks
      ensures stocks[..] == Advertised(old(stocks[..]), rates, amount, field, |rates|)
    {
      for i := 0 to |rates|
        invariant stocks[..] == Advertised(old(stocks[..]), rates, amount, field, i)
      {
        assert RateOk(cfg, rates[i]);
        var index, x := rates[i].index, amount(rates[i].rate);
        if x > 0.0 {
          var stock := stocks[index];
          stocks[index] := if field == Income then stock.(income := stock.income + x)
                           else stock.(expense := stock.expense + x);
        }
      }
    }

    /** Advertises the rates of one generator, throttled by what its consumptions can afford. */
    method ApplyDirectRateTracking(g: Generator, seconds: real)
      requires Valid()
      modifies stocks
      ensures State() == Tracked(cfg, old(State()), g, seconds)
    {
      if g.owned <= 0.0 || !g.enabled {
        return;
      }
      var produces := ValidateRates(g.produces);
      var consumes := ValidateRates(g.consumes);
      var ratio := ComputeRateConsumptionRatio(consumes, EarnedIn(g, seconds));
      if ratio <= 0.0 {
        return;
      }
      ApplyRateTrackingAdjustments(produces, Throttle(g, ratio), Income);
      ApplyRateTrackingAdjustments(consumes, Throttle(g, ratio), Expense);
    }

    method RunTrackingFlow(gs: seq<Generator>, seconds: real)
      requires Valid()
      modifies this, stocks
      ensures State() == Fold(TrackingRunner(cfg, seconds), old(State()), gs, |gs|)
    {
      ghost var s0, run := State(), TrackingRunner(cfg, seconds);
      for i := 0 to |gs|
        invariant State() == Fold(run, s0, gs, i)
      {
        ghost var before := State();
        ApplyDirectRateTracking(gs[i], seconds);
        ExecuteGenerator(false, gs[i], seconds);
        assert State() == run(before, gs[i]);
      }
    }

    method RunStandardFlow(gs: seq<Generator>, deltaMs: real)
      requires Valid()
      modifies this, stocks
      ensures State() == StandardFlow(cfg, tracksDirectly, old(State()), gs, deltaMs)
      ensures StandardTurns(cfg, tracksDirectly, old(State()), State(), gs, deltaMs / 1000.0)
    {
      StandardFlowTakesTurns(cfg, tracksDirectly, State(), gs, deltaMs);
      if tracksDirectly {
        RunTrackingFlow(gs, deltaMs / 1000.0);
      } else {
        ExecuteGenerators(false, gs, deltaMs / 1000.0);
      }
    }

    /** Turns what the shadow recorded into rates per second, one resource at a time. */
    method ApplyShadowRates(seconds: real)
      requires seconds > 0.0 && InRange(State())
      modifies stocks
      ensures State() == WithRates(old(State()), seconds)
    {
      ApplyIncome(seconds);
      ApplyExpense(seconds);
      assert stocks[..] == WithRates(old(State()), seconds).stocks;
    }

    method ApplyIncome(seconds: real)
      requires seconds > 0.0 && forall i | i in income :: i < stocks.Length
      modifies stocks
      ensures forall j | 0 <= j < stocks.Length ::
                stocks[j] == old(stocks[j]).(income := RaisedRate(old(stocks[j]).income, At(income, j, 0.0), seconds))
    {
      var keys := income.Keys;
      while keys != {}
        invariant keys <= income.Keys
        invariant forall j | 0 <= j < stocks.Length ::
                    stocks[j] == if j !in income || j in keys then old(stocks[j])
                                 else old(stocks[j]).(income := RaisedRate(old(stocks[j]).income, income[j], seconds))
        decreases |keys|
      {
        var index :| index in keys;
        stocks[index] := stocks[index].(income := RaisedRate(stocks[index].income, income[index], seconds));
        keys := keys - {index};
      }
    }

    method ApplyExpense(seconds: real)
      requires seconds > 0.0 && forall i | i in expense :: i < stocks.Length
      modifies stocks
      ensures forall j | 0 <= j < stocks.Length ::
                stocks[j] == old(stocks[j]).(expense :=
                                             RaisedRate(old(stocks[j]).expense, At(expense, j, 0.0), seconds))
    {
      var keys := expense.Keys;
      while keys != {}
        invariant keys <= expense.Keys
        invariant forall j | 0 <= j < stocks.Length ::
                    stocks[j] == if j !in expense || j in keys then old(stocks[j])
                                 else old(stocks[j]).(expense :=
                                                      RaisedRate(old(stocks[j]).expense, expense[j], seconds))
        decreases |keys|
      {
        var index :| index in keys;
        stocks[index] := stocks[index].(expense := RaisedRate(stocks[index].expense, expense[index], seconds));
        keys := keys - {index};
      }
    }

    /** Runs the generators on a fresh shadow and leaves their net effect as rates. */
    method RunFinalizeTickRatesFlow(gs: seq<Generator>, deltaMs: real)
      requires Valid() && deltaMs > 0.0
      modifies this, stocks
      ensures State() == WithRates(ShadowRun(cfg, old(State()), gs, deltaMs / 1000.0), deltaMs / 1000.0)
      ensures ShadowTurns(cfg, old(State()), State(), gs, deltaMs / 1000.0)
    {
      ghost var s0 := State();
      ShadowRunTakesTurns(cfg, s0, gs, deltaMs / 1000.0);
      amounts, income, expense := map[], map[], map[];
      ExecuteGenerators(true, gs, deltaMs / 1000.0);
      ShadowStaysInRange(cfg, FreshShadow(s0), gs, deltaMs / 1000.0);
      ApplyShadowRates(deltaMs / 1000.0);
    }

    /** The resources' own `finalizeTick`: rates move the amounts. */
    method FinalizeTick(deltaMs: real)
      modifies stocks
      ensures State() == P.Finalized(old(State()), deltaMs)
    {
      for i := 0 to stocks.Length
        invariant forall j | 0 <= j < i :: stocks[j] == FinalizedStock(old(stocks[j]), deltaMs)
        invariant forall j | i <= j < stocks.Length :: stocks[j] == old(stocks[j])
      {
        var stock := stocks[i];
        stocks[i] := stock.(amount := Rolled(stock.amount, stock.income, stock.expense, stock.capacity, deltaMs));
      }
      assert stocks[..] == P.Finalized(old(State()), deltaMs).stocks;
    }

    method ResetPerTickAccumulators()
      modifies stocks
      ensures State() == WithoutRates(old(State()))
    {
      for i := 0 to stocks.Length
        invariant forall j | 0 <= j < i :: stocks[j] == old(stocks[j]).(income := 0.0, expense := 0.0)
        invariant forall j | i <= j < stocks.Length :: stocks[j] == old(stocks[j])
      {
        stocks[i] := stocks[i].(income := 0.0, expense := 0.0);
      }
      assert stocks[..] == WithoutRates(old(State())).stocks;
    }

    /** One tick; the host finalizes it. */
    method Tick(gs: seq<Generator>, deltaMs: real)
      requires Valid()
      modifies this, stocks
      ensures State() ==
              if !useFinalizeTickRates then StandardFlow(cfg, tracksDirectly, old(State()), gs, deltaMs)
              else if deltaMs <= 0.0 then old(State())
              else WithRates(ShadowRun(cfg, old(State()), gs, deltaMs / 1000.0), deltaMs / 1000.0)
      ensures TickTurns(cfg, useFinalizeTickRates, tracksDirectly, old(State()), State(), gs, deltaMs)
    {
      if !useFinalizeTickRates {
        RunStandardFlow(gs, deltaMs);
      } else if deltaMs > 0.0 {
        RunFinalizeTickRatesFlow(gs, deltaMs);
      }
    }

    /** A stretch of offline time in one go, finalized here. */
    method ApplyOfflineDelta(gs: seq<Generator>, deltaMs: real)
      requires Valid()
      modifies this, stocks
      ensures State() == OfflineDelta(cfg, useFinalizeTickRates, tracksDirectly, trackRates, old(State()), gs, deltaMs)
      ensures if deltaMs <= 0.0 then State() == old(State())
              else exists ticked ::
                     && TickTurns(cfg, useFinalizeTickRates, tracksDirectly, old(State()), ticked, gs, deltaMs)
                     && State() == AfterTick(useFinalizeTickRates, trackRates, ticked, deltaMs)
    {
      if deltaMs <= 0.0 {
        return;
      }
      Tick(gs, deltaMs);
      ghost var ticked := State();
      if useFinalizeTickRates {
        FinalizeTick(deltaMs);
      }
      if trackRates {
        ResetPerTickAccumulators();
      }
      assert State() == AfterTick(useFinalizeTickRates, trackRates, ticked, deltaMs);
    }

    method ClearAccumulators()
      modifies this
      ensures State() == old(State()).(accumulators := map[], legacy := map[])
    {
      accumulators, legacyAccumulators := map[], map[];
    }

    /**
     * The nonzero accumulators under their printed keys, then the legacy ones under theirs; only a legacy key
     * named like the prototype of the result is no key of it.
     */
    method ExportAccumulators() returns (r: Result<map<Text, real>, UriError>)
      ensures r.Err? <==> exists key :: key in K.NonZero(accumulators) && K.Serialize(key).Err?
      ensures r.Ok? ==> exists saved ::
                K.Exports(K.Printing(), accumulators, saved)
                && r.value == saved + (K.NonZero(legacyAccumulators) - {Ascii("__proto__")})
    {
      var saved: map<Text, real>, keys := map[], accumulators.Keys;
      while keys != {}
        invariant keys <= accumulators.Keys
        invariant forall key | key in K.NonZero(accumulators) && key !in keys ::
                    K.Serialize(key).Ok? && K.Serialize(key).value in saved
                        && saved[K.Serialize(key).value] == accumulators[key]
        invariant forall t | t in saved :: exists key :: key in K.NonZero(accumulators) && K.Serialize(key) == Ok(t)
        decreases |keys|
      {
        var key :| key in keys;
        keys := keys - {key};
        if accumulators[key] != 0.0 {
          var printed := K.Serialize(key);
          if printed.Err? {
            assert key in K.NonZero(accumulators);
            return Err(Malformed);
          }
          forall other | other in K.NonZero(accumulators) && K.Serialize(other) == printed
            ensures other == key
          {
            K.SerializeIsInjective(other, key);
          }
          assert key in K.NonZero(accumulators);
          saved := saved[printed.value := accumulators[key]];
        }
      }
      assert K.Exports(K.Printing(), accumulators, saved);
      r := Ok(saved + (K.NonZero(legacyAccumulators) - {Ascii("__proto__")}));
    }

    /** Forgets everything held and reads a save, entry by entry. */
    method RestoreAccumulators(entries: seq<K.Entry>, generatorIds: set<Text>)
      modifies this
      ensures var held := K.Restored(K.Restorer(cfg, generatorIds), entries, |entries|);
              State() == old(State()).(accumulators := held.values, legacy := held.legacy)
    {
      accumulators, legacyAccumulators := map[], map[];
      for i := 0 to |entries|
        invariant K.Restored(K.Restorer(cfg, generatorIds), entries, i) == K.Held(accumulators, legacyAccumulators)
        invariant State() == old(State()).(accumulators := accumulators, legacy := legacyAccumulators)
      {
        var e := entries[i];
        if e.value.Some? {
          var parsed := K.Parse(e.key);
          if parsed.Some? {
            accumulators := accumulators[parsed.value := e.value.value];
          } else {
            var legacy := K.ParseLegacy(cfg, generatorIds, e.key);
            if legacy.None? {
              legacyAccumulators := legacyAccumulators[e.key := e.value.value];
            } else if legacy.value !in accumulators {
              accumulators := accumulators[legacy.value := e.value.value];
            }
          }
        }
      }
    }
  }

  function WithoutRates(s: State): (r: State)
    ensures |r.stocks| == |s.stocks|
  {
    s.(stocks := seq(|s.stocks|, i requires 0 <= i < |s.stocks| => s.stocks[i].(income := 0.0, expense := 0.0)))
  }

  /** The flow that mutates the resources directly, with or without advertising rates. */
  function StandardFlow(cfg: Config, tracking: bool, s: State, gs: seq<Generator>, deltaMs: real): State {
    if tracking then TrackingFlow(cfg, s, gs, deltaMs) else DirectFlow(cfg, s, gs, deltaMs)
  }

  function OfflineDelta(cfg: Config, finalizing: bool, tracking: bool, trackRates: bool, s: State, gs: seq<Generator>,
                        deltaMs: real): State
  {
    if deltaMs <= 0.0 then s
    else
      var ran := if finalizing then FinalizeFlow(cfg, s, gs, deltaMs) else StandardFlow(cfg, tracking, s, gs, deltaMs);
      if trackRates then WithoutRates(ran) else ran
  }

  // ----- flows as turns

  /** Generators take their turns on the resources; before each turn at most rates change, and only when tracking. */
  ghost predicate StandardTurns(cfg: Config, tracking: bool, s: State, t: State, gs: seq<Generator>, seconds: real) {
    exists before: seq<State>, after: seq<State> :: StandardTurnStates(cfg, tracking, s, t, gs, seconds, before, after)
  }

  ghost predicate StandardTurnStates(cfg: Config, tracking: bool, s: State, t: State, gs: seq<Generator>, seconds: real,
                                     before: seq<State>, after: seq<State>)
  {
    && |before| == |gs| + 1 && |after| == |gs| && before[0] == s && before[|gs|] == t
    && forall k | 0 <= k < |gs| ::
         && SameButRates(after[k], before[k]) && (tracking || after[k] == before[k])
         && Turn(cfg, DirectContext(), after[k], before[k + 1], gs[k], seconds)
  }

  /** Generators take their turns on a fresh shadow, whose records then become rates. */
  ghost predicate ShadowTurns(cfg: Config, s: State, t: State, gs: seq<Generator>, seconds: real)
    requires seconds > 0.0
  {
    exists ran ::
      && TakeTurns(cfg, ShadowContext(), s.(shadow := map[], income := map[], expense := map[]), ran, gs, seconds)
      && t == WithRates(ran, seconds)
  }

  ghost predicate TickTurns(cfg: Config, finalizing: bool, tracking: bool, s: State, t: State, gs: seq<Generator>,
                            deltaMs: real)
  {
    if !finalizing then StandardTurns(cfg, tracking, s, t, gs, deltaMs / 1000.0)
    else if deltaMs <= 0.0 then t == s
    else ShadowTurns(cfg, s, t, gs, deltaMs / 1000.0)
  }

  /** What an offline delta does to the state its tick leaves. */
  function AfterTick(finalizing: bool, trackRates: bool, ticked: State, deltaMs: real): State {
    var moved := if finalizing then P.Finalized(ticked, deltaMs) else ticked;
    if trackRates then WithoutRates(moved) else moved
  }

  lemma ShadowRunTakesTurns(cfg: Config, s: State, gs: seq<Generator>, seconds: real)
    requires seconds > 0.0
    ensures ShadowTurns(cfg, s, WithRates(ShadowRun(cfg, s, gs, seconds), seconds), gs, seconds)
  {
    BothAreSteady();
    RunTakesTurns(cfg, ShadowContext(), FreshShadow(s), gs, seconds);
  }

  /** Whatever the generators, the standard flow is one throttled turn after the other. */
  lemma StandardFlowTakesTurns(cfg: Config, tracking: bool, s: State, gs: seq<Generator>, deltaMs: real)
    ensures StandardTurns(cfg, tracking, s, StandardFlow(cfg, tracking, s, gs, deltaMs), gs, deltaMs / 1000.0)
  {
    var c, seconds := DirectContext(), deltaMs / 1000.0;
    var step := if tracking then TrackingRunner(cfg, seconds) else Runner(cfg, c, seconds);
    var before := FoldStates(step, s, gs, |gs|);
    var after := seq(|gs|, k requires 0 <= k < |gs| =>
      if tracking then Tracked(cfg, before[k], gs[k], seconds) else before[k]);
    BothAreSteady();
    forall k | 0 <= k < |gs|
      ensures SameButRates(after[k], before[k])
      ensures Turn(cfg, c, after[k], before[k + 1], gs[k], seconds)
    {
      if tracking {
        TrackedIsSame(cfg, before[k], before[k], gs[k], seconds);
      }
      GeneratorTakesTurn(cfg, c, after[k], gs[k], seconds);
    }
    assert StandardTurnStates(cfg, tracking, s, StandardFlow(cfg, tracking, s, gs, deltaMs), gs, seconds, before,
                              after);
  }

  /** What production sees of the resources: no rates are held in the shadow of a tick that did not start. */
  function StocksOf(rows: seq<Row>): seq<Stock> {
    seq(|rows|, i requires 0 <= i < |rows| => Stock(rows[i].amount, rows[i].capacity, rows[i].income, rows[i].expense))
  }

  /** After any run of resource operations that ends in a reset, the resources are ready for a production tick. */
  lemma RunsAreReadyForTick(p: ResourceRows.Precision, rows: seq<Row>, states: seq<T.State>, ops: seq<T.Op>, s: State)
    requires PrecisionOk(p) && T.InBounds(rows) && forall i | 0 <= i < |rows| :: ToleranceOk(p, rows[i])
    requires T.IsRun(p, states, ops) && states[0] == T.Initial(rows)
    requires |ops| > 0 && ops[|ops| - 1] == T.Reset && states[|ops| - 1].guard == T.Published
    requires s.stocks == StocksOf(states[|ops|].live)
    ensures ReadyForTick(s)
  {
    var n := |ops|;
    T.MirrorFollowsEveryRun(p, rows, states, ops, n);
    assert T.Stepped(p, states[n - 1], states[n - 1 + 1], ops[n - 1]);
    forall i | 0 <= i < |s.stocks|
      ensures BoundedStock(s.stocks[i]) && s.stocks[i].income == 0.0 && s.stocks[i].expense == 0.0
    {
      assert Bounded(states[n].live[i]);
    }
  }

  /** Every kind of production system comes out of an offline delta with the same amounts and accumulators. */
  lemma OfflineDeltasAgree(cfg: Config, tracking: bool, trackRates: bool, s: State, gs: seq<Generator>, deltaMs: real)
    requires ReadyForTick(s)
    ensures var f := OfflineDelta(cfg, true, false, true, s, gs, deltaMs);
            var d := OfflineDelta(cfg, false, tracking, trackRates, s, gs, deltaMs);
            && f.accumulators == d.accumulators && f.legacy == d.legacy && f.events == d.events
            && |f.stocks| == |d.stocks|
            && (forall i | 0 <= i < |d.stocks| :: f.stocks[i].amount == d.stocks[i].amount)
            && ReadyForTick(f)
  {
    if deltaMs > 0.0 {
      FinalizeFlowRefinesDirectFlow(cfg, s, gs, deltaMs);
      FinalizeFlowKeepsCapacities(cfg, s, gs, deltaMs);
      TrackingIsInvisible(cfg, s, gs, deltaMs);
      var t, d := TrackingFlow(cfg, s, gs, deltaMs), DirectFlow(cfg, s, gs, deltaMs);
      assert forall i | 0 <= i < |d.stocks| :: SameButRate(t.stocks[i], d.stocks[i]);
    }
  }

  lemma FinalizeFlowKeepsCapacities(cfg: Config, s: State, gs: seq<Generator>, deltaMs: real)
    requires ReadyForTick(s) && deltaMs > 0.0
    ensures var d, f := DirectFlow(cfg, s, gs, deltaMs), FinalizeFlow(cfg, s, gs, deltaMs);
            |f.stocks| == |d.stocks| && forall i | 0 <= i < |d.stocks| :: f.stocks[i].capacity == d.stocks[i].capacity
  {
    ShadowRunTracks(cfg, s, gs, deltaMs / 1000.0);
    var d, ran := DirectFlow(cfg, s, gs, deltaMs), ShadowRun(cfg, s, gs, deltaMs / 1000.0);
    forall i | 0 <= i < |d.stocks|
      ensures FinalizeFlow(cfg, s, gs, deltaMs).stocks[i].capacity == d.stocks[i].capacity
    {
      assert TracksAt(d, ran, i);
    }
  }

  lemma ShadowKeepsRange(s: State, id: Text, i: nat, x: real, m: map<P.Key, real>, l: map<Text, real>)
    requires InRange(s)
    ensures InRange(ShadowContext().credit(s, id, i, x)) && InRange(ShadowContext().debit(s, id, i, x))
    ensures InRange(Booked(s, m, l))
  {
    if i < |s.stocks| {
      assert InRange(CreditShadow(s, id, i, x)) && InRange(DebitShadow(s, id, i, x));
    }
  }

  lemma ShadowRangeIsKept()
    ensures Simulates((d: State, s: State) => d == s && InRange(s), ShadowContext(), ShadowContext())
  {
    var R, c := (d: State, s: State) => d == s && InRange(s), ShadowContext();
    forall d: State, s: State, m: map<P.Key, real>, l: map<Text, real> | R(d, s)
      ensures R(Booked(d, m, l), Booked(s, m, l))
    {
      ShadowKeepsRange(s, [], 0, 0.0, m, l);
    }
    assert SharesAccumulators(R);
    forall d: State, s: State, id: Text, i: nat, x: real | R(d, s) && x > 0.0
      ensures R(c.credit(d, id, i, x), c.credit(s, id, i, x)) && R(c.debit(d, id, i, x), c.debit(s, id, i, x))
    {
      ShadowKeepsRange(s, id, i, x, map[], map[]);
    }
    assert Preserves(R, c.credit, c.credit) && Preserves(R, c.debit, c.debit);
  }

  /** Whatever runs on a shadow records rates of existing resources only. */
  lemma ShadowStaysInRange(cfg: Config, s: State, gs: seq<Generator>, seconds: real)
    requires InRange(s)
    ensures InRange(RunGenerators(cfg, ShadowContext(), s, gs, seconds))
  {
    ShadowRangeIsKept();
    var c := ShadowContext();
    RunGeneratorsRespects((d: State, s: State) => d == s && InRange(s), cfg, c, c, s, s, gs, seconds);
  }
}
