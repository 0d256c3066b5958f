/**
 * What a generator does in one turn, told without its phases (packages/core/src/production-system.ts:519-655):
 * the accumulators it looks at, the one share by which everything is throttled, and each state between.
 */
module ProductionTurns {
  import opened Wrappers
  import opened ResourceRows
  import opened Texts
  import opened Production

  // ----- which rates count

  /** `r` is entry `d` of a declaration, found in the table of resources. */
  predicate IsEntry(cfg: Config, d: DeclaredRate, r: Rate) {
    d.rate > 0.0 && d.resourceId in cfg.indices
    && r.resourceId == d.resourceId && r.index == cfg.indices[d.resourceId] && r.rate == d.rate
  }

  ghost predicate Ascending(xs: seq<nat>) {
    forall j, k | 0 <= j < k < |xs| :: xs[j] < xs[k]
  }

  /** `from` says where the valid rates stand in the declaration: all that count, in order. */
  ghost predicate Picks(cfg: Config, declared: seq<DeclaredRate>, n: nat, rates: seq<Rate>, from: seq<nat>)
    requires n <= |declared|
  {
    && |from| == |rates| && Ascending(from)
    && (forall k | 0 <= k < |rates| :: from[k] < n && IsEntry(cfg, declared[from[k]], rates[k]))
    && forall j: nat | j < n && declared[j].rate > 0.0 && declared[j].resourceId in cfg.indices :: j in from
  }

  lemma PicksOneMore(cfg: Config, declared: seq<DeclaredRate>, n: nat, rates: seq<Rate>, from: seq<nat>, r: Rate)
    requires n < |declared| && Picks(cfg, declared, n, rates, from) && IsEntry(cfg, declared[n], r)
    ensures Picks(cfg, declared, n + 1, rates + [r], from + [n])
  {
    assert (from + [n])[|from|] == n;
  }

  /** The valid rates are the positive ones of resources that exist, all of them, in order. */
  lemma {:induction false} ValidRatesAreAll(cfg: Config, declared: seq<DeclaredRate>, n: nat) returns (from: seq<nat>)
    requires n <= |declared|
    ensures Picks(cfg, declared, n, ValidRates(cfg, declared, n), from)
  {
    from := [];
    if n > 0 {
      from := ValidRatesAreAll(cfg, declared, n - 1);
      var d, before := declared[n - 1], ValidRates(cfg, declared, n - 1);
      if d.rate > 0.0 && d.resourceId in cfg.indices {
        PicksOneMore(cfg, declared, n - 1, before, from, Rate(d.resourceId, cfg.indices[d.resourceId], d.rate));
        from := from + [n - 1];
      }
    }
  }

  // ----- one turn

  /** What is applied of a total is a whole number of thresholds. */
  lemma AppliedIsWhole(cfg: Config, total: real) returns (n: int)
    ensures ToApply(cfg, total) == n as real * cfg.threshold
  {
    n := RoundedIsWhole(total + cfg.epsilon, cfg.threshold);
  }

  lemma RoundedIsWhole(x: real, k: real) returns (n: int)
    requires k > 0.0
    ensures RoundDown(x, k) == n as real * k
  {
    n := (x / k).Floor;
  }

  /** What a tick earns at a rate: that much per second of every generator owned, times the multiplier. */
  lemma EarnedIsPerSecond(g: Generator, rate: real, seconds: real)
    ensures EarnedIn(g, seconds)(rate) == (rate * seconds) * (g.owned * g.multiplier)
  {
    var n := g.owned * g.multiplier;
    assert rate * n * seconds == rate * seconds * n;
  }

  /** Looking at an accumulator: its total with what was earned, its aligned part; an old key gives way to the new. */
  ghost predicate Looked(cfg: Config, s: State, t: State, key: Key, index: nat, earned: real, p: Peek) {
    && p.key == key && p.index == index && p.toApply == ToApply(cfg, p.total)
    && var former := LegacyKey(key);
       if former in s.legacy
       then p.total == s.legacy[former] + earned
            && t == s.(legacy := s.legacy - {former}, accumulators := s.accumulators[key := s.legacy[former]])
       else p.total == (if key in s.accumulators then s.accumulators[key] else 0.0) + earned && t == s
  }

  /** An amount leaves a peeked total, of which the accumulator keeps the rest; `move` gets it if it is anything. */
  ghost predicate Moved(move: (State, Text, nat, real) -> State, s: State, t: State, p: Peek, moved: real) {
    var left := s.(accumulators := s.accumulators[p.key := p.total - moved]);
    t == if moved > 0.0 then move(left, p.key.resourceId, p.index, moved) else left
  }

  /** A share of what a peeked total applies is moved. */
  ghost predicate Shared(move: (State, Text, nat, real) -> State, s: State, t: State, p: Peek, share: real) {
    Moved(move, s, t, p, p.toApply * share)
  }

  /** One production of a turn: its total is looked at and its share credited. */
  ghost predicate Made(cfg: Config, c: Context, s: State, t: State, key: Key, index: nat, earned: real, share: real) {
    exists looked: State, p: Peek ::
      Looked(cfg, s, looked, key, index, earned, p) && Shared(c.credit, looked, t, p, share)
  }

  /** A share of a consumption, both of its total and of its aligned part, is within what is available. */
  predicate Fits(y: real, available: real, p: Peek) {
    p.toApply > 0.0 ==> p.total * y <= available && p.toApply * y <= available
  }

  predicate AllFit(y: real, c: Context, s: State, peeks: seq<Peek>) {
    forall k | 0 <= k < |peeks| :: Fits(y, c.amount(s, peeks[k].index), peeks[k])
  }

  /** The share of all consumptions is the largest, up to all of them, that fits each one that applies. */
  ghost predicate LargestShare(c: Context, s: State, peeks: seq<Peek>, x: real) {
    && 0.0 <= x <= 1.0
    && forall y | 0.0 < y <= 1.0 :: y <= x <==> AllFit(y, c, s, peeks)
  }

  predicate SomeApply(peeks: seq<Peek>) {
    exists k :: 0 <= k < |peeks| && peeks[k].toApply > 0.0
  }

  /** The share of all productions: none while there are consumptions of which none applies. */
  ghost predicate OutputShare(peeks: seq<Peek>, x: real, share: real) {
    share == if peeks == [] || SomeApply(peeks) then x else 0.0
  }

  /** The states of a turn: one for each consumption looked at, each production made, each consumption debited. */
  datatype Trace = Trace(looked: seq<State>, peeks: seq<Peek>, made: seq<State>, spent: seq<State>)

  ghost predicate Looking(cfg: Config, s: State, g: Generator, rates: seq<Rate>, earn: real -> real, looked: seq<State>,
                          peeks: seq<Peek>)
  {
    && |looked| == |rates| + 1 && |peeks| == |rates| && looked[0] == s
    && forall k | 0 <= k < |rates| ::
         Looked(cfg, looked[k], looked[k + 1], Key(g.id, Consuming, rates[k].resourceId), rates[k].index,
                earn(rates[k].rate), peeks[k])
  }

  ghost predicate Making(cfg: Config, c: Context, s: State, g: Generator, rates: seq<Rate>, earn: real -> real,
                         share: real, made: seq<State>)
  {
    && |made| == |rates| + 1 && made[0] == s
    && forall k | 0 <= k < |rates| ::
         Made(cfg, c, made[k], made[k + 1], Key(g.id, Producing, rates[k].resourceId), rates[k].index,
              earn(rates[k].rate), share)
  }

  ghost predicate Spending(c: Context, s: State, peeks: seq<Peek>, share: real, spent: seq<State>) {
    && |spent| == |peeks| + 1 && spent[0] == s
    && forall k | 0 <= k < |peeks| :: Shared(c.debit, spent[k], spent[k + 1], peeks[k], share)
  }

  /**
   * A turn in which every consumption is throttled to the same largest affordable share `x`, and every
   * production to `x` too, or to nothing; what is not moved stays in the accumulators.
   */
  ghost predicate Throttles(cfg: Config, c: Context, s: State, t: State, g: Generator, seconds: real, x: real,
                            share: real, tr: Trace)
  {
    var produces, consumes := ValidRates(cfg, g.produces, |g.produces|), ValidRates(cfg, g.consumes, |g.consumes|);
    && Looking(cfg, s, g, consumes, EarnedIn(g, seconds), tr.looked, tr.peeks)
    && LargestShare(c, s, tr.peeks, x) && OutputShare(tr.peeks, x, share)
    && Making(cfg, c, tr.looked[|consumes|], g, produces, EarnedIn(g, seconds), share, tr.made)
    && Spending(c, tr.made[|produces|], tr.peeks, x, tr.spent)
    && t == tr.spent[|consumes|]
  }

  /** A generator's turn; one that is not owned or not enabled changes nothing. */
  ghost predicate Turn(cfg: Config, c: Context, s: State, t: State, g: Generator, seconds: real) {
    if g.owned > 0.0 && g.enabled
    then exists x: real, share: real, tr: Trace :: Throttles(cfg, c, s, t, g, seconds, x, share, tr)
    else t == s
  }

  // ----- proofs

  /** Amounts do not depend on accumulators. */
  ghost predicate Steady(c: Context) {
    forall s: State, m: map<Key, real>, l: map<Text, real>, i: nat :: c.amount(Booked(s, m, l), i) == c.amount(s, i)
  }

  lemma BothAreSteady()
    ensures Steady(DirectContext()) && Steady(ShadowContext())
  {
  }

  lemma QuotientFits(y: real, available: real, required: real)
    requires required > 0.0
    ensures y <= available / required <==> required * y <= available
  {
    var q, product := available / required, required * y;
    DividedTimes(available, required);
    if y < q {
      ScaledBelow(y, q, required, product, available);
    } else if q < y {
      ScaledBelow(q, y, required, available, product);
    }
  }

  lemma ThrottledFits(y: real, ratio: real, available: real, p: Peek)
    requires p.toApply > 0.0 ==> p.total > 0.0
    ensures y <= Throttled(ratio, available, p) <==> y <= ratio && Fits(y, available, p)
  {
    if p.toApply > 0.0 {
      QuotientFits(y, available, p.total);
      QuotientFits(y, available, p.toApply);
    }
  }

  lemma LookedAt(cfg: Config, s: State, key: Key, index: nat, earned: real)
    ensures Looked(cfg, s, Claimed(s, key), key, index, earned,
                   PeekAt(Aligned(cfg), Claimed(s, key), key, index, earned))
  {
  }

  ghost predicate RatioFits(c: Context, s: State, peeks: seq<Peek>, ratio: real) {
    ratio <= 1.0 && forall y | 0.0 < y <= 1.0 :: y <= ratio <==> AllFit(y, c, s, peeks)
  }

  lemma RatioFitsOneMore(c: Context, s: State, peeks: seq<Peek>, p: Peek, ratio: real)
    requires RatioFits(c, s, peeks, ratio) && (p.toApply > 0.0 ==> p.total > 0.0)
    ensures RatioFits(c, s, peeks + [p], Throttled(ratio, c.amount(s, p.index), p))
  {
    var available := c.amount(s, p.index);
    forall y | 0.0 < y <= 1.0
      ensures y <= Throttled(ratio, available, p) <==> AllFit(y, c, s, peeks + [p])
    {
      ThrottledFits(y, ratio, available, p);
      FitsOneMore(y, c, s, peeks, p);
    }
    ThrottledIsLess(ratio, available, p);
  }

  lemma ThrottledIsLess(ratio: real, available: real, p: Peek)
    ensures Throttled(ratio, available, p) <= ratio
  {
  }

  lemma FitsOneMore(y: real, c: Context, s: State, peeks: seq<Peek>, p: Peek)
    ensures AllFit(y, c, s, peeks + [p]) <==> AllFit(y, c, s, peeks) && Fits(y, c.amount(s, p.index), p)
  {
    var all := peeks + [p];
    assert all[|peeks|] == p && forall k | 0 <= k < |peeks| :: all[k] == peeks[k];
  }

  lemma SomeApplyOneMore(peeks: seq<Peek>, p: Peek)
    ensures SomeApply(peeks + [p]) <==> p.toApply > 0.0 || SomeApply(peeks)
  {
    var all := peeks + [p];
    assert all[|peeks|] == p && forall k | 0 <= k < |peeks| :: all[k] == peeks[k];
  }

  /** Phase 1 is nothing but looking: the ratio fits what was looked at, and amounts stay. */
  ghost predicate Prepares(cfg: Config, c: Context, s: State, g: Generator, rates: seq<Rate>, earn: real -> real,
                           looked: seq<State>, p: Prepared, none: bool)
  {
    && Looking(cfg, s, g, rates, earn, looked, p.peeks) && looked[|rates|] == p.state
    && RatioFits(c, s, p.peeks, p.ratio) && (p.willApply <==> none || SomeApply(p.peeks))
    && forall i: nat :: c.amount(p.state, i) == c.amount(s, i)
  }

  lemma LookingOneMore(cfg: Config, s: State, g: Generator, rates: seq<Rate>, r: Rate, earn: real -> real,
                       looked: seq<State>, peeks: seq<Peek>, t: State, p: Peek)
    requires Looking(cfg, s, g, rates, earn, looked, peeks)
    requires Looked(cfg, looked[|rates|], t, Key(g.id, Consuming, r.resourceId), r.index, earn(r.rate), p)
    ensures Looking(cfg, s, g, rates + [r], earn, looked + [t], peeks + [p])
  {
  }

  lemma ClaimIsSteady(c: Context, s: State, key: Key)
    requires Steady(c)
    ensures forall i: nat :: c.amount(Claimed(s, key), i) == c.amount(s, i)
  {
    assert Claimed(s, key) == Booked(s, Claimed(s, key).accumulators, Claimed(s, key).legacy);
  }

  lemma PrepareOneLooks(cfg: Config, c: Context, s: State, g: Generator, rates: seq<Rate>, r: Rate, earn: real -> real,
                        looked: seq<State>, p: Prepared, none: bool)
    requires Steady(c) && Prepares(cfg, c, s, g, rates, earn, looked, p, none)
    ensures var t := PrepareOne(Aligned(cfg), c, p, ConsumeKey(g, r), r.index, earn(r.rate));
            Prepares(cfg, c, s, g, rates + [r], earn, looked + [t.state], t, none)
  {
    var key := ConsumeKey(g, r);
    var claimed := Claimed(p.state, key);
    var peek := PeekAt(Aligned(cfg), claimed, key, r.index, earn(r.rate));
    LookedAt(cfg, p.state, key, r.index, earn(r.rate));
    LookingOneMore(cfg, s, g, rates, r, earn, looked, p.peeks, claimed, peek);
    ToApplyIsAligned(cfg, peek.total);
    RatioFitsOneMore(c, s, p.peeks, peek, p.ratio);
    ClaimIsSteady(c, p.state, key);
    SomeApplyOneMore(p.peeks, peek);
  }

  lemma {:induction false} PrepareLooks(cfg: Config, c: Context, s: State, g: Generator, rates: seq<Rate>,
                                        earn: real -> real, n: nat)
    returns (looked: seq<State>)
    requires Steady(c) && n <= |rates|
    ensures Prepares(cfg, c, s, g, rates[..n], earn, looked, Prepare(Aligned(cfg), c, s, g, rates, earn, n),
                     rates == [])
  {
    if n == 0 {
      looked := [s];
      return;
    }
    var before := PrepareLooks(cfg, c, s, g, rates, earn, n - 1);
    var p := Prepare(Aligned(cfg), c, s, g, rates, earn, n - 1);
    PrepareOneLooks(cfg, c, s, g, rates[..n - 1], rates[n - 1], earn, before, p, rates == []);
    assert rates[..n - 1] + [rates[n - 1]] == rates[..n];
    PrepareNext(Aligned(cfg), c, s, g, rates, earn, n - 1, p);
    looked := before + [Prepare(Aligned(cfg), c, s, g, rates, earn, n).state];
  }

  /** The states of a fold. */
  lemma {:induction false} FoldStates<A>(step: (State, A) -> State, s: State, xs: seq<A>, n: nat)
    returns (states: seq<State>)
    requires n <= |xs|
    ensures |states| == n + 1 && states[0] == s && states[n] == Fold(step, s, xs, n)
    ensures forall k | 0 <= k < n :: states[k + 1] == step(states[k], xs[k])
  {
    states := [s];
    if n > 0 {
      var before := FoldStates(step, s, xs, n - 1);
      states := before + [Fold(step, s, xs, n)];
    }
  }

  lemma ApplyIsShared(move: (State, Text, nat, real) -> State, s: State, p: Peek, x: real)
    ensures var moved := ShareOf(x)(p.toApply);
            Shared(move, s, Apply(move, s, p.key, p.total - moved, p.index, moved), p, x)
  {
    assert ShareOf(x)(p.toApply) == p.toApply * x;
  }

  lemma EarnIsMade(cfg: Config, c: Context, s: State, key: Key, index: nat, earned: real, x: real)
    ensures Made(cfg, c, s, Earn(Aligned(cfg), c, s, key, index, earned, ShareOf(x)), key, index, earned, x)
  {
    var claimed := Claimed(s, key);
    var p := PeekAt(Aligned(cfg), claimed, key, index, earned);
    LookedAt(cfg, s, key, index, earned);
    ApplyIsShared(c.credit, claimed, p, x);
  }

  lemma ProductionIsMaking(cfg: Config, c: Context, s: State, g: Generator, rates: seq<Rate>, earn: real -> real,
                           x: real)
    returns (made: seq<State>)
    ensures Making(cfg, c, s, g, rates, earn, x, made)
    ensures made[|rates|] == Fold(Producer(Aligned(cfg), c, g, earn, ShareOf(x)), s, rates, |rates|)
  {
    made := FoldStates(Producer(Aligned(cfg), c, g, earn, ShareOf(x)), s, rates, |rates|);
    forall k | 0 <= k < |rates|
      ensures Made(cfg, c, made[k], made[k + 1], Key(g.id, Producing, rates[k].resourceId), rates[k].index,
                   earn(rates[k].rate), x)
    {
      EarnIsMade(cfg, c, made[k], ProduceKey(g, rates[k]), rates[k].index, earn(rates[k].rate), x);
    }
  }

  lemma ConsumptionIsSpending(c: Context, s: State, peeks: seq<Peek>, x: real) returns (spent: seq<State>)
    ensures Spending(c, s, peeks, x, spent)
    ensures spent[|peeks|] == Fold(Consumer(c, ShareOf(x)), s, peeks, |peeks|)
  {
    spent := FoldStates(Consumer(c, ShareOf(x)), s, peeks, |peeks|);
    forall k | 0 <= k < |peeks|
      ensures Shared(c.debit, spent[k], spent[k + 1], peeks[k], x)
    {
      ApplyIsShared(c.debit, spent[k], peeks[k], x);
    }
  }

  lemma ClampedIsLargest(c: Context, s: State, peeks: seq<Peek>, ratio: real)
    requires RatioFits(c, s, peeks, ratio)
    ensures LargestShare(c, s, peeks, ClampRatio(ratio))
  {
    forall y | 0.0 < y <= 1.0
      ensures y <= ClampRatio(ratio) <==> AllFit(y, c, s, peeks)
    {
      assert y <= ClampRatio(ratio) <==> y <= ratio;
    }
  }

  /**
   * In one turn of a generator, whatever its state, one share decides: the largest that leaves every
   * consumption within what is available. Every consumption is debited and every production credited by
   * that share of what its accumulator applies, production by nothing while no consumption applies.
   */
  lemma TurnIsThrottled(cfg: Config, c: Context, s: State, g: Generator, seconds: real)
    returns (x: real, share: real, tr: Trace)
    requires Steady(c) && g.owned > 0.0 && g.enabled
    ensures Throttles(cfg, c, s, RunGenerator(cfg, c, s, g, seconds), g, seconds, x, share, tr)
  {
    var produces, consumes := ValidRates(cfg, g.produces, |g.produces|), ValidRates(cfg, g.consumes, |g.consumes|);
    var earn := EarnedIn(g, seconds);
    var p := Prepare(Aligned(cfg), c, s, g, consumes, earn, |consumes|);
    var looked := PrepareLooks(cfg, c, s, g, consumes, earn, |consumes|);
    assert consumes[..|consumes|] == consumes;
    x := ClampRatio(p.ratio);
    share := if p.willApply then x else 0.0;
    ClampedIsLargest(c, s, p.peeks, p.ratio);
    var made := ProductionIsMaking(cfg, c, p.state, g, produces, earn, share);
    var spent := ConsumptionIsSpending(c, made[|produces|], p.peeks, x);
    tr := Trace(looked, p.peeks, made, spent);
  }

  lemma GeneratorTakesTurn(cfg: Config, c: Context, s: State, g: Generator, seconds: real)
    requires Steady(c)
    ensures Turn(cfg, c, s, RunGenerator(cfg, c, s, g, seconds), g, seconds)
  {
    if g.owned > 0.0 && g.enabled {
      var x, share, tr := TurnIsThrottled(cfg, c, s, g, seconds);
    }
  }

  /** Generators take their turns one after the other. */
  ghost predicate TakeTurns(cfg: Config, c: Context, s: State, t: State, gs: seq<Generator>, seconds: real) {
    exists states: seq<State> :: TurnStates(cfg, c, s, t, gs, seconds, states)
  }

  ghost predicate TurnStates(cfg: Config, c: Context, s: State, t: State, gs: seq<Generator>, seconds: real,
                             states: seq<State>)
  {
    && |states| == |gs| + 1 && states[0] == s && states[|gs|] == t
    && forall k | 0 <= k < |gs| :: Turn(cfg, c, states[k], states[k + 1], gs[k], seconds)
  }

  /** Whatever the generators and the state, a run on the resources or on their shadow is one turn after the other. */
  lemma RunTakesTurns(cfg: Config, c: Context, s: State, gs: seq<Generator>, seconds: real)
    requires Steady(c)
    ensures TakeTurns(cfg, c, s, RunGenerators(cfg, c, s, gs, seconds), gs, seconds)
  {
    var states := FoldStates(Runner(cfg, c, seconds), s, gs, |gs|);
    forall k | 0 <= k < |gs|
      ensures Turn(cfg, c, states[k], states[k + 1], gs[k], seconds)
    {
      GeneratorTakesTurn(cfg, c, states[k], gs[k], seconds);
    }
    assert TurnStates(cfg, c, s, RunGenerators(cfg, c, s, gs, seconds), gs, seconds, states);
  }

  // ----- what is credited and debited, and what is reported

  /** Crediting fills a resource up to its capacity and reports what fitted; no other amount moves. */
  ghost predicate Credits(c: Context, s: State, t: State, id: Text, i: nat, x: real)
    requires i < |s.stocks|
  {
    var before, capacity := c.amount(s, i), s.stocks[i].capacity;
    var after := if capacity.Finite? && capacity.limit < before + x then capacity.limit else before + x;
    && c.amount(t, i) == after && (forall j: nat | j != i :: c.amount(t, j) == c.amount(s, j))
    && t.events == s.events + (if after > before then [Produced(id, after - before)] else [])
    && t.accumulators == s.accumulators && t.legacy == s.legacy
  }

  /** Debiting takes all of it or nothing, and reports which; no other amount moves. */
  ghost predicate Debits(c: Context, s: State, t: State, id: Text, i: nat, x: real)
    requires i < |s.stocks|
  {
    && c.amount(t, i) == (if x <= c.amount(s, i) then c.amount(s, i) - x else c.amount(s, i))
    && (forall j: nat | j != i :: c.amount(t, j) == c.amount(s, j))
    && t.events == s.events + [if x <= c.amount(s, i) then Consumed(id, x) else Refused(id)]
    && t.accumulators == s.accumulators && t.legacy == s.legacy
  }

  lemma DirectContextCredits(s: State, id: Text, i: nat, x: real)
    requires i < |s.stocks| && x > 0.0
    ensures Credits(DirectContext(), s, DirectContext().credit(s, id, i, x), id, i, x)
  {
    var c, credited := DirectContext(), CreditDirectly(s, id, i, x);
    forall j: nat | j != i
      ensures c.amount(credited, j) == c.amount(s, j)
    {
    }
  }

  lemma DirectContextDebits(s: State, id: Text, i: nat, x: real)
    requires i < |s.stocks| && x > 0.0
    ensures Debits(DirectContext(), s, DirectContext().debit(s, id, i, x), id, i, x)
  {
    var c, debited := DirectContext(), DebitDirectly(s, id, i, x);
    forall j: nat | j != i
      ensures c.amount(debited, j) == c.amount(s, j)
    {
    }
  }

  lemma ShadowContextCredits(s: State, id: Text, i: nat, x: real)
    requires i < |s.stocks| && x > 0.0 && 0.0 <= ShadowAmount(s, i)
    requires s.stocks[i].capacity.Finite? ==> 0.0 <= s.stocks[i].capacity.limit
    ensures Credits(ShadowContext(), s, ShadowContext().credit(s, id, i, x), id, i, x)
  {
    var credited := CreditShadow(s, id, i, x);
    assert forall j: nat | j < |s.stocks| && j != i :: ShadowAmount(credited, j) == ShadowAmount(s, j);
  }

  lemma ShadowContextDebits(s: State, id: Text, i: nat, x: real)
    requires i < |s.stocks| && x > 0.0
    ensures Debits(ShadowContext(), s, ShadowContext().debit(s, id, i, x), id, i, x)
  {
    var debited := DebitShadow(s, id, i, x);
    assert forall j: nat | j < |s.stocks| && j != i :: ShadowAmount(debited, j) == ShadowAmount(s, j);
  }

  /** What a report says resource `i` gained. */
  function Gain(cfg: Config, e: Event, i: nat): real {
    if e.resourceId !in cfg.indices || cfg.indices[e.resourceId] != i then 0.0
    else
      match e
      case Produced(_, x) => x
      case Consumed(_, x) => -x
      case Refused(_) => 0.0
  }

  function TotalGain(cfg: Config, events: seq<Event>, i: nat): real {
    if events == [] then 0.0
    else TotalGain(cfg, events[..|events| - 1], i) + Gain(cfg, events[|events| - 1], i)
  }

  /** An amount less all its reported gains. */
  function Unreported(cfg: Config, s: State, i: nat): real {
    (if i < |s.stocks| then s.stocks[i].amount else 0.0) - TotalGain(cfg, s.events, i)
  }

  /** Amounts move exactly by what is reported. */
  ghost predicate Tallies(cfg: Config, s: State, t: State) {
    AllBounded(s) ==> AllBounded(t) && forall i: nat :: Unreported(cfg, t, i) == Unreported(cfg, s, i)
  }

  lemma GainOneMore(cfg: Config, events: seq<Event>, e: Event, i: nat)
    ensures TotalGain(cfg, events + [e], i) == TotalGain(cfg, events, i) + Gain(cfg, e, i)
  {
    assert (events + [e])[..|events|] == events;
  }

  lemma CreditTallies(cfg: Config, s: State, id: Text, x: real)
    requires id in cfg.indices && x > 0.0
    ensures Tallies(cfg, s, DirectContext().credit(s, id, cfg.indices[id], x))
  {
    var at := cfg.indices[id];
    if AllBounded(s) && at < |s.stocks| {
      var t := CreditDirectly(s, id, at, x);
      DirectBounds(s, id, at, x);
      DirectContextCredits(s, id, at, x);
      assert BoundedStock(s.stocks[at]);
      forall i: nat
        ensures Unreported(cfg, t, i) == Unreported(cfg, s, i)
      {
        if t.events != s.events {
          GainOneMore(cfg, s.events, t.events[|s.events|], i);
        }
      }
    }
  }

  lemma DebitTallies(cfg: Config, s: State, id: Text, x: real)
    requires id in cfg.indices && x > 0.0
    ensures Tallies(cfg, s, DirectContext().debit(s, id, cfg.indices[id], x))
  {
    var at := cfg.indices[id];
    if AllBounded(s) && at < |s.stocks| {
      var t := DebitDirectly(s, id, at, x);
      DirectBounds(s, id, at, x);
      DirectContextDebits(s, id, at, x);
      forall i: nat
        ensures Unreported(cfg, t, i) == Unreported(cfg, s, i)
      {
        GainOneMore(cfg, s.events, t.events[|s.events|], i);
      }
    }
  }

  /** Crediting and debiting report what they do. */
  ghost predicate MovesTally(cfg: Config, c: Context) {
    forall s: State, id: Text, x: real | id in cfg.indices && x > 0.0 ::
      Tallies(cfg, s, c.credit(s, id, cfg.indices[id], x)) && Tallies(cfg, s, c.debit(s, id, cfg.indices[id], x))
  }

  lemma DirectMovesTally(cfg: Config)
    ensures MovesTally(cfg, DirectContext())
  {
    var c := DirectContext();
    forall s: State, id: Text, x: real | id in cfg.indices && x > 0.0
      ensures Tallies(cfg, s, c.credit(s, id, cfg.indices[id], x))
      ensures Tallies(cfg, s, c.debit(s, id, cfg.indices[id], x))
    {
      CreditTallies(cfg, s, id, x);
      DebitTallies(cfg, s, id, x);
    }
  }

  /** The key of a peek names the resource at its index. */
  predicate Matching(cfg: Config, p: Peek) {
    p.key.resourceId in cfg.indices && p.index == cfg.indices[p.key.resourceId]
  }

  lemma TalliesAlike(cfg: Config, s: State, t: State, u: State)
    requires t.stocks == s.stocks && t.events == s.events && Tallies(cfg, t, u)
    ensures Tallies(cfg, s, u)
  {
    if AllBounded(s) {
      forall i: nat
        ensures Unreported(cfg, u, i) == Unreported(cfg, s, i)
      {
        assert Unreported(cfg, t, i) == Unreported(cfg, s, i);
      }
    }
  }

  lemma MovedTallies(cfg: Config, c: Context, s: State, t: State, p: Peek, moved: real)
    requires MovesTally(cfg, c) && Matching(cfg, p)
    requires Moved(c.credit, s, t, p, moved) || Moved(c.debit, s, t, p, moved)
    ensures Tallies(cfg, s, t)
  {
    var left := s.(accumulators := s.accumulators[p.key := p.total - moved]);
    if moved > 0.0 {
      assert Tallies(cfg, left, c.credit(left, p.key.resourceId, p.index, moved));
      assert Tallies(cfg, left, c.debit(left, p.key.resourceId, p.index, moved));
    }
    TalliesAlike(cfg, s, left, t);
  }

  lemma MadeTallies(cfg: Config, c: Context, s: State, t: State, key: Key, index: nat, earned: real, share: real)
    requires MovesTally(cfg, c) && key.resourceId in cfg.indices && index == cfg.indices[key.resourceId]
    requires Made(cfg, c, s, t, key, index, earned, share)
    ensures Tallies(cfg, s, t)
  {
    var looked: State, p: Peek :| Looked(cfg, s, looked, key, index, earned, p)
      && Shared(c.credit, looked, t, p, share);
    MovedTallies(cfg, c, looked, t, p, p.toApply * share);
    TalliesAlike(cfg, s, looked, t);
  }

  lemma TalliesOn(cfg: Config, s: State, t: State, u: State)
    requires Tallies(cfg, s, t) && Tallies(cfg, t, u)
    ensures Tallies(cfg, s, u)
  {
    if AllBounded(s) {
      forall i: nat
        ensures Unreported(cfg, u, i) == Unreported(cfg, s, i)
      {
        assert Unreported(cfg, t, i) == Unreported(cfg, s, i);
      }
    }
  }

  lemma {:induction false} StatesTally(cfg: Config, states: seq<State>, n: nat)
    requires n < |states| && forall k | 0 <= k < n :: Tallies(cfg, states[k], states[k + 1])
    ensures Tallies(cfg, states[0], states[n])
  {
    if n > 0 {
      StatesTally(cfg, states, n - 1);
      assert Tallies(cfg, states[n - 1], states[n - 1 + 1]);
      TalliesOn(cfg, states[0], states[n - 1], states[n]);
    }
  }

  lemma {:induction false} LookingTallies(cfg: Config, s: State, g: Generator, rates: seq<Rate>, earn: real -> real,
                                          looked: seq<State>, peeks: seq<Peek>, n: nat)
    requires Looking(cfg, s, g, rates, earn, looked, peeks) && n <= |rates|
    ensures looked[n].stocks == s.stocks && looked[n].events == s.events
  {
    if n > 0 {
      LookingTallies(cfg, s, g, rates, earn, looked, peeks, n - 1);
      assert Looked(cfg, looked[n - 1], looked[n - 1 + 1], Key(g.id, Consuming, rates[n - 1].resourceId),
                    rates[n - 1].index, earn(rates[n - 1].rate), peeks[n - 1]);
    }
  }

  lemma MakingTallies(cfg: Config, c: Context, s: State, g: Generator, rates: seq<Rate>, earn: real -> real,
                      share: real, made: seq<State>)
    requires MovesTally(cfg, c) && RatesOk(cfg, rates) && Making(cfg, c, s, g, rates, earn, share, made)
    ensures Tallies(cfg, s, made[|rates|])
  {
    forall k | 0 <= k < |rates|
      ensures Tallies(cfg, made[k], made[k + 1])
    {
      assert RateOk(cfg, rates[k]);
      MadeTallies(cfg, c, made[k], made[k + 1], Key(g.id, Producing, rates[k].resourceId), rates[k].index,
                  earn(rates[k].rate), share);
    }
    StatesTally(cfg, made, |rates|);
  }

  lemma SpendingTallies(cfg: Config, c: Context, s: State, peeks: seq<Peek>, share: real, spent: seq<State>)
    requires MovesTally(cfg, c) && Spending(c, s, peeks, share, spent)
    requires forall k | 0 <= k < |peeks| :: Matching(cfg, peeks[k])
    ensures Tallies(cfg, s, spent[|peeks|])
  {
    forall k | 0 <= k < |peeks|
      ensures Tallies(cfg, spent[k], spent[k + 1])
    {
      MovedTallies(cfg, c, spent[k], spent[k + 1], peeks[k], peeks[k].toApply * share);
    }
    StatesTally(cfg, spent, |peeks|);
  }

  lemma ThrottlesTallies(cfg: Config, c: Context, s: State, t: State, g: Generator, seconds: real, x: real,
                         share: real, tr: Trace)
    requires MovesTally(cfg, c) && Throttles(cfg, c, s, t, g, seconds, x, share, tr)
    ensures Tallies(cfg, s, t)
  {
    var produces, consumes := ValidRates(cfg, g.produces, |g.produces|), ValidRates(cfg, g.consumes, |g.consumes|);
    LookingTallies(cfg, s, g, consumes, EarnedIn(g, seconds), tr.looked, tr.peeks, |consumes|);
    MakingTallies(cfg, c, tr.looked[|consumes|], g, produces, EarnedIn(g, seconds), share, tr.made);
    forall k | 0 <= k < |tr.peeks|
      ensures Matching(cfg, tr.peeks[k])
    {
      assert RateOk(cfg, consumes[k]);
      assert Looked(cfg, tr.looked[k], tr.looked[k + 1], Key(g.id, Consuming, consumes[k].resourceId),
                    consumes[k].index, EarnedIn(g, seconds)(consumes[k].rate), tr.peeks[k]);
    }
    SpendingTallies(cfg, c, tr.made[|produces|], tr.peeks, x, tr.spent);
    TalliesOn(cfg, tr.looked[|consumes|], tr.made[|produces|], t);
    TalliesAlike(cfg, s, tr.looked[|consumes|], t);
  }

  /**
   * Whatever the generators, what a tick reports as produced and consumed adds up, resource by resource,
   * to what the amounts changed by.
   */
  lemma ReportsAddUp(cfg: Config, s: State, gs: seq<Generator>, seconds: real)
    ensures Tallies(cfg, s, RunGenerators(cfg, DirectContext(), s, gs, seconds))
  {
    BothAreSteady();
    DirectMovesTally(cfg);
    var c := DirectContext();
    var states := FoldStates(Runner(cfg, c, seconds), s, gs, |gs|);
    forall k | 0 <= k < |gs|
      ensures Tallies(cfg, states[k], states[k + 1])
    {
      if gs[k].owned > 0.0 && gs[k].enabled {
        var x, share, tr := TurnIsThrottled(cfg, c, states[k], gs[k], seconds);
        ThrottlesTallies(cfg, c, states[k], states[k + 1], gs[k], seconds, x, share, tr);
      }
    }
    StatesTally(cfg, states, |gs|);
  }
}
