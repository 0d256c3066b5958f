/**
 * Splitting a stretch of time into ticks (packages/core/src/production-system.ts:1165-1210): for
 * generators that consume nothing, many small ticks and one long one come to the same.
 */
module TickSplitting {
  import opened Wrappers
  import opened ResourceRows
  import opened Production

  /** What a tick without consumption touches. */
  datatype Pools = Pools(stocks: seq<Stock>, accumulators: map<Key, real>)

  function PoolsOf(s: State): Pools {
    Pools(s.stocks, s.accumulators)
  }

  /** One production of one generator, as a constant rate per second. */
  datatype Source = Source(key: Key, index: nat, perSecond: real)

  function Held(p: Pools, key: Key): real {
    At(p.accumulators, key, 0.0)
  }

  /** Bounded amounts, and no accumulator in debt by more than epsilon. */
  ghost predicate SplitReady(cfg: Config, p: Pools) {
    && (forall i | 0 <= i < |p.stocks| :: BoundedStock(p.stocks[i]))
    && forall key | key in p.accumulators :: p.accumulators[key] + cfg.epsilon >= 0.0
  }

  function Filled(stocks: seq<Stock>, i: nat, x: real): (r: seq<Stock>)
    ensures |r| == |stocks|
  {
    if i >= |stocks| || x <= 0.0 then stocks else stocks[i := CreditedStock(stocks[i], x)]
  }

  /** A total leaves the accumulator with what its aligned part does not take. */
  function Bank(align: real -> real, p: Pools, key: Key, index: nat, earned: real): Pools {
    var total := Held(p, key) + earned;
    Pools(Filled(p.stocks, index, align(total)), p.accumulators[key := total - align(total)])
  }

  // ----- rounding down to a whole number of thresholds

  lemma SameQuotient(a: real, b: real, k: real)
    requires k > 0.0 && a * k == b * k
    ensures a == b
  {
    assert (a - b) * k == 0.0;
  }

  lemma MinusTimes(a: real, m: real, k: real)
    ensures (a - m) * k == a * k - m * k
  {
  }

  lemma DividedLess(x: real, m: real, w: real, k: real)
    requires k > 0.0 && w == m * k
    ensures (x - w) / k == x / k - m
  {
    DividedTimes(x, k);
    DividedTimes(x - w, k);
    MinusTimes(x / k, m, k);
    SameQuotient((x - w) / k, x / k - m, k);
  }

  lemma FloorLess(q: real, n: int)
    ensures (q - n as real).Floor == q.Floor - n
  {
  }

  lemma MinusCount(m: int, n: int, k: real)
    ensures (m - n) as real * k == m as real * k - n as real * k
  {
    assert (m - n) as real == m as real - n as real;
    MinusTimes(m as real, n as real, k);
  }

  /** Taking out a whole number of `k`s first leaves that much less to round down. */
  lemma RoundDownShifts(x: real, y: real, k: real)
    requires k > 0.0
    ensures RoundDown(x - RoundDown(y, k), k) == RoundDown(x, k) - RoundDown(y, k)
  {
    var n := (y / k).Floor;
    DividedLess(x, n as real, RoundDown(y, k), k);
    FloorLess(x / k, n);
    MinusCount((x / k).Floor, n, k);
  }

  /** What was applied earlier is not applied again. */
  lemma ToApplyShifts(cfg: Config, t: real, e: real)
    ensures ToApply(cfg, t - ToApply(cfg, t) + e) == ToApply(cfg, t + e) - ToApply(cfg, t)
  {
    RoundDownShifts(t + e + cfg.epsilon, t + cfg.epsilon, cfg.threshold);
    assert t - ToApply(cfg, t) + e + cfg.epsilon == (t + e + cfg.epsilon) - ToApply(cfg, t);
  }

  // ----- deposits

  lemma FilledTwice(stocks: seq<Stock>, i: nat, x: real, y: real)
    requires (forall i | 0 <= i < |stocks| :: BoundedStock(stocks[i])) && x >= 0.0 && y >= 0.0
    ensures Filled(Filled(stocks, i, x), i, y) == Filled(stocks, i, x + y)
  {
    if i < |stocks| {
      assert Filled(Filled(stocks, i, x), i, y)[i] == Filled(stocks, i, x + y)[i];
    }
  }

  lemma FilledInAnyOrder(stocks: seq<Stock>, i: nat, x: real, j: nat, y: real)
    requires (forall i | 0 <= i < |stocks| :: BoundedStock(stocks[i])) && x >= 0.0 && y >= 0.0
    ensures Filled(Filled(stocks, i, x), j, y) == Filled(Filled(stocks, j, y), i, x)
  {
    if i == j {
      FilledTwice(stocks, i, x, y);
      FilledTwice(stocks, i, y, x);
    }
  }

  lemma BankKeepsReady(cfg: Config, p: Pools, key: Key, index: nat, earned: real)
    requires SplitReady(cfg, p) && earned >= 0.0
    ensures SplitReady(cfg, Bank(Aligned(cfg), p, key, index, earned))
    ensures ToApply(cfg, Held(p, key) + earned) >= 0.0
  {
    ToApplyIsAligned(cfg, Held(p, key) + earned);
  }

  lemma BankAgain(align: real -> real, p: Pools, key: Key, index: nat, x: real, y: real)
    ensures var t := Held(p, key) + x;
            var u := t - align(t) + y;
            Bank(align, Bank(align, p, key, index, x), key, index, y)
            == Pools(Filled(Filled(p.stocks, index, align(t)), index, align(u)), p.accumulators[key := u - align(u)])
  {
  }

  /** Two deposits under one key come to one deposit of their sum. */
  lemma BankTwice(cfg: Config, p: Pools, key: Key, index: nat, x: real, y: real)
    requires SplitReady(cfg, p) && x >= 0.0 && y >= 0.0
    ensures var align := Aligned(cfg);
            Bank(align, Bank(align, p, key, index, x), key, index, y) == Bank(align, p, key, index, x + y)
  {
    var t := Held(p, key) + x;
    BankKeepsReady(cfg, p, key, index, x);
    BankKeepsReady(cfg, Bank(Aligned(cfg), p, key, index, x), key, index, y);
    ToApplyShifts(cfg, t, y);
    BankAgain(Aligned(cfg), p, key, index, x, y);
    FilledTwice(p.stocks, index, ToApply(cfg, t), ToApply(cfg, t + y) - ToApply(cfg, t));
  }

  /** Deposits commute, whether or not they share an accumulator or a resource. */
  lemma BanksCommute(cfg: Config, p: Pools, a: Source, x: real, b: Source, y: real)
    requires SplitReady(cfg, p) && x >= 0.0 && y >= 0.0 && (a.key == b.key ==> a.index == b.index)
    ensures var align := Aligned(cfg);
            Bank(align, Bank(align, p, a.key, a.index, x), b.key, b.index, y)
            == Bank(align, Bank(align, p, b.key, b.index, y), a.key, a.index, x)
  {
    if a.key == b.key {
      BankTwice(cfg, p, a.key, a.index, x, y);
      BankTwice(cfg, p, a.key, a.index, y, x);
      assert x + y == y + x;
    } else {
      BankKeepsReady(cfg, p, a.key, a.index, x);
      BankKeepsReady(cfg, p, b.key, b.index, y);
      OtherBanksCommute(Aligned(cfg), p, a, x, b, y);
    }
  }

  lemma BanksInTurn(align: real -> real, p: Pools, a: Source, x: real, b: Source, y: real)
    requires a.key != b.key
    ensures var (u, v) := (Held(p, a.key) + x, Held(p, b.key) + y);
            Bank(align, Bank(align, p, a.key, a.index, x), b.key, b.index, y)
            == Pools(Filled(Filled(p.stocks, a.index, align(u)), b.index, align(v)),
                     p.accumulators[a.key := u - align(u)][b.key := v - align(v)])
  {
    assert Held(Bank(align, p, a.key, a.index, x), b.key) == Held(p, b.key);
  }

  lemma OtherBanksCommute(align: real -> real, p: Pools, a: Source, x: real, b: Source, y: real)
    requires (forall i | 0 <= i < |p.stocks| :: BoundedStock(p.stocks[i])) && a.key != b.key
    requires align(Held(p, a.key) + x) >= 0.0 && align(Held(p, b.key) + y) >= 0.0
    ensures Bank(align, Bank(align, p, a.key, a.index, x), b.key, b.index, y)
         == Bank(align, Bank(align, p, b.key, b.index, y), a.key, a.index, x)
  {
    var u, v := Held(p, a.key) + x, Held(p, b.key) + y;
    BanksInTurn(align, p, a, x, b, y);
    BanksInTurn(align, p, b, y, a, x);
    FilledInAnyOrder(p.stocks, a.index, align(u), b.index, align(v));
    UpdatesCommute(p.accumulators, a.key, u - align(u), b.key, v - align(v));
  }

  lemma UpdatesCommute(m: map<Key, real>, a: Key, x: real, b: Key, y: real)
    requires a != b
    ensures m[a := x][b := y] == m[b := y][a := x]
  {
  }

  // ----- ticks of several sources

  /** What one source deposits in a number of seconds. */
  type Deposit = (Pools, Source, real) -> Pools

  /** One tick of the first `n` sources. */
  function Flow(deposit: Deposit, p: Pools, sources: seq<Source>, seconds: real, n: nat): Pools
    requires n <= |sources|
  {
    if n == 0 then p else deposit(Flow(deposit, p, sources, seconds, n - 1), sources[n - 1], seconds)
  }

  ghost predicate Keeps(ok: Pools -> bool, deposit: Deposit, a: Source) {
    forall p: Pools, x: real | ok(p) && x >= 0.0 :: ok(deposit(p, a, x))
  }

  ghost predicate Merges(ok: Pools -> bool, deposit: Deposit, a: Source) {
    forall p: Pools, x: real, y: real | ok(p) && x >= 0.0 && y >= 0.0 ::
      deposit(deposit(p, a, x), a, y) == deposit(p, a, x + y)
  }

  ghost predicate Commutes(ok: Pools -> bool, deposit: Deposit, a: Source, b: Source) {
    forall p: Pools, x: real, y: real | ok(p) && x >= 0.0 && y >= 0.0 ::
      deposit(deposit(p, a, x), b, y) == deposit(deposit(p, b, y), a, x)
  }

  /** Deposits of one source add up, and deposits of any two change places. */
  ghost predicate Splits(ok: Pools -> bool, deposit: Deposit, sources: seq<Source>) {
    && (forall j | 0 <= j < |sources| :: Keeps(ok, deposit, sources[j]) && Merges(ok, deposit, sources[j]))
    && forall j, k | 0 <= j < |sources| && 0 <= k < |sources| :: Commutes(ok, deposit, sources[j], sources[k])
  }

  lemma {:induction false} FlowKeeps(ok: Pools -> bool, deposit: Deposit, p: Pools, sources: seq<Source>, x: real,
                                     n: nat)
    requires n <= |sources| && Splits(ok, deposit, sources) && ok(p) && x >= 0.0
    ensures ok(Flow(deposit, p, sources, x, n))
  {
    if n > 0 {
      FlowKeeps(ok, deposit, p, sources, x, n - 1);
      assert Keeps(ok, deposit, sources[n - 1]);
    }
  }

  /** A deposit of a later source can be made before a tick of the earlier ones. */
  lemma {:induction false} DepositBeforeFlow(ok: Pools -> bool, deposit: Deposit, p: Pools, sources: seq<Source>,
                                             x: real, b: Source, y: real, n: nat)
    requires n <= |sources| && Splits(ok, deposit, sources) && ok(p) && x >= 0.0 && y >= 0.0 && b in sources
    ensures deposit(Flow(deposit, p, sources, x, n), b, y) == Flow(deposit, deposit(p, b, y), sources, x, n)
  {
    if n > 0 {
      DepositBeforeFlow(ok, deposit, p, sources, x, b, y, n - 1);
      FlowKeeps(ok, deposit, p, sources, x, n - 1);
      assert Commutes(ok, deposit, sources[n - 1], b);
    }
  }

  /** Two ticks come to one tick of their total length. */
  lemma {:induction false} FlowTwice(ok: Pools -> bool, deposit: Deposit, p: Pools, sources: seq<Source>,
                                     x: real, y: real, n: nat)
    requires n <= |sources| && Splits(ok, deposit, sources) && ok(p) && x >= 0.0 && y >= 0.0
    ensures Flow(deposit, Flow(deposit, p, sources, x, n), sources, y, n) == Flow(deposit, p, sources, x + y, n)
  {
    if n > 0 {
      var a, before := sources[n - 1], Flow(deposit, p, sources, x, n - 1);
      FlowTwice(ok, deposit, p, sources, x, y, n - 1);
      FlowKeeps(ok, deposit, p, sources, x, n - 1);
      FlowKeeps(ok, deposit, before, sources, y, n - 1);
      DepositBeforeFlow(ok, deposit, before, sources, y, a, x, n - 1);
      assert Merges(ok, deposit, a);
    }
  }

  // ----- banking splits

  function Yield(a: Source, seconds: real): real {
    a.perSecond * seconds
  }

  function Banking(align: real -> real): Deposit {
    (p: Pools, a: Source, seconds: real) => Bank(align, p, a.key, a.index, Yield(a, seconds))
  }

  ghost function Ready(cfg: Config): Pools -> bool {
    (p: Pools) => SplitReady(cfg, p)
  }

  predicate SourceOk(cfg: Config, a: Source) {
    a.perSecond >= 0.0 && a.key.resourceId in cfg.indices && a.index == cfg.indices[a.key.resourceId]
  }

  lemma YieldOk(a: Source, x: real, y: real)
    requires a.perSecond >= 0.0 && x >= 0.0 && y >= 0.0
    ensures Yield(a, x) >= 0.0 && Yield(a, y) >= 0.0 && Yield(a, x) + Yield(a, y) == Yield(a, x + y)
  {
  }

  lemma BankingKeepsReady(cfg: Config, a: Source)
    requires SourceOk(cfg, a)
    ensures Keeps(Ready(cfg), Banking(Aligned(cfg)), a)
  {
    var ok, deposit := Ready(cfg), Banking(Aligned(cfg));
    forall p: Pools, x: real | ok(p) && x >= 0.0
      ensures ok(deposit(p, a, x))
    {
      YieldOk(a, x, 0.0);
      BankKeepsReady(cfg, p, a.key, a.index, Yield(a, x));
    }
  }

  lemma BankingMergesAt(cfg: Config, a: Source, p: Pools, x: real, y: real)
    requires SourceOk(cfg, a) && SplitReady(cfg, p) && x >= 0.0 && y >= 0.0
    ensures var deposit := Banking(Aligned(cfg)); deposit(deposit(p, a, x), a, y) == deposit(p, a, x + y)
  {
    YieldOk(a, x, y);
    BankTwice(cfg, p, a.key, a.index, Yield(a, x), Yield(a, y));
  }

  lemma BankingMerges(cfg: Config, a: Source)
    requires SourceOk(cfg, a)
    ensures Merges(Ready(cfg), Banking(Aligned(cfg)), a)
  {
    var ok, deposit := Ready(cfg), Banking(Aligned(cfg));
    forall p: Pools, x: real, y: real | ok(p) && x >= 0.0 && y >= 0.0
      ensures deposit(deposit(p, a, x), a, y) == deposit(p, a, x + y)
    {
      BankingMergesAt(cfg, a, p, x, y);
    }
  }

  lemma BankingCommutes(cfg: Config, a: Source, b: Source)
    requires SourceOk(cfg, a) && SourceOk(cfg, b)
    ensures Commutes(Ready(cfg), Banking(Aligned(cfg)), a, b)
  {
    var ok, deposit := Ready(cfg), Banking(Aligned(cfg));
    forall p: Pools, x: real, y: real | ok(p) && x >= 0.0 && y >= 0.0
      ensures deposit(deposit(p, a, x), b, y) == deposit(deposit(p, b, y), a, x)
    {
      YieldOk(a, x, 0.0);
      YieldOk(b, y, 0.0);
      BanksCommute(cfg, p, a, Yield(a, x), b, Yield(b, y));
    }
  }

  lemma BankingSplits(cfg: Config, sources: seq<Source>)
    requires forall j | 0 <= j < |sources| :: SourceOk(cfg, sources[j])
    ensures Splits(Ready(cfg), Banking(Aligned(cfg)), sources)
  {
    forall j | 0 <= j < |sources|
      ensures Keeps(Ready(cfg), Banking(Aligned(cfg)), sources[j])
              && Merges(Ready(cfg), Banking(Aligned(cfg)), sources[j])
    {
      BankingKeepsReady(cfg, sources[j]);
      BankingMerges(cfg, sources[j]);
    }
    forall j, k | 0 <= j < |sources| && 0 <= k < |sources|
      ensures Commutes(Ready(cfg), Banking(Aligned(cfg)), sources[j], sources[k])
    {
      BankingCommutes(cfg, sources[j], sources[k]);
    }
  }

  // ----- the generators' ticks are ticks of sources

  function SourceOf(g: Generator, r: Rate): Source {
    Source(ProduceKey(g, r), r.index, r.rate * (g.owned * g.multiplier))
  }

  /** The sources of one generator: none while it is not owned or not enabled. */
  function SourcesOf(cfg: Config, g: Generator): seq<Source> {
    if g.owned <= 0.0 || !g.enabled then []
    else
      var rates := ValidRates(cfg, g.produces, |g.produces|);
      seq(|rates|, i requires 0 <= i < |rates| => SourceOf(g, rates[i]))
  }

  function Sources(cfg: Config, gs: seq<Generator>, n: nat): seq<Source>
    requires n <= |gs|
  {
    if n == 0 then [] else Sources(cfg, gs, n - 1) + SourcesOf(cfg, gs[n - 1])
  }

  /** Generators that consume nothing that exists, with multipliers that are not negative. */
  ghost predicate ProducersOnly(cfg: Config, gs: seq<Generator>) {
    forall k | 0 <= k < |gs| :: ValidRates(cfg, gs[k].consumes, |gs[k].consumes|) == [] && gs[k].multiplier >= 0.0
  }

  lemma EarnIsBank(align: real -> real, s: State, key: Key, index: nat, earned: real)
    requires s.legacy == map[]
    ensures var t := Earn(align, DirectContext(), s, key, index, earned, ShareOf(1.0));
            PoolsOf(t) == Bank(align, PoolsOf(s), key, index, earned) && t.legacy == map[]
  {
    assert Claimed(s, key) == s;
    ProduceOneInFull(s, PeekAt(align, s, key, index, earned));
  }

  lemma ProduceOneInFull(s: State, p: Peek)
    ensures var t := ProduceOne(DirectContext(), s, p, ShareOf(1.0));
            && t.stocks == Filled(s.stocks, p.index, p.toApply)
            && t.accumulators == s.accumulators[p.key := p.total - p.toApply] && t.legacy == s.legacy
  {
    assert ShareOf(1.0)(p.toApply) == p.toApply;
  }

  /** A step of the run is a deposit of a source. */
  ghost predicate Deposits(step: (State, Rate) -> State, r: Rate, deposit: Deposit, a: Source, seconds: real) {
    forall s: State {:trigger step(s, r)} | s.legacy == map[] ::
      PoolsOf(step(s, r)) == deposit(PoolsOf(s), a, seconds) && step(s, r).legacy == map[]
  }

  lemma ProductionDeposits(align: real -> real, g: Generator, r: Rate, seconds: real)
    ensures Deposits(Producer(align, DirectContext(), g, EarnedIn(g, seconds), ShareOf(1.0)), r, Banking(align),
                     SourceOf(g, r), seconds)
  {
    var a, earned := SourceOf(g, r), EarnedIn(g, seconds)(r.rate);
    assert earned == Yield(a, seconds);
    forall s: State | s.legacy == map[]
      ensures var t := Earn(align, DirectContext(), s, a.key, a.index, earned, ShareOf(1.0));
              PoolsOf(t) == Banking(align)(PoolsOf(s), a, seconds) && t.legacy == map[]
    {
      EarnIsBank(align, s, a.key, a.index, earned);
    }
  }

  lemma {:induction false} ProductionIsFlow(step: (State, Rate) -> State, s: State, rates: seq<Rate>,
                                            deposit: Deposit, sources: seq<Source>, seconds: real, n: nat)
    requires n <= |rates| == |sources| && s.legacy == map[]
    requires forall k | 0 <= k < |rates| :: Deposits(step, rates[k], deposit, sources[k], seconds)
    ensures var t := Fold(step, s, rates, n);
            PoolsOf(t) == Flow(deposit, PoolsOf(s), sources, seconds, n) && t.legacy == map[]
  {
    if n > 0 {
      ProductionIsFlow(step, s, rates, deposit, sources, seconds, n - 1);
      assert Deposits(step, rates[n - 1], deposit, sources[n - 1], seconds);
    }
  }

  lemma {:induction false} FlowOfConcat(deposit: Deposit, p: Pools, a: seq<Source>, b: seq<Source>, seconds: real,
                                        n: nat)
    requires n <= |b|
    ensures Flow(deposit, p, a + b, seconds, |a| + n) == Flow(deposit, Flow(deposit, p, a, seconds, |a|), b, seconds, n)
  {
    if n > 0 {
      FlowOfConcat(deposit, p, a, b, seconds, n - 1);
    } else {
      FlowOfPrefix(deposit, p, a, b, seconds, |a|);
    }
  }

  lemma {:induction false} FlowOfPrefix(deposit: Deposit, p: Pools, a: seq<Source>, b: seq<Source>, seconds: real,
                                        n: nat)
    requires n <= |a|
    ensures Flow(deposit, p, a + b, seconds, n) == Flow(deposit, p, a, seconds, n)
  {
    if n > 0 {
      FlowOfPrefix(deposit, p, a, b, seconds, n - 1);
    }
  }

  /** A run from `s` to `t` without legacy accumulators is a tick of the sources. */
  ghost predicate FlowsTo(s: State, t: State, deposit: Deposit, sources: seq<Source>, seconds: real) {
    PoolsOf(t) == Flow(deposit, PoolsOf(s), sources, seconds, |sources|) && t.legacy == map[]
  }

  lemma FlowsOn(s: State, t: State, u: State, deposit: Deposit, a: seq<Source>, b: seq<Source>, seconds: real)
    requires FlowsTo(s, t, deposit, a, seconds) && FlowsTo(t, u, deposit, b, seconds)
    ensures FlowsTo(s, u, deposit, a + b, seconds)
  {
    FlowOfConcat(deposit, PoolsOf(s), a, b, seconds, |b|);
  }

  /** A tick of one producer is a tick of its sources. */
  lemma GeneratorIsFlow(cfg: Config, s: State, g: Generator, seconds: real)
    requires ValidRates(cfg, g.consumes, |g.consumes|) == [] && s.legacy == map[]
    ensures FlowsTo(s, RunGenerator(cfg, DirectContext(), s, g, seconds), Banking(Aligned(cfg)),
                    SourcesOf(cfg, g), seconds)
  {
    if g.owned > 0.0 && g.enabled {
      var rates, own, earn := ValidRates(cfg, g.produces, |g.produces|), SourcesOf(cfg, g), EarnedIn(g, seconds);
      var align, deposit := Aligned(cfg), Banking(Aligned(cfg));
      var step := Producer(align, DirectContext(), g, earn, ShareOf(1.0));
      forall k | 0 <= k < |rates|
        ensures Deposits(step, rates[k], deposit, own[k], seconds)
      {
        ProductionDeposits(align, g, rates[k], seconds);
      }
      ProductionIsFlow(step, s, rates, deposit, own, seconds, |rates|);
      PhasesWithoutConsumption(align, s, g, rates, earn);
    }
  }

  ghost predicate RunsAsFlow(run: (State, Generator) -> State, deposit: Deposit, g: Generator, own: seq<Source>,
                             seconds: real)
  {
    forall s: State {:trigger run(s, g)} | s.legacy == map[] :: FlowsTo(s, run(s, g), deposit, own, seconds)
  }

  lemma {:induction false} RunIsFlow(run: (State, Generator) -> State, deposit: Deposit, cfg: Config, s: State,
                                        gs: seq<Generator>, seconds: real, n: nat)
    requires n <= |gs| && s.legacy == map[]
    requires forall g | g in gs :: RunsAsFlow(run, deposit, g, SourcesOf(cfg, g), seconds)
    ensures FlowsTo(s, Fold(run, s, gs, n), deposit, Sources(cfg, gs, n), seconds)
  {
    if n > 0 {
      RunIsFlow(run, deposit, cfg, s, gs, seconds, n - 1);
      var before, own := Fold(run, s, gs, n - 1), SourcesOf(cfg, gs[n - 1]);
      assert gs[n - 1] in gs && RunsAsFlow(run, deposit, gs[n - 1], own, seconds);
      FlowsOn(s, before, run(before, gs[n - 1]), deposit, Sources(cfg, gs, n - 1), own, seconds);
    }
  }

  /** A tick of producers is a tick of their sources. */
  lemma GeneratorsAreFlow(cfg: Config, s: State, gs: seq<Generator>, seconds: real, t: State, deposit: Deposit,
                          sources: seq<Source>)
    requires ProducersOnly(cfg, gs) && s.legacy == map[] && t == RunGenerators(cfg, DirectContext(), s, gs, seconds)
    requires deposit == Banking(Aligned(cfg)) && sources == Sources(cfg, gs, |gs|)
    ensures FlowsTo(s, t, deposit, sources, seconds)
  {
    var run := Runner(cfg, DirectContext(), seconds);
    forall g | g in gs
      ensures RunsAsFlow(run, deposit, g, SourcesOf(cfg, g), seconds)
    {
      var own := SourcesOf(cfg, g);
      forall s: State | s.legacy == map[]
        ensures FlowsTo(s, run(s, g), deposit, own, seconds)
      {
        GeneratorIsFlow(cfg, s, g, seconds);
      }
    }
    RunIsFlow(run, deposit, cfg, s, gs, seconds, |gs|);
  }

  lemma PhasesWithoutConsumption(align: real -> real, s: State, g: Generator, rates: seq<Rate>, earn: real -> real)
    ensures RunPhases(align, DirectContext(), s, g, rates, [], earn)
         == Fold(Producer(align, DirectContext(), g, earn, ShareOf(1.0)), s, rates, |rates|)
  {
  }

  lemma {:induction false} SourcesAreOk(cfg: Config, gs: seq<Generator>, n: nat)
    requires n <= |gs| && ProducersOnly(cfg, gs)
    ensures forall j | 0 <= j < |Sources(cfg, gs, n)| :: SourceOk(cfg, Sources(cfg, gs, n)[j])
  {
    if n > 0 {
      SourcesAreOk(cfg, gs, n - 1);
      var g := gs[n - 1];
      var rates := ValidRates(cfg, g.produces, |g.produces|);
      forall j | 0 <= j < |rates| && g.owned > 0.0
        ensures SourceOk(cfg, SourceOf(g, rates[j]))
      {
        assert RateOk(cfg, rates[j]);
        PositiveTimes(g.owned, g.multiplier);
        PositiveTimes(rates[j].rate, g.owned * g.multiplier);
      }
    }
  }

  lemma PositiveTimes(x: real, y: real)
    requires x >= 0.0 && y >= 0.0
    ensures x * y >= 0.0
  {
  }

  // ----- splitting a stretch of time

  /** Ticks of the given lengths, one after the other. */
  function Ticks(tick: (State, real) -> State, s: State, lengths: seq<real>, n: nat): State
    requires n <= |lengths|
  {
    if n == 0 then s else tick(Ticks(tick, s, lengths, n - 1), lengths[n - 1])
  }

  function Ticking(cfg: Config, gs: seq<Generator>): (State, real) -> State {
    (s: State, deltaMs: real) => DirectFlow(cfg, s, gs, deltaMs)
  }

  function Total(lengths: seq<real>, n: nat): real
    requires n <= |lengths|
  {
    if n == 0 then 0.0 else Total(lengths, n - 1) + lengths[n - 1]
  }

  ghost predicate TicksAsFlow(tick: (State, real) -> State, deposit: Deposit, sources: seq<Source>) {
    forall s: State, ms: real {:trigger tick(s, ms)} | s.legacy == map[] :: TickFlows(tick, deposit, sources, s, ms)
  }

  ghost predicate TickFlows(tick: (State, real) -> State, deposit: Deposit, sources: seq<Source>, s: State, ms: real) {
    FlowsTo(s, tick(s, ms), deposit, sources, ms / 1000.0)
  }

  lemma {:induction false} TicksAreFlow(tick: (State, real) -> State, ok: Pools -> bool, deposit: Deposit,
                                        s: State, sources: seq<Source>, lengths: seq<real>, n: nat)
    requires 0 < n <= |lengths| && forall k | 0 <= k < |lengths| :: lengths[k] >= 0.0
    requires TicksAsFlow(tick, deposit, sources) && Splits(ok, deposit, sources) && ok(PoolsOf(s)) && s.legacy == map[]
    ensures FlowsTo(s, Ticks(tick, s, lengths, n), deposit, sources, Total(lengths, n) / 1000.0)
            && Total(lengths, n) >= 0.0
  {
    var before, length := Ticks(tick, s, lengths, n - 1), lengths[n - 1];
    if n == 1 {
      assert Total(lengths, 1) == length;
    } else {
      TicksAreFlow(tick, ok, deposit, s, sources, lengths, n - 1);
      var soFar := Total(lengths, n - 1);
      FlowTwice(ok, deposit, PoolsOf(s), sources, soFar / 1000.0, length / 1000.0, |sources|);
      assert soFar / 1000.0 + length / 1000.0 == (soFar + length) / 1000.0;
    }
  }

  lemma TicksMerge(tick: (State, real) -> State, ok: Pools -> bool, deposit: Deposit, s: State, sources: seq<Source>,
                   lengths: seq<real>)
    requires |lengths| > 0 && forall k | 0 <= k < |lengths| :: lengths[k] >= 0.0
    requires TicksAsFlow(tick, deposit, sources) && Splits(ok, deposit, sources) && ok(PoolsOf(s)) && s.legacy == map[]
    ensures PoolsOf(Ticks(tick, s, lengths, |lengths|)) == PoolsOf(tick(s, Total(lengths, |lengths|)))
  {
    TicksAreFlow(tick, ok, deposit, s, sources, lengths, |lengths|);
  }

  lemma TickIsFlow(cfg: Config, s: State, gs: seq<Generator>, ms: real, tick: (State, real) -> State,
                   deposit: Deposit, sources: seq<Source>)
    requires ProducersOnly(cfg, gs) && s.legacy == map[] && tick(s, ms) == DirectFlow(cfg, s, gs, ms)
    requires deposit == Banking(Aligned(cfg)) && sources == Sources(cfg, gs, |gs|)
    ensures TickFlows(tick, deposit, sources, s, ms)
  {
    GeneratorsAreFlow(cfg, s, gs, ms / 1000.0, tick(s, ms), deposit, sources);
  }

  lemma TickingIsFlow(cfg: Config, gs: seq<Generator>)
    requires ProducersOnly(cfg, gs)
    ensures TicksAsFlow(Ticking(cfg, gs), Banking(Aligned(cfg)), Sources(cfg, gs, |gs|))
  {
    var tick, deposit, sources := Ticking(cfg, gs), Banking(Aligned(cfg)), Sources(cfg, gs, |gs|);
    forall s: State, ms: real | s.legacy == map[]
      ensures TickFlows(tick, deposit, sources, s, ms)
    {
      TickIsFlow(cfg, s, gs, ms, tick, deposit, sources);
    }
  }

  /**
   * Splitting time is invisible: producers at constant rates leave the same amounts and accumulators after
   * any ticks as after a single one of the same total length.
   */
  lemma TickSplittingIsInvisible(cfg: Config, s: State, gs: seq<Generator>, lengths: seq<real>)
    requires |lengths| > 0 && forall k | 0 <= k < |lengths| :: lengths[k] >= 0.0
    requires ProducersOnly(cfg, gs) && SplitReady(cfg, PoolsOf(s)) && s.legacy == map[]
    ensures PoolsOf(Ticks(Ticking(cfg, gs), s, lengths, |lengths|))
         == PoolsOf(DirectFlow(cfg, s, gs, Total(lengths, |lengths|)))
  {
    TickingIsFlow(cfg, gs);
    SourcesAreOk(cfg, gs, |gs|);
    BankingSplits(cfg, Sources(cfg, gs, |gs|));
    TicksMerge(Ticking(cfg, gs), Ready(cfg), Banking(Aligned(cfg)), s, Sources(cfg, gs, |gs|), lengths);
  }

  /** So one offline delta that goes through `finalizeTick` catches up with any ticks of the same total length. */
  lemma OfflineDeltaCatchesUp(cfg: Config, s: State, gs: seq<Generator>, lengths: seq<real>)
    requires |lengths| > 0 && (forall k | 0 <= k < |lengths| :: lengths[k] >= 0.0) && Total(lengths, |lengths|) > 0.0
    requires ProducersOnly(cfg, gs) && SplitReady(cfg, PoolsOf(s)) && ReadyForTick(s) && s.legacy == map[]
    ensures var t, f :=
            Ticks(Ticking(cfg, gs), s, lengths, |lengths|), FinalizeFlow(cfg, s, gs, Total(lengths, |lengths|));
            && f.accumulators == t.accumulators && |f.stocks| == |t.stocks|
            && forall i | 0 <= i < |t.stocks| :: f.stocks[i].amount == t.stocks[i].amount
  {
    TickSplittingIsInvisible(cfg, s, gs, lengths);
    FinalizeFlowRefinesDirectFlow(cfg, s, gs, Total(lengths, |lengths|));
    var t, d := Ticks(Ticking(cfg, gs), s, lengths, |lengths|), DirectFlow(cfg, s, gs, Total(lengths, |lengths|));
    assert t.stocks == PoolsOf(t).stocks && d.stocks == PoolsOf(d).stocks;
  }

  // ----- when splitting shows

  ghost predicate Unsplittable(cfg: Config, p: Pools, a: Source) {
    exists x: real, y: real :: x >= 0.0 && y >= 0.0 && SplitShows(cfg, p, a, x, y)
  }

  ghost predicate SplitShows(cfg: Config, p: Pools, a: Source, x: real, y: real) {
    var align := Aligned(cfg);
    Bank(align, Bank(align, p, a.key, a.index, x), a.key, a.index, y) != Bank(align, p, a.key, a.index, x + y)
  }

  /** Bounded amounts, whatever the accumulators hold. */
  ghost predicate AllBounded(stocks: seq<Stock>) {
    forall i | 0 <= i < |stocks| :: BoundedStock(stocks[i])
  }

  /**
   * A debt beyond epsilon is forgiven by the first tick, so splitting shows exactly when there is such a
   * debt and the resource has room for what the debt would have cost.
   */
  lemma SplitShowsIffInDebt(cfg: Config, p: Pools, a: Source)
    requires AllBounded(p.stocks) && a.index < |p.stocks|
    ensures Unsplittable(cfg, p, a) <==>
              && Held(p, a.key) + cfg.epsilon < 0.0
              && p.stocks[a.index].capacity != Finite(p.stocks[a.index].amount)
  {
    var held, stock := Held(p, a.key), p.stocks[a.index];
    if held + cfg.epsilon < 0.0 && stock.capacity != Finite(stock.amount) {
      DebtIsForgiven(cfg, p, a);
    } else {
      forall x: real, y: real | x >= 0.0 && y >= 0.0
        ensures !SplitShows(cfg, p, a, x, y)
      {
        SplitHides(cfg, p, a, x, y);
      }
    }
  }

  lemma SplitHides(cfg: Config, p: Pools, a: Source, x: real, y: real)
    requires AllBounded(p.stocks) && a.index < |p.stocks| && x >= 0.0 && y >= 0.0
    requires Held(p, a.key) + cfg.epsilon >= 0.0 || p.stocks[a.index].capacity == Finite(p.stocks[a.index].amount)
    ensures !SplitShows(cfg, p, a, x, y)
  {
    var t := Held(p, a.key) + x;
    ToApplyShifts(cfg, t, y);
    ToApplyIsAligned(cfg, t);
    var first, second := ToApply(cfg, t), ToApply(cfg, t + y) - ToApply(cfg, t);
    if Held(p, a.key) + cfg.epsilon >= 0.0 {
      ToApplyIsAligned(cfg, t - first + y);
      FilledTwice(p.stocks, a.index, first, second);
    } else {
      FullStaysFull(p.stocks, a.index, first);
      FullStaysFull(p.stocks, a.index, second);
      FullStaysFull(p.stocks, a.index, first + second);
    }
  }

  lemma FullStaysFull(stocks: seq<Stock>, i: nat, x: real)
    requires i < |stocks| && stocks[i].capacity == Finite(stocks[i].amount)
    ensures Filled(stocks, i, x) == stocks
  {
    assert Filled(stocks, i, x)[i] == stocks[i];
  }

  lemma DebtIsForgiven(cfg: Config, p: Pools, a: Source)
    requires AllBounded(p.stocks) && a.index < |p.stocks| && Held(p, a.key) + cfg.epsilon < 0.0
    requires p.stocks[a.index].capacity != Finite(p.stocks[a.index].amount)
    ensures Unsplittable(cfg, p, a)
  {
    var held := Held(p, a.key);
    var debt := -ToApply(cfg, held);
    ToApplyIsAligned(cfg, held);
    ToApplyShifts(cfg, held, 0.0);
    ToApplyShifts(cfg, held, debt);
    var align := Aligned(cfg);
    var once, twice := Bank(align, p, a.key, a.index, 0.0 + debt),
        Bank(align, Bank(align, p, a.key, a.index, 0.0), a.key, a.index, debt);
    assert align(held + 0.0) == -debt && align(held + debt) == 0.0;
    assert once.stocks[a.index].amount == p.stocks[a.index].amount;
    assert twice.stocks[a.index].amount > p.stocks[a.index].amount;
    assert SplitShows(cfg, p, a, 0.0, debt);
  }
}
