/**
 * Generator production (packages/core/src/production-system.ts): threshold accumulators, throttling by
 * what can be consumed, and the two ways a tick reaches the resources. Amounts are exact reals.
 */
module Production {
  import opened Wrappers
  import opened ResourceRows
  import opened Texts

  datatype Operation = Producing | Consuming

  datatype Key = Key(generatorId: Text, operation: Operation, resourceId: Text)

  /** What production touches of a resource: its amount, its limit and its rate buffers. */
  datatype Stock = Stock(amount: real, capacity: Capacity, income: real, expense: real)

  datatype DeclaredRate = DeclaredRate(resourceId: Text, rate: real)

  /** A rate that `validateRates` kept: positive, and of a resource that exists. */
  datatype Rate = Rate(resourceId: Text, index: nat, rate: real)

  datatype Generator = Generator(
    id: Text, owned: real, enabled: bool, multiplier: real, produces: seq<DeclaredRate>, consumes: seq<DeclaredRate>)

  datatype Settings = Settings(threshold: real, epsilon: real, indices: map<Text, nat>)

  /** The apply threshold is positive and its epsilon a small part of it. */
  type Config = c: Settings | 0.0 <= c.epsilon < c.threshold witness Settings(1.0, 0.0, map[])

  /** `Refused` marks a spend that found too little. */
  datatype Event =
    | Produced(resourceId: Text, amount: real)
    | Consumed(resourceId: Text, amount: real)
    | Refused(resourceId: Text)

  /** The resources, the shadow of a finalize-tick run, the accumulators, and what `onTick` is told. */
  datatype State = State(
    stocks: seq<Stock>, shadow: map<nat, real>, income: map<nat, real>, expense: map<nat, real>,
    accumulators: map<Key, real>, legacy: map<Text, real>, events: seq<Event>)

  /** What the phases use of the resources: an amount, and crediting and debiting one. */
  datatype Context = Context(
    amount: (State, nat) -> real,
    credit: (State, Text, nat, real) -> State,
    debit: (State, Text, nat, real) -> State)

  function At<K>(m: map<K, real>, key: K, absent: real): real {
    if key in m then m[key] else absent
  }

  function Raised(m: map<nat, real>, i: nat, x: real): map<nat, real> {
    if x <= 0.0 then m else m[i := At(m, i, 0.0) + x]
  }

  // ----- the two contexts: the resources themselves, and their shadow

  function WithAmount(s: State, i: nat, x: real): State
    requires i < |s.stocks|
  {
    s.(stocks := s.stocks[i := s.stocks[i].(amount := x)])
  }

  function Reported(s: State, resourceId: Text, applied: real): State {
    if applied <= 0.0 then s else s.(events := s.events + [Produced(resourceId, applied)])
  }

  function CreditDirectly(s: State, resourceId: Text, i: nat, x: real): (r: State)
    requires i < |s.stocks|
    ensures |r.stocks| == |s.stocks|
  {
    var stock := s.stocks[i];
    var next := stock.capacity.Clamp(stock.amount + x);
    Reported(WithAmount(s, i, next), resourceId, next - stock.amount)
  }

  function DebitDirectly(s: State, resourceId: Text, i: nat, x: real): (r: State)
    requires i < |s.stocks|
    ensures |r.stocks| == |s.stocks|
  {
    if s.stocks[i].amount < x then s.(events := s.events + [Refused(resourceId)])
    else WithAmount(s, i, s.stocks[i].amount - x).(events := s.events + [Consumed(resourceId, x)])
  }

  function DirectContext(): Context {
    Context(
      (s: State, i: nat) => if i < |s.stocks| then s.stocks[i].amount else 0.0,
      (s: State, id: Text, i: nat, x: real) => if i < |s.stocks| then CreditDirectly(s, id, i, x) else s,
      (s: State, id: Text, i: nat, x: real) => if i < |s.stocks| then DebitDirectly(s, id, i, x) else s)
  }

  function ShadowAmount(s: State, i: nat): real
    requires i < |s.stocks|
  {
    At(s.shadow, i, s.stocks[i].amount)
  }

  /** A negative capacity is read as no capacity. */
  function ShadowCapacity(capacity: Capacity): Capacity {
    if capacity.Finite? && capacity.limit < 0.0 then Infinite else capacity
  }

  function CreditShadow(s: State, resourceId: Text, i: nat, x: real): (r: State)
    requires i < |s.stocks|
    ensures |r.stocks| == |s.stocks|
  {
    var current := ShadowAmount(s, i);
    var next := ClampAmount(current + x, ShadowCapacity(s.stocks[i].capacity));
    Reported(s.(shadow := s.shadow[i := next], income := Raised(s.income, i, next - current)), resourceId,
             next - current)
  }

  function DebitShadow(s: State, resourceId: Text, i: nat, x: real): (r: State)
    requires i < |s.stocks|
    ensures |r.stocks| == |s.stocks|
  {
    var current := ShadowAmount(s, i);
    if current < x then s.(events := s.events + [Refused(resourceId)])
    else s.(shadow := s.shadow[i := current - x], expense := Raised(s.expense, i, x),
            events := s.events + [Consumed(resourceId, x)])
  }

  function ShadowContext(): Context {
    Context(
      (s: State, i: nat) => if i < |s.stocks| then ShadowAmount(s, i) else 0.0,
      (s: State, id: Text, i: nat, x: real) => if i < |s.stocks| then CreditShadow(s, id, i, x) else s,
      (s: State, id: Text, i: nat, x: real) => if i < |s.stocks| then DebitShadow(s, id, i, x) else s)
  }

  // ----- accumulators

  function LegacyKey(key: Key): Text {
    key.generatorId + (if key.operation == Producing then Ascii(":produce:") else Ascii(":consume:")) + key.resourceId
  }

  /** A legacy accumulator moves under the key it is first used with. */
  function Claimed(s: State, key: Key): State {
    var old_ := LegacyKey(key);
    if old_ !in s.legacy then s
    else s.(legacy := s.legacy - {old_}, accumulators := s.accumulators[key := s.legacy[old_]])
  }

  function Committed(s: State, key: Key, rest: real): State {
    s.(accumulators := s.accumulators[key := rest])
  }

  function RoundDown(x: real, k: real): real
    requires k > 0.0
  {
    (x / k).Floor as real * k
  }

  /** The threshold-aligned part of a total. */
  function ToApply(cfg: Config, total: real): real {
    RoundDown(total + cfg.epsilon, cfg.threshold)
  }

  function Aligned(cfg: Config): real -> real {
    total => ToApply(cfg, total)
  }

  /** `a` is the multiple of `k` that `x` rounds down to; it is positive only from `k` on. */
  ghost predicate RoundsTo(x: real, k: real, a: real) {
    a <= x < a + k && (a > 0.0 ==> a >= k) && (x >= 0.0 ==> a >= 0.0)
  }

  lemma DividedTimes(x: real, k: real)
    requires k > 0.0
    ensures (x / k) * k == x
  {
  }

  /** Scaling by a positive factor keeps a strict order. */
  lemma ScaledBelow(x: real, y: real, k: real, p: real, q: real)
    requires x < y && k > 0.0 && p == x * k && q == y * k
    ensures p < q
  {
    assert (y - x) * k > 0.0;
  }

  lemma PlusOne(n: real, k: real)
    ensures (n + 1.0) * k == n * k + k
  {
  }

  /** A multiple of `k` is positive only from `k` on. */
  lemma MultipleOf(n: int, k: real, a: real)
    requires k > 0.0 && a == n as real * k
    ensures a > 0.0 ==> a >= k
    ensures n >= 0 ==> a >= 0.0
  {
    if n > 1 {
      ScaledBelow(1.0, n as real, k, k, a);
    } else if n < 0 {
      ScaledBelow(n as real, 0.0, k, a, 0.0);
    }
  }

  /** What lies between `n` and one more has multiples that do so too. */
  lemma MultipleWithin(q: real, n: real, k: real, x: real, a: real)
    requires k > 0.0 && n <= q < n + 1.0 && x == q * k && a == n * k
    ensures a <= x < a + k
  {
    if n < q {
      ScaledBelow(n, q, k, a, x);
    } else {
      assert a == x;
    }
    var next := (n + 1.0) * k;
    PlusOne(n, k);
    ScaledBelow(q, n + 1.0, k, x, next);
  }

  /** Rounding a quotient `q` of `x` down to a whole number of `k`s. */
  lemma FloorTimes(q: real, k: real, x: real, a: real)
    requires k > 0.0 && x == q * k && a == q.Floor as real * k
    ensures RoundsTo(x, k, a)
  {
    var n := q.Floor;
    assert n as real <= q < n as real + 1.0;
    MultipleWithin(q, n as real, k, x, a);
    MultipleOf(n, k, a);
    if q < 0.0 {
      ScaledBelow(q, 0.0, k, x, 0.0);
    }
  }

  /** Rounding down to a whole number of `k`s. */
  lemma RoundDownRounds(x: real, k: real)
    requires k > 0.0
    ensures RoundsTo(x, k, RoundDown(x, k))
  {
    var q := x / k;
    DividedTimes(x, k);
    FloorTimes(q, k, x, RoundDown(x, k));
  }

  /** What is applied is at most epsilon above the total, and within a threshold of it. */
  lemma ToApplyIsAligned(cfg: Config, total: real)
    ensures RoundsTo(total + cfg.epsilon, cfg.threshold, ToApply(cfg, total))
    ensures ToApply(cfg, total) > 0.0 ==> total > 0.0
  {
    RoundDownRounds(total + cfg.epsilon, cfg.threshold);
  }

  // ----- rates

  /** The positive rates whose resource exists, in order. */
  function ValidRates(cfg: Config, declared: seq<DeclaredRate>, n: nat): (r: seq<Rate>)
    requires n <= |declared|
    ensures forall k | 0 <= k < |r| :: RateOk(cfg, r[k])
  {
    if n == 0 then []
    else
      var d, before := declared[n - 1], ValidRates(cfg, declared, n - 1);
      if d.rate <= 0.0 || d.resourceId !in cfg.indices then before
      else before + [Rate(d.resourceId, cfg.indices[d.resourceId], d.rate)]
  }

  predicate RateOk(cfg: Config, r: Rate) {
    r.rate > 0.0 && r.resourceId in cfg.indices && r.index == cfg.indices[r.resourceId]
  }

  predicate RatesOk(cfg: Config, rates: seq<Rate>) {
    forall k | 0 <= k < |rates| :: RateOk(cfg, rates[k])
  }

  /** The resource table is the one the state holds amounts for. */
  ghost predicate Indexed(cfg: Config, s: State) {
    forall id | id in cfg.indices :: cfg.indices[id] < |s.stocks|
  }

  /** What a rate yields in a tick. */
  function EarnedIn(g: Generator, seconds: real): real -> real {
    rate => rate * (g.owned * g.multiplier) * seconds
  }

  // ----- the three phases of one generator

  /** What a consumption's accumulator would apply, before anything is committed. */
  datatype Peek = Peek(key: Key, index: nat, total: real, toApply: real)

  datatype Prepared = Prepared(state: State, peeks: seq<Peek>, ratio: real, willApply: bool)

  function ConsumeKey(g: Generator, r: Rate): Key {
    Key(g.id, Consuming, r.resourceId)
  }

  function ProduceKey(g: Generator, r: Rate): Key {
    Key(g.id, Producing, r.resourceId)
  }

  function PeekAt(align: real -> real, s: State, key: Key, index: nat, earned: real): Peek {
    var total := At(s.accumulators, key, 0.0) + earned;
    Peek(key, index, total, align(total))
  }

  /** How much of a consumption the available amount allows, given the ratio so far; what applies is positive. */
  function Throttled(ratio: real, available: real, p: Peek): real {
    if p.toApply <= 0.0 || p.total <= 0.0 then ratio
    else MinOf(ratio, MinOf(available / p.total, available / p.toApply))
  }

  function PrepareOne(align: real -> real, c: Context, p: Prepared, key: Key, index: nat, earned: real): Prepared {
    var claimed := Claimed(p.state, key);
    var peek := PeekAt(align, claimed, key, index, earned);
    Prepared(claimed, p.peeks + [peek], Throttled(p.ratio, c.amount(claimed, index), peek),
             p.willApply || peek.toApply > 0.0)
  }

  /** Phase 1 over the first `n` consumptions. */
  function Prepare(align: real -> real, c: Context, s: State, g: Generator, rates: seq<Rate>, earn: real -> real,
                   n: nat): Prepared
    requires n <= |rates|
  {
    if n == 0 then Prepared(s, [], 1.0, |rates| == 0)
    else
      var r := rates[n - 1];
      PrepareOne(align, c, Prepare(align, c, s, g, rates, earn, n - 1), ConsumeKey(g, r), r.index, earn(r.rate))
  }

  lemma PrepareNext(align: real -> real, c: Context, s: State, g: Generator, rates: seq<Rate>, earn: real -> real,
                    n: nat, before: Prepared)
    requires n < |rates| && Prepare(align, c, s, g, rates, earn, n) == before
    ensures Prepare(align, c, s, g, rates, earn, n + 1)
         == PrepareOne(align, c, before, ConsumeKey(g, rates[n]), rates[n].index, earn(rates[n].rate))
  {
  }

  function ClampRatio(x: real): real {
    MinOf(1.0, MaxOf(0.0, x))
  }

  /** Stores the rest of an accumulator and credits or debits what is applied of it. */
  function Apply(f: (State, Text, nat, real) -> State, s: State, key: Key, rest: real, index: nat,
                 applied: real): State
  {
    var committed := Committed(s, key, rest);
    if applied <= 0.0 then committed else f(committed, key.resourceId, index, applied)
  }

  /** The part of an amount that a ratio lets through. */
  function ShareOf(ratio: real): real -> real {
    x => x * ratio
  }

  /** Applies a share of what a peeked total allows; the rest stays in the accumulator. */
  function ProduceOne(c: Context, s: State, p: Peek, share: real -> real): State {
    Apply(c.credit, s, p.key, p.total - share(p.toApply), p.index, share(p.toApply))
  }

  function ConsumeOne(c: Context, s: State, p: Peek, share: real -> real): State {
    Apply(c.debit, s, p.key, p.total - share(p.toApply), p.index, share(p.toApply))
  }

  /** Accumulates one production and applies its share. */
  function Earn(align: real -> real, c: Context, s: State, key: Key, index: nat, earned: real,
                share: real -> real): State
  {
    var claimed := Claimed(s, key);
    ProduceOne(c, claimed, PeekAt(align, claimed, key, index, earned), share)
  }

  /** One step after the other, over the first `n` elements. */
  function Fold<A>(step: (State, A) -> State, s: State, xs: seq<A>, n: nat): State
    requires n <= |xs|
  {
    if n == 0 then s else step(Fold(step, s, xs, n - 1), xs[n - 1])
  }

  /** A step of phase 2: one production. */
  function Producer(align: real -> real, c: Context, g: Generator, earn: real -> real, share: real -> real)
    : (State, Rate) -> State
  {
    (s: State, r: Rate) => Earn(align, c, s, ProduceKey(g, r), r.index, earn(r.rate), share)
  }

  /** A step of phase 3: one consumption. */
  function Consumer(c: Context, share: real -> real): (State, Peek) -> State {
    (s: State, p: Peek) => ConsumeOne(c, s, p, share)
  }

  /** Phases 2 and 3, once phase 1 has set the ratio. */
  function Settle(align: real -> real, c: Context, p: Prepared, g: Generator, produces: seq<Rate>,
                  earn: real -> real): State
  {
    var ratio := ClampRatio(p.ratio);
    var share := ShareOf(if p.willApply then ratio else 0.0);
    var after := Fold(Producer(align, c, g, earn, share), p.state, produces, |produces|);
    Fold(Consumer(c, ShareOf(ratio)), after, p.peeks, |p.peeks|)
  }

  /** `executeProductionPhases` for rates that were already validated. */
  function RunPhases(align: real -> real, c: Context, s: State, g: Generator, produces: seq<Rate>, consumes: seq<Rate>,
                     earn: real -> real): State
  {
    Settle(align, c, Prepare(align, c, s, g, consumes, earn, |consumes|), g, produces, earn)
  }

  function RunGenerator(cfg: Config, c: Context, s: State, g: Generator, seconds: real): State {
    if g.owned <= 0.0 || !g.enabled then s
    else RunPhases(Aligned(cfg), c, s, g, ValidRates(cfg, g.produces, |g.produces|),
                   ValidRates(cfg, g.consumes, |g.consumes|), EarnedIn(g, seconds))
  }

  function Runner(cfg: Config, c: Context, seconds: real): (State, Generator) -> State {
    (s: State, g: Generator) => RunGenerator(cfg, c, s, g, seconds)
  }

  function RunGenerators(cfg: Config, c: Context, s: State, gs: seq<Generator>, seconds: real): State {
    Fold(Runner(cfg, c, seconds), s, gs, |gs|)
  }

  // ----- runs in related contexts stay related

  type Relation = (State, State) -> bool

  /** Related states hold the same accumulators, and stay related when those change alike. */
  ghost predicate SharesAccumulators(R: Relation) {
    && (forall d: State, s: State | R(d, s) :: d.accumulators == s.accumulators && d.legacy == s.legacy)
    && forall d: State, s: State, m: map<Key, real>, l: map<Text, real> | R(d, s) ::
         R(Booked(d, m, l), Booked(s, m, l))
  }

  function Booked(s: State, m: map<Key, real>, l: map<Text, real>): State {
    s.(accumulators := m, legacy := l)
  }

  ghost predicate SameAmounts(R: Relation, c: Context, e: Context) {
    forall d: State, s: State, i: nat | R(d, s) :: c.amount(d, i) == e.amount(s, i)
  }

  ghost predicate Preserves(R: Relation, f: (State, Text, nat, real) -> State, g: (State, Text, nat, real) -> State) {
    forall d: State, s: State, id: Text, i: nat, x: real | R(d, s) && x > 0.0 :: R(f(d, id, i, x), g(s, id, i, x))
  }

  /** States of two contexts look alike to the phases, and stay related under everything the phases do. */
  ghost predicate Simulates(R: Relation, c: Context, e: Context) {
    SharesAccumulators(R) && SameAmounts(R, c, e) && Preserves(R, c.credit, e.credit) && Preserves(R, c.debit, e.debit)
  }

  lemma ClaimedRespects(R: Relation, d: State, s: State, key: Key)
    requires SharesAccumulators(R) && R(d, s)
    ensures R(Claimed(d, key), Claimed(s, key))
    ensures Claimed(d, key).accumulators == Claimed(s, key).accumulators
  {
    var m, l := Claimed(d, key).accumulators, Claimed(d, key).legacy;
    assert R(Booked(d, m, l), Booked(s, m, l));
  }

  lemma CommittedRespects(R: Relation, d: State, s: State, key: Key, rest: real)
    requires SharesAccumulators(R) && R(d, s)
    ensures R(Committed(d, key, rest), Committed(s, key, rest))
  {
    var m, l := Committed(d, key, rest).accumulators, d.legacy;
    assert R(Booked(d, m, l), Booked(s, m, l));
  }

  lemma ApplyRespects(R: Relation, f: (State, Text, nat, real) -> State, g: (State, Text, nat, real) -> State,
                      d: State, s: State, key: Key, rest: real, index: nat, applied: real)
    requires SharesAccumulators(R) && Preserves(R, f, g) && R(d, s)
    ensures R(Apply(f, d, key, rest, index, applied), Apply(g, s, key, rest, index, applied))
  {
    CommittedRespects(R, d, s, key, rest);
  }

  lemma ApplyOneRespects(R: Relation, c: Context, e: Context, d: State, s: State, p: Peek, share: real -> real)
    requires Simulates(R, c, e) && R(d, s)
    ensures R(ProduceOne(c, d, p, share), ProduceOne(e, s, p, share))
    ensures R(ConsumeOne(c, d, p, share), ConsumeOne(e, s, p, share))
  {
    var rest, applied := p.total - share(p.toApply), share(p.toApply);
    ApplyRespects(R, c.credit, e.credit, d, s, p.key, rest, p.index, applied);
    ApplyRespects(R, c.debit, e.debit, d, s, p.key, rest, p.index, applied);
  }

  ghost predicate PreparedAlike(R: Relation, p: Prepared, q: Prepared) {
    R(p.state, q.state) && p.peeks == q.peeks && p.ratio == q.ratio && p.willApply == q.willApply
  }

  lemma PrepareOneRespects(R: Relation, align: real -> real, c: Context, e: Context, p: Prepared, q: Prepared,
                           key: Key, index: nat, earned: real)
    requires Simulates(R, c, e) && PreparedAlike(R, p, q)
    ensures PreparedAlike(R, PrepareOne(align, c, p, key, index, earned), PrepareOne(align, e, q, key, index, earned))
  {
    ClaimedRespects(R, p.state, q.state, key);
    var peek := PeekAt(align, Claimed(p.state, key), key, index, earned);
    assert PeekAt(align, Claimed(q.state, key), key, index, earned) == peek;
  }

  lemma {:induction false} PrepareRespects(R: Relation, align: real -> real, c: Context, e: Context, d: State, s: State,
                                           g: Generator, rates: seq<Rate>, earn: real -> real, n: nat)
    requires n <= |rates| && Simulates(R, c, e) && R(d, s)
    ensures PreparedAlike(R, Prepare(align, c, d, g, rates, earn, n), Prepare(align, e, s, g, rates, earn, n))
  {
    if n > 0 {
      PrepareRespects(R, align, c, e, d, s, g, rates, earn, n - 1);
      var p, q := Prepare(align, c, d, g, rates, earn, n - 1), Prepare(align, e, s, g, rates, earn, n - 1);
      var r := rates[n - 1];
      PrepareOneRespects(R, align, c, e, p, q, ConsumeKey(g, r), r.index, earn(r.rate));
    }
  }

  lemma EarnRespects(R: Relation, align: real -> real, c: Context, e: Context, d: State, s: State, key: Key, index: nat,
                     earned: real, share: real -> real)
    requires Simulates(R, c, e) && R(d, s)
    ensures R(Earn(align, c, d, key, index, earned, share), Earn(align, e, s, key, index, earned, share))
  {
    ClaimedRespects(R, d, s, key);
    var peek := PeekAt(align, Claimed(d, key), key, index, earned);
    assert PeekAt(align, Claimed(s, key), key, index, earned) == peek;
    ApplyOneRespects(R, c, e, Claimed(d, key), Claimed(s, key), peek, share);
  }

  ghost predicate StepsAlike<A(!new)>(R: Relation, f: (State, A) -> State, f': (State, A) -> State) {
    forall d: State, s: State, x: A | R(d, s) :: R(f(d, x), f'(s, x))
  }

  lemma {:induction false} FoldRespects<A(!new)>(R: Relation, f: (State, A) -> State, f': (State, A) -> State,
                                                 d: State, s: State, xs: seq<A>, n: nat)
    requires n <= |xs| && R(d, s) && StepsAlike(R, f, f')
    ensures R(Fold(f, d, xs, n), Fold(f', s, xs, n))
  {
    if n > 0 {
      FoldRespects(R, f, f', d, s, xs, n - 1);
    }
  }

  lemma PhaseStepsAlike(R: Relation, align: real -> real, c: Context, e: Context, g: Generator, earn: real -> real,
                        share: real -> real, share': real -> real)
    requires Simulates(R, c, e)
    ensures StepsAlike(R, Producer(align, c, g, earn, share), Producer(align, e, g, earn, share))
    ensures StepsAlike(R, Consumer(c, share'), Consumer(e, share'))
  {
    forall d: State, s: State, r: Rate | R(d, s)
      ensures R(Producer(align, c, g, earn, share)(d, r), Producer(align, e, g, earn, share)(s, r))
    {
      EarnRespects(R, align, c, e, d, s, ProduceKey(g, r), r.index, earn(r.rate), share);
    }
    forall d: State, s: State, p: Peek | R(d, s)
      ensures R(Consumer(c, share')(d, p), Consumer(e, share')(s, p))
    {
      ApplyOneRespects(R, c, e, d, s, p, share');
    }
  }

  lemma SettleRespects(R: Relation, align: real -> real, c: Context, e: Context, p: Prepared, q: Prepared, g: Generator,
                       produces: seq<Rate>, earn: real -> real)
    requires Simulates(R, c, e) && PreparedAlike(R, p, q)
    ensures R(Settle(align, c, p, g, produces, earn), Settle(align, e, q, g, produces, earn))
  {
    var ratio := ClampRatio(p.ratio);
    var share := ShareOf(if p.willApply then ratio else 0.0);
    PhaseStepsAlike(R, align, c, e, g, earn, share, ShareOf(ratio));
    var produce, produce' := Producer(align, c, g, earn, share), Producer(align, e, g, earn, share);
    FoldRespects(R, produce, produce', p.state, q.state, produces, |produces|);
    FoldRespects(R, Consumer(c, ShareOf(ratio)), Consumer(e, ShareOf(ratio)),
                 Fold(produce, p.state, produces, |produces|),
                 Fold(produce', q.state, produces, |produces|), p.peeks, |p.peeks|);
  }

  lemma RunGeneratorRespects(R: Relation, cfg: Config, c: Context, e: Context, d: State, s: State, g: Generator,
                             seconds: real)
    requires Simulates(R, c, e) && R(d, s)
    ensures R(RunGenerator(cfg, c, d, g, seconds), RunGenerator(cfg, e, s, g, seconds))
  {
    if g.owned > 0.0 && g.enabled {
      var produces, consumes := ValidRates(cfg, g.produces, |g.produces|), ValidRates(cfg, g.consumes, |g.consumes|);
      var align, earn := Aligned(cfg), EarnedIn(g, seconds);
      PrepareRespects(R, align, c, e, d, s, g, consumes, earn, |consumes|);
      SettleRespects(R, align, c, e, Prepare(align, c, d, g, consumes, earn, |consumes|),
                     Prepare(align, e, s, g, consumes, earn, |consumes|), g, produces, earn);
    }
  }

  /** Whatever the generators, related contexts take related states to related states. */
  lemma RunGeneratorsRespects(R: Relation, cfg: Config, c: Context, e: Context, d: State, s: State, gs: seq<Generator>,
                              seconds: real)
    requires Simulates(R, c, e) && R(d, s)
    ensures R(RunGenerators(cfg, c, d, gs, seconds), RunGenerators(cfg, e, s, gs, seconds))
  {
    var run, run' := Runner(cfg, c, seconds), Runner(cfg, e, seconds);
    forall d: State, s: State, g: Generator | R(d, s)
      ensures R(run(d, g), run'(s, g))
    {
      RunGeneratorRespects(R, cfg, c, e, d, s, g, seconds);
    }
    FoldRespects(R, run, run', d, s, gs, |gs|);
  }

  // ----- a run on the shadow tracks a run on the resources

  predicate BoundedStock(stock: Stock) {
    0.0 <= stock.amount && stock.capacity.Admits(stock.amount)
  }

  /** One resource in a shadow run: what it is, what the shadow shows, and what was recorded for it. */
  datatype Cell = Cell(stock: Stock, shown: real, income: real, expense: real)

  function CellAt(s: State, i: nat): Cell
    requires i < |s.stocks|
  {
    Cell(s.stocks[i], ShadowAmount(s, i), At(s.income, i, 0.0), At(s.expense, i, 0.0))
  }

  predicate Matches(stock: Stock, cell: Cell) {
    && stock == cell.stock.(amount := cell.shown) && BoundedStock(stock)
    && cell.income >= 0.0 && cell.expense >= 0.0
    && cell.shown == cell.stock.amount + cell.income - cell.expense
  }

  ghost predicate TracksAt(d: State, s: State, i: nat)
    requires |d.stocks| == |s.stocks| && i < |s.stocks|
  {
    Matches(d.stocks[i], CellAt(s, i))
  }

  /**
   * State `d` of a direct run and state `s` of a shadow run stand for the same production: the shadow
   * shows the amounts of `d`, and the resources plus income minus expense come to them.
   */
  ghost predicate Tracks(d: State, s: State) {
    && d.accumulators == s.accumulators && d.legacy == s.legacy && d.events == s.events
    && |d.stocks| == |s.stocks|
    && forall i | 0 <= i < |s.stocks| :: TracksAt(d, s, i)
  }

  function CreditedStock(stock: Stock, x: real): Stock {
    stock.(amount := stock.capacity.Clamp(stock.amount + x))
  }

  function CreditedCell(cell: Cell, x: real): Cell {
    var next := ClampAmount(cell.shown + x, ShadowCapacity(cell.stock.capacity));
    cell.(shown := next, income := if next - cell.shown <= 0.0 then cell.income else cell.income + (next - cell.shown))
  }

  function DebitedStock(stock: Stock, x: real): Stock {
    if stock.amount < x then stock else stock.(amount := stock.amount - x)
  }

  function DebitedCell(cell: Cell, x: real): Cell {
    if cell.shown < x then cell
    else cell.(shown := cell.shown - x, expense := if x <= 0.0 then cell.expense else cell.expense + x)
  }

  /** Crediting or debiting a resource and its shadow alike keeps them matched. */
  lemma MatchesThroughout(stock: Stock, cell: Cell, x: real)
    requires Matches(stock, cell) && x >= 0.0
    ensures Matches(CreditedStock(stock, x), CreditedCell(cell, x))
    ensures Matches(DebitedStock(stock, x), DebitedCell(cell, x))
  {
  }

  lemma DirectEffects(d: State, id: Text, i: nat, x: real, j: nat)
    requires i < |d.stocks| && j < |d.stocks|
    ensures CreditDirectly(d, id, i, x).stocks[j] == if i == j then CreditedStock(d.stocks[i], x) else d.stocks[j]
    ensures DebitDirectly(d, id, i, x).stocks[j] == if i == j then DebitedStock(d.stocks[i], x) else d.stocks[j]
  {
  }

  lemma CreditShadowEffect(s: State, id: Text, i: nat, x: real, j: nat)
    requires i < |s.stocks| && j < |s.stocks|
    ensures CellAt(CreditShadow(s, id, i, x), j) == if i == j then CreditedCell(CellAt(s, i), x) else CellAt(s, j)
  {
  }

  lemma DebitShadowEffect(s: State, id: Text, i: nat, x: real, j: nat)
    requires i < |s.stocks| && j < |s.stocks|
    ensures CellAt(DebitShadow(s, id, i, x), j) == if i == j then DebitedCell(CellAt(s, i), x) else CellAt(s, j)
  {
  }

  lemma CreditTracks(d: State, s: State, id: Text, i: nat, x: real)
    requires Tracks(d, s) && i < |s.stocks| && x >= 0.0
    ensures Tracks(CreditDirectly(d, id, i, x), CreditShadow(s, id, i, x))
  {
    var d', s' := CreditDirectly(d, id, i, x), CreditShadow(s, id, i, x);
    assert TracksAt(d, s, i);
    forall j | 0 <= j < |s.stocks|
      ensures TracksAt(d', s', j)
    {
      assert TracksAt(d, s, j);
      DirectEffects(d, id, i, x, j);
      CreditShadowEffect(s, id, i, x, j);
      MatchesThroughout(d.stocks[i], CellAt(s, i), x);
    }
  }

  /** The same debit is refused or granted on both sides. */
  lemma DebitsAgree(d: State, s: State, id: Text, i: nat, x: real)
    requires Tracks(d, s) && i < |s.stocks|
    ensures DebitDirectly(d, id, i, x).events == DebitShadow(s, id, i, x).events
  {
    assert TracksAt(d, s, i) && d.stocks[i].amount == ShadowAmount(s, i);
  }

  lemma DebitTracksAt(d: State, s: State, id: Text, i: nat, x: real, j: nat)
    requires Tracks(d, s) && i < |s.stocks| && j < |s.stocks| && x >= 0.0
    ensures |DebitDirectly(d, id, i, x).stocks| == |DebitShadow(s, id, i, x).stocks| == |s.stocks|
    ensures TracksAt(DebitDirectly(d, id, i, x), DebitShadow(s, id, i, x), j)
  {
    assert TracksAt(d, s, i) && TracksAt(d, s, j);
    DirectEffects(d, id, i, x, j);
    DebitShadowEffect(s, id, i, x, j);
    MatchesThroughout(d.stocks[i], CellAt(s, i), x);
  }

  lemma DebitTracks(d: State, s: State, id: Text, i: nat, x: real)
    requires Tracks(d, s) && i < |s.stocks| && x >= 0.0
    ensures Tracks(DebitDirectly(d, id, i, x), DebitShadow(s, id, i, x))
  {
    var d', s' := DebitDirectly(d, id, i, x), DebitShadow(s, id, i, x);
    DebitsAgree(d, s, id, i, x);
    forall j | 0 <= j < |s.stocks|
      ensures TracksAt(d', s', j)
    {
      DebitTracksAt(d, s, id, i, x, j);
    }
  }

  lemma BookkeepingTracks(d: State, s: State, m: map<Key, real>, l: map<Text, real>)
    requires Tracks(d, s)
    ensures Tracks(Booked(d, m, l), Booked(s, m, l))
  {
    forall i | 0 <= i < |s.stocks|
      ensures TracksAt(Booked(d, m, l), Booked(s, m, l), i)
    {
      assert TracksAt(d, s, i);
    }
  }

  /** Throughout, the shadow run leaves the resources alone and records rates of resources that exist. */
  ghost predicate TracksFrom(base: seq<Stock>, d: State, s: State) {
    && Tracks(d, s) && s.stocks == base
    && forall i | i in s.income || i in s.expense :: i < |base|
  }

  lemma CreditsTrackFrom(base: seq<Stock>, d: State, s: State, id: Text, i: nat, x: real)
    requires TracksFrom(base, d, s) && x > 0.0
    ensures TracksFrom(base, DirectContext().credit(d, id, i, x), ShadowContext().credit(s, id, i, x))
  {
    if i < |s.stocks| {
      CreditTracks(d, s, id, i, x);
    }
  }

  lemma DebitsTrackFrom(base: seq<Stock>, d: State, s: State, id: Text, i: nat, x: real)
    requires TracksFrom(base, d, s) && x > 0.0
    ensures TracksFrom(base, DirectContext().debit(d, id, i, x), ShadowContext().debit(s, id, i, x))
  {
    if i < |s.stocks| {
      DebitTracks(d, s, id, i, x);
    }
  }

  /** The shadow context does to the shadow what the direct context does to the resources. */
  lemma ShadowSimulatesDirect(base: seq<Stock>)
    ensures Simulates((d: State, s: State) => TracksFrom(base, d, s), DirectContext(), ShadowContext())
  {
    var R, c, e := (d: State, s: State) => TracksFrom(base, d, s), DirectContext(), ShadowContext();
    forall d: State, s: State, i: nat | R(d, s)
      ensures c.amount(d, i) == e.amount(s, i)
    {
      if i < |s.stocks| {
        assert TracksAt(d, s, i);
      }
    }
    forall d: State, s: State, m: map<Key, real>, l: map<Text, real> | R(d, s)
      ensures R(Booked(d, m, l), Booked(s, m, l))
    {
      BookkeepingTracks(d, s, m, l);
    }
    forall d: State, s: State, id: Text, i: nat, x: real | R(d, s) && x > 0.0
      ensures R(c.credit(d, id, i, x), e.credit(s, id, i, x))
    {
      CreditsTrackFrom(base, d, s, id, i, x);
    }
    forall d: State, s: State, id: Text, i: nat, x: real | R(d, s) && x > 0.0
      ensures R(c.debit(d, id, i, x), e.debit(s, id, i, x))
    {
      DebitsTrackFrom(base, d, s, id, i, x);
    }
  }

  // ----- the finalize-tick flow refines the direct flow

  /** A rate raised by what an amount is per second. */
  function RaisedRate(rate: real, amount: real, seconds: real): real
    requires seconds > 0.0
  {
    var perSecond := amount / seconds;
    if perSecond > 0.0 then rate + perSecond else rate
  }

  function RatedStock(stock: Stock, income: real, expense: real, seconds: real): Stock
    requires seconds > 0.0
  {
    stock.(income := RaisedRate(stock.income, income, seconds), expense := RaisedRate(stock.expense, expense, seconds))
  }

  /** The shadow's income and expense become rates per second. */
  function WithRates(s: State, seconds: real): (r: State)
    requires seconds > 0.0
    ensures |r.stocks| == |s.stocks|
  {
    s.(stocks := seq(|s.stocks|, i requires 0 <= i < |s.stocks| =>
      RatedStock(s.stocks[i], At(s.income, i, 0.0), At(s.expense, i, 0.0), seconds)))
  }

  function FinalizedStock(stock: Stock, deltaMs: real): Stock {
    stock.(amount := Rolled(stock.amount, stock.income, stock.expense, stock.capacity, deltaMs))
  }

  /** `finalizeTick`: rates move every amount. */
  function Finalized(s: State, deltaMs: real): (r: State)
    ensures |r.stocks| == |s.stocks|
  {
    s.(stocks := seq(|s.stocks|, i requires 0 <= i < |s.stocks| => FinalizedStock(s.stocks[i], deltaMs)))
  }

  function FreshShadow(s: State): State {
    s.(shadow := map[], income := map[], expense := map[])
  }

  function ShadowRun(cfg: Config, s: State, gs: seq<Generator>, seconds: real): State {
    RunGenerators(cfg, ShadowContext(), FreshShadow(s), gs, seconds)
  }

  /** The flow with `applyViaFinalizeTick`, up to and including the host's `finalizeTick`. */
  function FinalizeFlow(cfg: Config, s: State, gs: seq<Generator>, deltaMs: real): State
    requires deltaMs > 0.0
  {
    Finalized(WithRates(ShadowRun(cfg, s, gs, deltaMs / 1000.0), deltaMs / 1000.0), deltaMs)
  }

  function DirectFlow(cfg: Config, s: State, gs: seq<Generator>, deltaMs: real): State {
    RunGenerators(cfg, DirectContext(), s, gs, deltaMs / 1000.0)
  }

  /** Amounts within bounds, and no rates left over from an earlier tick. */
  ghost predicate ReadyForTick(s: State) {
    forall i | 0 <= i < |s.stocks| ::
      BoundedStock(s.stocks[i]) && s.stocks[i].income == 0.0 && s.stocks[i].expense == 0.0
  }

  lemma RaisedFromZero(amount: real, seconds: real)
    requires seconds > 0.0 && amount >= 0.0
    ensures RaisedRate(0.0, amount, seconds) == amount / seconds
  {
    var q := amount / seconds;
    DividedTimes(amount, seconds);
    if q < 0.0 {
      ScaledBelow(q, 0.0, seconds, amount, 0.0);
    }
  }

  /** Rates that stand for what the shadow recorded roll the resource to what the shadow shows. */
  lemma RolledIsShown(cell: Cell, seconds: real)
    requires seconds > 0.0 && cell.stock.income == cell.stock.expense == 0.0
    requires Matches(cell.stock.(amount := cell.shown), cell)
    ensures FinalizedStock(RatedStock(cell.stock, cell.income, cell.expense, seconds), seconds * 1000.0).amount
            == cell.shown
  {
    RaisedFromZero(cell.income, seconds);
    RaisedFromZero(cell.expense, seconds);
    DividedTimes(cell.income, seconds);
    DividedTimes(cell.expense, seconds);
  }

  lemma ShadowRunTracks(cfg: Config, s: State, gs: seq<Generator>, seconds: real)
    requires ReadyForTick(s)
    ensures TracksFrom(s.stocks, RunGenerators(cfg, DirectContext(), s, gs, seconds), ShadowRun(cfg, s, gs, seconds))
  {
    var start, R := FreshShadow(s), (d: State, t: State) => TracksFrom(s.stocks, d, t);
    forall i | 0 <= i < |s.stocks|
      ensures TracksAt(s, start, i)
    {
    }
    ShadowSimulatesDirect(s.stocks);
    RunGeneratorsRespects(R, cfg, DirectContext(), ShadowContext(), s, start, gs, seconds);
  }

  lemma TrackedAmount(d: State, ran: State, base: seq<Stock>, i: nat, seconds: real)
    requires TracksFrom(base, d, ran) && i < |base| && base[i].income == base[i].expense == 0.0 && seconds > 0.0
    ensures Finalized(WithRates(ran, seconds), seconds * 1000.0).stocks[i].amount == d.stocks[i].amount
    ensures BoundedStock(d.stocks[i])
  {
    assert TracksAt(d, ran, i);
    RolledIsShown(CellAt(ran, i), seconds);
  }

  /**
   * For any generators, running the shadow, turning its totals into rates and finalizing the tick leaves
   * the amounts, accumulators and reported quantities of mutating the resources directly.
   */
  lemma FinalizeFlowRefinesDirectFlow(cfg: Config, s: State, gs: seq<Generator>, deltaMs: real)
    requires ReadyForTick(s) && deltaMs > 0.0
    ensures var d, f := DirectFlow(cfg, s, gs, deltaMs), FinalizeFlow(cfg, s, gs, deltaMs);
            && f.accumulators == d.accumulators && f.legacy == d.legacy && f.events == d.events
            && |f.stocks| == |d.stocks|
            && forall i | 0 <= i < |d.stocks| :: f.stocks[i].amount == d.stocks[i].amount && BoundedStock(d.stocks[i])
  {
    var seconds := deltaMs / 1000.0;
    assert seconds * 1000.0 == deltaMs;
    ShadowRunTracks(cfg, s, gs, seconds);
    var d, f := DirectFlow(cfg, s, gs, deltaMs), FinalizeFlow(cfg, s, gs, deltaMs);
    forall i | 0 <= i < |d.stocks|
      ensures f.stocks[i].amount == d.stocks[i].amount && BoundedStock(d.stocks[i])
    {
      TrackedAmount(d, ShadowRun(cfg, s, gs, seconds), s.stocks, i, seconds);
    }
  }

  // ----- with distinct inputs, what is throttled can be spent

  /** Every spend found what it needed. */
  predicate NothingRefused(events: seq<Event>) {
    forall k | 0 <= k < |events| :: !events[k].Refused?
  }

  ghost predicate DistinctInputs(rates: seq<Rate>) {
    forall j, k | 0 <= j < k < |rates| :: rates[j].index != rates[k].index
  }

  function DirectAmount(s: State, i: nat): real {
    DirectContext().amount(s, i)
  }

  /** What production does between the phases: amounts stay within bounds and only grow. */
  ghost predicate Grows(s: State, t: State) {
    && |t.stocks| == |s.stocks| && (NothingRefused(s.events) ==> NothingRefused(t.events))
    && forall i | 0 <= i < |s.stocks| && BoundedStock(s.stocks[i]) ::
         && BoundedStock(t.stocks[i]) && s.stocks[i].amount <= t.stocks[i].amount
         && t.stocks[i].capacity == s.stocks[i].capacity
  }

  lemma CreditGrows(s: State, id: Text, i: nat, x: real)
    requires x > 0.0
    ensures Grows(s, DirectContext().credit(s, id, i, x))
  {
    if i < |s.stocks| {
      forall j | 0 <= j < |s.stocks|
        ensures CreditDirectly(s, id, i, x).stocks[j] == if i == j then CreditedStock(s.stocks[i], x) else s.stocks[j]
      {
        DirectEffects(s, id, i, x, j);
      }
    }
  }

  lemma {:induction false} FoldGrows(step: (State, Rate) -> State, s: State, rates: seq<Rate>, n: nat)
    requires n <= |rates| && forall t: State, r: Rate :: Grows(t, step(t, r))
    ensures Grows(s, Fold(step, s, rates, n))
  {
    if n > 0 {
      FoldGrows(step, s, rates, n - 1);
      GrowsOn(s, Fold(step, s, rates, n - 1), Fold(step, s, rates, n));
    }
  }

  lemma GrowsOn(s: State, t: State, u: State)
    requires Grows(s, t) && Grows(t, u)
    ensures Grows(s, u)
  {
  }

  /** Crediting only lets amounts grow. */
  ghost predicate CreditsGrow(c: Context) {
    forall s: State, id: Text, i: nat, x: real | x > 0.0 :: Grows(s, c.credit(s, id, i, x))
  }

  lemma ProductionGrows(align: real -> real, s: State, g: Generator, rates: seq<Rate>, earn: real -> real,
                        share: real -> real)
    ensures Grows(s, Fold(Producer(align, DirectContext(), g, earn, share), s, rates, |rates|))
  {
    var c := DirectContext();
    forall t: State, id: Text, i: nat, x: real | x > 0.0
      ensures Grows(t, c.credit(t, id, i, x))
    {
      CreditGrows(t, id, i, x);
    }
    var step := Producer(align, c, g, earn, share);
    forall t: State, r: Rate
      ensures Grows(t, step(t, r))
    {
      EarnGrows(align, c, t, ProduceKey(g, r), r.index, earn(r.rate), share);
    }
    FoldGrows(step, s, rates, |rates|);
  }

  lemma GrowsAlike(s: State, t: State, u: State)
    requires t.stocks == s.stocks && t.events == s.events && Grows(t, u)
    ensures Grows(s, u)
  {
  }

  lemma ProduceOneGrows(c: Context, s: State, p: Peek, share: real -> real)
    requires CreditsGrow(c)
    ensures Grows(s, ProduceOne(c, s, p, share))
  {
    var applied := share(p.toApply);
    var committed := Committed(s, p.key, p.total - applied);
    if applied > 0.0 {
      GrowsAlike(s, committed, c.credit(committed, p.key.resourceId, p.index, applied));
    }
  }

  lemma EarnGrows(align: real -> real, c: Context, s: State, key: Key, index: nat, earned: real, share: real -> real)
    requires CreditsGrow(c)
    ensures Grows(s, Earn(align, c, s, key, index, earned, share))
  {
    var claimed := Claimed(s, key);
    ProduceOneGrows(c, claimed, PeekAt(align, claimed, key, index, earned), share);
    GrowsAlike(s, claimed, Earn(align, c, s, key, index, earned, share));
  }

  /** The ratio of phase 1 leaves every consumption within what was available. */
  ghost predicate Affordable(s: State, p: Prepared) {
    forall k | 0 <= k < |p.peeks| && p.peeks[k].toApply > 0.0 ::
      p.ratio <= DirectAmount(s, p.peeks[k].index) / p.peeks[k].toApply
  }

  lemma ThrottledWithin(ratio: real, available: real, p: Peek)
    requires p.toApply > 0.0 ==> p.total > 0.0
    ensures Throttled(ratio, available, p) <= ratio
    ensures p.toApply > 0.0 ==> Throttled(ratio, available, p) <= available / p.toApply
  {
  }

  /** So far nothing but accumulators changed, and the ratio fits. */
  ghost predicate Fitting(s: State, p: Prepared) {
    Affordable(s, p) && p.state.stocks == s.stocks && p.state.events == s.events
  }

  lemma PrepareOneFits(cfg: Config, s: State, p: Prepared, key: Key, index: nat, earned: real)
    requires Fitting(s, p)
    ensures Fitting(s, PrepareOne(Aligned(cfg), DirectContext(), p, key, index, earned))
  {
    var claimed := Claimed(p.state, key);
    var peek := PeekAt(Aligned(cfg), claimed, key, index, earned);
    ToApplyIsAligned(cfg, peek.total);
    assert DirectAmount(claimed, index) == DirectAmount(s, index);
    ThrottledWithin(p.ratio, DirectAmount(s, index), peek);
  }

  /** What every step of phase 1 keeps, phase 1 keeps. */
  lemma {:induction false} KeptByPrepare(kept: Prepared -> bool, align: real -> real, c: Context, s: State,
                                         g: Generator, rates: seq<Rate>, earn: real -> real, n: nat)
    requires n <= |rates| && kept(Prepared(s, [], 1.0, |rates| == 0))
    requires forall p, key, index: nat, earned {:trigger PrepareOne(align, c, p, key, index, earned)} | kept(p) ::
               kept(PrepareOne(align, c, p, key, index, earned))
    ensures kept(Prepare(align, c, s, g, rates, earn, n))
  {
    if n > 0 {
      KeptByPrepare(kept, align, c, s, g, rates, earn, n - 1);
    }
  }

  lemma PrepareIsAffordable(cfg: Config, s: State, g: Generator, rates: seq<Rate>, earn: real -> real)
    ensures Fitting(s, Prepare(Aligned(cfg), DirectContext(), s, g, rates, earn, |rates|))
  {
    var align, c, kept := Aligned(cfg), DirectContext(), (p: Prepared) => Fitting(s, p);
    forall p, key, index: nat, earned {:trigger PrepareOne(align, c, p, key, index, earned)} | kept(p)
      ensures kept(PrepareOne(align, c, p, key, index, earned))
    {
      PrepareOneFits(cfg, s, p, key, index, earned);
    }
    KeptByPrepare(kept, align, c, s, g, rates, earn, |rates|);
  }

  ghost predicate FollowRates(peeks: seq<Peek>, rates: seq<Rate>, n: nat)
    requires n <= |rates|
  {
    |peeks| == n && forall k | 0 <= k < n :: peeks[k].index == rates[k].index
  }

  lemma PeeksOneMore(align: real -> real, c: Context, p: Prepared, key: Key, rates: seq<Rate>, n: nat, earned: real)
    requires n < |rates| && FollowRates(p.peeks, rates, n)
    ensures FollowRates(PrepareOne(align, c, p, key, rates[n].index, earned).peeks, rates, n + 1)
  {
  }

  lemma {:induction false} PeeksFollowRates(align: real -> real, c: Context, s: State, g: Generator, rates: seq<Rate>,
                                            earn: real -> real, n: nat)
    requires n <= |rates|
    ensures FollowRates(Prepare(align, c, s, g, rates, earn, n).peeks, rates, n)
  {
    if n > 0 {
      var m := n - 1;
      PeeksFollowRates(align, c, s, g, rates, earn, m);
      var before, r := Prepare(align, c, s, g, rates, earn, m), rates[m];
      PrepareNext(align, c, s, g, rates, earn, m, before);
      PeeksOneMore(align, c, before, ConsumeKey(g, r), rates, m, earn(r.rate));
    }
  }

  /** A ratio no larger than available over required asks for no more than is available. */
  lemma ThrottledFits(raw: real, available: real, required: real)
    requires required > 0.0 && available >= 0.0 && raw <= available / required
    ensures ShareOf(ClampRatio(raw))(required) <= available
  {
    var q, ratio := available / required, ClampRatio(raw);
    DividedTimes(available, required);
    if q < 0.0 {
      ScaledBelow(q, 0.0, required, available, 0.0);
    }
    assert ratio <= q;
    if ratio < q {
      ScaledBelow(ratio, q, required, ratio * required, available);
    } else {
      assert ratio * required == available;
    }
    assert ShareOf(ratio)(required) == required * ratio;
  }

  ghost predicate Suffices(s: State, p: Peek, share: real -> real) {
    p.index < |s.stocks| ==> share(p.toApply) <= s.stocks[p.index].amount
  }

  lemma ConsumeSuffices(s: State, p: Peek, share: real -> real)
    requires Suffices(s, p, share) && NothingRefused(s.events)
    ensures var t := Consumer(DirectContext(), share)(s, p);
            && |t.stocks| == |s.stocks| && NothingRefused(t.events)
            && forall i | 0 <= i < |s.stocks| && i != p.index :: t.stocks[i] == s.stocks[i]
  {
  }

  lemma {:induction false} ConsumptionSuffices(s: State, peeks: seq<Peek>, share: real -> real, n: nat)
    requires n <= |peeks| && NothingRefused(s.events)
    requires forall k | 0 <= k < |peeks| :: Suffices(s, peeks[k], share)
    requires forall j, k | 0 <= j < k < |peeks| :: peeks[j].index != peeks[k].index
    ensures var t := Fold(Consumer(DirectContext(), share), s, peeks, n);
            && |t.stocks| == |s.stocks| && NothingRefused(t.events)
            && forall i | 0 <= i < |s.stocks| && (forall k | 0 <= k < n :: peeks[k].index != i) ::
                 t.stocks[i] == s.stocks[i]
  {
    if n > 0 {
      ConsumptionSuffices(s, peeks, share, n - 1);
      assert Suffices(s, peeks[n - 1], share);
      ConsumeSuffices(Fold(Consumer(DirectContext(), share), s, peeks, n - 1), peeks[n - 1], share);
    }
  }

  /**
   * A generator whose inputs are distinct resources is never refused: the ratio found in phase 1 still
   * fits in phase 3, after its own production and its other consumptions.
   */
  lemma DistinctInputsAreNeverRefused(cfg: Config, s: State, g: Generator, seconds: real)
    requires NothingRefused(s.events) && forall i | 0 <= i < |s.stocks| :: BoundedStock(s.stocks[i])
    requires DistinctInputs(ValidRates(cfg, g.consumes, |g.consumes|))
    ensures NothingRefused(RunGenerator(cfg, DirectContext(), s, g, seconds).events)
  {
    if g.owned > 0.0 && g.enabled {
      var produces, consumes := ValidRates(cfg, g.produces, |g.produces|), ValidRates(cfg, g.consumes, |g.consumes|);
      var align, earn := Aligned(cfg), EarnedIn(g, seconds);
      var p := Prepare(align, DirectContext(), s, g, consumes, earn, |consumes|);
      PrepareIsAffordable(cfg, s, g, consumes, earn);
      PeeksFollowRates(align, DirectContext(), s, g, consumes, earn, |consumes|);
      SettleSuffices(align, s, p, g, produces, earn);
    }
  }

  lemma SettleSuffices(align: real -> real, s: State, p: Prepared, g: Generator, produces: seq<Rate>,
                       earn: real -> real)
    requires NothingRefused(s.events) && forall i | 0 <= i < |s.stocks| :: BoundedStock(s.stocks[i])
    requires Affordable(s, p) && p.state.stocks == s.stocks && p.state.events == s.events
    requires forall j, k | 0 <= j < k < |p.peeks| :: p.peeks[j].index != p.peeks[k].index
    ensures NothingRefused(Settle(align, DirectContext(), p, g, produces, earn).events)
  {
    var ratio := ClampRatio(p.ratio);
    var scale := ShareOf(if p.willApply then ratio else 0.0);
    var after := Fold(Producer(align, DirectContext(), g, earn, scale), p.state, produces, |produces|);
    ProductionGrows(align, p.state, g, produces, earn, scale);
    forall k | 0 <= k < |p.peeks|
      ensures Suffices(after, p.peeks[k], ShareOf(ratio))
    {
      var peek := p.peeks[k];
      if peek.index < |s.stocks| {
        if peek.toApply > 0.0 {
          ThrottledFits(p.ratio, s.stocks[peek.index].amount, peek.toApply);
        } else {
          NothingToShare(p.ratio, peek.toApply);
        }
      }
    }
    ConsumptionSuffices(after, p.peeks, ShareOf(ratio), |p.peeks|);
  }

  lemma NothingToShare(raw: real, x: real)
    requires x <= 0.0
    ensures ShareOf(ClampRatio(raw))(x) <= 0.0
  {
  }

  ghost predicate AllBounded(s: State) {
    forall i | 0 <= i < |s.stocks| :: BoundedStock(s.stocks[i])
  }

  lemma DirectBounds(s: State, id: Text, i: nat, x: real)
    requires AllBounded(s) && x > 0.0
    ensures AllBounded(DirectContext().credit(s, id, i, x)) && AllBounded(DirectContext().debit(s, id, i, x))
  {
    if i < |s.stocks| {
      var credited, debited := CreditDirectly(s, id, i, x), DebitDirectly(s, id, i, x);
      forall j | 0 <= j < |s.stocks|
        ensures BoundedStock(credited.stocks[j]) && BoundedStock(debited.stocks[j])
      {
        DirectEffects(s, id, i, x, j);
      }
    }
  }

  lemma BookedBounds(s: State, m: map<Key, real>, l: map<Text, real>)
    requires AllBounded(s)
    ensures AllBounded(Booked(s, m, l))
  {
    forall i | 0 <= i < |s.stocks|
      ensures BoundedStock(Booked(s, m, l).stocks[i])
    {
      assert BoundedStock(s.stocks[i]);
    }
  }

  lemma DirectKeepsBounds()
    ensures Simulates((d: State, s: State) => d == s && AllBounded(s), DirectContext(), DirectContext())
  {
    var R, c := (d: State, s: State) => d == s && AllBounded(s), DirectContext();
    forall d: State, s: State, m: map<Key, real>, l: map<Text, real> | R(d, s)
      ensures R(Booked(d, m, l), Booked(s, m, l))
    {
      BookedBounds(s, m, l);
    }
    assert SharesAccumulators(R) && SameAmounts(R, c, c);
    forall d: State, s: State, id: Text, i: nat, x: real | R(d, s) && x > 0.0
      ensures R(c.credit(d, id, i, x), c.credit(s, id, i, x)) && R(c.debit(d, id, i, x), c.debit(s, id, i, x))
    {
      DirectBounds(s, id, i, x);
    }
    assert Preserves(R, c.credit, c.credit) && Preserves(R, c.debit, c.debit);
  }

  /** The same over a whole list of generators. */
  lemma {:induction false} RunsAreNeverRefused(cfg: Config, s: State, gs: seq<Generator>, seconds: real, n: nat)
    requires n <= |gs| && NothingRefused(s.events) && AllBounded(s)
    requires forall g | g in gs :: DistinctInputs(ValidRates(cfg, g.consumes, |g.consumes|))
    ensures var t := Fold(Runner(cfg, DirectContext(), seconds), s, gs, n);
            NothingRefused(t.events) && AllBounded(t)
  {
    if n > 0 {
      RunsAreNeverRefused(cfg, s, gs, seconds, n - 1);
      var before := Fold(Runner(cfg, DirectContext(), seconds), s, gs, n - 1);
      assert gs[n - 1] in gs;
      DistinctInputsAreNeverRefused(cfg, before, gs[n - 1], seconds);
      DirectKeepsBounds();
      RunGeneratorRespects((d: State, s: State) => d == s && AllBounded(s), cfg, DirectContext(), DirectContext(),
                           before, before, gs[n - 1], seconds);
    }
  }
}
