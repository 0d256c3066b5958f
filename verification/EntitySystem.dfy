/**
 * Levelling of entity instances (packages/core/src/entity-system.ts:648-704): experience turns into levels
 * for as long as the requirement of the current level is met.
 */
module Levelling {
  import opened Wrappers

  /** The level cap, and the experience that each level requires at a step. */
  datatype Progression = Progression(maxLevel: Option<real>, required: (int, int) -> real)

  const MIN_LEVEL: int := 1

  predicate BelowCap(p: Progression, level: int) {
    p.maxLevel.None? || (level as real) < (if p.maxLevel.value < 1.0 then 1.0 else p.maxLevel.value)
  }

  /** The loop goes on: below the cap, with a positive requirement that is met. */
  predicate Advances(p: Progression, level: int, experience: real, step: int) {
    BelowCap(p, level) && 0.0 < p.required(level, step) <= experience
  }

  /**
   * Positive requirements do not come arbitrarily close to zero, which a finite cap guarantees; without
   * that the loop need not end.
   */
  ghost predicate AtLeast(p: Progression, step: int, least: real) {
    && least > 0.0
    && forall level | BelowCap(p, level) && p.required(level, step) > 0.0 :: p.required(level, step) >= least
  }

  lemma FloorDrops(x: real, r: real, least: real)
    requires least > 0.0 && r >= least && x >= r
    ensures 0 <= ((x - r) / least).Floor < (x / least).Floor
  {
    QuotientDrops(x, r, least, x / least, (x - r) / least);
  }

  lemma NonNegativeQuotient(x: real, k: real, q: real)
    requires k > 0.0 && x >= 0.0 && q * k == x
    ensures q >= 0.0
  {
    if q < 0.0 {
      NegativeTimes(q, k);
    }
  }

  lemma NegativeTimes(x: real, k: real)
    requires x < 0.0 && k > 0.0
    ensures x * k < 0.0
  {
  }

  lemma QuotientDrops(x: real, r: real, least: real, q: real, p: real)
    requires least > 0.0 && r >= least && x >= r && q == x / least && p == (x - r) / least
    ensures 0.0 <= p <= q - 1.0
  {
    assert q * least == x && p * least == x - r;
    NonNegativeQuotient(x - r, least, p);
    assert (q - 1.0 - p) * least == r - least;
    NonNegativeQuotient(r - least, least, q - 1.0 - p);
  }

  datatype Progress = Progress(level: int, experience: real)

  /** Where the loop ends. */
  function Climb(p: Progression, at: Progress, step: int, ghost least: real): Progress
    requires AtLeast(p, step, least)
    decreases if at.experience >= 0.0 then (at.experience / least).Floor else 0
  {
    if !Advances(p, at.level, at.experience, step) then at
    else
      var r := p.required(at.level, step);
      FloorDrops(at.experience, r, least);
      Climb(p, Progress(at.level + 1, at.experience - r), step, least)
  }

  /** The requirements of `n` levels in a row. */
  ghost function Spent(p: Progression, level: int, n: nat, step: int): real
    decreases n
  {
    if n == 0 then 0.0 else p.required(level, step) + Spent(p, level + 1, n - 1, step)
  }

  /** A level that cannot be left: it is at the cap, or its requirement is not positive or not met. */
  predicate StopsAt(p: Progression, level: int, experience: real, step: int) {
    || (p.maxLevel.Some? && 1 <= level && p.maxLevel.value <= level as real)
    || p.required(level, step) <= 0.0
    || experience < p.required(level, step)
  }

  /** A level that may be left: below the cap, for a positive requirement. */
  predicate MayLeave(p: Progression, level: int, step: int) {
    && (p.maxLevel.None? || (level as real) < 1.0 || (level as real) < p.maxLevel.value)
    && p.required(level, step) > 0.0
  }

  /** Climbing loses no experience, leaves only levels that may be left, goes up, and stops only for a reason. */
  lemma {:induction false} ClimbConserves(p: Progression, at: Progress, step: int, least: real) returns (gained: nat)
    requires AtLeast(p, step, least)
    ensures var end := Climb(p, at, step, least);
            && end.level == at.level + gained && at.experience == end.experience + Spent(p, at.level, gained, step)
            && StopsAt(p, end.level, end.experience, step)
            && (forall n | at.level <= n < end.level :: MayLeave(p, n, step))
            && (at.experience >= 0.0 ==> end.experience >= 0.0)
    decreases if at.experience >= 0.0 then (at.experience / least).Floor else 0
  {
    if !Advances(p, at.level, at.experience, step) {
      gained := 0;
    } else {
      var r := p.required(at.level, step);
      FloorDrops(at.experience, r, least);
      gained := ClimbConserves(p, Progress(at.level + 1, at.experience - r), step, least);
      gained := gained + 1;
    }
  }

  /** Experience that comes later can as well come first. */
  lemma {:induction false} ClimbInTwo(p: Progression, at: Progress, more: real, step: int, least: real)
    requires AtLeast(p, step, least) && more >= 0.0
    ensures var first := Climb(p, at, step, least);
            Climb(p, first.(experience := first.experience + more), step, least)
            == Climb(p, at.(experience := at.experience + more), step, least)
    decreases if at.experience >= 0.0 then (at.experience / least).Floor else 0
  {
    if Advances(p, at.level, at.experience, step) {
      var r := p.required(at.level, step);
      FloorDrops(at.experience, r, least);
      ClimbInTwo(p, Progress(at.level + 1, at.experience - r), more, step, least);
      assert at.experience + more - r == at.experience - r + more;
    }
  }
}

/** Instance ids (packages/core/src/entity-system.ts:911-934). */
module InstanceIds {
  import opened Wrappers
  import opened Texts
  import opened Counting
  import opened CanonicalJson

  const INSTANCE_SUFFIX_LENGTH := 6
  const MAX_INSTANCE_ID_ATTEMPTS := 5

  /** `n.toString(16)`. */
  function HexText(n: nat): (t: Text)
    ensures |t| > 0
  {
    if n < 16 then [Hex(n)] else HexText(n / 16) + [Hex(n % 16)]
  }

  function Zeros(n: nat): (t: Text)
    ensures |t| == n
  {
    seq(n, _ => 0x30)
  }

  function PadStart(t: Text, length: nat): Text {
    if |t| >= length then t else Zeros(length - |t|) + t
  }

  function Suffix(n: nat): Text {
    PadStart(HexText(n), INSTANCE_SUFFIX_LENGTH)
  }

  function InstanceId(prefix: Text, n: nat): Text {
    prefix + Suffix(n)
  }

  /** The number a run of hexadecimal digits spells. */
  function Value(t: Text): nat {
    if t == [] then 0 else Value(t[..|t| - 1]) * 16 + DigitValue(t[|t| - 1])
  }

  function DigitValue(u: CodeUnit): nat {
    if u < 0x30 then 0 else if u < 0x3A then u - 0x30 else if u < 0x57 then 0 else u - 0x57
  }

  lemma {:induction false} ValueOfHex(n: nat)
    ensures Value(HexText(n)) == n
  {
    if n < 16 {
      assert [Hex(n)][..0] == [];
    } else {
      ValueOfHex(n / 16);
      assert HexText(n)[..|HexText(n)| - 1] == HexText(n / 16);
    }
  }

  lemma {:induction false} ZerosDoNotCount(k: nat, t: Text)
    ensures Value(Zeros(k) + t) == Value(t)
  {
    if t != [] {
      ZerosDoNotCount(k, t[..|t| - 1]);
      assert (Zeros(k) + t)[..k + |t| - 1] == Zeros(k) + t[..|t| - 1];
    } else if k > 0 {
      ZerosDoNotCount(k - 1, t);
      assert (Zeros(k) + t)[..k - 1] == Zeros(k - 1) + t;
    }
  }

  /** A suffix spells its number in lower-case hexadecimal digits: six of them, or as many as it takes. */
  lemma SuffixSpells(n: nat)
    ensures Value(Suffix(n)) == n && |Suffix(n)| >= 6 && (|Suffix(n)| > 6 ==> Suffix(n)[0] != 0x30)
    ensures forall u | u in Suffix(n) :: 0x30 <= u <= 0x39 || 0x61 <= u <= 0x66
  {
    ValueOfHex(n);
    HexDigitsOf(n);
    if |HexText(n)| < INSTANCE_SUFFIX_LENGTH {
      ZerosDoNotCount(INSTANCE_SUFFIX_LENGTH - |HexText(n)|, HexText(n));
    }
  }

  lemma {:induction false} HexDigitsOf(n: nat)
    ensures forall u | u in HexText(n) :: 0x30 <= u <= 0x39 || 0x61 <= u <= 0x66
    ensures |HexText(n)| > 1 ==> HexText(n)[0] != 0x30
  {
    if n >= 16 {
      HexDigitsOf(n / 16);
      if n < 256 {
        assert HexText(n / 16) == [Hex(n / 16)];
      }
    }
  }

  /** Different numbers make different ids. */
  lemma IdsDiffer(prefix: Text, m: nat, n: nat)
    requires InstanceId(prefix, m) == InstanceId(prefix, n)
    ensures m == n
  {
    assert InstanceId(prefix, m)[|prefix|..] == Suffix(m) && InstanceId(prefix, n)[|prefix|..] == Suffix(n);
    ValueOfHex(m);
    ValueOfHex(n);
    if |HexText(m)| < INSTANCE_SUFFIX_LENGTH {
      ZerosDoNotCount(INSTANCE_SUFFIX_LENGTH - |HexText(m)|, HexText(m));
    }
    if |HexText(n)| < INSTANCE_SUFFIX_LENGTH {
      ZerosDoNotCount(INSTANCE_SUFFIX_LENGTH - |HexText(n)|, HexText(n));
    }
  }

  /** Ids in a row that are all taken are no more than the taken ids. */
  lemma TakenRun(prefix: Text, used: set<Text>, from: nat, n: nat)
    requires forall k | from <= k < from + n :: InstanceId(prefix, k) in used
    ensures n <= |used|
  {
    var ids := seq(n, i requires 0 <= i < n => InstanceId(prefix, from + i));
    forall i, j | 0 <= i < j < n
      ensures ids[i] != ids[j]
    {
      if ids[i] == ids[j] {
        IdsDiffer(prefix, from + i, from + j);
      }
    }
    DistinctCount(ids);
    SubsetCount(Elements(ids), used);
  }

  /** Tries a few random suffixes, then counts up from the number of ids in use: a free one always turns up. */
  method GenerateInstanceId(prefix: Text, used: set<Text>, draws: seq<nat>) returns (id: Text)
    requires |draws| == MAX_INSTANCE_ID_ATTEMPTS
    ensures id !in used
    ensures (exists i :: 0 <= i < |draws| && id == InstanceId(prefix, draws[i])
                      && forall j | 0 <= j < i :: InstanceId(prefix, draws[j]) in used)
         || ((forall j | 0 <= j < |draws| :: InstanceId(prefix, draws[j]) in used)
             && exists n :: |used| <= n && id == InstanceId(prefix, n)
                         && forall k | |used| <= k < n :: InstanceId(prefix, k) in used)
  {
    var attempt := 0;
    while attempt < MAX_INSTANCE_ID_ATTEMPTS
      invariant 0 <= attempt <= |draws|
      invariant forall j | 0 <= j < attempt :: InstanceId(prefix, draws[j]) in used
    {
      id := InstanceId(prefix, draws[attempt]);
      if id !in used {
        return;
      }
      attempt := attempt + 1;
    }
    var fallback: nat := |used|;
    id := InstanceId(prefix, fallback);
    while id in used
      invariant |used| <= fallback <= 2 * |used| && id == InstanceId(prefix, fallback)
      invariant forall k | |used| <= k < fallback :: InstanceId(prefix, k) in used
      decreases 2 * |used| - fallback
    {
      TakenRun(prefix, used, |used|, fallback + 1 - |used|);
      fallback := fallback + 1;
      id := InstanceId(prefix, fallback);
    }
  }
}

/** What entities and their instances are, what each operation does to them, and that the books always balance. */
module Entities {
  import opened Wrappers
  import opened Texts
  import opened Counting
  import opened Levelling

  type Stats = map<Text, real>

  datatype Assignment = Assignment(missionId: Text, batchId: Text, deployedAtStep: int, returnStep: int)

  datatype Instance = Instance(entityId: Text, level: int, experience: real, stats: Stats,
                               assignment: Option<Assignment>)

  datatype Entity = Entity(count: int, availableCount: int, unlocked: bool, visible: bool)

  /** `maxCount`, `progression` and `stats` are formulas of a level or count and a step. */
  datatype Definition = Definition(
    trackInstances: bool, startCount: nat, maxCount: Option<(int, int) -> int>, progression: Option<Progression>,
    stats: (int, int) -> Stats, unlocked: bool, visible: bool)

  type Definitions = map<Text, Definition>

  datatype State = State(entities: map<Text, Entity>, instances: map<Text, Instance>, lists: map<Text, seq<Text>>)

  // ----- counting unassigned instances

  predicate IsFree(instances: map<Text, Instance>, id: Text) {
    id in instances && instances[id].assignment.None?
  }

  /** How many of the listed instances have no assignment. */
  function Free(instances: map<Text, Instance>, list: seq<Text>): nat {
    if list == [] then 0
    else Free(instances, list[..|list| - 1]) + if IsFree(instances, list[|list| - 1]) then 1 else 0
  }

  lemma {:induction false} FreeConcat(instances: map<Text, Instance>, a: seq<Text>, b: seq<Text>)
    ensures Free(instances, a + b) == Free(instances, a) + Free(instances, b)
  {
    if b == [] {
      assert a + b == a;
    } else {
      FreeConcat(instances, a, b[..|b| - 1]);
      assert (a + b)[..|a + b| - 1] == a + b[..|b| - 1];
    }
  }

  lemma {:induction false} FreeIsAtMost(instances: map<Text, Instance>, list: seq<Text>)
    ensures Free(instances, list) <= |list|
  {
    if list != [] {
      FreeIsAtMost(instances, list[..|list| - 1]);
    }
  }

  /** Instances that are free alike count alike. */
  lemma {:induction false} FreeAlike(a: map<Text, Instance>, b: map<Text, Instance>, list: seq<Text>)
    requires forall id | id in list :: IsFree(a, id) == IsFree(b, id)
    ensures Free(a, list) == Free(b, list)
  {
    if list != [] {
      FreeAlike(a, b, list[..|list| - 1]);
      assert list[|list| - 1] in list;
    }
  }

  /** `list.indexOf(id)` and `splice`: the list without the first occurrence. */
  function Without(list: seq<Text>, id: Text): seq<Text> {
    if list == [] then [] else if list[0] == id then list[1..] else [list[0]] + Without(list[1..], id)
  }

  lemma {:induction false} WithoutParts(list: seq<Text>, id: Text) returns (before: seq<Text>, after: seq<Text>)
    requires id in list
    ensures list == before + [id] + after && Without(list, id) == before + after && id !in before
  {
    if list[0] == id {
      before, after := [], list[1..];
    } else {
      before, after := WithoutParts(list[1..], id);
      before := [list[0]] + before;
    }
  }

  lemma WithoutKeepsDistinct(list: seq<Text>, id: Text, before: seq<Text>, after: seq<Text>)
    requires Distinct(list) && list == before + [id] + after
    ensures Distinct(before + after)
  {
    var r := before + after;
    forall j, k | 0 <= j < k < |r|
      ensures r[j] != r[k]
    {
      var j', k' := if j < |before| then j else j + 1, if k < |before| then k else k + 1;
      assert r[j] == list[j'] && r[k] == list[k'];
    }
  }

  lemma WithoutMembers(list: seq<Text>, id: Text, before: seq<Text>, after: seq<Text>, x: Text)
    requires Distinct(list) && list == before + [id] + after
    ensures x in before + after <==> x in list && x != id
  {
    assert list[|before|] == id;
    if x in after {
      var k :| 0 <= k < |after| && after[k] == x;
      assert list[|before| + 1 + k] == x;
    }
    if x in before {
      var k :| 0 <= k < |before| && before[k] == x;
      assert list[k] == x;
    }
  }

  /** Taking an instance off a duplicate-free list shows in the counts. */
  lemma WithoutCounts(instances: map<Text, Instance>, list: seq<Text>, id: Text)
    requires Distinct(list) && id in list
    ensures var r := Without(list, id);
            && Distinct(r) && |r| == |list| - 1 && (forall x :: x in r <==> x in list && x != id)
            && Free(instances, r) == Free(instances, list) - (if IsFree(instances, id) then 1 else 0)
  {
    var before, after := WithoutParts(list, id);
    FreeConcat(instances, before + [id], after);
    FreeConcat(instances, before, [id]);
    FreeConcat(instances, before, after);
    FreeOfOne(instances, id);
    WithoutKeepsDistinct(list, id, before, after);
    forall x
      ensures x in before + after <==> x in list && x != id
    {
      WithoutMembers(list, id, before, after, x);
    }
  }

  lemma FreeOfOne(instances: map<Text, Instance>, id: Text)
    ensures Free(instances, [id]) == if IsFree(instances, id) then 1 else 0
  {
    assert [id][..0] == [];
  }

  lemma FlipCounts(a: map<Text, Instance>, b: map<Text, Instance>, list: seq<Text>, id: Text)
    requires Distinct(list) && id in list && (forall x | x in list && x != id :: IsFree(a, x) == IsFree(b, x))
    ensures Free(b, list) - Free(a, list) == (if IsFree(b, id) then 1 else 0) - (if IsFree(a, id) then 1 else 0)
  {
    WithoutCounts(a, list, id);
    WithoutCounts(b, list, id);
    FreeAlike(a, b, Without(list, id));
  }

  // ----- the books

  /** One entity: a tracked one counts its list, another one has no list and everything available. */
  ghost predicate EntityBalances(d: Definition, e: Entity, list: seq<Text>, instances: map<Text, Instance>, id: Text) {
    if d.trackInstances then
      && Distinct(list) && (forall x | x in list :: x in instances && instances[x].entityId == id)
      && e.count == |list| && e.availableCount == Free(instances, list)
    else list == [] && 0 <= e.count == e.availableCount
  }

  ghost predicate InstanceListed(defs: Definitions, instance: Instance, id: Text, lists: map<Text, seq<Text>>) {
    && instance.entityId in defs && defs[instance.entityId].trackInstances
    && instance.entityId in lists && id in lists[instance.entityId]
    && instance.level >= MIN_LEVEL && instance.experience >= 0.0
  }

  /**
   * The books balance: counts are list lengths, available counts are unassigned instances, and every
   * instance is on exactly one list, the one of its entity.
   */
  ghost predicate Balanced(defs: Definitions, s: State) {
    && s.entities.Keys == defs.Keys == s.lists.Keys
    && EntitiesBalance(defs, s) && InstancesListed(defs, s)
  }

  ghost predicate EntitiesBalance(defs: Definitions, s: State)
    requires s.entities.Keys == defs.Keys == s.lists.Keys
  {
    forall id | id in defs :: EntityBalances(defs[id], s.entities[id], s.lists[id], s.instances, id)
  }

  ghost predicate InstancesListed(defs: Definitions, s: State) {
    forall id | id in s.instances :: InstanceListed(defs, s.instances[id], id, s.lists)
  }

  // ----- operations

  datatype Error =
    | EntityNotFound | InstanceNotFound | NotTracked | MaxCountReached | AlreadyAssigned | ReturnBeforeDeployment
    | NotEnough

  function Max0(x: int): int {
    if x < 0 then 0 else x
  }

  /** The limit on a count, evaluated for the count aimed at. */
  function MaxCount(d: Definition, target: int, step: int): Option<int> {
    if d.maxCount.None? then None else Some(Max0(d.maxCount.value(target, step)))
  }

  function Shifted(e: Entity, count: int, available: int): Entity {
    e.(count := Max0(e.count + count), availableCount := Max0(e.availableCount + available))
  }

  function Created(s: State, entityId: Text, id: Text, stats: Stats): State
    requires entityId in s.entities && entityId in s.lists
  {
    State(s.entities[entityId := Shifted(s.entities[entityId], 1, 1)],
          s.instances[id := Instance(entityId, MIN_LEVEL, 0.0, stats, None)],
          s.lists[entityId := s.lists[entityId] + [id]])
  }

  function Destroyed(s: State, id: Text): State
    requires id in s.instances && s.instances[id].entityId in s.entities && s.instances[id].entityId in s.lists
  {
    var i := s.instances[id];
    State(s.entities[i.entityId := Shifted(s.entities[i.entityId], -1, if i.assignment.None? then -1 else 0)],
          s.instances - {id},
          s.lists[i.entityId := Without(s.lists[i.entityId], id)])
  }

  /** Sets or clears an assignment, with the effect on what is available. */
  function Moved(s: State, id: Text, assignment: Option<Assignment>): State
    requires id in s.instances && s.instances[id].entityId in s.entities
  {
    var i := s.instances[id];
    s.(entities := s.entities[i.entityId := Shifted(s.entities[i.entityId], 0, if assignment.None? then 1 else -1)],
       instances := s.instances[id := i.(assignment := assignment)])
  }

  /** Adds experience and climbs the levels it buys; the stats follow the level. */
  function Trained(d: Definition, i: Instance, amount: real, step: int, ghost least: real): Instance
    requires d.progression.Some? ==> AtLeast(d.progression.value, step, least)
  {
    if amount <= 0.0 then i
    else if d.progression.None? then i.(experience := i.experience + amount)
    else
      var end := Climb(d.progression.value,
                       Progress(if i.level < MIN_LEVEL then MIN_LEVEL else i.level, i.experience + amount),
                       step, least);
      i.(experience := end.experience, level := end.level,
         stats := if end.level != i.level then d.stats(end.level, step) else i.stats)
  }

  function Counted(d: Definition, e: Entity, n: nat, step: int): Entity {
    var limit := MaxCount(d, e.count + n, step);
    var target := if limit.Some? && limit.value < e.count + n then limit.value else e.count + n;
    if target == e.count then e
    else e.(count := target, availableCount := Max0(e.availableCount + (target - e.count)))
  }

  // ----- every operation keeps the books balanced

  lemma CreatedEntityBalances(d: Definition, e: Entity, list: seq<Text>, before: map<Text, Instance>,
                              after: map<Text, Instance>, entityId: Text, id: Text)
    requires EntityBalances(d, e, list, before, entityId) && d.trackInstances && id !in before
    requires after.Keys == before.Keys + {id} && (forall x | x in before :: after[x] == before[x])
    requires after[id].entityId == entityId && after[id].assignment.None?
    ensures EntityBalances(d, Shifted(e, 1, 1), list + [id], after, entityId)
  {
    FreeAlike(before, after, list);
    FreeConcat(after, list, [id]);
    FreeOfOne(after, id);
  }

  /** An entity whose instances are as before balances as before. */
  lemma OtherEntityBalances(d: Definition, e: Entity, list: seq<Text>, before: map<Text, Instance>,
                            after: map<Text, Instance>, id: Text)
    requires EntityBalances(d, e, list, before, id)
    requires forall x | x in before && before[x].entityId == id :: x in after && after[x] == before[x]
    ensures EntityBalances(d, e, list, after, id)
  {
    if d.trackInstances {
      FreeAlike(before, after, list);
    }
  }

  lemma CreatedEntitiesBalance(defs: Definitions, s: State, entityId: Text, id: Text, stats: Stats)
    requires Balanced(defs, s) && entityId in defs && defs[entityId].trackInstances && id !in s.instances
    ensures var t := Created(s, entityId, id, stats);
            t.entities.Keys == defs.Keys == t.lists.Keys && EntitiesBalance(defs, t)
  {
    var t := Created(s, entityId, id, stats);
    forall other | other in defs
      ensures EntityBalances(defs[other], t.entities[other], t.lists[other], t.instances, other)
    {
      assert EntityBalances(defs[other], s.entities[other], s.lists[other], s.instances, other);
      CreatedBalancesAt(defs[other], s, entityId, id, stats, other);
    }
  }

  lemma CreatedBalancesAt(d: Definition, s: State, entityId: Text, id: Text, stats: Stats, other: Text)
    requires entityId in s.entities && entityId in s.lists && other in s.entities && other in s.lists
    requires EntityBalances(d, s.entities[other], s.lists[other], s.instances, other) && id !in s.instances
    requires other == entityId ==> d.trackInstances
    ensures var t := Created(s, entityId, id, stats);
            EntityBalances(d, t.entities[other], t.lists[other], t.instances, other)
  {
    var t := Created(s, entityId, id, stats);
    if other == entityId {
      CreatedEntityBalances(d, s.entities[other], s.lists[other], s.instances, t.instances, other, id);
    } else {
      OtherEntityBalances(d, s.entities[other], s.lists[other], s.instances, t.instances, other);
    }
  }

  lemma CreatedInstancesListed(defs: Definitions, s: State, entityId: Text, id: Text, stats: Stats)
    requires Balanced(defs, s) && entityId in defs && defs[entityId].trackInstances
    ensures InstancesListed(defs, Created(s, entityId, id, stats))
  {
    var t := Created(s, entityId, id, stats);
    forall x | x in t.instances
      ensures InstanceListed(defs, t.instances[x], x, t.lists)
    {
      if x == id {
        assert t.lists[entityId][|s.lists[entityId]|] == id;
      } else {
        assert InstanceListed(defs, s.instances[x], x, s.lists);
      }
    }
  }

  lemma CreatedBalances(defs: Definitions, s: State, entityId: Text, id: Text, stats: Stats)
    requires Balanced(defs, s) && entityId in defs && defs[entityId].trackInstances && id !in s.instances
    ensures Balanced(defs, Created(s, entityId, id, stats))
  {
    CreatedEntitiesBalance(defs, s, entityId, id, stats);
    CreatedInstancesListed(defs, s, entityId, id, stats);
  }

  lemma DestroyedEntityBalances(d: Definition, e: Entity, list: seq<Text>, before: map<Text, Instance>, entityId: Text,
                                id: Text)
    requires EntityBalances(d, e, list, before, entityId) && d.trackInstances && id in list
    ensures id in before
    ensures EntityBalances(d, Shifted(e, -1, if before[id].assignment.None? then -1 else 0), Without(list, id),
                           before - {id}, entityId)
  {
    WithoutCounts(before, list, id);
    FreeAlike(before, before - {id}, Without(list, id));
  }

  lemma DestroyedEntitiesBalance(defs: Definitions, s: State, id: Text)
    requires Balanced(defs, s) && id in s.instances && InstanceListed(defs, s.instances[id], id, s.lists)
    ensures var t := Destroyed(s, id); t.entities.Keys == defs.Keys == t.lists.Keys && EntitiesBalance(defs, t)
  {
    var t, entityId := Destroyed(s, id), s.instances[id].entityId;
    forall other | other in defs
      ensures EntityBalances(defs[other], t.entities[other], t.lists[other], t.instances, other)
    {
      assert EntityBalances(defs[other], s.entities[other], s.lists[other], s.instances, other);
      if other == entityId {
        DestroyedEntityBalances(defs[other], s.entities[other], s.lists[other], s.instances, other, id);
      } else {
        OtherEntityBalances(defs[other], s.entities[other], s.lists[other], s.instances, t.instances, other);
      }
    }
  }

  lemma DestroyedInstancesListed(defs: Definitions, s: State, id: Text)
    requires Balanced(defs, s) && id in s.instances && InstanceListed(defs, s.instances[id], id, s.lists)
    ensures InstancesListed(defs, Destroyed(s, id))
  {
    var t, entityId := Destroyed(s, id), s.instances[id].entityId;
    assert EntityBalances(defs[entityId], s.entities[entityId], s.lists[entityId], s.instances, entityId);
    WithoutCounts(s.instances, s.lists[entityId], id);
    forall x | x in t.instances
      ensures InstanceListed(defs, t.instances[x], x, t.lists)
    {
      assert InstanceListed(defs, s.instances[x], x, s.lists);
    }
  }

  lemma DestroyedBalances(defs: Definitions, s: State, id: Text)
    requires Balanced(defs, s) && id in s.instances
    ensures Balanced(defs, Destroyed(s, id))
  {
    assert InstanceListed(defs, s.instances[id], id, s.lists);
    DestroyedEntitiesBalance(defs, s, id);
    DestroyedInstancesListed(defs, s, id);
  }

  lemma MovedEntityBalances(d: Definition, e: Entity, list: seq<Text>, before: map<Text, Instance>, entityId: Text,
                            id: Text, assignment: Option<Assignment>)
    requires EntityBalances(d, e, list, before, entityId) && d.trackInstances && id in list
    ensures id in before
    ensures before[id].assignment.None? != assignment.None? ==>
              EntityBalances(d, Shifted(e, 0, if assignment.None? then 1 else -1), list,
                             before[id := before[id].(assignment := assignment)], entityId)
  {
    FlipCounts(before, before[id := before[id].(assignment := assignment)], list, id);
  }

  lemma MovedEntitiesBalance(defs: Definitions, s: State, id: Text, assignment: Option<Assignment>)
    requires Balanced(defs, s) && id in s.instances && s.instances[id].assignment.None? != assignment.None?
    requires InstanceListed(defs, s.instances[id], id, s.lists)
    ensures var t := Moved(s, id, assignment); t.entities.Keys == defs.Keys == t.lists.Keys && EntitiesBalance(defs, t)
  {
    var t, entityId := Moved(s, id, assignment), s.instances[id].entityId;
    forall other | other in defs
      ensures EntityBalances(defs[other], t.entities[other], t.lists[other], t.instances, other)
    {
      assert EntityBalances(defs[other], s.entities[other], s.lists[other], s.instances, other);
      if other == entityId {
        MovedEntityBalances(defs[other], s.entities[other], s.lists[other], s.instances, other, id, assignment);
      } else {
        OtherEntityBalances(defs[other], s.entities[other], s.lists[other], s.instances, t.instances, other);
      }
    }
  }

  lemma MovedBalances(defs: Definitions, s: State, id: Text, assignment: Option<Assignment>)
    requires Balanced(defs, s) && id in s.instances && s.instances[id].assignment.None? != assignment.None?
    ensures Balanced(defs, Moved(s, id, assignment))
  {
    var t := Moved(s, id, assignment);
    assert InstanceListed(defs, s.instances[id], id, s.lists);
    MovedEntitiesBalance(defs, s, id, assignment);
    forall x | x in t.instances
      ensures InstanceListed(defs, t.instances[x], x, t.lists)
    {
      assert InstanceListed(defs, s.instances[x], x, s.lists);
    }
  }

  /** Replacing an instance by one of the same entity and assignment leaves the books alone. */
  lemma ReplacedBalances(defs: Definitions, s: State, id: Text, i: Instance)
    requires Balanced(defs, s) && id in s.instances && i.level >= MIN_LEVEL && i.experience >= 0.0
    requires i.entityId == s.instances[id].entityId && i.assignment == s.instances[id].assignment
    ensures Balanced(defs, s.(instances := s.instances[id := i]))
  {
    var t := s.(instances := s.instances[id := i]);
    forall other | other in defs
      ensures EntityBalances(defs[other], t.entities[other], t.lists[other], t.instances, other)
    {
      assert EntityBalances(defs[other], s.entities[other], s.lists[other], s.instances, other);
      if defs[other].trackInstances {
        FreeAlike(s.instances, t.instances, s.lists[other]);
      }
    }
    forall x | x in t.instances
      ensures InstanceListed(defs, t.instances[x], x, t.lists)
    {
      assert InstanceListed(defs, s.instances[x], x, s.lists);
    }
  }

  /** An untracked entity may change its count, if all of it is available. */
  lemma RecountedBalances(defs: Definitions, s: State, entityId: Text, e: Entity)
    requires Balanced(defs, s) && entityId in defs && !defs[entityId].trackInstances && 0 <= e.count == e.availableCount
    ensures Balanced(defs, s.(entities := s.entities[entityId := e]))
  {
    var t := s.(entities := s.entities[entityId := e]);
    forall other | other in defs
      ensures EntityBalances(defs[other], t.entities[other], t.lists[other], t.instances, other)
    {
      assert EntityBalances(defs[other], s.entities[other], s.lists[other], s.instances, other);
    }
    forall x | x in t.instances
      ensures InstanceListed(defs, t.instances[x], x, t.lists)
    {
      assert InstanceListed(defs, s.instances[x], x, s.lists);
    }
  }

  /** Training keeps what the books need, conserves experience, and stops only at a real stopping condition. */
  lemma TrainedConserves(d: Definition, i: Instance, amount: real, step: int, least: real) returns (gained: nat)
    requires d.progression.Some? ==> AtLeast(d.progression.value, step, least)
    requires i.level >= MIN_LEVEL && i.experience >= 0.0 && amount >= 0.0
    ensures var t := Trained(d, i, amount, step, least);
            && t.entityId == i.entityId && t.assignment == i.assignment && t.experience >= 0.0
            && t.level == i.level + gained
            && t.stats == (if gained == 0 then i.stats else d.stats(t.level, step))
            && (d.progression.None? || amount == 0.0 ==> gained == 0 && t.experience == i.experience + amount)
            && (d.progression.Some? ==>
                i.experience + amount == t.experience + Spent(d.progression.value, i.level, gained, step))
            && (d.progression.Some? && amount > 0.0 ==>
                  && StopsAt(d.progression.value, t.level, t.experience, step)
                  && forall n | i.level <= n < t.level :: MayLeave(d.progression.value, n, step))
  {
    if d.progression.None? || amount <= 0.0 {
      gained := 0;
    } else {
      gained := ClimbConserves(d.progression.value, Progress(i.level, i.experience + amount), step, least);
    }
  }

  /** Experience in two parts trains like experience in one. */
  lemma TrainedInTwo(d: Definition, i: Instance, a: real, b: real, step: int, least: real)
    requires d.progression.Some? ==> AtLeast(d.progression.value, step, least)
    requires i.level >= MIN_LEVEL && i.experience >= 0.0 && a >= 0.0 && b >= 0.0
    ensures Trained(d, Trained(d, i, a, step, least), b, step, least) == Trained(d, i, a + b, step, least)
  {
    if d.progression.Some? && a > 0.0 && b > 0.0 {
      var p := d.progression.value;
      var at := Progress(i.level, i.experience + a);
      var gained := ClimbConserves(p, at, step, least);
      var first := Climb(p, at, step, least);
      var more := ClimbConserves(p, first.(experience := first.experience + b), step, least);
      ClimbInTwo(p, at, b, step, least);
      assert i.experience + a + b == i.experience + (a + b);
    }
  }

  // ----- removing instances

  /** Up to `n` unassigned instances from the end of a list. */
  function Collect(instances: map<Text, Instance>, list: seq<Text>, n: nat): seq<Text> {
    if n == 0 || list == [] then []
    else
      var last, rest := list[|list| - 1], list[..|list| - 1];
      if IsFree(instances, last) then [last] + Collect(instances, rest, n - 1) else Collect(instances, rest, n)
  }

  /** Collecting finds as many as there are, up to `n`, each of them unassigned and listed, none twice. */
  lemma {:induction false} CollectFinds(instances: map<Text, Instance>, list: seq<Text>, n: nat)
    requires Distinct(list)
    ensures var ids := Collect(instances, list, n);
            && |ids| == (if Free(instances, list) < n then Free(instances, list) else n)
            && Distinct(ids) && forall id | id in ids :: id in list && IsFree(instances, id)
  {
    if n > 0 && list != [] {
      var last, rest := list[|list| - 1], list[..|list| - 1];
      CollectFinds(instances, rest, if IsFree(instances, last) then n - 1 else n);
    }
  }

  /** What is left of an entity's count after `n` of its free instances are gone. */
  /** The newest are collected first: a free instance further back in the list is taken before one in front of it. */
  lemma {:induction false} CollectTakesNewest(instances: map<Text, Instance>, list: seq<Text>, n: nat, i: nat, j: nat)
    requires Distinct(list) && i < j < |list| && IsFree(instances, list[j]) && list[i] in Collect(instances, list, n)
    ensures list[j] in Collect(instances, list, n)
  {
    var last, rest := list[|list| - 1], list[..|list| - 1];
    if j < |list| - 1 {
      assert list[i] != last;
      if IsFree(instances, last) {
        assert Collect(instances, list, n) == [last] + Collect(instances, rest, n - 1);
        CollectTakesNewest(instances, rest, n - 1, i, j);
      } else {
        CollectTakesNewest(instances, rest, n, i, j);
      }
    }
  }

  function Fewer(e: Entity, n: int): Entity {
    e.(count := e.count - n, availableCount := e.availableCount - n)
  }

  /** Other entities are as they were. */
  ghost predicate OthersSame(s: State, t: State, entityId: Text) {
    && (forall x | x in s.lists && x != entityId :: x in t.lists && t.lists[x] == s.lists[x])
    && forall x | x in s.entities && x != entityId :: x in t.entities && t.entities[x] == s.entities[x]
  }

  /** What is left after the first `n` of some instances were destroyed. */
  ghost predicate Removed(defs: Definitions, s: State, t: State, entityId: Text, ids: seq<Text>, n: nat)
    requires n <= |ids|
  {
    && Balanced(defs, t) && OthersSame(s, t, entityId)
    && t.instances == s.instances - Elements(ids[..n])
    && entityId in t.entities && entityId in s.entities && t.entities[entityId] == Fewer(s.entities[entityId], n)
  }

  /** A free instance of balanced books is counted, so taking it away clamps nothing. */
  lemma DestroyedCounts(defs: Definitions, t: State, id: Text)
    requires Balanced(defs, t) && IsFree(t.instances, id)
    ensures var entityId := t.instances[id].entityId;
            && entityId in t.entities && entityId in t.lists && OthersSame(t, Destroyed(t, id), entityId)
            && Destroyed(t, id).entities[entityId] == Fewer(t.entities[entityId], 1)
  {
    var entityId := t.instances[id].entityId;
    assert InstanceListed(defs, t.instances[id], id, t.lists);
    assert EntityBalances(defs[entityId], t.entities[entityId], t.lists[entityId], t.instances, entityId);
    WithoutCounts(t.instances, t.lists[entityId], id);
  }

  lemma OneMoreElement(ids: seq<Text>, n: nat)
    requires n < |ids| && Distinct(ids)
    ensures ids[n] !in Elements(ids[..n]) && Elements(ids[..n + 1]) == Elements(ids[..n]) + {ids[n]}
  {
  }

  lemma StillThere(defs: Definitions, s: State, t: State, entityId: Text, ids: seq<Text>, n: nat)
    requires n < |ids| && Removed(defs, s, t, entityId, ids, n) && Distinct(ids)
    requires IsFree(s.instances, ids[n]) && s.instances[ids[n]].entityId == entityId
    ensures IsFree(t.instances, ids[n]) && t.instances[ids[n]] == s.instances[ids[n]] && entityId in t.lists
  {
    OneMoreElement(ids, n);
    assert InstanceListed(defs, t.instances[ids[n]], ids[n], t.lists);
  }

  lemma DestroyedRemoves(defs: Definitions, s: State, t: State, entityId: Text, ids: seq<Text>, n: nat)
    requires n < |ids| && Removed(defs, s, t, entityId, ids, n) && Distinct(ids)
    requires IsFree(s.instances, ids[n]) && s.instances[ids[n]].entityId == entityId
    ensures IsFree(t.instances, ids[n]) && t.instances[ids[n]].entityId == entityId && entityId in t.lists
    ensures Removed(defs, s, Destroyed(t, ids[n]), entityId, ids, n + 1)
  {
    StillThere(defs, s, t, entityId, ids, n);
    OneMoreElement(ids, n);
    DestroyedCounts(defs, t, ids[n]);
    DestroyedBalances(defs, t, ids[n]);
    OthersSameOn(s, t, Destroyed(t, ids[n]), entityId);
    MinusTwice(s.instances, Elements(ids[..n]), ids[n]);
  }

  lemma OthersSameOn(s: State, t: State, u: State, entityId: Text)
    requires OthersSame(s, t, entityId) && OthersSame(t, u, entityId)
    ensures OthersSame(s, u, entityId)
  {
  }

  lemma MinusTwice(m: map<Text, Instance>, gone: set<Text>, id: Text)
    ensures m - gone - {id} == m - (gone + {id})
  {
  }

  // ----- returning from missions

  function Home(i: Instance, step: int): Instance {
    if i.assignment.Some? && i.assignment.value.returnStep <= step then i.(assignment := None) else i
  }

  /** Only counts of what is available may differ. */
  ghost predicate SameFlags(s: State, t: State) {
    && s.entities.Keys == t.entities.Keys && s.lists == t.lists
    && forall id | id in s.entities ::
         t.entities[id] == s.entities[id].(availableCount := t.entities[id].availableCount)
  }

  // ----- saving and restoring

  datatype Saved = Saved(entities: seq<(Text, Entity)>, instances: seq<(Text, Instance)>, lists: seq<(Text, seq<Text>)>)

  /** The entries of a map, each once, in any order. */
  ghost predicate Lists<V(!new)>(pairs: seq<(Text, V)>, m: map<Text, V>) {
    && (forall k | 0 <= k < |pairs| :: pairs[k].0 in m && m[pairs[k].0] == pairs[k].1)
    && forall key | key in m :: exists k :: 0 <= k < |pairs| && pairs[k].0 == key
  }

  function FromPairs<V>(pairs: seq<(Text, V)>): map<Text, V> {
    if pairs == [] then map[]
    else FromPairs(pairs[..|pairs| - 1])[pairs[|pairs| - 1].0 := pairs[|pairs| - 1].1]
  }

  lemma {:induction false} FromPairsAgrees<V(!new)>(pairs: seq<(Text, V)>, m: map<Text, V>)
    requires forall k | 0 <= k < |pairs| :: pairs[k].0 in m && m[pairs[k].0] == pairs[k].1
    ensures forall key :: key in FromPairs(pairs) <==> exists k :: 0 <= k < |pairs| && pairs[k].0 == key
    ensures forall key | key in FromPairs(pairs) :: key in m && FromPairs(pairs)[key] == m[key]
  {
    if pairs != [] {
      var n := |pairs| - 1;
      FromPairsAgrees(pairs[..n], m);
      forall key
        ensures key in FromPairs(pairs) <==> exists k :: 0 <= k < |pairs| && pairs[k].0 == key
      {
        if k :| 0 <= k < |pairs| && pairs[k].0 == key {
          assert k < n ==> pairs[..n][k].0 == key;
        }
        if key in FromPairs(pairs[..n]) {
          var k :| 0 <= k < n && pairs[..n][k].0 == key;
          assert pairs[k].0 == key;
        }
        assert pairs[n].0 in FromPairs(pairs);
      }
    }
  }

  lemma FromListing<V(!new)>(pairs: seq<(Text, V)>, m: map<Text, V>)
    requires Lists(pairs, m)
    ensures FromPairs(pairs) == m
  {
    FromPairsAgrees(pairs, m);
  }

  function WithSteps(i: Instance, f: int -> int): Instance {
    if i.assignment.None? then i
    else
      var a := i.assignment.value;
      i.(assignment := Some(a.(deployedAtStep := f(a.deployedAtStep), returnStep := f(a.returnStep))))
  }

  function SavedEntity(e: Entity): Entity {
    e.(count := Max0(e.count), availableCount := Max0(e.availableCount))
  }

  function SavedInstance(i: Instance): Instance {
    WithSteps(i, (step: int) => Max0(step)).(level := if i.level < MIN_LEVEL then MIN_LEVEL else i.level)
  }

  function Mapped<A, B>(m: map<Text, A>, f: A -> B): map<Text, B> {
    map key | key in m :: f(m[key])
  }

  function EntitySaver(): Entity -> Entity {
    (e: Entity) => SavedEntity(e)
  }

  function InstanceSaver(): Instance -> Instance {
    (i: Instance) => SavedInstance(i)
  }

  function InstanceRestorer(offset: int): Instance -> Instance {
    (i: Instance) => RestoredInstance(i, offset)
  }

  function Rebaser(offset: int): Instance -> Instance {
    (i: Instance) => WithSteps(i, (step: int) => Max0(Max0(step) + offset))
  }

  /** `serializeEntitySystemState`, up to the order of the entries, which it sorts by id. */
  ghost predicate Serializes(s: State, saved: Saved) {
    && Lists(saved.entities, Mapped(s.entities, EntitySaver()))
    && Lists(saved.instances, Mapped(s.instances, InstanceSaver()))
    && Lists(saved.lists, s.lists)
  }

  function RestoredInstance(i: Instance, offset: int): Instance {
    WithSteps(i, (step: int) => Max0(step + offset)).(level := if i.level < MIN_LEVEL then MIN_LEVEL else i.level)
  }

  /** Lists by entity, for saves that have none. */
  function Grouped(instances: seq<(Text, Instance)>): map<Text, seq<Text>> {
    if instances == [] then map[]
    else
      var before, last := Grouped(instances[..|instances| - 1]), instances[|instances| - 1];
      before[last.1.entityId := (if last.1.entityId in before then before[last.1.entityId] else []) + [last.0]]
  }

  function SavedLists(saved: Saved): map<Text, seq<Text>> {
    if saved.lists != [] then FromPairs(saved.lists) else Grouped(saved.instances)
  }

  function MovedInstances(saved: Saved, offset: int): map<Text, Instance> {
    Mapped(FromPairs(saved.instances), InstanceRestorer(offset))
  }

  function SavedEntities(saved: Saved): map<Text, Entity> {
    Mapped(FromPairs(saved.entities), EntitySaver())
  }

  /** `deserialize`: steps move by `offset`. */
  function Deserialized(saved: Saved, offset: int): State {
    State(SavedEntities(saved), MovedInstances(saved, offset), SavedLists(saved))
  }

  function Assigned(instances: map<Text, Instance>, list: seq<Text>): nat {
    if list == [] then 0
    else
      var last := list[|list| - 1];
      Assigned(instances, list[..|list| - 1]) + if last in instances && instances[last].assignment.Some? then 1 else 0
  }

  function SavedOrNew(defs: Definitions, entities: map<Text, Entity>, id: Text): Entity
    requires id in defs || id in entities
  {
    if id in entities then SavedEntity(entities[id]) else Entity(0, 0, defs[id].unlocked, defs[id].visible)
  }

  function Recounted(defs: Definitions, e: Entity, instances: map<Text, Instance>, list: seq<Text>, id: Text): Entity {
    if id in defs && defs[id].trackInstances then
      e.(count := |list|, availableCount := Max0(|list| - Assigned(instances, list)))
    else e
  }

  function RestoredEntity(defs: Definitions, entities: map<Text, Entity>, instances: map<Text, Instance>,
                          list: seq<Text>, id: Text): Entity
    requires id in defs || id in entities
  {
    Recounted(defs, SavedOrNew(defs, entities, id), instances, list, id)
  }

  function ListOr(lists: map<Text, seq<Text>>, id: Text): seq<Text> {
    if id in lists then lists[id] else []
  }

  /** `restoreState`: definitions start empty, the saved entries replace them, and tracked counts are recounted. */
  function Restored(defs: Definitions, resolved: State): State {
    State(map id | id in defs.Keys + resolved.entities.Keys ::
            RestoredEntity(defs, resolved.entities, resolved.instances, ListOr(resolved.lists, id), id),
          resolved.instances,
          map id | id in defs.Keys + resolved.lists.Keys :: ListOr(resolved.lists, id))
  }

  lemma {:induction false} AssignedAndFree(instances: map<Text, Instance>, list: seq<Text>)
    requires forall id | id in list :: id in instances
    ensures Assigned(instances, list) + Free(instances, list) == |list|
  {
    if list != [] {
      AssignedAndFree(instances, list[..|list| - 1]);
      assert list[|list| - 1] in list;
    }
  }

  /** The state with every assignment moved by `offset` steps, but not below zero. */
  function Rebased(s: State, offset: int): State {
    s.(instances := Mapped(s.instances, Rebaser(offset)))
  }

  /** An instance is due after a restore exactly when it was before, as long as no clock is below zero. */
  lemma DueAlike(i: Instance, step: int, offset: int)
    requires step >= 0 && step + offset >= 0
    ensures Home(Rebaser(offset)(i), step + offset).assignment.None? <==> Home(i, step).assignment.None?
  {
  }

  /** Moving an assignment moves its two steps by the offset, up to zero, and nothing else. */
  lemma RebasedSteps(i: Instance, offset: int)
    ensures var t := Rebaser(offset)(i);
            && t.(assignment := i.assignment) == i && (t.assignment.Some? <==> i.assignment.Some?)
            && (i.assignment.Some? ==>
                  var (a, b) := (i.assignment.value, t.assignment.value);
                  && b.missionId == a.missionId && b.batchId == a.batchId
                  && (a.deployedAtStep >= 0 && a.deployedAtStep + offset >= 0 ==>
                        b.deployedAtStep == a.deployedAtStep + offset)
                  && (a.returnStep >= 0 && a.returnStep + offset >= 0 ==> b.returnStep == a.returnStep + offset)
                  && b.deployedAtStep >= 0 && b.returnStep >= 0)
  {
  }

  /** An instance of a save is read with its steps moved and a level of at least one. */
  lemma ReadInstance(i: Instance, offset: int)
    ensures var t := RestoredInstance(i, offset);
            && t.(assignment := i.assignment, level := i.level) == i
            && t.level == (if i.level < 1 then 1 else i.level)
            && (t.assignment.Some? <==> i.assignment.Some?)
            && (i.assignment.Some? ==>
                  var (a, b) := (i.assignment.value, t.assignment.value);
                  && b.missionId == a.missionId && b.batchId == a.batchId
                  && (a.deployedAtStep + offset >= 0 ==> b.deployedAtStep == a.deployedAtStep + offset)
                  && (a.deployedAtStep + offset < 0 ==> b.deployedAtStep == 0)
                  && (a.returnStep + offset >= 0 ==> b.returnStep == a.returnStep + offset)
                  && (a.returnStep + offset < 0 ==> b.returnStep == 0))
  {
    if i.assignment.Some? {
      StepIsMoved(i.assignment.value.deployedAtStep, offset);
      StepIsMoved(i.assignment.value.returnStep, offset);
    }
  }

  lemma StepIsMoved(step: int, offset: int)
    ensures Max0(step + offset) == if step + offset >= 0 then step + offset else 0
  {
  }

  /** How many of the listed instances are on a mission. */
  lemma {:induction false} AssignedAreCounted(instances: map<Text, Instance>, list: seq<Text>)
    requires Distinct(list)
    ensures Assigned(instances, list)
         == |set id | id in list && id in instances && instances[id].assignment.Some?|
  {
    var all := set id | id in list && id in instances && instances[id].assignment.Some?;
    if list == [] {
      assert all == {};
    } else {
      var n := |list| - 1;
      AssignedAreCounted(instances, list[..n]);
      var before := set id | id in list[..n] && id in instances && instances[id].assignment.Some?;
      assert list == list[..n] + [list[n]] && list[n] !in list[..n];
      if list[n] in instances && instances[list[n]].assignment.Some? {
        assert all == before + {list[n]};
      } else {
        assert all == before;
      }
    }
  }

  /**
   * Whatever was saved, a tracked entity comes back with the count of its list, of which all that are not
   * on a mission are available; any other with the saved counts, or none.
   */
  lemma RestoreRecounts(defs: Definitions, s: State, id: Text)
    requires id in defs || id in s.entities
    ensures id in Restored(defs, s).entities
    ensures id in Restored(defs, s).lists <==> id in defs || id in s.lists
    ensures var list := if id in s.lists then s.lists[id] else [];
            var e := Restored(defs, s).entities[id];
            && (id in Restored(defs, s).lists ==> Restored(defs, s).lists[id] == list)
            && (id in s.entities ==> e.unlocked == s.entities[id].unlocked && e.visible == s.entities[id].visible)
            && (id !in s.entities ==> e.unlocked == defs[id].unlocked && e.visible == defs[id].visible)
            && (id in defs && defs[id].trackInstances ==>
                  && e.count == |list|
                  && (Distinct(list) ==>
                        var out := set x | x in list && x in s.instances && s.instances[x].assignment.Some?;
                        |out| <= |list| && e.availableCount == |list| - |out|))
            && (!(id in defs && defs[id].trackInstances) && id !in s.entities ==> e.count == e.availableCount == 0)
            && (!(id in defs && defs[id].trackInstances) && id in s.entities ==>
                  && e.count == (if s.entities[id].count < 0 then 0 else s.entities[id].count)
                  && e.availableCount == (if s.entities[id].availableCount < 0 then 0
                                          else s.entities[id].availableCount))
  {
    var list := ListOr(s.lists, id);
    if Distinct(list) {
      AssignedAreCounted(s.instances, list);
      AssignedIsAtMost(s.instances, list);
    }
  }

  lemma {:induction false} AssignedIsAtMost(instances: map<Text, Instance>, list: seq<Text>)
    ensures Assigned(instances, list) <= |list|
  {
    if list != [] {
      AssignedIsAtMost(instances, list[..|list| - 1]);
    }
  }

  /** Where the instances of an entity stand in a save. */
  ghost predicate Standing(instances: seq<(Text, Instance)>, entityId: Text, list: seq<Text>, from: seq<nat>) {
    && |from| == |list| && (forall j, k | 0 <= j < k < |from| :: from[j] < from[k])
    && (forall k | 0 <= k < |list| ::
          from[k] < |instances| && instances[from[k]].1.entityId == entityId && list[k] == instances[from[k]].0)
    && forall j: nat | j < |instances| && instances[j].1.entityId == entityId :: j in from
  }

  lemma StandingOneMore(instances: seq<(Text, Instance)>, last: (Text, Instance), entityId: Text, list: seq<Text>,
                        from: seq<nat>)
    requires Standing(instances, entityId, list, from)
    ensures last.1.entityId == entityId ==>
              Standing(instances + [last], entityId, list + [last.0], from + [|instances|])
    ensures last.1.entityId != entityId ==> Standing(instances + [last], entityId, list, from)
  {
    assert (from + [|instances|])[|from|] == |instances|;
  }

  /** A save without lists has its instances listed by entity, each list in the order of the save. */
  lemma {:induction false} GroupedByEntity(instances: seq<(Text, Instance)>, entityId: Text) returns (from: seq<nat>)
    ensures Standing(instances, entityId, ListOr(Grouped(instances), entityId), from)
  {
    from := [];
    if instances != [] {
      var before, last := instances[..|instances| - 1], instances[|instances| - 1];
      from := GroupedByEntity(before, entityId);
      StandingOneMore(before, last, entityId, ListOr(Grouped(before), entityId), from);
      assert before + [last] == instances;
      from := if last.1.entityId == entityId then from + [|before|] else from;
    }
  }

  lemma MappedTwice<A, B, C>(m: map<Text, A>, f: A -> B, g: B -> C, h: A -> C)
    requires forall key | key in m :: g(f(m[key])) == h(m[key])
    ensures Mapped(Mapped(m, f), g) == Mapped(m, h)
  {
  }

  /** Saving and restoring an instance moves its assignment. */
  lemma RestoredIsRebased(i: Instance, offset: int)
    requires i.level >= MIN_LEVEL
    ensures InstanceRestorer(offset)(InstanceSaver()(i)) == Rebaser(offset)(i)
  {
  }

  lemma InstancesAreRebased(defs: Definitions, s: State, saved: Saved, offset: int)
    requires Balanced(defs, s) && Serializes(s, saved)
    ensures MovedInstances(saved, offset) == Mapped(s.instances, Rebaser(offset))
  {
    FromListing(saved.instances, Mapped(s.instances, InstanceSaver()));
    forall id | id in s.instances
      ensures InstanceRestorer(offset)(InstanceSaver()(s.instances[id])) == Rebaser(offset)(s.instances[id])
    {
      assert InstanceListed(defs, s.instances[id], id, s.lists);
      RestoredIsRebased(s.instances[id], offset);
    }
    MappedTwice(s.instances, InstanceSaver(), InstanceRestorer(offset), Rebaser(offset));
  }

  lemma ListsAreSaved(defs: Definitions, s: State, saved: Saved)
    requires Balanced(defs, s) && Serializes(s, saved)
    ensures SavedLists(saved) == s.lists
  {
    FromListing(saved.lists, s.lists);
    if saved.lists == [] {
      InstancesNeedLists(defs, s);
      FirstIsListed(saved.instances, Mapped(s.instances, InstanceSaver()));
    }
  }

  lemma FirstIsListed<V(!new)>(pairs: seq<(Text, V)>, m: map<Text, V>)
    requires Lists(pairs, m)
    ensures pairs != [] ==> pairs[0].0 in m
  {
  }

  lemma InstancesNeedLists(defs: Definitions, s: State)
    requires Balanced(defs, s)
    ensures s.instances != map[] ==> s.lists != map[]
  {
    if s.instances != map[] {
      var id :| id in s.instances;
      assert InstanceListed(defs, s.instances[id], id, s.lists);
    }
  }

  lemma SavedEntityIs(defs: Definitions, s: State, saved: Saved, id: Text)
    requires Serializes(s, saved) && id in s.entities
    ensures id in SavedEntities(saved) && SavedOrNew(defs, SavedEntities(saved), id) == SavedEntity(s.entities[id])
  {
    FromListing(saved.entities, Mapped(s.entities, EntitySaver()));
  }

  lemma RestoredEntityIsSame(defs: Definitions, s: State, saved: Saved, instances: map<Text, Instance>, id: Text)
    requires Balanced(defs, s) && Serializes(s, saved) && id in defs
    requires instances.Keys == s.instances.Keys
    requires forall x | x in instances :: instances[x].assignment.None? == s.instances[x].assignment.None?
    ensures RestoredEntity(defs, SavedEntities(saved), instances, s.lists[id], id) == s.entities[id]
  {
    SavedEntityIs(defs, s, saved, id);
    assert EntityBalances(defs[id], s.entities[id], s.lists[id], s.instances, id);
    if defs[id].trackInstances {
      CountsAreKept(s.instances, instances, s.lists[id]);
    }
  }

  lemma CountsAreKept(before: map<Text, Instance>, after: map<Text, Instance>, list: seq<Text>)
    requires after.Keys == before.Keys && forall x | x in list :: x in before
    requires forall x | x in after :: after[x].assignment.None? == before[x].assignment.None?
    ensures Free(after, list) == Free(before, list)
    ensures Assigned(after, list) + Free(after, list) == |list|
  {
    FreeAlike(before, after, list);
    AssignedAndFree(after, list);
  }

  lemma KeepsAssigned(instances: map<Text, Instance>, offset: int)
    ensures var m := Mapped(instances, Rebaser(offset));
            m.Keys == instances.Keys && forall x | x in m :: m[x].assignment.None? == instances[x].assignment.None?
  {
  }

  lemma SavedKeys(s: State, saved: Saved)
    requires Serializes(s, saved)
    ensures SavedEntities(saved).Keys == s.entities.Keys
  {
    FromListing(saved.entities, Mapped(s.entities, EntitySaver()));
  }

  lemma RestoredFrom(defs: Definitions, s: State, saved: Saved, d: State)
    requires Balanced(defs, s) && Serializes(s, saved)
    requires d.lists == s.lists && d.entities == SavedEntities(saved)
    requires d.instances.Keys == s.instances.Keys
    requires forall x | x in d.instances :: d.instances[x].assignment.None? == s.instances[x].assignment.None?
    ensures Restored(defs, d) == State(s.entities, d.instances, s.lists)
  {
    SavedKeys(s, saved);
    forall id | id in defs
      ensures RestoredEntity(defs, d.entities, d.instances, s.lists[id], id) == s.entities[id]
    {
      RestoredEntityIsSame(defs, s, saved, d.instances, id);
    }
    RestoredEntities(defs, s, d);
  }

  lemma RestoredEntities(defs: Definitions, s: State, d: State)
    requires s.entities.Keys == d.entities.Keys == defs.Keys && d.lists == s.lists && s.lists.Keys == defs.Keys
    requires forall id | id in defs :: RestoredEntity(defs, d.entities, d.instances, s.lists[id], id) == s.entities[id]
    ensures Restored(defs, d) == State(s.entities, d.instances, s.lists)
  {
    assert Restored(defs, d).entities == s.entities;
    assert Restored(defs, d).lists == s.lists;
  }

  /** Restoring a save of balanced books rebuilds the state exactly, with assignments moved to the new clock. */
  lemma RestoreUndoesSave(defs: Definitions, s: State, saved: Saved, offset: int)
    requires Balanced(defs, s) && Serializes(s, saved)
    ensures Restored(defs, Deserialized(saved, offset)) == Rebased(s, offset)
  {
    InstancesAreRebased(defs, s, saved, offset);
    ListsAreSaved(defs, s, saved);
    KeepsAssigned(s.instances, offset);
    RestoredFrom(defs, s, saved, Deserialized(saved, offset));
  }

  predicate StepsOk(i: Instance) {
    i.assignment.Some? ==> i.assignment.value.deployedAtStep >= 0 && i.assignment.value.returnStep >= 0
  }

  lemma RebasedAtZero(i: Instance)
    ensures Rebaser(0)(i) == i <==> StepsOk(i)
  {
  }

  lemma MappedToItself<A>(m: map<Text, A>, f: A -> A)
    ensures Mapped(m, f) == m <==> forall key | key in m :: f(m[key]) == m[key]
  {
    if Mapped(m, f) == m {
      forall key | key in m
        ensures f(m[key]) == m[key]
      {
        assert Mapped(m, f)[key] == f(m[key]);
      }
    }
  }

  lemma RebasedIsSameIff(s: State)
    ensures Rebased(s, 0) == s <==> forall id | id in s.instances :: StepsOk(s.instances[id])
  {
    MappedToItself(s.instances, Rebaser(0));
    forall id | id in s.instances
      ensures Rebaser(0)(s.instances[id]) == s.instances[id] <==> StepsOk(s.instances[id])
    {
      RebasedAtZero(s.instances[id]);
    }
    assert Rebased(s, 0) == s <==> Mapped(s.instances, Rebaser(0)) == s.instances;
  }

  /** So a save is a faithful copy exactly when no assignment has a negative step. */
  lemma SaveIsFaithfulIff(defs: Definitions, s: State, saved: Saved)
    requires Balanced(defs, s) && Serializes(s, saved)
    ensures Restored(defs, Deserialized(saved, 0)) == s <==> forall id | id in s.instances :: StepsOk(s.instances[id])
  {
    RestoreUndoesSave(defs, s, saved, 0);
    RebasedIsSameIff(s);
  }

  lemma RebasedEntityBalances(d: Definition, e: Entity, list: seq<Text>, instances: map<Text, Instance>, id: Text,
                              offset: int)
    requires EntityBalances(d, e, list, instances, id)
    ensures EntityBalances(d, e, list, Mapped(instances, Rebaser(offset)), id)
  {
    KeepsAssigned(instances, offset);
    FreeAlike(instances, Mapped(instances, Rebaser(offset)), list);
  }

  /** Moving assignments keeps the books balanced. */
  lemma RebasedBalances(defs: Definitions, s: State, offset: int)
    requires Balanced(defs, s)
    ensures Balanced(defs, Rebased(s, offset))
  {
    var t := Rebased(s, offset);
    forall id | id in defs
      ensures EntityBalances(defs[id], t.entities[id], t.lists[id], t.instances, id)
    {
      assert EntityBalances(defs[id], s.entities[id], s.lists[id], s.instances, id);
      RebasedEntityBalances(defs[id], s.entities[id], s.lists[id], s.instances, id, offset);
    }
    forall id | id in t.instances
      ensures InstanceListed(defs, t.instances[id], id, t.lists)
    {
      assert InstanceListed(defs, s.instances[id], id, s.lists);
    }
  }

  /** So the books balance after restoring a save of balanced books. */
  lemma RestoreBalances(defs: Definitions, saved: Saved, offset: int)
    requires exists s :: Balanced(defs, s) && Serializes(s, saved)
    ensures Balanced(defs, Restored(defs, Deserialized(saved, offset)))
  {
    var s :| Balanced(defs, s) && Serializes(s, saved);
    RestoreUndoesSave(defs, s, saved, offset);
    RebasedBalances(defs, s, offset);
  }
}

/** The entity system, whose maps change in place. */
module EntitySystems {
  import opened Wrappers
  import opened Texts
  import opened Counting
  import opened Levelling
  import opened InstanceIds
  import E = Entities
  import opened Entities

  /** `${entityId}_${creationStep}_`, for the decimal text of a step. */
  function IdPrefix(entityId: Text, stepText: Text): Text {
    entityId + [0x5F] + stepText + [0x5F]
  }

  class EntitySystem {
    const definitions: Definitions
    /** How a step prints in an id. */
    const printStep: int -> Text
    var entityStates: map<Text, E.Entity>
    var instanceStates: map<Text, E.Instance>
    var entityInstances: map<Text, seq<Text>>

    ghost function State(): E.State
      reads this
    {
      E.State(entityStates, instanceStates, entityInstances)
    }

    ghost predicate Valid()
      reads this
    {
      Balanced(definitions, State())
    }

    /** Every entity starts empty. */
    constructor (definitions: Definitions, printStep: int -> Text)
      ensures Valid() && this.definitions == definitions && instanceStates == map[]
      ensures forall id | id in definitions ::
              entityStates[id] == E.Entity(0, 0, definitions[id].unlocked, definitions[id].visible)
    {
      this.definitions, this.printStep := definitions, printStep;
      entityStates := map id | id in definitions :: E.Entity(0, 0, definitions[id].unlocked, definitions[id].visible);
      instanceStates := map[];
      entityInstances := map id | id in definitions :: [];
    }

    method AddInstance(entityId: Text, id: Text, stats: Stats)
      requires entityId in entityStates && entityId in entityInstances
      requires entityStates[entityId].count >= 0 && entityStates[entityId].availableCount >= 0
      modifies this
      ensures State() == Created(old(State()), entityId, id, stats)
    {
      instanceStates := instanceStates[id := E.Instance(entityId, MIN_LEVEL, 0.0, stats, None)];
      entityInstances := entityInstances[entityId := entityInstances[entityId] + [id]];
      var e := entityStates[entityId];
      entityStates := entityStates[entityId := e.(count := e.count + 1, availableCount := e.availableCount + 1)];
    }

    /** Fails on unknown or untracked entities and on full ones; otherwise a new instance with an id of its own. */
    method CreateInstance(entityId: Text, step: int, draws: seq<nat>) returns (r: Result<Text, Error>)
      requires Valid() && |draws| == MAX_INSTANCE_ID_ATTEMPTS
      modifies this
      ensures Valid()
      ensures r.Err? ==> State() == old(State()) && r.error == Refusal(definitions, entityId)
      ensures r.Ok? <==> Admits(definitions, old(State()), entityId, step)
      ensures r.Ok? ==> r.value !in old(instanceStates)
                        && State() == Created(old(State()), entityId, r.value,
                                              definitions[entityId].stats(MIN_LEVEL, step))
      ensures r.Ok? ==> Joined(old(State()), State(), r.value,
                               E.Instance(entityId, 1, 0.0, definitions[entityId].stats(1, step), None))
    {
      ghost var s := State();
      if entityId !in definitions {
        return Err(EntityNotFound);
      }
      var d := definitions[entityId];
      if !d.trackInstances {
        return Err(NotTracked);
      }
      var limit := MaxCount(d, entityStates[entityId].count + 1, step);
      if limit.Some? && entityStates[entityId].count >= limit.value {
        return Err(MaxCountReached);
      }
      var id := GenerateInstanceId(IdPrefix(entityId, printStep(step)), instanceStates.Keys, draws);
      EntityIsNotNegative(definitions, State(), entityId);
      CreatedBalances(definitions, State(), entityId, id, d.stats(MIN_LEVEL, step));
      AddInstance(entityId, id, d.stats(MIN_LEVEL, step));
      CreatedJoins(definitions, s, entityId, id, d.stats(MIN_LEVEL, step));
      r := Ok(id);
    }

    method RemoveInstance(instanceId: Text)
      requires instanceId in instanceStates && instanceStates[instanceId].entityId in entityStates
      requires instanceStates[instanceId].entityId in entityInstances
      requires entityStates[instanceStates[instanceId].entityId].availableCount >= 0
      modifies this
      ensures State() == Destroyed(old(State()), instanceId)
    {
      var i := instanceStates[instanceId];
      entityInstances := entityInstances[i.entityId := Without(entityInstances[i.entityId], instanceId)];
      instanceStates := instanceStates - {instanceId};
      var e := entityStates[i.entityId];
      e := e.(count := Max0(e.count - 1));
      if i.assignment.None? {
        e := e.(availableCount := Max0(e.availableCount - 1));
      }
      entityStates := entityStates[i.entityId := e];
    }

    method DestroyInstance(instanceId: Text) returns (r: Result<(), Error>)
      requires Valid()
      modifies this
      ensures Valid() && r == if instanceId in old(instanceStates) then Ok(()) else Err(InstanceNotFound)
      ensures r.Err? ==> State() == old(State())
      ensures r.Ok? ==> && old(instanceStates)[instanceId].entityId in old(entityStates)
                        && old(instanceStates)[instanceId].entityId in old(entityInstances)
                        && State() == Destroyed(old(State()), instanceId)
      ensures r.Ok? ==> Left(old(State()), State(), instanceId)
    {
      if instanceId !in instanceStates {
        return Err(InstanceNotFound);
      }
      MayDestroy(definitions, State(), instanceId);
      DestroyedLeaves(definitions, State(), instanceId);
      RemoveInstance(instanceId);
      r := Ok(());
    }

    /** Sets or clears an assignment and accounts for it. */
    method SetAssignment(instanceId: Text, assignment: Option<Assignment>)
      requires instanceId in instanceStates && instanceStates[instanceId].entityId in entityStates
      requires entityStates[instanceStates[instanceId].entityId].availableCount >= 0
      requires entityStates[instanceStates[instanceId].entityId].count >= 0
      modifies this
      ensures State() == Moved(old(State()), instanceId, assignment)
    {
      var i := instanceStates[instanceId];
      instanceStates := instanceStates[instanceId := i.(assignment := assignment)];
      var e := entityStates[i.entityId];
      entityStates := entityStates[i.entityId := e.(availableCount := if assignment.None? then e.availableCount + 1
                                                                     else Max0(e.availableCount - 1))];
    }

    method AssignToMission(instanceId: Text, assignment: Assignment) returns (r: Result<(), Error>)
      requires Valid()
      modifies this
      ensures Valid()
      ensures r == if instanceId !in old(instanceStates) then Err(InstanceNotFound)
                   else if old(instanceStates)[instanceId].assignment.Some? then Err(AlreadyAssigned)
                   else if assignment.returnStep < assignment.deployedAtStep then Err(ReturnBeforeDeployment)
                   else Ok(())
      ensures r.Err? ==> State() == old(State())
      ensures r.Ok? ==> && old(instanceStates)[instanceId].entityId in old(entityStates)
                        && State() == Moved(old(State()), instanceId, Some(assignment))
      ensures r.Ok? ==> Reassigned(old(State()), State(), instanceId, Some(assignment))
    {
      if instanceId !in instanceStates {
        return Err(InstanceNotFound);
      }
      if instanceStates[instanceId].assignment.Some? {
        return Err(AlreadyAssigned);
      }
      if assignment.returnStep < assignment.deployedAtStep {
        return Err(ReturnBeforeDeployment);
      }
      MayMove(definitions, State(), instanceId, Some(assignment));
      MovedReassigns(definitions, State(), instanceId, Some(assignment));
      SetAssignment(instanceId, Some(assignment));
      r := Ok(());
    }

    method ReturnFromMission(instanceId: Text) returns (r: Result<(), Error>)
      requires Valid()
      modifies this
      ensures Valid() && r == if instanceId in old(instanceStates) then Ok(()) else Err(InstanceNotFound)
      ensures r.Err? || old(instanceStates)[instanceId].assignment.None? ==> State() == old(State())
      ensures r.Ok? && old(instanceStates)[instanceId].assignment.Some? ==>
                && old(instanceStates)[instanceId].entityId in old(entityStates)
                && State() == Moved(old(State()), instanceId, None)
                && Reassigned(old(State()), State(), instanceId, None)
    {
      if instanceId !in instanceStates {
        return Err(InstanceNotFound);
      }
      if instanceStates[instanceId].assignment.Some? {
        MayMove(definitions, State(), instanceId, None);
        MovedReassigns(definitions, State(), instanceId, None);
        SetAssignment(instanceId, None);
      }
      r := Ok(());
    }

    method ReturnIfDue(id: Text, step: int)
      requires Valid() && id in instanceStates
      modifies this
      ensures Valid() && SameFlags(old(State()), State())
      ensures instanceStates == old(instanceStates)[id := Home(old(instanceStates)[id], step)]
    {
      var i := instanceStates[id];
      if i.assignment.Some? && i.assignment.value.returnStep <= step {
        assert InstanceListed(definitions, i, id, entityInstances);
        EntityIsNotNegative(definitions, State(), i.entityId);
        var r := ReturnFromMission(id);
      } else {
        assert instanceStates[id := i] == instanceStates;
      }
    }

    /** Brings home every instance whose return step has come. */
    method ProcessReturningMissions(step: int)
      requires Valid()
      modifies this
      ensures Valid() && SameFlags(old(State()), State())
      ensures instanceStates == HomeExcept(old(instanceStates), {}, step)
      ensures forall id | id in old(instanceStates) ::
                var i := old(instanceStates)[id];
                id in instanceStates
                && instanceStates[id] == if i.assignment.Some? && i.assignment.value.returnStep <= step
                                         then i.(assignment := None) else i
    {
      ghost var s, m := State(), instanceStates;
      var ids := instanceStates.Keys;
      HomeStarts(m, step);
      while ids != {}
        invariant Valid() && SameFlags(s, State())
        invariant ids <= m.Keys && instanceStates == HomeExcept(m, ids, step)
        decreases ids
      {
        var id :| id in ids;
        HomeNext(m, ids, id, step);
        ghost var before := State();
        ReturnIfDue(id, step);
        SameFlagsOn(s, before, State());
        ids := ids - {id};
      }
    }

    /** Spends experience on levels, one after the other. */
    static method ClimbLevels(p: Progression, start: Progress, step: int, ghost least: real) returns (end: Progress)
      requires AtLeast(p, step, least)
      ensures end == Climb(p, start, step, least)
    {
      var level, experience := start.level, start.experience;
      while Advances(p, level, experience, step)
        invariant Climb(p, Progress(level, experience), step, least) == Climb(p, start, step, least)
        decreases if experience >= 0.0 then (experience / least).Floor else 0
      {
        FloorDrops(experience, p.required(level, step), least);
        experience := experience - p.required(level, step);
        level := level + 1;
      }
      end := Progress(level, experience);
    }

    static method Train(d: Definition, i: E.Instance, amount: real, step: int, ghost least: real)
      returns (r: E.Instance)
      requires d.progression.Some? ==> AtLeast(d.progression.value, step, least)
      ensures r == Trained(d, i, amount, step, least)
    {
      if amount <= 0.0 {
        return i;
      }
      r := i.(experience := i.experience + amount);
      if d.progression.None? {
        return;
      }
      var start := Progress(if i.level < MIN_LEVEL then MIN_LEVEL else i.level, r.experience);
      var end := ClimbLevels(d.progression.value, start, step, least);
      r := r.(experience := end.experience);
      if end.level != i.level {
        r := r.(level := end.level, stats := d.stats(end.level, step));
      }
    }

    /** Adds experience to an instance and levels it up. */
    method AddExperience(instanceId: Text, amount: real, step: int, ghost least: real) returns (r: Result<(), Error>)
      requires Valid() && forall id | id in definitions && definitions[id].progression.Some? ::
                 AtLeast(definitions[id].progression.value, step, least)
      modifies this
      ensures Valid() && entityStates == old(entityStates) && entityInstances == old(entityInstances)
      ensures r == if instanceId in old(instanceStates) then Ok(()) else Err(InstanceNotFound)
      ensures r.Err? ==> State() == old(State())
      ensures r.Ok? ==> var i := old(instanceStates)[instanceId];
                        && i.entityId in definitions
                        && instanceStates == old(instanceStates)[instanceId := Trained(definitions[i.entityId], i,
                                                                                       amount, step, least)]
    {
      if instanceId !in instanceStates {
        return Err(InstanceNotFound);
      }
      var i := instanceStates[instanceId];
      assert InstanceListed(definitions, i, instanceId, entityInstances);
      var trained := Train(definitions[i.entityId], i, amount, step, least);
      TrainedIsListed(definitions[i.entityId], i, amount, step, least);
      ReplacedBalances(definitions, State(), instanceId, trained);
      instanceStates := instanceStates[instanceId := trained];
      r := Ok(());
    }

    method DestroyAll(entityId: Text, ids: seq<Text>, ghost s: E.State)
      requires Removed(definitions, s, State(), entityId, ids, 0) && Distinct(ids)
      requires forall id | id in ids :: IsFree(s.instances, id) && s.instances[id].entityId == entityId
      modifies this
      ensures Removed(definitions, s, State(), entityId, ids, |ids|)
    {
      for k := 0 to |ids|
        invariant Removed(definitions, s, State(), entityId, ids, k)
      {
        assert ids[k] in ids;
        DestroyedRemoves(definitions, s, State(), entityId, ids, k);
        var destroyed := DestroyInstance(ids[k]);
      }
    }

    /** Removes from the end of the list as many unassigned instances as asked for, or none at all. */
    method RemoveEntityInstances(entityId: Text, n: nat) returns (r: Result<(), Error>)
      requires Valid() && entityId in definitions && definitions[entityId].trackInstances
      modifies this
      ensures Valid() && r == if old(entityStates)[entityId].availableCount < n then Err(NotEnough) else Ok(())
      ensures r.Err? ==> State() == old(State())
      ensures r.Ok? ==> var ids := Collect(old(instanceStates), old(entityInstances)[entityId], n);
                        |ids| == n && Removed(definitions, old(State()), State(), entityId, ids, n)
    {
      ghost var s := State();
      assert EntityBalances(definitions[entityId], s.entities[entityId], s.lists[entityId], s.instances, entityId);
      var ids := Collect(instanceStates, entityInstances[entityId], n);
      CollectFinds(instanceStates, entityInstances[entityId], n);
      if |ids| < n {
        return Err(NotEnough);
      }
      NothingRemoved(definitions, s, entityId, ids);
      DestroyAll(entityId, ids, s);
      r := Ok(());
    }

    /** An untracked entity counts up to its limit. */
    method AddCount(entityId: Text, n: nat, step: int)
      requires Valid() && entityId in definitions && !definitions[entityId].trackInstances
      modifies this
      ensures Valid() && instanceStates == old(instanceStates) && entityInstances == old(entityInstances)
      ensures entityId in old(entityStates)
      ensures entityStates
              == old(entityStates)[entityId := Counted(definitions[entityId], old(entityStates)[entityId], n, step)]
      ensures CountsUp(definitions[entityId], old(entityStates)[entityId], entityStates[entityId], n, step)
    {
      assert EntityBalances(definitions[entityId], entityStates[entityId], entityInstances[entityId], instanceStates,
                            entityId);
      var e := Counted(definitions[entityId], entityStates[entityId], n, step);
      RecountedBalances(definitions, State(), entityId, e);
      entityStates := entityStates[entityId := e];
    }

    /** One more new instance, after `made` of them. */
    method CreateNext(entityId: Text, step: int, draws: seq<nat>, ghost s: E.State, ghost made: nat)
      returns (r: Result<Text, Error>)
      requires Valid() && |draws| == MAX_INSTANCE_ID_ATTEMPTS && Grown(s, State(), entityId, made)
      requires entityId in definitions && definitions[entityId].trackInstances
      modifies this
      ensures Valid() && Grown(s, State(), entityId, if r.Ok? then made + 1 else made)
      ensures r.Err? ==> r.error == MaxCountReached && !Admits(definitions, State(), entityId, step)
    {
      ghost var t := State();
      r := CreateInstance(entityId, step, draws);
      if r.Ok? {
        EntityIsNotNegative(definitions, t, entityId);
        CreatedGrows(s, t, entityId, r.value, definitions[entityId].stats(MIN_LEVEL, step), made);
      }
    }

    /** `n` new instances, one after the other; those made before a failure stay. */
    method AddInstances(entityId: Text, n: nat, step: int, draws: seq<seq<nat>>)
      returns (r: Result<(), Error>, ghost made: nat)
      requires Valid() && entityId in definitions && definitions[entityId].trackInstances
      requires |draws| == n && forall k | 0 <= k < n :: |draws[k]| == MAX_INSTANCE_ID_ATTEMPTS
      modifies this
      ensures Valid() && made <= n && Grown(old(State()), State(), entityId, made)
      ensures r.Ok? <==> made == n
      ensures r.Err? ==> r.error == MaxCountReached && !Admits(definitions, State(), entityId, step)
    {
      made := 0;
      ghost var s := State();
      GrownByNothing(definitions, s, entityId);
      for k := 0 to n
        invariant Valid() && made == k && Grown(s, State(), entityId, made)
      {
        var created := CreateNext(entityId, step, draws[k], s, made);
        if created.Err? {
          return Err(created.error), made;
        }
        made := made + 1;
      }
      r := Ok(());
    }

    method RemoveCount(entityId: Text, n: nat) returns (r: Result<(), Error>)
      requires Valid() && entityId in definitions && !definitions[entityId].trackInstances
      modifies this
      ensures Valid() && entityId in old(entityStates)
      ensures r == if old(entityStates)[entityId].count < n then Err(NotEnough) else Ok(())
      ensures r.Err? ==> State() == old(State())
      ensures r.Ok? ==>
                State() == old(State()).(entities :=
                             old(entityStates)[entityId := Fewer(old(entityStates)[entityId], n)])
    {
      assert EntityBalances(definitions[entityId], entityStates[entityId], entityInstances[entityId], instanceStates,
                            entityId);
      var e := entityStates[entityId];
      if e.count < n {
        return Err(NotEnough);
      }
      var fewer := e.(count := e.count - n, availableCount := Max0(e.availableCount - n));
      assert fewer == Fewer(e, n);
      RecountedBalances(definitions, State(), entityId, fewer);
      entityStates := entityStates[entityId := fewer];
      r := Ok(());
    }

    /** Nothing for counts that are not positive; new instances of a tracked entity, a higher count of any other. */
    method AddEntity(entityId: Text, count: int, step: int, draws: seq<seq<nat>>)
      returns (r: Result<(), Error>, ghost made: nat)
      requires Valid() && |draws| == Max0(count)
               && forall k | 0 <= k < |draws| :: |draws[k]| == MAX_INSTANCE_ID_ATTEMPTS
      modifies this
      ensures Valid() && made <= Max0(count)
      ensures r == Err(EntityNotFound) <==> entityId !in definitions
      ensures entityId !in definitions || count <= 0 ==> State() == old(State())
      ensures entityId in definitions && count > 0 && definitions[entityId].trackInstances ==>
                && Grown(old(State()), State(), entityId, made)
                && (r.Ok? <==> made == count) && (r.Err? ==> !Admits(definitions, State(), entityId, step))
      ensures entityId in definitions && count > 0 && !definitions[entityId].trackInstances ==>
                && r.Ok? && entityId in old(entityStates)
                && State() == old(State()).(entities :=
                     old(entityStates)[entityId :=
                                       Counted(definitions[entityId], old(entityStates)[entityId], count, step)])
                && CountsUp(definitions[entityId], old(entityStates)[entityId], entityStates[entityId], count, step)
    {
      made := 0;
      if entityId !in definitions {
        return Err(EntityNotFound), made;
      }
      if count <= 0 {
        return Ok(()), made;
      }
      if definitions[entityId].trackInstances {
        r, made := AddInstances(entityId, count, step, draws);
      } else {
        AddCount(entityId, count, step);
        r := Ok(());
      }
    }

    /** Removes unassigned instances of a tracked entity, or lowers the count of any other; all or nothing. */
    method RemoveEntity(entityId: Text, count: int) returns (r: Result<(), Error>)
      requires Valid()
      modifies this
      ensures Valid() && (r == Err(EntityNotFound) <==> entityId !in definitions)
      ensures r.Err? || count <= 0 ==> State() == old(State())
      ensures entityId in definitions ==> entityId in old(entityStates) && entityId in old(entityInstances)
      ensures entityId in definitions && count > 0 ==>
                var e := old(entityStates)[entityId];
                && (r.Ok? <==> (if definitions[entityId].trackInstances then e.availableCount else e.count) >= count)
                && (r.Ok? && !definitions[entityId].trackInstances ==>
                      State() == old(State()).(entities := old(entityStates)[entityId := Fewer(e, count)]))
                && (r.Ok? && definitions[entityId].trackInstances ==>
                      var ids := Collect(old(instanceStates), old(entityInstances)[entityId], count);
                      |ids| == count && Removed(definitions, old(State()), State(), entityId, ids, count))
    {
      if entityId !in definitions {
        return Err(EntityNotFound);
      }
      EntityIsNotNegative(definitions, State(), entityId);
      if count <= 0 {
        return Ok(());
      }
      if definitions[entityId].trackInstances {
        r := RemoveEntityInstances(entityId, count);
      } else {
        r := RemoveCount(entityId, count);
      }
    }

    /** Recounts every tracked entity from its list. */
    method RecountTracked()
      requires definitions.Keys <= entityStates.Keys && definitions.Keys <= entityInstances.Keys
      modifies `entityStates
      ensures entityStates.Keys == old(entityStates).Keys
      ensures forall id | id in entityStates ::
                entityStates[id] == Recounted(definitions, old(entityStates)[id], instanceStates,
                                              ListOr(entityInstances, id), id)
    {
      var ids := definitions.Keys;
      while ids != {}
        invariant ids <= definitions.Keys && entityStates.Keys == old(entityStates).Keys
        invariant forall id | id in entityStates ::
                    entityStates[id] ==
                    if id in ids then old(entityStates)[id]
                    else Recounted(definitions, old(entityStates)[id], instanceStates, ListOr(entityInstances, id), id)
        decreases ids
      {
        var id :| id in ids;
        if definitions[id].trackInstances {
          var list, e := entityInstances[id], entityStates[id];
          entityStates := entityStates[id := e.(count := |list|,
                                                availableCount := Max0(|list| - Assigned(instanceStates, list)))];
        }
        ids := ids - {id};
      }
    }

    method RestoreState(saved: Saved, offset: int)
      modifies this
      ensures State() == Restored(definitions, Deserialized(saved, offset))
      ensures (exists s :: Balanced(definitions, s) && Serializes(s, saved)) ==> Valid()
    {
      if exists s :: Balanced(definitions, s) && Serializes(s, saved) {
        RestoreBalances(definitions, saved, offset);
      }
      var resolved := Deserialized(saved, offset);
      instanceStates := resolved.instances;
      entityInstances := map id | id in definitions.Keys + resolved.lists.Keys :: ListOr(resolved.lists, id);
      entityStates := map id | id in definitions.Keys + resolved.entities.Keys ::
          SavedOrNew(definitions, resolved.entities, id);
      RecountTracked();
      RestoredInSteps(definitions, resolved, entityStates, entityInstances);
    }
  }

  // ----- what operations do, in fields

  /** An instance is new: it goes to the end of the list of its entity, which has one more, available. */
  ghost predicate Joined(s: E.State, t: E.State, id: Text, i: E.Instance) {
    && i.entityId in s.entities && i.entityId in s.lists && id !in s.instances
    && t.instances == s.instances[id := i]
    && t.lists == s.lists[i.entityId := s.lists[i.entityId] + [id]]
    && var e := s.entities[i.entityId];
       t.entities == s.entities[i.entityId := e.(count := e.count + 1, availableCount := e.availableCount + 1)]
  }

  /** An instance is gone: from the map, from its list, where the others keep their order, and from the counts. */
  ghost predicate Left(s: E.State, t: E.State, id: Text) {
    && id in s.instances
    && var i := s.instances[id];
    && i.entityId in s.entities && i.entityId in s.lists && i.entityId in t.lists
    && t.instances == s.instances - {id}
    && t.lists == s.lists[i.entityId := t.lists[i.entityId]]
    && (exists k :: CutsOut(s.lists[i.entityId], k, id, t.lists[i.entityId]))
    && var e := s.entities[i.entityId];
       t.entities == s.entities[i.entityId := e.(count := e.count - 1,
                                                 availableCount := if i.assignment.None? then e.availableCount - 1
                                                                   else e.availableCount)]
  }

  predicate CutsOut(list: seq<Text>, k: int, id: Text, rest: seq<Text>) {
    0 <= k < |list| && list[k] == id && rest == list[..k] + list[k + 1..]
  }

  /** The assignment of one instance changes, and with it how many of its entity are available. */
  ghost predicate Reassigned(s: E.State, t: E.State, id: Text, assignment: Option<Assignment>) {
    && id in s.instances && s.instances[id].entityId in s.entities && t.lists == s.lists
    && t.instances == s.instances[id := s.instances[id].(assignment := assignment)]
    && var e := s.entities[s.instances[id].entityId];
       t.entities == s.entities[s.instances[id].entityId :=
                                e.(availableCount := if assignment.Some? then e.availableCount - 1
                                                     else e.availableCount + 1)]
  }

  /** A count aims `n` higher and ends there, or at the limit for the count aimed at; all of it is available. */
  predicate CountsUp(d: Definition, e: E.Entity, f: E.Entity, n: nat, step: int) {
    var aim := e.count + n;
    && f == e.(count := f.count, availableCount := f.count)
    && f.count == if d.maxCount.None? || aim <= d.maxCount.value(aim, step) then aim
                  else if d.maxCount.value(aim, step) < 0 then 0 else d.maxCount.value(aim, step)
  }

  lemma CreatedJoins(defs: Definitions, s: E.State, entityId: Text, id: Text, stats: E.Stats)
    requires Balanced(defs, s) && entityId in defs && id !in s.instances
    ensures Joined(s, Created(s, entityId, id, stats), id, E.Instance(entityId, 1, 0.0, stats, None))
  {
    EntityIsNotNegative(defs, s, entityId);
  }

  lemma CountedMember(defs: Definitions, s: E.State, id: Text)
    requires Balanced(defs, s) && id in s.instances
    ensures var i := s.instances[id];
            && i.entityId in s.entities && i.entityId in s.lists && id in s.lists[i.entityId]
            && s.entities[i.entityId].count > 0 && s.entities[i.entityId].availableCount >= 0
            && (i.assignment.None? ==> s.entities[i.entityId].availableCount > 0)
  {
    var entityId := s.instances[id].entityId;
    assert InstanceListed(defs, s.instances[id], id, s.lists);
    assert EntityBalances(defs[entityId], s.entities[entityId], s.lists[entityId], s.instances, entityId);
    if s.instances[id].assignment.None? {
      FreeIsPositive(s.instances, s.lists[entityId], id);
    }
  }

  lemma DestroyedLeaves(defs: Definitions, s: E.State, id: Text)
    requires Balanced(defs, s) && id in s.instances
    ensures s.instances[id].entityId in s.entities && s.instances[id].entityId in s.lists
    ensures Left(s, Destroyed(s, id), id)
  {
    CountedMember(defs, s, id);
    var k := WithoutCutsOut(s.lists[s.instances[id].entityId], id);
  }

  lemma WithoutCutsOut(list: seq<Text>, id: Text) returns (k: int)
    requires id in list
    ensures CutsOut(list, k, id, Without(list, id))
  {
    var before, after := WithoutParts(list, id);
    k := |before|;
    assert list[..k] == before && list[k + 1..] == after;
  }

  lemma ShiftedOnce(e: E.Entity, assignment: Option<Assignment>)
    requires e.count >= 0 && (if assignment.Some? then e.availableCount > 0 else e.availableCount >= 0)
    ensures Shifted(e, 0, if assignment.None? then 1 else -1)
         == e.(availableCount := if assignment.Some? then e.availableCount - 1 else e.availableCount + 1)
  {
  }

  lemma MovedReassigns(defs: Definitions, s: E.State, id: Text, assignment: Option<Assignment>)
    requires Balanced(defs, s) && id in s.instances && s.instances[id].assignment.None? != assignment.None?
    ensures s.instances[id].entityId in s.entities
    ensures Reassigned(s, Moved(s, id, assignment), id, assignment)
  {
    CountedMember(defs, s, id);
    ShiftedOnce(s.entities[s.instances[id].entityId], assignment);
  }

  lemma {:induction false} FreeIsPositive(instances: map<Text, E.Instance>, list: seq<Text>, id: Text)
    requires id in list && IsFree(instances, id)
    ensures Free(instances, list) > 0
  {
    if list[|list| - 1] != id {
      FreeIsPositive(instances, list[..|list| - 1], id);
    }
  }

  /** Why an instance can be created: the entity is known and tracked, and below the limit for one more. */
  lemma AdmitsIff(defs: Definitions, s: E.State, entityId: Text, step: int)
    requires Balanced(defs, s)
    ensures Admits(defs, s, entityId, step) <==>
              && entityId in defs && entityId in s.entities && defs[entityId].trackInstances
              && (defs[entityId].maxCount.None?
                  || s.entities[entityId].count < defs[entityId].maxCount.value(s.entities[entityId].count + 1, step))
  {
    if entityId in defs {
      EntityIsNotNegative(defs, s, entityId);
    }
  }

  /** An entity that is known or tracks instances up to a limit which is not reached yet. */
  ghost predicate Admits(defs: Definitions, s: E.State, entityId: Text, step: int)
    requires Balanced(defs, s)
  {
    && entityId in defs && defs[entityId].trackInstances
    && var limit := MaxCount(defs[entityId], s.entities[entityId].count + 1, step);
       limit.None? || s.entities[entityId].count < limit.value
  }

  /** Why an instance cannot be created. */
  function Refusal(defs: Definitions, entityId: Text): Error {
    if entityId !in defs then EntityNotFound else if !defs[entityId].trackInstances then NotTracked else MaxCountReached
  }

  lemma TrainedIsListed(d: Definition, i: E.Instance, amount: real, step: int, least: real)
    requires (d.progression.Some? ==> AtLeast(d.progression.value, step, least)) && i.level >= MIN_LEVEL
             && i.experience >= 0.0
    ensures var t := Trained(d, i, amount, step, least);
            t.level >= MIN_LEVEL && t.experience >= 0.0 && t.entityId == i.entityId && t.assignment == i.assignment
  {
    if amount > 0.0 {
      var gained := TrainedConserves(d, i, amount, step, least);
    }
  }

  function HomeExcept(instances: map<Text, E.Instance>, ids: set<Text>, step: int): map<Text, E.Instance> {
    map id | id in instances :: if id in ids then instances[id] else Home(instances[id], step)
  }

  lemma HomeStarts(instances: map<Text, E.Instance>, step: int)
    ensures HomeExcept(instances, instances.Keys, step) == instances
  {
  }

  lemma HomeNext(instances: map<Text, E.Instance>, ids: set<Text>, id: Text, step: int)
    requires id in ids && id in instances
    ensures HomeExcept(instances, ids - {id}, step)
         == HomeExcept(instances, ids, step)[id := Home(HomeExcept(instances, ids, step)[id], step)]
  {
  }

  lemma SameFlagsOn(s: E.State, t: E.State, u: E.State)
    requires SameFlags(s, t) && SameFlags(t, u)
    ensures SameFlags(s, u)
  {
  }

  lemma RestoredInSteps(defs: Definitions, resolved: E.State, entities: map<Text, E.Entity>,
                        lists: map<Text, seq<Text>>)
    requires entities.Keys == defs.Keys + resolved.entities.Keys
    requires lists == map id | id in defs.Keys + resolved.lists.Keys :: ListOr(resolved.lists, id)
    requires forall id | id in entities ::
               entities[id] == Recounted(defs, SavedOrNew(defs, resolved.entities, id), resolved.instances,
                                         ListOr(lists, id), id)
    ensures E.State(entities, resolved.instances, lists) == Restored(defs, resolved)
  {
    forall id | id in entities
      ensures entities[id]
              == RestoredEntity(defs, resolved.entities, resolved.instances, ListOr(resolved.lists, id), id)
    {
    }
    assert entities == Restored(defs, resolved).entities;
  }

  lemma NothingRemoved(defs: Definitions, s: E.State, entityId: Text, ids: seq<Text>)
    requires Balanced(defs, s) && entityId in defs
    ensures Removed(defs, s, s, entityId, ids, 0)
  {
    assert ids[..0] == [] && Elements(ids[..0]) == {};
    assert s.instances - {} == s.instances;
  }

  lemma MayDestroy(defs: Definitions, s: E.State, id: Text)
    requires Balanced(defs, s) && id in s.instances
    ensures var entityId := s.instances[id].entityId;
            entityId in s.entities && entityId in s.lists && s.entities[entityId].availableCount >= 0
    ensures Balanced(defs, Destroyed(s, id))
  {
    ListedInstance(defs, s, id);
    EntityIsNotNegative(defs, s, s.instances[id].entityId);
    DestroyedBalances(defs, s, id);
  }

  lemma MayMove(defs: Definitions, s: E.State, id: Text, assignment: Option<Assignment>)
    requires Balanced(defs, s) && id in s.instances && s.instances[id].assignment.None? != assignment.None?
    ensures var entityId := s.instances[id].entityId;
            entityId in s.entities && s.entities[entityId].count >= 0 && s.entities[entityId].availableCount >= 0
    ensures Balanced(defs, Moved(s, id, assignment))
  {
    ListedInstance(defs, s, id);
    EntityIsNotNegative(defs, s, s.instances[id].entityId);
    MovedBalances(defs, s, id, assignment);
  }

  lemma ListedInstance(defs: Definitions, s: E.State, id: Text)
    requires Balanced(defs, s) && id in s.instances
    ensures s.instances[id].entityId in defs && s.instances[id].level >= MIN_LEVEL && s.instances[id].experience >= 0.0
  {
    assert InstanceListed(defs, s.instances[id], id, s.lists);
  }

  /** `made` new unassigned instances of an entity at the end of its list; everything else as it was. */
  ghost predicate Grown(s: E.State, t: E.State, entityId: Text, made: nat) {
    && entityId in s.entities && entityId in t.entities && entityId in s.lists && entityId in t.lists
    && t.entities[entityId] == Fewer(s.entities[entityId], -(made as int))
    && s.lists[entityId] <= t.lists[entityId] && |t.lists[entityId]| == |s.lists[entityId]| + made
    && OthersSame(s, t, entityId)
    && forall id | id in s.instances :: id in t.instances && t.instances[id] == s.instances[id]
  }

  lemma GrownByNothing(defs: Definitions, s: E.State, entityId: Text)
    requires Balanced(defs, s) && entityId in defs
    ensures Grown(s, s, entityId, 0)
  {
    assert Fewer(s.entities[entityId], 0) == s.entities[entityId];
  }

  lemma CreatedGrows(s: E.State, t: E.State, entityId: Text, id: Text, stats: E.Stats, made: nat)
    requires Grown(s, t, entityId, made) && id !in t.instances
    requires t.entities[entityId].count >= 0 && t.entities[entityId].availableCount >= 0
    ensures Grown(s, Created(t, entityId, id, stats), entityId, made + 1)
  {
  }

  lemma EntityIsNotNegative(defs: Definitions, s: E.State, entityId: Text)
    requires Balanced(defs, s) && entityId in defs
    ensures entityId in s.entities && entityId in s.lists
    ensures s.entities[entityId].count >= 0 && s.entities[entityId].availableCount >= 0
  {
    assert EntityBalances(defs[entityId], s.entities[entityId], s.lists[entityId], s.instances, entityId);
  }
}
