/**
 * First-fit matching of the commands enqueued during a replay against later log entries
 * (packages/core/src/command-recorder.ts), for any comparison of commands.
 */
module ReplayMatching {
  import opened Wrappers

  /** A command enqueued while the log entry at index `by` was replayed. */
  datatype Request<C> = Request(command: C, origin: nat)

  /** The first unclaimed log index from `start` whose command compares as equal. */
  function FirstMatch<C>(eq: (C, C) -> bool, log: seq<C>, c: C, start: nat, claimed: set<nat>): Option<nat>
    decreases |log| - start
  {
    if start >= |log| then None
    else if start !in claimed && eq(log[start], c) then Some(start)
    else FirstMatch(eq, log, c, start + 1, claimed)
  }

  function ToSet(xs: seq<nat>): set<nat> {
    set i | i in xs
  }

  /** The log indices claimed for the first `k` requests, unless some request finds none. */
  function Claims<C>(eq: (C, C) -> bool, log: seq<C>, requests: seq<Request<C>>, k: nat): Option<seq<nat>>
    requires k <= |requests|
  {
    if k == 0 then Some([])
    else
      match Claims(eq, log, requests, k - 1)
      case None => None
      case Some(done) =>
        var r := requests[k - 1];
        match FirstMatch(eq, log, r.command, r.origin + 1, ToSet(done))
        case None => None
        case Some(index) => Some(done + [index])
  }

  /** First fit finds a log entry for every request. */
  predicate Accepts<C>(eq: (C, C) -> bool, log: seq<C>, requests: seq<Request<C>>) {
    Claims(eq, log, requests, |requests|).Some?
  }

  /** Every request has its own equal log entry after the entry that enqueued it. */
  ghost predicate IsAssignment<C>(eq: (C, C) -> bool, log: seq<C>, requests: seq<Request<C>>, f: seq<nat>) {
    && |f| == |requests|
    && (forall k | 0 <= k < |f| :: requests[k].origin < f[k] < |log| && eq(log[f[k]], requests[k].command))
    && forall j, k | 0 <= j < k < |f| :: f[j] != f[k]
  }

  lemma {:induction false} FirstMatchIsFirst<C>(eq: (C, C) -> bool, log: seq<C>, c: C, start: nat, claimed: set<nat>)
    ensures var r := FirstMatch(eq, log, c, start, claimed);
            match r {
              case Some(index) =>
                && start <= index < |log| && index !in claimed && eq(log[index], c)
                && forall i | start <= i < index :: i in claimed || !eq(log[i], c)
              case None => forall i | start <= i < |log| :: i in claimed || !eq(log[i], c)
            }
    decreases |log| - start
  {
    if start < |log| && (start in claimed || !eq(log[start], c)) {
      FirstMatchIsFirst(eq, log, c, start + 1, claimed);
    }
  }

  /** Whatever first fit claims is an assignment of the requests it served. */
  lemma {:induction false} ClaimsAreAssignments<C>(eq: (C, C) -> bool, log: seq<C>, requests: seq<Request<C>>, k: nat)
    requires k <= |requests| && Claims(eq, log, requests, k).Some?
    ensures IsAssignment(eq, log, requests[..k], Claims(eq, log, requests, k).value)
  {
    if k > 0 {
      ClaimsAreAssignments(eq, log, requests, k - 1);
      var done := Claims(eq, log, requests, k - 1).value;
      var r := requests[k - 1];
      FirstMatchIsFirst(eq, log, r.command, r.origin + 1, ToSet(done));
      AssignOneMore(eq, log, requests[..k - 1], done, r, Claims(eq, log, requests, k).value[k - 1]);
      assert requests[..k] == requests[..k - 1] + [r];
    }
  }

  lemma AssignOneMore<C>(eq: (C, C) -> bool, log: seq<C>, requests: seq<Request<C>>, f: seq<nat>,
                         r: Request<C>, index: nat)
    requires IsAssignment(eq, log, requests, f)
    requires r.origin < index < |log| && index !in f && eq(log[index], r.command)
    ensures IsAssignment(eq, log, requests + [r], f + [index])
  {
  }

  /**
   * The comparison property that makes first fit complete: commands that share one match share all
   * of them. Every equivalence has it.
   */
  ghost predicate Difunctional<C(!new)>(eq: (C, C) -> bool) {
    forall a, b, x, y :: eq(a, x) && eq(b, x) && eq(a, y) ==> eq(b, y)
  }

  lemma ShareMatches<C(!new)>(eq: (C, C) -> bool, a: C, b: C, x: C, y: C)
    requires Difunctional(eq) && eq(a, x) && eq(b, x) && eq(a, y)
    ensures eq(b, y)
  {
  }

  /** The exchange step: when request `k` takes an index that request `m` holds, `m` can take `k`'s old one. */
  lemma Exchange<C>(eq: (C, C) -> bool, log: seq<C>, requests: seq<Request<C>>, f: seq<nat>, k: nat, index: nat)
    returns (g: seq<nat>)
    requires IsAssignment(eq, log, requests, f) && k < |requests|
    requires requests[k].origin < index <= f[k] && index !in f[..k] && eq(log[index], requests[k].command)
    requires forall m | k < m < |f| && f[m] == index :: eq(log[f[k]], requests[m].command)
    ensures IsAssignment(eq, log, requests, g) && g[..k + 1] == f[..k] + [index]
  {
    if m :| k < m < |f| && f[m] == index {
      g := f[k := index][m := f[k]];
    } else {
      g := f[k := index];
    }
    assert forall j | 0 <= j < k :: f[..k][j] == f[j];
  }

  /** First fit's next choice exists and is no later than the assignment's. */
  lemma NextChoice<C>(eq: (C, C) -> bool, log: seq<C>, requests: seq<Request<C>>, f: seq<nat>, k: nat)
    returns (index: nat)
    requires IsAssignment(eq, log, requests, f) && k < |requests| && Claims(eq, log, requests, k) == Some(f[..k])
    ensures requests[k].origin < index <= f[k] && index !in f[..k] && eq(log[index], requests[k].command)
    ensures Claims(eq, log, requests, k + 1) == Some(f[..k] + [index])
  {
    var r := requests[k];
    var claimed := ToSet(f[..k]);
    FirstMatchIsFirst(eq, log, r.command, r.origin + 1, claimed);
    assert f[k] !in f[..k];
    index := FirstMatch(eq, log, r.command, r.origin + 1, claimed).value;
  }

  /** First fit's next choice, exchanged into the assignment. */
  lemma GuideOne<C(!new)>(eq: (C, C) -> bool, log: seq<C>, requests: seq<Request<C>>, f: seq<nat>, k: nat)
    returns (g: seq<nat>)
    requires Difunctional(eq) && IsAssignment(eq, log, requests, f) && k < |requests|
    requires Claims(eq, log, requests, k) == Some(f[..k])
    ensures IsAssignment(eq, log, requests, g) && Claims(eq, log, requests, k + 1) == Some(g[..k + 1])
  {
    var index := NextChoice(eq, log, requests, f, k);
    forall m | k < m < |f| && f[m] == index
      ensures eq(log[f[k]], requests[m].command)
    {
      ShareMatches(eq, log[index], log[f[k]], requests[k].command, requests[m].command);
    }
    g := Exchange(eq, log, requests, f, k, index);
  }

  lemma {:induction false} AssignmentGuidesClaims<C(!new)>(eq: (C, C) -> bool, log: seq<C>, requests: seq<Request<C>>,
                                                           f: seq<nat>, k: nat)
    returns (g: seq<nat>)
    requires Difunctional(eq) && IsAssignment(eq, log, requests, f) && k <= |requests|
    ensures IsAssignment(eq, log, requests, g) && Claims(eq, log, requests, k) == Some(g[..k])
  {
    if k == 0 {
      g := f;
    } else {
      var j := k - 1;
      var h := AssignmentGuidesClaims(eq, log, requests, f, j);
      g := GuideOne(eq, log, requests, h, j);
    }
  }

  /** First fit serves a whole replay exactly when some assignment does. */
  lemma FirstFitIsComplete<C(!new)>(eq: (C, C) -> bool, log: seq<C>, requests: seq<Request<C>>)
    requires Difunctional(eq)
    ensures Accepts(eq, log, requests) <==> exists f :: IsAssignment(eq, log, requests, f)
  {
    if Accepts(eq, log, requests) {
      ClaimsAreAssignments(eq, log, requests, |requests|);
      assert requests[..|requests|] == requests;
    }
    if f :| IsAssignment(eq, log, requests, f) {
      var g := AssignmentGuidesClaims(eq, log, requests, f, |requests|);
    }
  }

  /** Without that property there is a replay that first fit rejects although an assignment exists. */
  lemma FirstFitNeedsDifunctionality<C(!new)>(eq: (C, C) -> bool)
    requires !Difunctional(eq)
    ensures exists log: seq<C>, requests: seq<Request<C>>, f ::
              IsAssignment(eq, log, requests, f) && !Accepts(eq, log, requests)
  {
    var a, b, x, y :| eq(a, x) && eq(b, x) && eq(a, y) && !eq(b, y);
    var log := [a, a, b];
    var requests := [Request(x, 0), Request(y, 0)];
    assert IsAssignment(eq, log, requests, [2, 1]);
    var none: seq<nat>, one: seq<nat> := [], [1];
    assert Claims(eq, log, requests, 0) == Some(none);
    assert ToSet(none) == {} && ToSet(one) == {1};
    assert FirstMatch(eq, log, requests[0].command, 1, {}) == Some(1);
    assert none + [1] == one;
    assert Claims(eq, log, requests, 1) == Some(one);
    assert FirstMatch(eq, log, y, 3, {1}) == None;
    assert FirstMatch(eq, log, y, 2, {1}) == None;
    assert FirstMatch(eq, log, requests[1].command, 1, {1}) == None;
    assert Claims(eq, log, requests, 2) == None;
  }

  /** First fit is complete on every replay exactly for difunctional comparisons. */
  lemma FirstFitIsCompleteIff<C(!new)>(eq: (C, C) -> bool)
    ensures Difunctional(eq) <==>
              forall log: seq<C>, requests: seq<Request<C>> ::
                Accepts(eq, log, requests) <==> exists f :: IsAssignment(eq, log, requests, f)
  {
    if Difunctional(eq) {
      forall log: seq<C>, requests: seq<Request<C>>
        ensures Accepts(eq, log, requests) <==> exists f :: IsAssignment(eq, log, requests, f)
      {
        FirstFitIsComplete(eq, log, requests);
      }
    } else {
      FirstFitNeedsDifunctionality(eq);
    }
  }
}

/** Recorded commands, their comparison, and the replay loop that checks follow-up commands. */
module CommandRecorders {
  import opened Wrappers
  import Commands
  import opened Counting
  import opened ReplayMatching

  /** A property key; array indices and the names that spell them are the same keys. */
  datatype Key = Index(n: nat) | Name(s: string)

  datatype Property = Property(key: Key, value: Value)

  datatype Pair = Pair(key: Value, value: Value)

  /** A command payload, as a tree in which each object has an identity: shared parts occur with the same one. */
  datatype Value =
    | Undefined
    | Null
    | Boolean(b: bool)
    | Number(r: real)
    | NotANumber
    | Text(s: string)
    | Array(id: nat, items: seq<Value>)
    | Object(id: nat, properties: seq<Property>)
    | MapOf(id: nat, pairs: seq<Pair>)
    | SetOf(id: nat, members: seq<Value>)
    | Date(id: nat, ms: real)

  predicate IsObject(v: Value) {
    v.Array? || v.Object? || v.MapOf? || v.SetOf? || v.Date?
  }

  /** How many own properties `Reflect.ownKeys` lists: an array also has its length. */
  function OwnCount(v: Value): nat {
    match v
    case Array(_, items) => |items| + 1
    case Object(_, properties) => |properties|
    case _ => 0
  }

  function OwnKey(v: Value, i: nat): Key
    requires i < OwnCount(v)
  {
    match v
    case Array(_, items) => if i < |items| then Index(i) else Name("length")
    case Object(_, properties) => properties[i].key
  }

  function OwnValue(v: Value, i: nat): (r: Value)
    requires i < OwnCount(v)
    ensures IsObject(r) ==> r < v
  {
    match v
    case Array(_, items) => if i < |items| then items[i] else Number(|items| as real)
    case Object(_, properties) => properties[i].value
  }

  /** The first own property of that key. */
  function Find(v: Value, key: Key, from: nat): (r: Option<nat>)
    requires from <= OwnCount(v)
    ensures match r {
              case Some(i) => from <= i < OwnCount(v) && OwnKey(v, i) == key
              case None => forall i | from <= i < OwnCount(v) :: OwnKey(v, i) != key
            }
    decreases OwnCount(v) - from
  {
    if from == OwnCount(v) then None
    else if OwnKey(v, from) == key then Some(from)
    else Find(v, key, from + 1)
  }

  /** What `payloadsMatch` compares as long as it meets no object twice. */
  predicate TreesMatch(left: Value, right: Value) {
    if !IsObject(left) || !IsObject(right) then left == right
    else if left.MapOf? && right.MapOf? then
      && |left.pairs| == |right.pairs|
      && forall i | 0 <= i < |left.pairs| ::
           TreesMatch(left.pairs[i].key, right.pairs[i].key) && TreesMatch(left.pairs[i].value, right.pairs[i].value)
    else if left.SetOf? && right.SetOf? then
      && |left.members| == |right.members|
      && forall i | 0 <= i < |left.members| :: TreesMatch(left.members[i], right.members[i])
    else if left.Array? && right.Array? then
      && |left.items| == |right.items|
      && forall i | 0 <= i < |left.items| :: TreesMatch(left.items[i], right.items[i])
    else if left.Date? && right.Date? then left.ms == right.ms
    else
      && OwnCount(left) == OwnCount(right)
      && forall i | 0 <= i < OwnCount(left) ::
           var j := Find(right, OwnKey(left, i), 0);
           && j.Some?
           && if IsObject(OwnValue(left, i)) then TreesMatch(OwnValue(left, i), OwnValue(right, j.value))
              else OwnValue(left, i) == OwnValue(right, j.value)
  }

  /** The object on the right that each object on the left was met with. */
  type Seen = map<nat, nat>

  /** The parts of two objects that are compared, in order; `None` where they differ beforehand. */
  function Parts(left: Value, right: Value): (parts: Option<seq<(Value, Value)>>)
    requires IsObject(left) && IsObject(right)
    ensures parts.Some? ==> forall i | 0 <= i < |parts.value| :: IsObject(parts.value[i].0) ==> parts.value[i].0 < left
  {
    if left.MapOf? && right.MapOf? then
      if |left.pairs| != |right.pairs| then None
      else
        Some(seq(2 * |left.pairs|, i requires 0 <= i < 2 * |left.pairs| =>
          if i % 2 == 0 then (left.pairs[i / 2].key, right.pairs[i / 2].key)
          else (left.pairs[i / 2].value, right.pairs[i / 2].value)))
    else if left.SetOf? && right.SetOf? then
      if |left.members| != |right.members| then None
      else Some(seq(|left.members|, i requires 0 <= i < |left.members| => (left.members[i], right.members[i])))
    else if left.Array? && right.Array? then
      if |left.items| != |right.items| then None
      else Some(seq(OwnCount(left), i requires 0 <= i < OwnCount(left) => (OwnValue(left, i), OwnValue(right, i))))
    else if left.Date? && right.Date? then if left.ms == right.ms then Some([]) else None
    else if OwnCount(left) != OwnCount(right)
            || exists i :: 0 <= i < OwnCount(left) && Find(right, OwnKey(left, i), 0).None? then None
    else
      Some(seq(OwnCount(left), i requires 0 <= i < OwnCount(left) =>
        (OwnValue(left, i), OwnValue(right, Find(right, OwnKey(left, i), 0).value))))
  }

  /** `payloadsMatch`: what was seen, or `None` for `false`. An object met again must meet the same one. */
  function Walk(left: Value, right: Value, seen: Seen): Option<Seen>
    decreases left, 1
  {
    if !IsObject(left) || !IsObject(right) then if left == right then Some(seen) else None
    else if left.id in seen then if seen[left.id] == right.id then Some(seen) else None
    else
      match Parts(left, right)
      case None => None
      case Some(parts) => WalkParts(left, parts, 0, seen[left.id := right.id])
  }

  function WalkParts(left: Value, parts: seq<(Value, Value)>, i: nat, seen: Seen): Option<Seen>
    requires i <= |parts| && forall k | 0 <= k < |parts| :: IsObject(parts[k].0) ==> parts[k].0 < left
    decreases left, 0, |parts| - i
  {
    if i == |parts| then Some(seen)
    else if !IsObject(parts[i].0) then
      if parts[i].0 == parts[i].1 then WalkParts(left, parts, i + 1, seen) else None
    else
      match Walk(parts[i].0, parts[i].1, seen)
      case None => None
      case Some(met) => WalkParts(left, parts, i + 1, met)
  }

  predicate PayloadsMatch(left: Value, right: Value) {
    Walk(left, right, map[]).Some?
  }

  datatype Recorded = Recorded(ctype: string, priority: Commands.Priority, timestamp: real, step: int, payload: Value)

  predicate CommandsEqual(left: Recorded, right: Recorded) {
    && left.ctype == right.ctype && left.priority == right.priority
    && left.step == right.step && left.timestamp == right.timestamp
    && PayloadsMatch(left.payload, right.payload)
  }

  // ----- JSON payloads compare as their content does

  predicate DistinctKeys(v: Value) {
    forall i, j | 0 <= i < j < OwnCount(v) :: OwnKey(v, i) != OwnKey(v, j)
  }

  /** No maps, sets or dates anywhere, and no object with a repeated key. */
  predicate JsonLike(v: Value) {
    && !v.MapOf? && !v.SetOf? && !v.Date? && DistinctKeys(v)
    && forall i | 0 <= i < OwnCount(v) && IsObject(OwnValue(v, i)) :: JsonLike(OwnValue(v, i))
  }

  /** The content of a JSON value, without the order of its keys. */
  datatype Content = Leaf(v: Value) | Node(properties: map<Key, Content>)

  ghost function OwnKeys(v: Value): set<Key> {
    set i | 0 <= i < OwnCount(v) :: OwnKey(v, i)
  }

  ghost function ContentAt(v: Value, key: Key): Content
    requires key in OwnKeys(v)
    decreases v, 0
  {
    var own := OwnValue(v, Find(v, key, 0).value);
    if IsObject(own) then ContentOf(own) else Leaf(own)
  }

  ghost function ContentOf(v: Value): Content
    decreases v, 1
  {
    if !IsObject(v) then Leaf(v) else Node(map key | key in OwnKeys(v) :: ContentAt(v, key))
  }

  lemma ContentAtOwn(v: Value, i: nat)
    requires DistinctKeys(v) && i < OwnCount(v)
    ensures Find(v, OwnKey(v, i), 0) == Some(i) && OwnKey(v, i) in OwnKeys(v)
    ensures ContentAt(v, OwnKey(v, i)) == ContentOf(OwnValue(v, i))
  {
  }

  lemma OwnKeysCount(v: Value)
    requires DistinctKeys(v)
    ensures |OwnKeys(v)| == OwnCount(v)
  {
    var keys := seq(OwnCount(v), i requires 0 <= i < OwnCount(v) => OwnKey(v, i));
    DistinctCount(keys);
    forall key
      ensures key in Elements(keys) <==> key in OwnKeys(v)
    {
      if key in OwnKeys(v) {
        var i :| 0 <= i < OwnCount(v) && OwnKey(v, i) == key;
        assert keys[i] == key;
      }
    }
    assert Elements(keys) == OwnKeys(v);
  }

  /** The left value's own property `i` has a matching one on the right. */
  ghost predicate MatchesAt(left: Value, right: Value, i: nat)
    requires i < OwnCount(left)
  {
    var j := Find(right, OwnKey(left, i), 0);
    j.Some? && TreesMatch(OwnValue(left, i), OwnValue(right, j.value))
  }

  /** Own properties match: as many, and each key of the left has an equal value on the right. */
  ghost predicate OwnMatch(left: Value, right: Value) {
    OwnCount(left) == OwnCount(right) && forall i | 0 <= i < OwnCount(left) :: MatchesAt(left, right, i)
  }

  lemma ArraysMatchAt(left: Value, right: Value, i: nat)
    requires left.Array? && right.Array? && |left.items| == |right.items| && DistinctKeys(right)
    requires i < OwnCount(left)
    ensures MatchesAt(left, right, i) <==> i == |left.items| || TreesMatch(left.items[i], right.items[i])
  {
    ContentAtOwn(right, i);
    assert OwnKey(left, i) == OwnKey(right, i);
  }

  /** Objects and arrays alike match when their own properties do. */
  lemma MatchIsOwnMatch(left: Value, right: Value)
    requires JsonLike(left) && JsonLike(right) && IsObject(left) && IsObject(right)
    ensures TreesMatch(left, right) <==> OwnMatch(left, right)
  {
    if left.Array? && right.Array? && |left.items| == |right.items| {
      forall i | 0 <= i < OwnCount(left)
        ensures MatchesAt(left, right, i) <==> i == |left.items| || TreesMatch(left.items[i], right.items[i])
      {
        ArraysMatchAt(left, right, i);
      }
    } else if !(left.Array? && right.Array?) {
      forall i | 0 <= i < OwnCount(left)
        ensures var j := Find(right, OwnKey(left, i), 0);
                (MatchesAt(left, right, i)
                <==> (&& j.Some?
                      && if IsObject(OwnValue(left, i)) then TreesMatch(OwnValue(left, i), OwnValue(right, j.value))
                         else OwnValue(left, i) == OwnValue(right, j.value)))
      {
      }
    }
  }

  /** The values two JSON objects hold compare as their contents do. */
  ghost predicate ValuesAgree(left: Value, right: Value) {
    forall i, j | 0 <= i < OwnCount(left) && 0 <= j < OwnCount(right) ::
      TreesMatch(OwnValue(left, i), OwnValue(right, j))
      <==> ContentOf(OwnValue(left, i)) == ContentOf(OwnValue(right, j))
  }

  /** At that property, matching is having the same content. */
  ghost predicate AgreeAt(left: Value, right: Value, i: nat)
    requires i < OwnCount(left)
  {
    var key := OwnKey(left, i);
    MatchesAt(left, right, i) <==> key in OwnKeys(right) && ContentAt(left, key) == ContentAt(right, key)
  }

  lemma ValuesAgreeAt(left: Value, right: Value, i: nat)
    requires DistinctKeys(left) && DistinctKeys(right) && ValuesAgree(left, right) && i < OwnCount(left)
    ensures OwnKey(left, i) in OwnKeys(left) && AgreeAt(left, right, i)
  {
    ContentAtOwn(left, i);
    var key := OwnKey(left, i);
    if key in OwnKeys(right) {
      ContentAtOwn(right, Find(right, key, 0).value);
    }
  }

  lemma SubsetOfEqualSize<T>(a: set<T>, b: set<T>)
    requires a <= b && |a| == |b|
    ensures a == b
  {
    if a != b {
      var x :| x in b && x !in a;
      SubsetCount(a, b - {x});
    }
  }

  /** The contents at every key, as `ContentOf` holds them. */
  ghost function Contents(v: Value): map<Key, Content> {
    map key | key in OwnKeys(v) :: ContentAt(v, key)
  }

  lemma ContentsAreContent(v: Value)
    requires IsObject(v)
    ensures ContentOf(v) == Node(Contents(v))
  {
  }

  lemma MatchGivesContent(left: Value, right: Value)
    requires |OwnKeys(left)| == OwnCount(left) && |OwnKeys(right)| == OwnCount(right)
    requires forall i | 0 <= i < OwnCount(left) :: AgreeAt(left, right, i)
    requires OwnMatch(left, right)
    ensures Contents(left) == Contents(right)
  {
    forall key | key in OwnKeys(left)
      ensures key in OwnKeys(right) && ContentAt(left, key) == ContentAt(right, key)
    {
      var i :| 0 <= i < OwnCount(left) && OwnKey(left, i) == key;
      assert AgreeAt(left, right, i) && MatchesAt(left, right, i);
    }
    SubsetOfEqualSize(OwnKeys(left), OwnKeys(right));
    ContentsAgree(left, right);
  }

  lemma ContentsAgree(left: Value, right: Value)
    requires OwnKeys(left) == OwnKeys(right)
    requires forall key | key in OwnKeys(left) :: ContentAt(left, key) == ContentAt(right, key)
    ensures Contents(left) == Contents(right)
  {
  }

  lemma ContentGivesMatch(left: Value, right: Value)
    requires |OwnKeys(left)| == OwnCount(left) && |OwnKeys(right)| == OwnCount(right)
    requires forall i | 0 <= i < OwnCount(left) :: OwnKey(left, i) in OwnKeys(left) && AgreeAt(left, right, i)
    requires Contents(left) == Contents(right)
    ensures OwnMatch(left, right)
  {
    assert Contents(left).Keys == OwnKeys(left) && Contents(right).Keys == OwnKeys(right);
    forall i | 0 <= i < OwnCount(left)
      ensures MatchesAt(left, right, i)
    {
      var key := OwnKey(left, i);
      assert key in Contents(left).Keys && AgreeAt(left, right, i);
      assert Contents(left)[key] == ContentAt(left, key) && Contents(right)[key] == ContentAt(right, key);
    }
  }

  lemma OwnMatchIsContent(left: Value, right: Value)
    requires DistinctKeys(left) && DistinctKeys(right) && ValuesAgree(left, right)
    ensures OwnMatch(left, right) <==> Contents(left) == Contents(right)
  {
    OwnKeysCount(left);
    OwnKeysCount(right);
    forall i | 0 <= i < OwnCount(left)
      ensures OwnKey(left, i) in OwnKeys(left) && AgreeAt(left, right, i)
    {
      ValuesAgreeAt(left, right, i);
    }
    if OwnMatch(left, right) {
      MatchGivesContent(left, right);
    } else if Contents(left) == Contents(right) {
      ContentGivesMatch(left, right);
    }
  }

  /** JSON payloads match exactly when they have the same content. */
  lemma {:induction false} MatchIsSameContent(left: Value, right: Value)
    requires JsonLike(left) && JsonLike(right)
    ensures TreesMatch(left, right) <==> ContentOf(left) == ContentOf(right)
  {
    if IsObject(left) && IsObject(right) {
      forall i, j | 0 <= i < OwnCount(left) && 0 <= j < OwnCount(right)
        ensures TreesMatch(OwnValue(left, i), OwnValue(right, j))
           <==> ContentOf(OwnValue(left, i)) == ContentOf(OwnValue(right, j))
      {
        if IsObject(OwnValue(left, i)) && IsObject(OwnValue(right, j)) {
          MatchIsSameContent(OwnValue(left, i), OwnValue(right, j));
        }
      }
      assert ValuesAgree(left, right);
      MatchIsOwnMatch(left, right);
      OwnMatchIsContent(left, right);
      ContentsAreContent(left);
      ContentsAreContent(right);
    }
  }

  // ----- payloads without shared parts

  /** What is directly inside a value, in the order in which it is compared. */
  function Inside(v: Value): (parts: seq<Value>)
    ensures forall i | 0 <= i < |parts| :: IsObject(parts[i]) ==> parts[i] < v
  {
    match v
    case MapOf(_, pairs) =>
      seq(2 * |pairs|, i requires 0 <= i < 2 * |pairs| => if i % 2 == 0 then pairs[i / 2].key else pairs[i / 2].value)
    case SetOf(_, members) => members
    case _ => seq(OwnCount(v), i requires 0 <= i < OwnCount(v) => OwnValue(v, i))
  }

  ghost predicate Below(parts: seq<Value>, v: Value) {
    forall i | 0 <= i < |parts| :: IsObject(parts[i]) ==> parts[i] < v
  }

  /** The identities of an object and of everything inside it. */
  ghost function Ids(v: Value): set<nat>
    decreases v, 1
  {
    if !IsObject(v) then {} else {v.id} + IdsFrom(v, Inside(v), 0)
  }

  ghost function IdsFrom(v: Value, parts: seq<Value>, i: nat): set<nat>
    requires i <= |parts| && Below(parts, v)
    decreases v, 0, |parts| - i
  {
    if i == |parts| then {} else (if IsObject(parts[i]) then Ids(parts[i]) else {}) + IdsFrom(v, parts, i + 1)
  }

  /** No object occurs twice. */
  ghost predicate Unshared(v: Value)
    decreases v, 1
  {
    IsObject(v) ==> v.id !in IdsFrom(v, Inside(v), 0) && UnsharedFrom(v, Inside(v), 0)
  }

  ghost predicate UnsharedFrom(v: Value, parts: seq<Value>, i: nat)
    requires i <= |parts| && Below(parts, v)
    decreases v, 0, |parts| - i
  {
    i < |parts| ==>
      && UnsharedFrom(v, parts, i + 1)
      && (IsObject(parts[i]) ==> Unshared(parts[i]) && Ids(parts[i]) !! IdsFrom(v, parts, i + 1))
  }

  predicate PartMatches(part: (Value, Value)) {
    if IsObject(part.0) then TreesMatch(part.0, part.1) else part.0 == part.1
  }

  predicate PartsMatch(left: Value, right: Value)
    requires IsObject(left) && IsObject(right)
  {
    var parts := Parts(left, right);
    parts.Some? && forall i | 0 <= i < |parts.value| :: PartMatches(parts.value[i])
  }

  lemma TreesMatchByParts(left: Value, right: Value)
    requires IsObject(left) && IsObject(right)
    ensures TreesMatch(left, right) <==> PartsMatch(left, right)
  {
    if left.MapOf? && right.MapOf? {
      MapsMatchByParts(left, right);
    } else if left.Array? && right.Array? {
      ArraysMatchByParts(left, right);
    } else if left.SetOf? && right.SetOf? {
      SetsMatchByParts(left, right);
    } else if !(left.Date? && right.Date?) {
      OwnMatchByParts(left, right);
    }
  }

  /** The first level of matching trees. */
  ghost predicate MatchOnce(left: Value, right: Value) {
    if IsObject(left) && IsObject(right) then PartsMatch(left, right) else left == right
  }

  lemma TreesMatchUnfolds(left: Value, right: Value)
    ensures TreesMatch(left, right) <==> MatchOnce(left, right)
  {
    if IsObject(left) && IsObject(right) {
      TreesMatchByParts(left, right);
    }
  }

  lemma SetsMatchByParts(left: Value, right: Value)
    requires left.SetOf? && right.SetOf?
    ensures TreesMatch(left, right) <==> PartsMatch(left, right)
  {
    if |left.members| == |right.members| {
      var parts := Parts(left, right).value;
      forall i | 0 <= i < |left.members|
        ensures PartMatches(parts[i]) <==> TreesMatch(left.members[i], right.members[i])
      {
        assert parts[i] == (left.members[i], right.members[i]);
      }
    }
  }

  lemma OwnMatchByParts(left: Value, right: Value)
    requires IsObject(left) && IsObject(right) && !(left.MapOf? && right.MapOf?) && !(left.SetOf? && right.SetOf?)
    requires !(left.Array? && right.Array?) && !(left.Date? && right.Date?)
    ensures TreesMatch(left, right) <==> PartsMatch(left, right)
  {
    if Parts(left, right).Some? {
      var parts := Parts(left, right).value;
      forall i | 0 <= i < OwnCount(left)
        ensures var j := Find(right, OwnKey(left, i), 0);
                j.Some? && parts[i] == (OwnValue(left, i), OwnValue(right, j.value))
      {
      }
    } else if OwnCount(left) == OwnCount(right) {
      var i :| 0 <= i < OwnCount(left) && Find(right, OwnKey(left, i), 0).None?;
    }
  }

  lemma ArraysMatchByParts(left: Value, right: Value)
    requires left.Array? && right.Array?
    ensures TreesMatch(left, right) <==> PartsMatch(left, right)
  {
    if |left.items| == |right.items| {
      var parts, n := Parts(left, right).value, |left.items|;
      assert |parts| == n + 1;
      forall i | 0 <= i < |parts|
        ensures PartMatches(parts[i]) <==> i == n || TreesMatch(left.items[i], right.items[i])
      {
        assert parts[i] == (OwnValue(left, i), OwnValue(right, i));
      }
      assert TreesMatch(left, right) <==> forall i | 0 <= i < n :: TreesMatch(left.items[i], right.items[i]);
      if forall i | 0 <= i < |parts| :: PartMatches(parts[i]) {
        forall i | 0 <= i < n
          ensures TreesMatch(left.items[i], right.items[i])
        {
          assert PartMatches(parts[i]);
        }
      }
    }
  }

  lemma MapPartsAt(left: Value, right: Value, i: nat)
    requires left.MapOf? && right.MapOf? && |left.pairs| == |right.pairs| && i < |left.pairs|
    ensures var parts := Parts(left, right).value;
            && |parts| == 2 * |left.pairs|
            && parts[2 * i] == (left.pairs[i].key, right.pairs[i].key)
            && parts[2 * i + 1] == (left.pairs[i].value, right.pairs[i].value)
  {
  }

  predicate PairTreesMatch(left: Pair, right: Pair) {
    TreesMatch(left.key, right.key) && TreesMatch(left.value, right.value)
  }

  lemma MapTreesMatch(left: Value, right: Value)
    requires left.MapOf? && right.MapOf?
    ensures TreesMatch(left, right) <==>
              && |left.pairs| == |right.pairs|
              && forall i | 0 <= i < |left.pairs| :: PairTreesMatch(left.pairs[i], right.pairs[i])
  {
  }

  lemma PartIsTree(part: (Value, Value))
    ensures PartMatches(part) <==> TreesMatch(part.0, part.1)
  {
  }

  lemma PairIsTwoParts(left: Value, right: Value, i: nat)
    requires left.MapOf? && right.MapOf? && |left.pairs| == |right.pairs| && i < |left.pairs|
    ensures var parts := Parts(left, right).value;
            && |parts| == 2 * |left.pairs|
            && (PairTreesMatch(left.pairs[i], right.pairs[i])
                <==> PartMatches(parts[2 * i]) && PartMatches(parts[2 * i + 1]))
  {
    MapPartsAt(left, right, i);
    PartIsTree(Parts(left, right).value[2 * i]);
    PartIsTree(Parts(left, right).value[2 * i + 1]);
  }

  lemma MapsMatchByParts(left: Value, right: Value)
    requires left.MapOf? && right.MapOf?
    ensures TreesMatch(left, right) <==> PartsMatch(left, right)
  {
    MapTreesMatch(left, right);
    if |left.pairs| == |right.pairs| {
      var parts := Parts(left, right).value;
      forall i | 0 <= i < |left.pairs|
        ensures PairTreesMatch(left.pairs[i], right.pairs[i])
           <==> PartMatches(parts[2 * i]) && PartMatches(parts[2 * i + 1])
      {
        PairIsTwoParts(left, right, i);
      }
      if forall i | 0 <= i < |left.pairs| :: PairTreesMatch(left.pairs[i], right.pairs[i]) {
        forall k | 0 <= k < |parts|
          ensures PartMatches(parts[k])
        {
          assert PairTreesMatch(left.pairs[k / 2], right.pairs[k / 2]);
          assert k == 2 * (k / 2) || k == 2 * (k / 2) + 1;
        }
      }
    }
  }

  /** The left halves of the parts are what is inside, unless nothing is compared. */
  function Lefts(parts: seq<(Value, Value)>): seq<Value> {
    seq(|parts|, i requires 0 <= i < |parts| => parts[i].0)
  }

  lemma LeftsAreInside(left: Value, right: Value)
    requires IsObject(left) && IsObject(right) && Parts(left, right).Some?
    ensures Lefts(Parts(left, right).value) == Inside(left) || Lefts(Parts(left, right).value) == []
  {
  }

  lemma LeftsUnshared(left: Value, right: Value, seen: Seen)
    requires IsObject(left) && IsObject(right) && Parts(left, right).Some?
    requires Unshared(left) && Ids(left) !! seen.Keys
    ensures var lefts := Lefts(Parts(left, right).value);
            && Below(lefts, left) && UnsharedFrom(left, lefts, 0) && IdsFrom(left, lefts, 0) <= Ids(left)
            && IdsFrom(left, lefts, 0) !! seen[left.id := right.id].Keys
  {
    LeftsAreInside(left, right);
  }

  /** Where nothing on the left is shared, walking is matching trees. */
  lemma {:induction false} WalkIsMatch(left: Value, right: Value, seen: Seen)
    requires Unshared(left) && Ids(left) !! seen.Keys
    ensures Walk(left, right, seen).Some? <==> TreesMatch(left, right)
    ensures Walk(left, right, seen).Some? ==> Walk(left, right, seen).value.Keys <= seen.Keys + Ids(left)
    decreases left, 2
  {
    TreesMatchUnfolds(left, right);
    if IsObject(left) && IsObject(right) {
      WalkObjectIsMatch(left, right, seen);
    }
  }

  /** An object that was not met before is walked part by part. */
  lemma WalkObject(left: Value, right: Value, seen: Seen)
    requires IsObject(left) && IsObject(right) && Ids(left) !! seen.Keys
    ensures var parts := Parts(left, right);
            Walk(left, right, seen)
            == if parts.None? then None else WalkParts(left, parts.value, 0, seen[left.id := right.id])
  {
    assert left.id in Ids(left) && left.id !in seen;
  }

  lemma {:induction false} WalkObjectIsMatch(left: Value, right: Value, seen: Seen)
    requires IsObject(left) && IsObject(right) && Unshared(left) && Ids(left) !! seen.Keys
    ensures Walk(left, right, seen).Some? <==> PartsMatch(left, right)
    ensures Walk(left, right, seen).Some? ==> Walk(left, right, seen).value.Keys <= seen.Keys + Ids(left)
    decreases left, 1
  {
    WalkObject(left, right, seen);
    if Parts(left, right).Some? {
      LeftsUnshared(left, right, seen);
      WalkPartsIsMatch(left, Parts(left, right).value, 0, seen[left.id := right.id]);
    }
  }

  lemma {:induction false} WalkPartsIsMatch(left: Value, parts: seq<(Value, Value)>, i: nat, seen: Seen)
    requires i <= |parts| && (forall k | 0 <= k < |parts| :: IsObject(parts[k].0) ==> parts[k].0 < left)
    requires Below(Lefts(parts), left) && UnsharedFrom(left, Lefts(parts), i)
             && IdsFrom(left, Lefts(parts), i) !! seen.Keys
    ensures WalkParts(left, parts, i, seen).Some? <==> forall k | i <= k < |parts| :: PartMatches(parts[k])
    ensures WalkParts(left, parts, i, seen).Some? ==>
              WalkParts(left, parts, i, seen).value.Keys <= seen.Keys + IdsFrom(left, Lefts(parts), i)
    decreases left, 0, |parts| - i
  {
    if i < |parts| {
      if !IsObject(parts[i].0) {
        WalkPartsIsMatch(left, parts, i + 1, seen);
      } else {
        WalkIsMatch(parts[i].0, parts[i].1, seen);
        if Walk(parts[i].0, parts[i].1, seen).Some? {
          WalkPartsIsMatch(left, parts, i + 1, Walk(parts[i].0, parts[i].1, seen).value);
        }
      }
    }
  }

  /** JSON payloads match exactly when they have the same content, if nothing in the recorded one is shared. */
  lemma UnsharedMatchIsSameContent(left: Value, right: Value)
    requires JsonLike(left) && JsonLike(right) && Unshared(left)
    ensures PayloadsMatch(left, right) <==> ContentOf(left) == ContentOf(right)
  {
    WalkIsMatch(left, right, map[]);
    MatchIsSameContent(left, right);
  }

  // ----- maps, sets and dates

  lemma {:induction false} PartUnshared(v: Value, parts: seq<Value>, i: nat, k: nat)
    requires i <= k < |parts| && Below(parts, v) && UnsharedFrom(v, parts, i)
    ensures Unshared(parts[k])
    decreases k - i
  {
    if i < k {
      PartUnshared(v, parts, i + 1, k);
    }
  }

  /** What is inside a value without shared parts matches as a whole payload does. */
  lemma InsideMatches(v: Value, k: nat, right: Value)
    requires IsObject(v) && Unshared(v) && k < |Inside(v)|
    ensures PayloadsMatch(Inside(v)[k], right) <==> TreesMatch(Inside(v)[k], right)
  {
    PartUnshared(v, Inside(v), 0, k);
    WalkIsMatch(Inside(v)[k], right, map[]);
  }

  predicate PairsMatch(left: Pair, right: Pair) {
    PayloadsMatch(left.key, right.key) && PayloadsMatch(left.value, right.value)
  }

  lemma MapInside(v: Value, i: nat)
    requires v.MapOf? && i < |v.pairs|
    ensures var k: nat := 2 * i;
            k + 1 < |Inside(v)| && Inside(v)[k] == v.pairs[i].key && Inside(v)[k + 1] == v.pairs[i].value
  {
  }

  lemma PairsMatchInside(left: Value, i: nat, right: Pair)
    requires left.MapOf? && Unshared(left) && i < |left.pairs|
    ensures PairsMatch(left.pairs[i], right) <==> PairTreesMatch(left.pairs[i], right)
  {
    var k: nat := 2 * i;
    MapInside(left, i);
    InsideMatches(left, k, right.key);
    InsideMatches(left, k + 1, right.value);
  }

  /** Maps match exactly when they have as many entries and each, in order, has a matching key and value. */
  lemma MapsMatchIff(left: Value, right: Value)
    requires left.MapOf? && right.MapOf? && Unshared(left)
    ensures PayloadsMatch(left, right) <==>
              && |left.pairs| == |right.pairs|
              && forall i | 0 <= i < |left.pairs| :: PairsMatch(left.pairs[i], right.pairs[i])
  {
    WalkIsMatch(left, right, map[]);
    MapTreesMatch(left, right);
    if |left.pairs| == |right.pairs| {
      forall i | 0 <= i < |left.pairs|
        ensures PairsMatch(left.pairs[i], right.pairs[i]) <==> PairTreesMatch(left.pairs[i], right.pairs[i])
      {
        PairsMatchInside(left, i, right.pairs[i]);
      }
    }
  }

  /** Sets match exactly when they have as many members and these match in order. */
  lemma SetsMatchIff(left: Value, right: Value)
    requires left.SetOf? && right.SetOf? && Unshared(left)
    ensures PayloadsMatch(left, right) <==>
              && |left.members| == |right.members|
              && forall i | 0 <= i < |left.members| :: PayloadsMatch(left.members[i], right.members[i])
  {
    WalkIsMatch(left, right, map[]);
    forall i | 0 <= i < |left.members| && |left.members| == |right.members|
      ensures PayloadsMatch(left.members[i], right.members[i]) <==> TreesMatch(left.members[i], right.members[i])
    {
      InsideMatches(left, i, right.members[i]);
    }
  }

  /**
   * Dates match exactly when they are the same time. A map, set or date matches an object of another kind
   * exactly when that one has no properties of its own, whatever either holds.
   */
  lemma KindsMatchIff(left: Value, right: Value)
    requires left.MapOf? || left.SetOf? || left.Date?
    requires IsObject(right) && Unshared(left)
    ensures left.Date? && right.Date? ==> (PayloadsMatch(left, right) <==> left.ms == right.ms)
    ensures !(left.MapOf? && right.MapOf?) && !(left.SetOf? && right.SetOf?) && !(left.Date? && right.Date?) ==>
              (PayloadsMatch(left, right)
               <==> right.MapOf? || right.SetOf? || right.Date? || (right.Object? && right.properties == []))
  {
    WalkIsMatch(left, right, map[]);
    assert OwnCount(left) == 0;
  }

  // ----- replay

  /** Commands compare as equal exactly when type, priority, timestamp, step and content are the same. */
  lemma CommandsEqualIff(left: TreeCommand, right: JsonCommand)
    ensures CommandsEqual(left, right) <==>
              && left.ctype == right.ctype && left.priority == right.priority && left.timestamp == right.timestamp
              && left.step == right.step && ContentOf(left.payload) == ContentOf(right.payload)
  {
    UnsharedMatchIsSameContent(left.payload, right.payload);
  }

  /** A recorded command with a JSON payload. */
  type JsonCommand = c: Recorded | JsonLike(c.payload)
    witness Recorded("", Commands.System, 0.0, 0, Null)

  /** The same, with nothing shared in the payload. */
  type TreeCommand = c: Recorded | JsonLike(c.payload) && Unshared(c.payload)
    witness Recorded("", Commands.System, 0.0, 0, Null)

  function Equality(): (Recorded, Recorded) -> bool {
    (a: Recorded, b: Recorded) => CommandsEqual(a, b)
  }

  /** Comparing commands with JSON payloads without shared parts is comparing their content, so it is difunctional. */
  lemma JsonCommandsAreDifunctional()
    ensures Difunctional<TreeCommand>((a: TreeCommand, b: TreeCommand) => CommandsEqual(a, b))
  {
    forall a: TreeCommand, b: TreeCommand, x: TreeCommand, y: TreeCommand
      | CommandsEqual(a, x) && CommandsEqual(b, x) && CommandsEqual(a, y)
      ensures CommandsEqual(b, y)
    {
      UnsharedMatchIsSameContent(a.payload, x.payload);
      UnsharedMatchIsSameContent(b.payload, x.payload);
      UnsharedMatchIsSameContent(a.payload, y.payload);
      UnsharedMatchIsSameContent(b.payload, y.payload);
    }
  }

  /**
   * Replaying a log of JSON commands without shared parts is accepted exactly when every follow-up has a log
   * entry of its own.
   */
  lemma JsonReplayIsComplete(log: seq<TreeCommand>, requests: seq<Request<TreeCommand>>)
    ensures var eq := (a: TreeCommand, b: TreeCommand) => CommandsEqual(a, b);
            Accepts(eq, log, requests) <==> exists f :: IsAssignment(eq, log, requests, f)
  {
    JsonCommandsAreDifunctional();
    FirstFitIsComplete((a: TreeCommand, b: TreeCommand) => CommandsEqual(a, b), log, requests);
  }

  /** An object with two empty ones inside. */
  function TwoParts(p: nat, q: nat): Value {
    Object(0, [Property(Name("p"), Object(p, [])), Property(Name("q"), Object(q, []))])
  }

  lemma EmptyObjectsMatch(p: nat, r: nat, seen: Seen)
    ensures Walk(Object(p, []), Object(r, []), seen)
         == if p in seen then if seen[p] == r then Some(seen) else None else Some(seen[p := r])
  {
    assert Parts(Object(p, []), Object(r, [])).value == [];
  }

  lemma EmptyObjectsInTurn(v: Value, p: nat, q: nat, r: nat, s: nat, met: Seen)
    requires Object(p, []) < v && Object(q, []) < v && p !in met && q !in met
    ensures var parts := [(Object(p, []), Object(r, [])), (Object(q, []), Object(s, []))];
            WalkParts(v, parts, 0, met).Some? <==> p != q || r == s
  {
    var parts := [(Object(p, []), Object(r, [])), (Object(q, []), Object(s, []))];
    var one := met[p := r];
    EmptyObjectsMatch(p, r, met);
    EmptyObjectsMatch(q, s, one);
    assert WalkParts(v, parts, 0, met) == WalkParts(v, parts, 1, one);
    var two := one[q := s];
    assert WalkParts(v, parts, 2, one) == Some(one) && WalkParts(v, parts, 2, two) == Some(two);
  }

  lemma TwoPartsMatch(p: nat, q: nat, r: nat, s: nat)
    requires p != 0 && q != 0
    ensures JsonLike(TwoParts(p, q))
    ensures PayloadsMatch(TwoParts(p, q), TwoParts(r, s)) <==> p != q || r == s
  {
    var left, right, none := TwoParts(p, q), TwoParts(r, s), map[];
    assert Find(right, Name("p"), 0) == Some(0) && Find(right, Name("q"), 0) == Some(1);
    var parts := Parts(left, right).value;
    assert parts == [(Object(p, []), Object(r, [])), (Object(q, []), Object(s, []))];
    var met: Seen := none[0 := 0];
    assert left.properties[0].value == Object(p, []) && left.properties[1].value == Object(q, []);
    EmptyObjectsInTurn(left, p, q, r, s, met);
    assert Walk(left, right, none) == WalkParts(left, parts, 0, met);
  }

  /** A recorded payload with a shared part only matches payloads that share it too; one without matches both. */
  lemma SharedPartsAreNotDifunctional()
    ensures !Difunctional<JsonCommand>((a: JsonCommand, b: JsonCommand) => CommandsEqual(a, b))
  {
    TwoPartsMatch(1, 2, 1, 1);
    TwoPartsMatch(1, 1, 1, 1);
    TwoPartsMatch(1, 2, 1, 2);
    TwoPartsMatch(1, 1, 1, 2);
    var a: JsonCommand, b: JsonCommand := Sample(TwoParts(1, 2)), Sample(TwoParts(1, 1));
    SharedMatchRefutes((x: JsonCommand, y: JsonCommand) => CommandsEqual(x, y), a, b, b);
  }

  /** So with shared parts some replay of JSON commands is rejected although its follow-ups could all be matched. */
  lemma SharedPartsBreakCompleteness()
    ensures var eq := (a: JsonCommand, b: JsonCommand) => CommandsEqual(a, b);
            exists log: seq<JsonCommand>, requests: seq<Request<JsonCommand>>, f ::
              IsAssignment(eq, log, requests, f) && !Accepts(eq, log, requests)
  {
    SharedPartsAreNotDifunctional();
    FirstFitNeedsDifunctionality((a: JsonCommand, b: JsonCommand) => CommandsEqual(a, b));
  }

  function OneEntryMap(r: real): Value {
    MapOf(0, [Pair(Null, Number(r))])
  }

  lemma OneEntryMapsMatch(r: real, t: real)
    ensures PayloadsMatch(OneEntryMap(r), OneEntryMap(t)) <==> r == t
    ensures PayloadsMatch(OneEntryMap(r), Object(0, []))
  {
    var left, right := OneEntryMap(r), OneEntryMap(t);
    var parts := Parts(left, right).value;
    assert parts == [(Null, Null), (Number(r), Number(t))];
    var none: Seen := map[];
    var met := none[0 := 0];
    assert WalkParts(left, parts, 2, met) == Some(met);
    assert WalkParts(left, parts, 1, met).Some? <==> r == t;
    assert WalkParts(left, parts, 0, met) == WalkParts(left, parts, 1, met);
    assert Walk(left, right, none) == WalkParts(left, parts, 0, met);
    assert Parts(left, Object(0, [])).value == [];
  }

  /** An empty object equals every map, while two maps need not be equal. */
  lemma MapPayloadsAreNotDifunctional()
    ensures !Difunctional(Equality())
  {
    OneEntryMapsMatch(1.0, 1.0);
    OneEntryMapsMatch(2.0, 1.0);
    var a, b, x := Sample(OneEntryMap(1.0)), Sample(OneEntryMap(2.0)), Sample(Object(0, []));
    SharedMatchRefutes(Equality(), a, b, x);
  }

  lemma SharedMatchRefutes<C(!new)>(eq: (C, C) -> bool, a: C, b: C, x: C)
    requires eq(a, x) && eq(b, x) && eq(a, a) && !eq(b, a)
    ensures !Difunctional(eq)
  {
  }

  function Sample(payload: Value): Recorded {
    Recorded("COLLECT", Commands.Player, 0.0, 0, payload)
  }

  /** With map payloads some replay is rejected although its follow-ups could all be matched. */
  lemma MapPayloadsBreakCompleteness()
    ensures exists log: seq<Recorded>, requests: seq<Request<Recorded>>, f ::
              IsAssignment(Equality(), log, requests, f) && !Accepts(Equality(), log, requests)
  {
    MapPayloadsAreNotDifunctional();
    FirstFitNeedsDifunctionality(Equality());
  }

  /** The commands that replaying the first `n` entries enqueues, in order. */
  function Requests(enqueued: seq<seq<Recorded>>, n: nat): seq<Request<Recorded>>
    requires n <= |enqueued|
  {
    if n == 0 then []
    else
      Requests(enqueued, n - 1)
        + seq(|enqueued[n - 1]|, i requires 0 <= i < |enqueued[n - 1]| => Request(enqueued[n - 1][i], n - 1))
  }

  /** How many commands the first `n` entries enqueue. */
  function EnqueuedBefore(enqueued: seq<seq<Recorded>>, n: nat): nat
    requires n <= |enqueued|
  {
    if n == 0 then 0 else EnqueuedBefore(enqueued, n - 1) + |enqueued[n - 1]|
  }

  /** The requests are everything that is enqueued, in order, each with the entry that enqueued it. */
  lemma {:induction false} RequestsAreAll(enqueued: seq<seq<Recorded>>, n: nat, i: nat, j: nat)
    requires i < n <= |enqueued| && j < |enqueued[i]|
    ensures EnqueuedBefore(enqueued, i) + j < EnqueuedBefore(enqueued, n) == |Requests(enqueued, n)|
    ensures Requests(enqueued, n)[EnqueuedBefore(enqueued, i) + j] == Request(enqueued[i][j], i)
  {
    RequestsCount(enqueued, n - 1);
    if i < n - 1 {
      RequestsAreAll(enqueued, n - 1, i, j);
    }
  }

  lemma {:induction false} RequestsCount(enqueued: seq<seq<Recorded>>, n: nat)
    requires n <= |enqueued|
    ensures |Requests(enqueued, n)| == EnqueuedBefore(enqueued, n)
  {
    if n > 0 {
      RequestsCount(enqueued, n - 1);
    }
  }

  lemma {:induction false} ClaimsOfPrefix<C>(eq: (C, C) -> bool, log: seq<C>, requests: seq<Request<C>>,
                                             more: seq<Request<C>>, k: nat)
    requires k <= |requests|
    ensures Claims(eq, log, requests + more, k) == Claims(eq, log, requests, k)
  {
    if k > 0 {
      ClaimsOfPrefix(eq, log, requests, more, k - 1);
    }
  }

  lemma {:induction false} ClaimsStayLost<C>(eq: (C, C) -> bool, log: seq<C>, requests: seq<Request<C>>, k: nat)
    requires k <= |requests| && Claims(eq, log, requests, k).None?
    ensures !Accepts(eq, log, requests)
    decreases |requests| - k
  {
    if k < |requests| {
      ClaimsStayLost(eq, log, requests, k + 1);
    }
  }

  method FindMatchingFutureCommandIndex(commands: seq<Recorded>, candidate: Recorded, startIndex: nat,
                                        claimedIndices: set<nat>)
    returns (index: Option<nat>)
    ensures index == FirstMatch(Equality(), commands, candidate, startIndex, claimedIndices)
  {
    var i := startIndex;
    while i < |commands|
      invariant startIndex <= i
      invariant FirstMatch(Equality(), commands, candidate, startIndex, claimedIndices)
             == FirstMatch(Equality(), commands, candidate, i, claimedIndices)
      decreases |commands| - i
    {
      if i !in claimedIndices && CommandsEqual(commands[i], candidate) {
        return Some(i);
      }
      i := i + 1;
    }
    return None;
  }

  /** One request that finds no log entry fails the whole replay, whatever is enqueued later. */
  lemma LostRequestRejectsReplay(log: seq<Recorded>, enqueued: seq<seq<Recorded>>, i: nat, k: nat)
    requires i <= |enqueued| && k <= |Requests(enqueued, i)|
    requires Claims(Equality(), log, Requests(enqueued, i), k).None?
    ensures !Accepts(Equality(), log, Requests(enqueued, |enqueued|))
  {
    var some, all := Requests(enqueued, i), Requests(enqueued, |enqueued|);
    RequestsExtend(enqueued, i, |enqueued|);
    ClaimsOfPrefix(Equality(), log, some, all[|some|..], k);
    ClaimsStayLost(Equality(), log, all, k);
  }

  /** From index `n` on, the requests are what replaying one entry enqueued. */
  ghost predicate EndWith(requests: seq<Request<Recorded>>, n: nat, commands: seq<Recorded>, origin: nat) {
    && |requests| == n + |commands|
    && forall j | 0 <= j < |commands| :: requests[n + j] == Request(commands[j], origin)
  }

  /** The claims made after `i` entries are the first claims after one more. */
  lemma ClaimsCarryOver(log: seq<Recorded>, enqueued: seq<seq<Recorded>>, i: nat)
    requires i < |enqueued|
    ensures var before, requests := Requests(enqueued, i), Requests(enqueued, i + 1);
            && |before| <= |requests|
            && Claims(Equality(), log, requests, |before|) == Claims(Equality(), log, before, |before|)
            && EndWith(requests, |before|, enqueued[i], i)
  {
    var before, requests := Requests(enqueued, i), Requests(enqueued, i + 1);
    assert requests == before + requests[|before|..];
    ClaimsOfPrefix(Equality(), log, before, requests[|before|..], |before|);
  }

  /**
   * Claims a later log entry for each command that replaying entry `recordedIndex` enqueued; `false`
   * stands for the error about a missing follow-up command.
   */
  method VerifyReplaySandboxedEnqueues(log: seq<Recorded>, sandboxedEnqueues: seq<Recorded>, recordedIndex: nat,
                                       claimedIndices: set<nat>,
                                       ghost requests: seq<Request<Recorded>>, ghost n: nat, ghost claimed: seq<nat>)
    returns (accepted: bool, claimedAfter: set<nat>, ghost done: seq<nat>, ghost seen: nat)
    requires EndWith(requests, n, sandboxedEnqueues, recordedIndex) && claimedIndices == ToSet(claimed)
    requires Claims(Equality(), log, requests, n) == Some(claimed)
    ensures n <= seen <= |requests|
    ensures accepted ==> Claims(Equality(), log, requests, |requests|) == Some(done) && claimedAfter == ToSet(done)
    ensures !accepted ==> Claims(Equality(), log, requests, seen) == None
  {
    claimedAfter, done, seen := claimedIndices, claimed, n;
    for j := 0 to |sandboxedEnqueues|
      invariant seen == n + j
      invariant Claims(Equality(), log, requests, seen) == Some(done) && claimedAfter == ToSet(done)
    {
      var queued := sandboxedEnqueues[j];
      assert requests[seen] == Request(queued, recordedIndex);
      var matchIndex := FindMatchingFutureCommandIndex(log, queued, recordedIndex + 1, claimedAfter);
      seen := seen + 1;
      if matchIndex == None {
        return false, claimedAfter, done, seen;
      }
      claimedAfter := claimedAfter + {matchIndex.value};
      done := done + [matchIndex.value];
    }
    accepted := true;
  }

  /** The claims for everything the first `i` entries enqueued. */
  ghost predicate ServedUpTo(log: seq<Recorded>, enqueued: seq<seq<Recorded>>, i: nat, done: seq<nat>)
    requires i <= |enqueued|
  {
    Claims(Equality(), log, Requests(enqueued, i), |Requests(enqueued, i)|) == Some(done)
  }

  /** One round of the replay loop: serve what entry `i` enqueued, or reject the replay. */
  method ReplayEntry(log: seq<Recorded>, ghost enqueued: seq<seq<Recorded>>, sandboxedEnqueues: seq<Recorded>, i: nat,
                     claimedIndices: set<nat>, ghost claimed: seq<nat>)
    returns (accepted: bool, claimedAfter: set<nat>, ghost done: seq<nat>)
    requires i < |enqueued| && sandboxedEnqueues == enqueued[i]
    requires ServedUpTo(log, enqueued, i, claimed) && claimedIndices == ToSet(claimed)
    ensures accepted ==> ServedUpTo(log, enqueued, i + 1, done) && claimedAfter == ToSet(done)
    ensures !accepted ==> !Accepts(Equality(), log, Requests(enqueued, |enqueued|))
  {
    ClaimsCarryOver(log, enqueued, i);
    ghost var requests, n, seen := Requests(enqueued, i + 1), |Requests(enqueued, i)|, 0;
    accepted, claimedAfter, done, seen :=
      VerifyReplaySandboxedEnqueues(log, sandboxedEnqueues, i, claimedIndices, requests, n, claimed);
    if !accepted {
      LostRequestRejectsReplay(log, enqueued, i + 1, seen);
    }
  }

  /** The replay loop: every command a replayed entry's handler enqueued claims a later entry of the log. */
  method Replay(log: seq<Recorded>, enqueued: seq<seq<Recorded>>) returns (accepted: bool)
    requires |enqueued| == |log|
    ensures accepted == Accepts(Equality(), log, Requests(enqueued, |log|))
  {
    var claimedIndices: set<nat> := {};
    ghost var done: seq<nat> := [];
    for i := 0 to |log|
      invariant ServedUpTo(log, enqueued, i, done) && claimedIndices == ToSet(done)
    {
      accepted, claimedIndices, done := ReplayEntry(log, enqueued, enqueued[i], i, claimedIndices, done);
      if !accepted {
        return;
      }
    }
    accepted := true;
  }

  lemma {:induction false} RequestsExtend(enqueued: seq<seq<Recorded>>, m: nat, n: nat)
    requires m <= n <= |enqueued|
    ensures |Requests(enqueued, m)| <= |Requests(enqueued, n)|
    ensures Requests(enqueued, n) == Requests(enqueued, m) + Requests(enqueued, n)[|Requests(enqueued, m)|..]
  {
    if m < n {
      RequestsExtend(enqueued, m, n - 1);
    }
  }
}
