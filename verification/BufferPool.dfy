/**
 * The transport buffer pool (packages/core/src/transport-buffer-pool.ts): what leasing and releasing do,
 * and what keeps leases apart.
 */
module BufferPool {
  import opened Wrappers
  import opened Counting

  datatype Kind = Float64 | Uint8 | Uint32 {
    function Bytes(): (n: nat)
      ensures n > 0
    {
      match this
      case Float64 => 8
      case Uint8 => 1
      case Uint32 => 4
    }
  }

  /** A buffer: which one it is, and its length, which is zero once it was transferred away. */
  datatype Buffer = Buffer(id: nat, byteLength: nat)

  datatype Entry = Entry(kind: Kind, capacity: nat, buffer: Buffer)

  /** The available entries of each kind. */
  datatype Lists = Lists(float64: seq<nat>, uint8: seq<nat>, uint32: seq<nat>) {
    function At(kind: Kind): seq<nat> {
      match kind
      case Float64 => float64
      case Uint8 => uint8
      case Uint32 => uint32
    }

    function With(kind: Kind, list: seq<nat>): (r: Lists)
      ensures r.At(kind) == list && forall other: Kind | other != kind :: r.At(other) == At(other)
    {
      match kind
      case Float64 => this.(float64 := list)
      case Uint8 => this.(uint8 := list)
      case Uint32 => this.(uint32 := list)
    }
  }

  datatype State = State(entries: map<nat, Entry>, available: Lists, active: set<nat>, nextId: nat)

  /** What a client gets: part of a buffer; the lease of nothing has id 0. */
  datatype Lease = Lease(id: nat, kind: Kind, length: nat, capacity: nat, buffer: Buffer)

  datatype Error = NegativeLength | PoolExhausted | Misaligned

  // ----- lists sorted by capacity

  ghost predicate Known(entries: map<nat, Entry>, list: seq<nat>) {
    forall id | id in list :: id in entries
  }

  ghost predicate SortedByCapacity(entries: map<nat, Entry>, list: seq<nat>)
    requires Known(entries, list)
  {
    forall i, j | 0 <= i < j < |list| :: entries[list[i]].capacity <= entries[list[j]].capacity
  }

  /** An entry goes behind the entries that are no larger. */
  function Insert(entries: map<nat, Entry>, list: seq<nat>, id: nat): seq<nat>
    requires id in entries && Known(entries, list)
  {
    if list == [] || entries[list[|list| - 1]].capacity <= entries[id].capacity then list + [id]
    else Insert(entries, list[..|list| - 1], id) + [list[|list| - 1]]
  }

  lemma {:induction false} InsertMembers(entries: map<nat, Entry>, list: seq<nat>, id: nat)
    requires id in entries && Known(entries, list)
    ensures |Insert(entries, list, id)| == |list| + 1
    ensures forall x :: x in Insert(entries, list, id) <==> x == id || x in list
  {
    if list != [] && entries[list[|list| - 1]].capacity > entries[id].capacity {
      var rest := list[..|list| - 1];
      InsertMembers(entries, rest, id);
      assert list == rest + [list[|list| - 1]];
    }
  }

  /** `list.sort((a, b) => a.capacity - b.capacity)`, which is stable. */
  function Sorted(entries: map<nat, Entry>, list: seq<nat>): (r: seq<nat>)
    requires Known(entries, list)
    ensures Known(entries, r)
  {
    if list == [] then []
    else
      assert Known(entries, Sorted(entries, list[..|list| - 1]));
      InsertMembers(entries, Sorted(entries, list[..|list| - 1]), list[|list| - 1]);
      Insert(entries, Sorted(entries, list[..|list| - 1]), list[|list| - 1])
  }

  lemma InsertAtEnd(entries: map<nat, Entry>, list: seq<nat>, id: nat)
    requires Known(entries, list + [id]) && SortedByCapacity(entries, list + [id])
    ensures id in entries && Known(entries, list) && Insert(entries, list, id) == list + [id]
    ensures SortedByCapacity(entries, list)
  {
    var all := list + [id];
    assert all[|list|] == id && forall i | 0 <= i < |list| :: all[i] == list[i];
    forall x | x in list
      ensures x in entries
    {
      assert x in all;
    }
    assert id in all;
  }

  lemma {:induction false} SortKeepsSorted(entries: map<nat, Entry>, list: seq<nat>)
    requires Known(entries, list) && SortedByCapacity(entries, list)
    ensures Sorted(entries, list) == list
  {
    if list != [] {
      var rest := list[..|list| - 1];
      assert list == rest + [list[|list| - 1]];
      InsertAtEnd(entries, rest, list[|list| - 1]);
      SortKeepsSorted(entries, rest);
    }
  }

  lemma AppendKeepsSorted(entries: map<nat, Entry>, list: seq<nat>, last: nat)
    requires Known(entries, list) && SortedByCapacity(entries, list) && Distinct(list) && last in entries
    requires forall x | x in list :: x in entries && entries[x].capacity <= entries[last].capacity && x != last
    ensures Known(entries, list + [last]) && SortedByCapacity(entries, list + [last]) && Distinct(list + [last])
  {
    forall i | 0 <= i < |list|
      ensures entries[list[i]].capacity <= entries[last].capacity && list[i] != last
    {
      assert list[i] in list;
    }
  }

  lemma {:induction false} InsertKeepsSorted(entries: map<nat, Entry>, list: seq<nat>, id: nat)
    requires id in entries && Known(entries, list) && SortedByCapacity(entries, list)
    requires Distinct(list) && id !in list
    ensures Known(entries, Insert(entries, list, id)) && SortedByCapacity(entries, Insert(entries, list, id))
    ensures Distinct(Insert(entries, list, id))
  {
    InsertMembers(entries, list, id);
    if list != [] && entries[list[|list| - 1]].capacity > entries[id].capacity {
      var rest, last := list[..|list| - 1], list[|list| - 1];
      InsertKeepsSorted(entries, rest, id);
      InsertMembers(entries, rest, id);
      AppendKeepsSorted(entries, Insert(entries, rest, id), last);
    }
  }

  // ----- finding a fit

  /** The first candidate that is large enough, or the length of the list. */
  function FirstFit(entries: map<nat, Entry>, list: seq<nat>, length: nat): (i: nat)
    requires Known(entries, list)
    ensures i <= |list| && (i < |list| ==> entries[list[i]].capacity >= length)
    ensures forall j | 0 <= j < i :: entries[list[j]].capacity < length
  {
    if list == [] || entries[list[0]].capacity >= length then 0 else 1 + FirstFit(entries, list[1..], length)
  }

  /** In a sorted list, the first fit is the best one. */
  lemma FirstFitIsBestFit(entries: map<nat, Entry>, list: seq<nat>, length: nat)
    requires Known(entries, list) && SortedByCapacity(entries, list)
    ensures var i := FirstFit(entries, list, length);
            if i < |list| then
              forall j | 0 <= j < |list| && entries[list[j]].capacity >= length ::
                entries[list[i]].capacity <= entries[list[j]].capacity
            else forall j | 0 <= j < |list| :: entries[list[j]].capacity < length
  {
  }

  function Spliced(list: seq<nat>, i: nat): seq<nat>
    requires i < |list|
  {
    list[..i] + list[i + 1..]
  }

  // ----- leasing and releasing

  predicate ListsKnown(s: State) {
    forall kind: Kind, id | id in s.available.At(kind) :: id in s.entries
  }

  /** An entry that was available, or a new one around a new buffer. */
  function Taken(s: State, kind: Kind, length: nat, newBuffer: nat): (r: (State, nat))
    requires Known(s.entries, s.available.At(kind))
    ensures r.1 in r.0.entries
  {
    var list := s.available.At(kind);
    var i := FirstFit(s.entries, list, length);
    if i < |list| then
      (s.(available := s.available.With(kind, Spliced(list, i)), active := s.active + {list[i]}), list[i])
    else
      (s.(entries := s.entries[s.nextId := Entry(kind, length, Buffer(newBuffer, length * kind.Bytes()))],
          active := s.active + {s.nextId}, nextId := s.nextId + 1), s.nextId)
  }

  datatype Acquired = Acquired(state: State, result: Result<Lease, Error>)

  function Acquire(s: State, maxDirtyCount: Option<nat>, kind: Kind, length: int, newBuffer: nat): Acquired
    requires Known(s.entries, s.available.At(kind))
  {
    if length < 0 then Acquired(s, Err(NegativeLength))
    else if length == 0 then Acquired(s, Ok(Lease(0, kind, 0, 0, Buffer(newBuffer, 0))))
    else if maxDirtyCount.Some? && length > maxDirtyCount.value then Acquired(s, Err(PoolExhausted))
    else
      var (t, id) := Taken(s, kind, length, newBuffer);
      Acquired(t, Ok(Lease(id, kind, length, t.entries[id].capacity, t.entries[id].buffer)))
  }

  /** The entry around the buffer it is released with: a replacement, its own, or a new one if its own is gone. */
  function Refilled(e: Entry, replacement: Option<Buffer>, newBuffer: nat): Entry {
    match replacement
    case Some(buffer) => e.(buffer := buffer, capacity := buffer.byteLength / e.kind.Bytes())
    case None =>
      if e.buffer.byteLength == 0 then e.(buffer := Buffer(newBuffer, e.capacity * e.kind.Bytes())) else e
  }

  predicate Aligned(e: Entry, replacement: Option<Buffer>) {
    replacement.Some? ==> replacement.value.byteLength % e.kind.Bytes() == 0
  }

  /** An unknown lease is ignored; a replacement that is no whole number of elements loses the entry. */
  function Release(s: State, id: nat, replacement: Option<Buffer>, newBuffer: nat): (State, Option<Error>)
    requires ListsKnown(s) && s.active <= s.entries.Keys
  {
    if id !in s.active then (s, None)
    else
      var e := s.entries[id];
      var entries := s.entries[id := Refilled(e, replacement, newBuffer)];
      var t := s.(entries := entries, active := s.active - {id});
      if !Aligned(e, replacement) then (t, Some(Misaligned))
      else (t.(available := s.available.With(e.kind, Sorted(entries, s.available.At(e.kind) + [id]))), None)
  }

  /** A leased buffer that is transferred to another thread reads as empty here. */
  function Transferred(s: State, id: nat): State
    requires id in s.entries
  {
    s.(entries := s.entries[id := s.entries[id].(buffer := s.entries[id].buffer.(byteLength := 0))])
  }

  // ----- what leasing and releasing keep

  /** The available entries of one kind: no duplicates, sorted, none leased, with whole buffers. */
  ghost predicate ListOk(list: seq<nat>, kind: Kind, entries: map<nat, Entry>, active: set<nat>) {
    && Distinct(list) && Known(entries, list) && SortedByCapacity(entries, list)
    && forall id | id in list :: entries[id].kind == kind && id !in active && IsWhole(entries[id])
  }

  predicate IsWhole(e: Entry) {
    e.buffer.byteLength == e.capacity * e.kind.Bytes()
  }

  ghost predicate Accounted(s: State, id: nat)
    requires id in s.entries
  {
    0 < id < s.nextId && (id in s.active || id in s.available.At(s.entries[id].kind))
  }

  /** No two entries have the same buffer. */
  ghost predicate OwnBuffers(entries: map<nat, Entry>) {
    forall i, j | i in entries && j in entries && entries[i].buffer.id == entries[j].buffer.id :: i == j
  }

  /** Every entry is either leased or on the list of its kind; lists are sorted and their buffers whole. */
  ghost predicate Inv(s: State) {
    && s.nextId > 0 && s.active <= s.entries.Keys
    && (forall kind: Kind :: ListOk(s.available.At(kind), kind, s.entries, s.active))
    && (forall id | id in s.entries :: Accounted(s, id))
    && OwnBuffers(s.entries)
  }

  /** A buffer that no entry has. */
  ghost predicate Unused(entries: map<nat, Entry>, buffer: nat) {
    forall id | id in entries :: entries[id].buffer.id != buffer
  }

  lemma InvKnows(s: State)
    requires Inv(s)
    ensures ListsKnown(s) && forall kind: Kind :: Known(s.entries, s.available.At(kind))
  {
    forall kind: Kind
      ensures Known(s.entries, s.available.At(kind))
    {
      assert ListOk(s.available.At(kind), kind, s.entries, s.active);
    }
  }

  lemma SplicedMembers(list: seq<nat>, i: nat)
    requires Distinct(list) && i < |list|
    ensures Distinct(Spliced(list, i))
    ensures forall x :: x in Spliced(list, i) <==> x in list && x != list[i]
  {
    var r := Spliced(list, i);
    forall x
      ensures x in r <==> x in list && x != list[i]
    {
      if x in r {
        var k :| 0 <= k < |r| && r[k] == x;
        assert r[k] == list[if k < i then k else k + 1];
      }
      if x in list && x != list[i] {
        var k :| 0 <= k < |list| && list[k] == x;
        assert r[if k < i then k else k - 1] == x;
      }
    }
  }

  lemma SplicedListOk(list: seq<nat>, kind: Kind, entries: map<nat, Entry>, active: set<nat>, i: nat)
    requires ListOk(list, kind, entries, active) && i < |list|
    ensures ListOk(Spliced(list, i), kind, entries, active + {list[i]})
  {
    SplicedMembers(list, i);
  }

  /** Another list does not notice that an entry of a different kind is leased. */
  lemma OtherListOk(list: seq<nat>, kind: Kind, entries: map<nat, Entry>, active: set<nat>, id: nat)
    requires ListOk(list, kind, entries, active) && id !in list
    ensures ListOk(list, kind, entries, active + {id})
  {
  }

  lemma TakenFromList(s: State, kind: Kind, i: nat)
    requires Inv(s) && i < |s.available.At(kind)|
    ensures var list := s.available.At(kind);
            && list[i] in s.entries && list[i] !in s.active && s.entries[list[i]].kind == kind
                && IsWhole(s.entries[list[i]])
            && Inv(s.(available := s.available.With(kind, Spliced(list, i)), active := s.active + {list[i]}))
  {
    var list := s.available.At(kind);
    var t := s.(available := s.available.With(kind, Spliced(list, i)), active := s.active + {list[i]});
    assert ListOk(list, kind, s.entries, s.active) && list[i] in list;
    SplicedMembers(list, i);
    forall other: Kind
      ensures ListOk(t.available.At(other), other, t.entries, t.active)
    {
      assert ListOk(s.available.At(other), other, s.entries, s.active);
      if other == kind {
        SplicedListOk(list, kind, s.entries, s.active, i);
      } else {
        OtherListOk(s.available.At(other), other, s.entries, s.active, list[i]);
      }
    }
    forall id | id in t.entries
      ensures Accounted(t, id)
    {
      assert Accounted(s, id);
    }
  }

  lemma NextIdIsNew(s: State)
    requires Inv(s)
    ensures s.nextId !in s.entries
  {
    assert s.nextId in s.entries ==> Accounted(s, s.nextId);
  }

  lemma ListWithNewEntry(list: seq<nat>, kind: Kind, entries: map<nat, Entry>, active: set<nat>, id: nat, e: Entry)
    requires ListOk(list, kind, entries, active) && id !in entries
    ensures ListOk(list, kind, entries[id := e], active + {id})
  {
  }

  lemma CreatedKeeps(s: State, kind: Kind, length: nat, newBuffer: nat)
    requires Inv(s) && Unused(s.entries, newBuffer)
    ensures s.nextId !in s.entries
    ensures Inv(s.(entries := s.entries[s.nextId := Entry(kind, length, Buffer(newBuffer, length * kind.Bytes()))],
                   active := s.active + {s.nextId}, nextId := s.nextId + 1))
  {
    var e := Entry(kind, length, Buffer(newBuffer, length * kind.Bytes()));
    var t := s.(entries := s.entries[s.nextId := e], active := s.active + {s.nextId}, nextId := s.nextId + 1);
    NextIdIsNew(s);
    forall other: Kind
      ensures ListOk(t.available.At(other), other, t.entries, t.active)
    {
      assert ListOk(s.available.At(other), other, s.entries, s.active);
      ListWithNewEntry(s.available.At(other), other, s.entries, s.active, s.nextId, e);
    }
    forall id | id in t.entries
      ensures Accounted(t, id)
    {
      assert id in s.entries ==> Accounted(s, id);
    }
  }

  /** A lease is of an entry that nobody had, is no longer than its capacity, and its buffer holds it. */
  lemma TakenKeeps(s: State, kind: Kind, length: nat, newBuffer: nat)
    requires Inv(s) && length > 0 && Unused(s.entries, newBuffer)
    ensures Known(s.entries, s.available.At(kind))
    ensures var r := Taken(s, kind, length, newBuffer);
            && Inv(r.0) && r.1 !in s.active && r.0.active == s.active + {r.1}
            && r.0.entries[r.1].kind == kind && length <= r.0.entries[r.1].capacity && IsWhole(r.0.entries[r.1])
            && forall other | other in s.entries :: other in r.0.entries && r.0.entries[other] == s.entries[other]
  {
    InvKnows(s);
    var i := FirstFit(s.entries, s.available.At(kind), length);
    if i < |s.available.At(kind)| {
      TakenFromList(s, kind, i);
    } else {
      NextIdIsNew(s);
      CreatedKeeps(s, kind, length, newBuffer);
    }
  }

  // ----- what a lease is of, and what a release puts back

  /** One occurrence of an entry is taken off a list, the others keep their order. */
  predicate TakenOff(list: seq<nat>, rest: seq<nat>, id: nat, k: int) {
    0 <= k < |list| && list[k] == id && rest == list[..k] + list[k + 1..]
  }

  /** The smallest available entry that holds `length` elements changes from its list to the leased ones. */
  ghost predicate Reused(s: State, t: State, kind: Kind, length: nat, id: nat)
    requires Known(s.entries, s.available.At(kind))
  {
    && t.entries == s.entries && t.nextId == s.nextId && t.active == s.active + {id}
    && (forall other: Kind | other != kind :: t.available.At(other) == s.available.At(other))
    && (exists k :: TakenOff(s.available.At(kind), t.available.At(kind), id, k))
    && id in s.entries && s.entries[id].capacity >= length
    && forall other | other in s.available.At(kind) && s.entries[other].capacity >= length ::
         s.entries[id].capacity <= s.entries[other].capacity
  }

  /** A new entry for exactly `length` elements, around a new buffer of their size. */
  ghost predicate MadeNew(s: State, t: State, kind: Kind, length: nat, id: nat, newBuffer: nat) {
    var bytes := match kind case Float64 => 8 case Uint8 => 1 case Uint32 => 4;
    && id == s.nextId && t.nextId == id + 1 && t.active == s.active + {id} && t.available == s.available
    && t.entries.Keys == s.entries.Keys + {id} && (forall other | other in s.entries && other != id ::
                                                    t.entries[other] == s.entries[other])
    && t.entries[id].kind == kind && t.entries[id].capacity == length
    && t.entries[id].buffer.id == newBuffer && t.entries[id].buffer.byteLength == length * bytes
  }

  lemma FitIsReused(s: State, kind: Kind, length: nat, newBuffer: nat)
    requires Known(s.entries, s.available.At(kind)) && SortedByCapacity(s.entries, s.available.At(kind))
    requires FirstFit(s.entries, s.available.At(kind), length) < |s.available.At(kind)|
    ensures var (t, id) := Taken(s, kind, length, newBuffer); Reused(s, t, kind, length, id)
  {
    var list := s.available.At(kind);
    FirstFitIsBestFit(s.entries, list, length);
    var i := FirstFit(s.entries, list, length);
    assert TakenOff(list, Spliced(list, i), list[i], i);
  }

  /** A lease is of the smallest available entry that fits, or of a new one when none does. */
  lemma TakenIsBestFit(s: State, kind: Kind, length: nat, newBuffer: nat)
    requires Inv(s)
    ensures Known(s.entries, s.available.At(kind))
    ensures var (t, id) := Taken(s, kind, length, newBuffer);
            if exists x :: x in s.available.At(kind) && s.entries[x].capacity >= length
            then Reused(s, t, kind, length, id) else MadeNew(s, t, kind, length, id, newBuffer)
  {
    InvKnows(s);
    var list := s.available.At(kind);
    assert ListOk(list, kind, s.entries, s.active);
    FirstFitIsBestFit(s.entries, list, length);
    var i := FirstFit(s.entries, list, length);
    if i < |list| {
      assert list[i] in list;
      FitIsReused(s, kind, length, newBuffer);
    }
  }

  /** The answer to a request for `length` elements, and what becomes of the pool. */
  ghost predicate Leases(s: State, t: State, maxDirtyCount: Option<nat>, kind: Kind, length: int, newBuffer: nat,
                         r: Result<Lease, Error>)
  {
    if length < 0 then r == Err(NegativeLength) && t == s
    else if length == 0 then r == Ok(Lease(0, kind, 0, 0, Buffer(newBuffer, 0))) && t == s
    else if maxDirtyCount.Some? && length > maxDirtyCount.value then r == Err(PoolExhausted) && t == s
    else
      && r.Ok? && r.value.id in t.entries && Known(s.entries, s.available.At(kind))
      && r.value == Lease(r.value.id, kind, length, t.entries[r.value.id].capacity, t.entries[r.value.id].buffer)
      && if exists x :: x in s.available.At(kind) && s.entries[x].capacity >= length
         then Reused(s, t, kind, length, r.value.id) else MadeNew(s, t, kind, length, r.value.id, newBuffer)
  }

  lemma AcquireLeases(s: State, maxDirtyCount: Option<nat>, kind: Kind, length: int, newBuffer: nat)
    requires Inv(s)
    ensures Known(s.entries, s.available.At(kind))
    ensures var a := Acquire(s, maxDirtyCount, kind, length, newBuffer);
            Leases(s, a.state, maxDirtyCount, kind, length, newBuffer, a.result)
  {
    InvKnows(s);
    if length > 0 {
      TakenIsBestFit(s, kind, length, newBuffer);
    }
  }

  /** The list of a kind after an entry comes back: all that were on it, in their order, and the entry among them. */
  ghost predicate PutBack(entries: map<nat, Entry>, list: seq<nat>, after: seq<nat>, id: nat) {
    && Known(entries, after) && SortedByCapacity(entries, after)
    && exists k :: TakenOff(after, list, id, k)
  }

  /** An entry around the buffer it is released with: a replacement, its own, or a new one if its own is gone. */
  ghost predicate Refills(e: Entry, f: Entry, replacement: Option<Buffer>, newBuffer: nat) {
    var bytes := match e.kind case Float64 => 8 case Uint8 => 1 case Uint32 => 4;
    f.kind == e.kind
    && match replacement
       case Some(b) => f.buffer == b && f.capacity == b.byteLength / bytes
       case None =>
         && f.capacity == e.capacity
         && f.buffer == if e.buffer.byteLength == 0 then Buffer(newBuffer, e.capacity * bytes) else e.buffer
  }

  /** What releasing a leased entry leaves of it and of the pool. */
  ghost predicate Returns(s: State, t: State, id: nat, replacement: Option<Buffer>, newBuffer: nat,
                          error: Option<Error>)
    requires id in s.entries
  {
    var e := s.entries[id];
    var bytes := match e.kind case Float64 => 8 case Uint8 => 1 case Uint32 => 4;
    && t.active == s.active - {id} && t.nextId == s.nextId && t.entries.Keys == s.entries.Keys
    && (forall other | other in s.entries && other != id :: t.entries[other] == s.entries[other])
    && Refills(e, t.entries[id], replacement, newBuffer)
    && (error == Some(Misaligned) <==> replacement.Some? && replacement.value.byteLength % bytes != 0)
    && (error.Some? ==> error == Some(Misaligned) && t.available == s.available)
    && (error.None? ==>
          && (forall other: Kind | other != e.kind :: t.available.At(other) == s.available.At(other))
          && PutBack(t.entries, s.available.At(e.kind), t.available.At(e.kind), id))
  }

  lemma {:induction false} InsertPutsBack(entries: map<nat, Entry>, list: seq<nat>, id: nat) returns (k: int)
    requires id in entries && Known(entries, list)
    ensures TakenOff(Insert(entries, list, id), list, id, k)
  {
    if list == [] || entries[list[|list| - 1]].capacity <= entries[id].capacity {
      k := |list|;
    } else {
      var rest, last := list[..|list| - 1], list[|list| - 1];
      k := InsertPutsBack(entries, rest, id);
      var inner, all := Insert(entries, rest, id), Insert(entries, list, id);
      assert all == inner + [last] && list == rest + [last];
      assert all[..k] == inner[..k] && all[k + 1..] == inner[k + 1..] + [last];
    }
  }

  lemma ListedPutsBack(list: seq<nat>, kind: Kind, entries: map<nat, Entry>, active: set<nat>, id: nat, e: Entry)
    requires ListOk(list, kind, entries, active) && id in active
    ensures Known(entries[id := e], list + [id])
    ensures PutBack(entries[id := e], list, Sorted(entries[id := e], list + [id]), id)
  {
    ListStaysOk(list, kind, entries, active, id, e);
    SortKeepsSorted(entries[id := e], list);
    assert (list + [id])[..|list|] == list;
    InsertKeepsSorted(entries[id := e], list, id);
    var k := InsertPutsBack(entries[id := e], list, id);
  }

  lemma RefilledFields(e: Entry, replacement: Option<Buffer>, newBuffer: nat)
    ensures var f := Refilled(e, replacement, newBuffer); Refills(e, f, replacement, newBuffer)
    ensures Aligned(e, replacement)
       <==> replacement.Some? ==>
              replacement.value.byteLength % (match e.kind case Float64 => 8 case Uint8 => 1 case Uint32 => 4) == 0
  {
  }

  lemma ReleaseReturns(s: State, id: nat, replacement: Option<Buffer>, newBuffer: nat)
    requires Inv(s) && id in s.active
    ensures ListsKnown(s) && id in s.entries
    ensures var (t, error) := Release(s, id, replacement, newBuffer); Returns(s, t, id, replacement, newBuffer, error)
  {
    InvKnows(s);
    var e, kind := Refilled(s.entries[id], replacement, newBuffer), s.entries[id].kind;
    RefilledFields(s.entries[id], replacement, newBuffer);
    ListedPutsBack(s.available.At(kind), kind, s.entries, s.active, id, e);
  }

  lemma RefilledIsWhole(e: Entry, replacement: Option<Buffer>, newBuffer: nat)
    requires Aligned(e, replacement) && (replacement.None? && e.buffer.byteLength != 0 ==> IsWhole(e))
    ensures Refilled(e, replacement, newBuffer).kind == e.kind && IsWhole(Refilled(e, replacement, newBuffer))
  {
  }

  /** The available entries of a kind do not notice a change to a leased one. */
  lemma ListStaysOk(list: seq<nat>, kind: Kind, entries: map<nat, Entry>, active: set<nat>, id: nat, e: Entry)
    requires ListOk(list, kind, entries, active) && id in active
    ensures id !in list && ListOk(list, kind, entries[id := e], active - {id})
  {
  }

  lemma ListWithReleased(list: seq<nat>, kind: Kind, entries: map<nat, Entry>, active: set<nat>, id: nat)
    requires ListOk(list, kind, entries, active) && id !in list && id in entries && id !in active
    requires entries[id].kind == kind && IsWhole(entries[id])
    ensures Sorted(entries, list + [id]) == Insert(entries, list, id)
    ensures ListOk(Insert(entries, list, id), kind, entries, active)
  {
    SortKeepsSorted(entries, list);
    assert (list + [id])[..|list|] == list;
    InsertMembers(entries, list, id);
    InsertKeepsSorted(entries, list, id);
  }

  lemma ReleasedLists(s: State, id: nat, e: Entry, kind: Kind)
    requires Inv(s) && id in s.active && e.kind == s.entries[id].kind && IsWhole(e)
    ensures var entries := s.entries[id := e];
            var list := s.available.At(kind);
            && Known(entries, list + [id]) && id !in list
            && ListOk(if kind == e.kind then Sorted(entries, list + [id]) else list, kind, entries, s.active - {id})
            && (kind == e.kind ==> forall x | x == id || x in list :: x in Sorted(entries, list + [id]))
  {
    var entries, list := s.entries[id := e], s.available.At(kind);
    assert ListOk(list, kind, s.entries, s.active);
    ListStaysOk(list, kind, s.entries, s.active, id, e);
    if kind == e.kind {
      ListWithReleased(list, kind, entries, s.active - {id}, id);
      InsertMembers(entries, list, id);
    }
  }

  ghost predicate Returnable(s: State, id: nat, replacement: Option<Buffer>, newBuffer: nat) {
    && id in s.entries && Aligned(s.entries[id], replacement)
    && Unused(s.entries - {id}, if replacement.Some? then replacement.value.id else newBuffer)
    && (replacement.None? && s.entries[id].buffer.byteLength != 0 ==> IsWhole(s.entries[id]))
  }

  lemma RefilledOwnsBuffer(s: State, id: nat, replacement: Option<Buffer>, newBuffer: nat)
    requires OwnBuffers(s.entries) && Returnable(s, id, replacement, newBuffer)
    ensures OwnBuffers(s.entries[id := Refilled(s.entries[id], replacement, newBuffer)])
  {
    var entries, e := s.entries, Refilled(s.entries[id], replacement, newBuffer);
    forall other | other in entries && other != id
      ensures entries[other].buffer.id != e.buffer.id
    {
      assert other in entries - {id};
      assert entries[other].buffer.id == entries[id].buffer.id ==> other == id;
    }
  }

  /** Releasing an aligned buffer of its own puts the entry back on its list. */
  lemma ReleaseKeeps(s: State, id: nat, replacement: Option<Buffer>, newBuffer: nat)
    requires Inv(s) && id in s.active && Returnable(s, id, replacement, newBuffer)
    ensures ListsKnown(s)
    ensures var t := Release(s, id, replacement, newBuffer).0;
            Inv(t) && t.active == s.active - {id} && id in t.available.At(s.entries[id].kind)
  {
    InvKnows(s);
    var e := Refilled(s.entries[id], replacement, newBuffer);
    var t := Release(s, id, replacement, newBuffer).0;
    RefilledIsWhole(s.entries[id], replacement, newBuffer);
    RefilledOwnsBuffer(s, id, replacement, newBuffer);
    ReleasedLists(s, id, e, e.kind);
    forall kind: Kind
      ensures ListOk(t.available.At(kind), kind, t.entries, t.active)
    {
      ReleasedLists(s, id, e, kind);
    }
    forall x | x in t.entries
      ensures Accounted(t, x)
    {
      assert Accounted(s, x);
    }
  }

  // ----- runs of clients that keep their leases in order

  /** What clients do: lease, release a lease they got earlier, or transfer a leased buffer away. */
  datatype Op =
    | Take(kind: Kind, length: int, newBuffer: nat)
    | Return(lease: nat, replacement: Option<Buffer>, newBuffer: nat)
    | Transfer(lease: nat)

  /** The pool, every lease handed out so far, and which of them were not released yet. */
  datatype World = World(pool: State, leases: seq<Lease>, outstanding: set<nat>)

  /** What happened so far was in order: outstanding leases fit, each entry is leased once, and only through a lease. */
  ghost predicate WorldOk(w: World) {
    Inv(w.pool) && LeasesFit(w) && OneLeaseEach(w) && AllHeld(w)
  }

  predicate Matters(w: World, k: int) {
    0 <= k < |w.leases| && k in w.outstanding && w.leases[k].length > 0
  }

  ghost predicate LeasesFit(w: World) {
    forall k | k in w.outstanding :: k < |w.leases| && (w.leases[k].length > 0 ==> LeaseOk(w.pool, w.leases[k]))
  }

  ghost predicate OneLeaseEach(w: World) {
    forall j: nat, k: nat | Matters(w, j) && Matters(w, k) && w.leases[j].id == w.leases[k].id :: j == k
  }

  ghost predicate AllHeld(w: World) {
    forall id | id in w.pool.active :: Held(w, id)
  }

  ghost predicate Held(w: World, id: nat) {
    exists k: nat :: Matters(w, k) && w.leases[k].id == id
  }

  /** An outstanding lease is of a leased entry of its kind, which holds it, around the same buffer. */
  ghost predicate LeaseOk(s: State, l: Lease) {
    && l.id in s.active && l.id in s.entries && s.entries[l.id].kind == l.kind
    && l.length <= l.capacity == s.entries[l.id].capacity && s.entries[l.id].buffer.id == l.buffer.id
    && (s.entries[l.id].buffer.byteLength == 0 || IsWhole(s.entries[l.id]))
  }

  /** Buffers given to the pool are new to it, leases are released once, and replacements are whole elements. */
  ghost predicate Orderly(w: World, op: Op) {
    match op
    case Take(_, _, newBuffer) => Unused(w.pool.entries, newBuffer)
    case Return(k, replacement, newBuffer) =>
      && k in w.outstanding && k < |w.leases|
      && (w.leases[k].length > 0 ==>
            w.leases[k].id in w.pool.entries && Returnable(w.pool, w.leases[k].id, replacement, newBuffer))
    case Transfer(k) =>
      && k in w.outstanding && k < |w.leases|
      && (w.leases[k].length > 0 ==> w.leases[k].id in w.pool.entries)
  }

  /** The world after one more lease. */
  function Leased(w: World, pool: State, l: Lease): World {
    World(pool, w.leases + [l], w.outstanding + {|w.leases|})
  }

  function Step(w: World, maxDirtyCount: Option<nat>, op: Op): World
    requires ListsKnown(w.pool) && w.pool.active <= w.pool.entries.Keys
    requires op.Return? || op.Transfer? ==> op.lease < |w.leases|
    requires op.Transfer? && w.leases[op.lease].length > 0 ==> w.leases[op.lease].id in w.pool.entries
  {
    match op
    case Take(kind, length, newBuffer) =>
      assert Known(w.pool.entries, w.pool.available.At(kind));
      var acquired := Acquire(w.pool, maxDirtyCount, kind, length, newBuffer);
      if acquired.result.Err? then w.(pool := acquired.state)
      else Leased(w, acquired.state, acquired.result.value)
    case Return(k, replacement, newBuffer) =>
      if w.leases[k].length == 0 then w.(outstanding := w.outstanding - {k})
      else w.(pool := Release(w.pool, w.leases[k].id, replacement, newBuffer).0, outstanding := w.outstanding - {k})
    case Transfer(k) => if w.leases[k].length == 0 then w else w.(pool := Transferred(w.pool, w.leases[k].id))
  }

  lemma LeasedMatters(w: World, pool: State, l: Lease, k: nat)
    requires LeasesFit(w)
    ensures Matters(Leased(w, pool, l), k) <==> (k < |w.leases| && Matters(w, k)) || (k == |w.leases| && l.length > 0)
    ensures k < |w.leases| ==> Leased(w, pool, l).leases[k] == w.leases[k]
  {
  }

  lemma LeasedFit(w: World, pool: State, l: Lease)
    requires LeasesFit(w) && LeaseOk(pool, l) && w.pool.active <= pool.active
    requires forall id | id in w.pool.entries :: id in pool.entries && pool.entries[id] == w.pool.entries[id]
    ensures LeasesFit(Leased(w, pool, l))
  {
    var t := Leased(w, pool, l);
    forall k | k in t.outstanding
      ensures k < |t.leases| && (t.leases[k].length > 0 ==> LeaseOk(pool, t.leases[k]))
    {
      if k in w.outstanding && w.leases[k].length > 0 {
        assert LeaseOk(w.pool, w.leases[k]);
      }
    }
  }

  lemma LeasedOnce(w: World, pool: State, l: Lease)
    requires LeasesFit(w) && OneLeaseEach(w) && (l.length > 0 ==> l.id !in w.pool.active)
    ensures OneLeaseEach(Leased(w, pool, l))
  {
    var t := Leased(w, pool, l);
    forall j: nat, k: nat | Matters(t, j) && Matters(t, k) && t.leases[j].id == t.leases[k].id
      ensures j == k
    {
      LeasedMatters(w, pool, l, j);
      LeasedMatters(w, pool, l, k);
      assert forall n: nat | Matters(w, n) :: LeaseOk(w.pool, w.leases[n]);
    }
  }

  lemma LeasedIsHeld(w: World, pool: State, l: Lease)
    requires LeasesFit(w) && AllHeld(w)
             && (if l.length > 0 then pool.active == w.pool.active + {l.id} else pool.active == w.pool.active)
    ensures AllHeld(Leased(w, pool, l))
  {
    forall id | id in pool.active
      ensures Held(Leased(w, pool, l), id)
    {
      if id in w.pool.active {
        assert Held(w, id);
        var k: nat :| Matters(w, k) && w.leases[k].id == id;
        LeasedMatters(w, pool, l, k);
      } else {
        LeasedMatters(w, pool, l, |w.leases|);
      }
    }
  }

  /** Handing out a lease of an entry that nobody had. */
  lemma LeasedKeepsWorld(w: World, pool: State, l: Lease)
    requires WorldOk(w) && Inv(pool) && l.id !in w.pool.active && pool.active == w.pool.active + {l.id}
    requires LeaseOk(pool, l) && l.length > 0
    requires forall id | id in w.pool.entries :: id in pool.entries && pool.entries[id] == w.pool.entries[id]
    ensures WorldOk(Leased(w, pool, l))
  {
    LeasedFit(w, pool, l);
    LeasedOnce(w, pool, l);
    LeasedIsHeld(w, pool, l);
  }

  lemma EmptyLeaseKeepsWorld(w: World, l: Lease)
    requires WorldOk(w) && l.length == 0
    ensures WorldOk(Leased(w, w.pool, l))
  {
    LeasedOnce(w, w.pool, l);
    LeasedIsHeld(w, w.pool, l);
  }

  lemma TakeKeepsWorld(w: World, maxDirtyCount: Option<nat>, kind: Kind, length: int, newBuffer: nat)
    requires WorldOk(w) && Unused(w.pool.entries, newBuffer)
    ensures ListsKnown(w.pool) && WorldOk(Step(w, maxDirtyCount, Take(kind, length, newBuffer)))
  {
    InvKnows(w.pool);
    var acquired := Acquire(w.pool, maxDirtyCount, kind, length, newBuffer);
    if length == 0 {
      EmptyLeaseKeepsWorld(w, acquired.result.value);
    } else if length > 0 && acquired.result.Ok? {
      TakenKeeps(w.pool, kind, length, newBuffer);
      LeasedKeepsWorld(w, acquired.state, acquired.result.value);
    }
  }

  /** A world in which one lease is over. */
  lemma ReturnedKeepsLeases(w: World, pool: State, k: nat)
    requires LeasesFit(w) && OneLeaseEach(w) && AllHeld(w) && Matters(w, k)
    requires pool.active == w.pool.active - {w.leases[k].id}
    requires forall id | id in w.pool.entries && id != w.leases[k].id ::
               id in pool.entries && pool.entries[id] == w.pool.entries[id]
    ensures var t := World(pool, w.leases, w.outstanding - {k}); LeasesFit(t) && OneLeaseEach(t) && AllHeld(t)
  {
    var t := World(pool, w.leases, w.outstanding - {k});
    forall j: nat
      ensures Matters(t, j) <==> Matters(w, j) && j != k
    {
    }
    forall j: nat | Matters(t, j)
      ensures LeaseOk(pool, t.leases[j])
    {
      assert LeaseOk(w.pool, w.leases[j]) && Matters(w, j);
    }
    forall id | id in pool.active
      ensures Held(t, id)
    {
      assert Held(w, id);
      var j: nat :| Matters(w, j) && w.leases[j].id == id;
      assert Matters(t, j);
    }
  }

  lemma EmptyReturnKeepsLeases(w: World, k: nat)
    requires WorldOk(w) && k < |w.leases| && w.leases[k].length == 0
    ensures WorldOk(w.(outstanding := w.outstanding - {k}))
  {
    var t := w.(outstanding := w.outstanding - {k});
    forall id | id in w.pool.active
      ensures Held(t, id)
    {
      assert Held(w, id);
      var j: nat :| Matters(w, j) && w.leases[j].id == id;
      assert Matters(t, j);
    }
  }

  lemma ReleaseKeepsWorld(w: World, k: nat, replacement: Option<Buffer>, newBuffer: nat)
    requires WorldOk(w) && Orderly(w, Return(k, replacement, newBuffer)) && w.leases[k].length > 0
    ensures ListsKnown(w.pool)
    ensures var pool := Release(w.pool, w.leases[k].id, replacement, newBuffer).0;
            WorldOk(w.(pool := pool, outstanding := w.outstanding - {k}))
  {
    assert LeaseOk(w.pool, w.leases[k]);
    ReleaseKeeps(w.pool, w.leases[k].id, replacement, newBuffer);
    ReturnedKeepsLeases(w, Release(w.pool, w.leases[k].id, replacement, newBuffer).0, k);
  }

  lemma ReturnKeepsWorld(w: World, maxDirtyCount: Option<nat>, k: nat, replacement: Option<Buffer>, newBuffer: nat)
    requires WorldOk(w) && Orderly(w, Return(k, replacement, newBuffer))
    ensures ListsKnown(w.pool) && WorldOk(Step(w, maxDirtyCount, Return(k, replacement, newBuffer)))
  {
    InvKnows(w.pool);
    if w.leases[k].length > 0 {
      ReleaseKeepsWorld(w, k, replacement, newBuffer);
    } else {
      EmptyReturnKeepsLeases(w, k);
    }
  }

  lemma TransferKeepsInv(s: State, id: nat)
    requires Inv(s) && id in s.active
    ensures Inv(Transferred(s, id))
  {
    var t := Transferred(s, id);
    forall kind: Kind
      ensures ListOk(t.available.At(kind), kind, t.entries, t.active)
    {
      assert ListOk(s.available.At(kind), kind, s.entries, s.active);
    }
    forall x | x in t.entries
      ensures Accounted(t, x)
    {
      assert Accounted(s, x);
    }
  }

  lemma TransferKeepsWorld(w: World, maxDirtyCount: Option<nat>, k: nat)
    requires WorldOk(w) && Orderly(w, Transfer(k))
    ensures ListsKnown(w.pool) && WorldOk(Step(w, maxDirtyCount, Transfer(k)))
  {
    InvKnows(w.pool);
    if w.leases[k].length > 0 {
      assert LeaseOk(w.pool, w.leases[k]);
      TransferKeepsInv(w.pool, w.leases[k].id);
      var t := Step(w, maxDirtyCount, Transfer(k));
      forall j | j in t.outstanding && t.leases[j].length > 0
        ensures LeaseOk(t.pool, t.leases[j])
      {
        assert LeaseOk(w.pool, w.leases[j]);
      }
    }
  }

  /**
   * Every orderly step keeps the pool in order: entries are leased or listed, no two outstanding leases
   * share an entry, and each lease fits its entry.
   */
  lemma OrderlyStepsKeepWorld(w: World, maxDirtyCount: Option<nat>, op: Op)
    requires WorldOk(w) && Orderly(w, op)
    ensures ListsKnown(w.pool) && WorldOk(Step(w, maxDirtyCount, op))
  {
    match op
    case Take(kind, length, newBuffer) => TakeKeepsWorld(w, maxDirtyCount, kind, length, newBuffer);
    case Return(k, replacement, newBuffer) => ReturnKeepsWorld(w, maxDirtyCount, k, replacement, newBuffer);
    case Transfer(k) => TransferKeepsWorld(w, maxDirtyCount, k);
  }

  /** The worlds of a run, one step after the other, each of them orderly. */
  ghost predicate IsRun(worlds: seq<World>, maxDirtyCount: Option<nat>, ops: seq<Op>) {
    && |worlds| == |ops| + 1 && worlds[0] == World(State(map[], Lists([], [], []), {}, 1), [], {})
    && forall n | 0 <= n < |ops| :: Follows(worlds[n], maxDirtyCount, ops[n], worlds[n + 1])
  }

  ghost predicate Follows(w: World, maxDirtyCount: Option<nat>, op: Op, next: World) {
    Orderly(w, op) && (WorldOk(w) ==> (InvKnows(w.pool); next == Step(w, maxDirtyCount, op)))
  }

  lemma {:induction false} OrderlyRunsKeepWorld(worlds: seq<World>, maxDirtyCount: Option<nat>, ops: seq<Op>, n: nat)
    requires IsRun(worlds, maxDirtyCount, ops) && n <= |ops|
    ensures WorldOk(worlds[n])
  {
    if n > 0 {
      OrderlyRunsKeepWorld(worlds, maxDirtyCount, ops, n - 1);
      assert Follows(worlds[n - 1], maxDirtyCount, ops[n - 1], worlds[n]);
      OrderlyStepsKeepWorld(worlds[n - 1], maxDirtyCount, ops[n - 1]);
    }
  }

  /** Over every orderly run, no two outstanding leases share an entry or a buffer. */
  lemma LeasesAreApart(worlds: seq<World>, maxDirtyCount: Option<nat>, ops: seq<Op>, n: nat, j: nat, k: nat)
    requires IsRun(worlds, maxDirtyCount, ops) && n <= |ops| && j != k
    requires j in worlds[n].outstanding && k in worlds[n].outstanding
    ensures j < |worlds[n].leases| && k < |worlds[n].leases|
    ensures var a, b := worlds[n].leases[j], worlds[n].leases[k];
            a.length > 0 && b.length > 0 ==> a.id != b.id && a.buffer.id != b.buffer.id
  {
    OrderlyRunsKeepWorld(worlds, maxDirtyCount, ops, n);
    var w := worlds[n];
    if w.leases[j].length > 0 && w.leases[k].length > 0 {
      assert LeaseOk(w.pool, w.leases[j]) && LeaseOk(w.pool, w.leases[k]);
    }
  }

  /**
   * Releasing a lease that was already released leaves things in order exactly when its entry is not
   * leased again by then: otherwise the entry is taken from whoever holds it.
   */
  lemma SecondReleaseBreaksIff(w: World, maxDirtyCount: Option<nat>, k: nat, replacement: Option<Buffer>,
                               newBuffer: nat)
    requires WorldOk(w) && k < |w.leases| && k !in w.outstanding && w.leases[k].length > 0
    ensures ListsKnown(w.pool)
    ensures WorldOk(Step(w, maxDirtyCount, Return(k, replacement, newBuffer))) <==> w.leases[k].id !in w.pool.active
  {
    InvKnows(w.pool);
    var t := Step(w, maxDirtyCount, Return(k, replacement, newBuffer));
    if w.leases[k].id in w.pool.active {
      assert Held(w, w.leases[k].id);
      var j: nat :| Matters(w, j) && w.leases[j].id == w.leases[k].id;
      assert j in t.outstanding && !LeaseOk(t.pool, t.leases[j]);
    } else {
      assert w.outstanding - {k} == w.outstanding;
      assert t == w;
    }
  }

  /** Leasing the only entry of a list of one and releasing it leaves things as they were. */
  lemma LeaseAndReturn(s: State, kind: Kind, length: nat, id: nat, spare: nat)
    requires ListsKnown(s) && s.active <= s.entries.Keys && s.available.At(kind) == [id] && id !in s.active
    requires length > 0 && s.entries[id].kind == kind && s.entries[id].capacity >= length
    requires s.entries[id].buffer.byteLength != 0
    ensures Known(s.entries, s.available.At(kind))
    ensures var a := Acquire(s, None, kind, length, spare);
            && a.result == Ok(Lease(id, kind, length, s.entries[id].capacity, s.entries[id].buffer))
            && ListsKnown(a.state) && a.state.active <= a.state.entries.Keys
            && Release(a.state, id, None, spare) == (s, None)
  {
    var t := Acquire(s, None, kind, length, spare).state;
    assert t.available == s.available.With(kind, []);
    assert [id][..0] == [] && [] + [id] == [id];
    assert t.entries[id := t.entries[id]] == s.entries;
    assert Sorted(s.entries, []) == [];
    assert Sorted(s.entries, [id]) == [id];
    assert s.active + {id} - {id} == s.active;
    assert s.available.With(kind, []).With(kind, [id]) == s.available;
  }

  /**
   * So a lease that is released a second time, after its entry was leased to another client, takes the
   * entry from that client, and a third one gets the same entry and buffer.
   */
  lemma SecondReleaseSharesEntry(s: State, kind: Kind, length: nat, id: nat, spare: nat)
    requires ListsKnown(s) && s.active <= s.entries.Keys && s.available.At(kind) == [id] && id !in s.active
    requires length > 0 && s.entries[id].kind == kind && s.entries[id].capacity >= length
    requires s.entries[id].buffer.byteLength != 0
    ensures Known(s.entries, s.available.At(kind))
    ensures var first := Acquire(s, None, kind, length, spare);
            && first.result.Ok? && ListsKnown(first.state) && first.state.active <= first.state.entries.Keys
            && var once := Release(first.state, id, None, spare).0;
               && Known(once.entries, once.available.At(kind))
               && var second := Acquire(once, None, kind, length, spare);
                  && second.result.Ok? && ListsKnown(second.state) && second.state.active <= second.state.entries.Keys
                  && var twice := Release(second.state, id, None, spare).0;
                     && Known(twice.entries, twice.available.At(kind))
                     && Acquire(twice, None, kind, length, spare).result == second.result
  {
    LeaseAndReturn(s, kind, length, id, spare);
  }

  /** A replacement of a fraction of an element takes its entry out of the pool for good; any other puts it back. */
  lemma ReleaseLosesEntryIff(s: State, id: nat, replacement: Option<Buffer>, newBuffer: nat)
    requires Inv(s) && id in s.active
    ensures ListsKnown(s)
    ensures var t := Release(s, id, replacement, newBuffer).0;
            && id in t.entries && id !in t.active
            && (id in t.available.At(t.entries[id].kind) <==> Aligned(s.entries[id], replacement))
  {
    InvKnows(s);
    var e := s.entries[id];
    var entries, list := s.entries[id := Refilled(e, replacement, newBuffer)], s.available.At(e.kind);
    assert ListOk(list, e.kind, s.entries, s.active);
    SortedMembers(entries, list + [id]);
  }

  lemma {:induction false} SortedMembers(entries: map<nat, Entry>, list: seq<nat>)
    requires Known(entries, list)
    ensures forall x :: x in Sorted(entries, list) <==> x in list
  {
    if list != [] {
      var rest := list[..|list| - 1];
      SortedMembers(entries, rest);
      InsertMembers(entries, Sorted(entries, rest), list[|list| - 1]);
      assert list == rest + [list[|list| - 1]];
    }
  }
}

/** The pool itself, whose lists and maps change in place. */
module TransportBufferPools {
  import opened Wrappers
  import opened Counting
  import P = BufferPool

  class TransportBufferPool {
    const maxDirtyCount: Option<nat>
    var entries: map<nat, P.Entry>
    var available: P.Lists
    var active: set<nat>
    var nextId: nat

    ghost function State(): P.State
      reads this
    {
      P.State(entries, available, active, nextId)
    }

    ghost predicate Valid()
      reads this
    {
      P.Inv(State())
    }

    constructor (maxDirtyCount: Option<nat>)
      ensures Valid() && State() == P.State(map[], P.Lists([], [], []), {}, 1) && this.maxDirtyCount == maxDirtyCount
    {
      this.maxDirtyCount := maxDirtyCount;
      entries, available, active, nextId := map[], P.Lists([], [], []), {}, 1;
    }

    method FindAvailableEntry(kind: P.Kind, requiredLength: nat) returns (found: Option<nat>)
      requires P.Known(entries, available.At(kind))
      modifies `available
      ensures var i := P.FirstFit(entries, old(available).At(kind), requiredLength);
              if i < |old(available).At(kind)| then
                found == Some(old(available).At(kind)[i])
                    && available == old(available).With(kind, P.Spliced(old(available).At(kind), i))
              else found == None && available == old(available)
    {
      var list := available.At(kind);
      for index := 0 to |list|
        invariant available == old(available)
        invariant P.FirstFit(entries, list, requiredLength) >= index
      {
        FirstFitFrom(entries, list, requiredLength, index);
        if entries[list[index]].capacity >= requiredLength {
          available := available.With(kind, P.Spliced(list, index));
          return Some(list[index]);
        }
      }
      found := None;
    }

    method CreateEntry(kind: P.Kind, capacity: nat, newBuffer: nat) returns (id: nat)
      modifies `entries, `nextId
      ensures id == old(nextId) && nextId == old(nextId) + 1
      ensures entries == old(entries)[id := P.Entry(kind, capacity, P.Buffer(newBuffer, capacity * kind.Bytes()))]
    {
      id := nextId;
      entries := entries[id := P.Entry(kind, capacity, P.Buffer(newBuffer, capacity * kind.Bytes()))];
      nextId := nextId + 1;
    }

    /** Makes the smallest available entry that fits active, or a new one. */
    method Take(kind: P.Kind, length: nat, newBuffer: nat) returns (id: nat)
      requires P.Known(entries, available.At(kind))
      modifies this
      ensures (State(), id) == P.Taken(old(State()), kind, length, newBuffer)
    {
      var found := FindAvailableEntry(kind, length);
      if found.Some? {
        id := found.value;
      } else {
        id := CreateEntry(kind, length, newBuffer);
      }
      active := active + {id};
    }

    /** A lease of the smallest available entry that fits, or of a new one. */
    method Acquire(kind: P.Kind, length: int, newBuffer: nat) returns (r: Result<P.Lease, P.Error>)
      requires Valid() && P.Unused(entries, newBuffer)
      modifies this
      ensures Valid() && P.ListsKnown(old(State()))
      ensures P.Acquired(State(), r) == P.Acquire(old(State()), maxDirtyCount, kind, length, newBuffer)
      ensures P.Leases(old(State()), State(), maxDirtyCount, kind, length, newBuffer, r)
    {
      P.InvKnows(State());
      P.AcquireLeases(State(), maxDirtyCount, kind, length, newBuffer);
      if length < 0 {
        return Err(P.NegativeLength);
      }
      if length == 0 {
        return Ok(P.Lease(0, kind, 0, 0, P.Buffer(newBuffer, 0)));
      }
      if maxDirtyCount.Some? && length > maxDirtyCount.value {
        return Err(P.PoolExhausted);
      }
      P.TakenKeeps(State(), kind, length, newBuffer);
      var id := Take(kind, length, newBuffer);
      r := Ok(P.Lease(id, kind, length, entries[id].capacity, entries[id].buffer));
    }

    /** Sorts a list by capacity, keeping the order of equals. */
    method SortByCapacity(list: seq<nat>) returns (sorted: seq<nat>)
      requires P.Known(entries, list)
      ensures sorted == P.Sorted(entries, list)
    {
      sorted := [];
      for i := 0 to |list|
        invariant P.Known(entries, list[..i]) && sorted == P.Sorted(entries, list[..i])
      {
        assert list[..i + 1][..i] == list[..i];
        sorted := P.Insert(entries, sorted, list[i]);
      }
      assert list[..|list|] == list;
    }

    method Release(id: nat, replacement: Option<P.Buffer>, newBuffer: nat) returns (error: Option<P.Error>)
      requires P.ListsKnown(State()) && active <= entries.Keys
      modifies this
      ensures (State(), error) == P.Release(old(State()), id, replacement, newBuffer)
      ensures id !in old(active) ==> State() == old(State()) && error == None
      ensures old(P.Inv(State())) && id in old(active) ==>
                P.Returns(old(State()), State(), id, replacement, newBuffer, error)
    {
      ghost var s := State();
      if P.Inv(s) && id in active {
        P.ReleaseReturns(s, id, replacement, newBuffer);
      }
      if id !in active {
        return None;
      }
      active := active - {id};
      var e := entries[id];
      entries := entries[id := P.Refilled(e, replacement, newBuffer)];
      if replacement.Some? && replacement.value.byteLength % e.kind.Bytes() != 0 {
        return Some(P.Misaligned);
      }
      assert P.Known(entries, available.At(e.kind) + [id]);
      var sorted := SortByCapacity(available.At(e.kind) + [id]);
      available := available.With(e.kind, sorted);
      error := None;
    }
  }

  /** Looking for a fit from some index on. */
  lemma {:induction false} FirstFitFrom(entries: map<nat, P.Entry>, list: seq<nat>, length: nat, index: nat)
    requires P.Known(entries, list) && index < |list| && P.FirstFit(entries, list, length) >= index
    ensures P.FirstFit(entries, list, length) == index <==> entries[list[index]].capacity >= length
  {
  }
}
