/**
 * Dirty tracking and double-buffered publishing as functions on whole states
 * (packages/core/src/resource-state.ts): a sparse-set dirty list over live rows, and two publish
 * buffers of which the standby one is always one generation behind.
 */
module ResourceTracking {
  import opened Wrappers
  import opened ResourceRows
  import opened Counting

  datatype Guard = Idle | AwaitingPublish | Published

  /**
   * `scratch` and `positions` are the arrays of the sparse set and `count` the length of its list;
   * `published` is the active buffer, `publishedDirty` the indices it changed against `standby`.
   */
  datatype State = State(
    live: seq<Row>,
    scratch: seq<nat>,
    positions: seq<int>,
    count: nat,
    published: seq<Row>,
    publishedDirty: seq<nat>,
    standby: seq<Row>,
    guard: Guard)

  const UNSET := -1

  predicate Listed(s: State, i: nat)
    requires i < |s.positions|
  {
    s.positions[i] >= 0
  }

  /** All arrays have one length. */
  predicate Sized(s: State) {
    && |s.live| == |s.scratch| == |s.positions| == |s.published| == |s.standby|
    && s.count <= |s.live|
  }

  ghost predicate Shape(s: State) {
    && Sized(s)
    && |s.publishedDirty| <= |s.live|
    && forall k | 0 <= k < |s.publishedDirty| :: s.publishedDirty[k] < |s.live|
  }

  /** The list and the position table are inverse to each other and agree with the dirty bits. */
  ghost predicate SparseSet(s: State)
    requires Shape(s)
  {
    && (forall k | 0 <= k < s.count :: s.scratch[k] < |s.live| && s.positions[s.scratch[k]] == k)
    && (forall i | 0 <= i < |s.live| ::
          s.positions[i] == UNSET || (0 <= s.positions[i] < s.count && s.scratch[s.positions[i]] == i))
    && forall i | 0 <= i < |s.live| :: s.live[i].flags.dirty <==> Listed(s, i)
  }

  ghost predicate Tracked(p: Precision, s: State)
    requires Shape(s)
  {
    && (forall i | 0 <= i < |s.live| :: ToleranceOk(p, s.live[i]))
    && forall i | 0 <= i < |s.live| :: Listed(s, i) || InSync(p, s.live[i], s.published[i])
  }

  /** Equal as published: everything but the tick delta, which recycled buffers do not keep current. */
  predicate SameRow(a: Row, b: Row) {
    a.(tickDelta := 0.0) == b.(tickDelta := 0.0)
  }

  ghost predicate Buffered(s: State)
    requires Shape(s)
  {
    && (forall i | 0 <= i < |s.live| :: !s.published[i].flags.dirty && !s.standby[i].flags.dirty)
    && forall i | 0 <= i < |s.live| :: i in s.publishedDirty || SameRow(s.standby[i], s.published[i])
  }

  ghost predicate Good(p: Precision, s: State) {
    Shape(s) && SparseSet(s) && Tracked(p, s) && Buffered(s)
  }

  // ----- the dirty list

  /** A typed-array store, which ignores an index out of range. */
  function Put<V>(xs: seq<V>, i: int, x: V): (ys: seq<V>)
    ensures |ys| == |xs|
  {
    if 0 <= i < |xs| then xs[i := x] else xs
  }

  function MarkDirty(s: State, i: nat): (t: State)
    requires Sized(s) && i < |s.live|
    ensures Sized(t) && |t.live| == |s.live|
  {
    var live := s.live[i := s.live[i].(flags := s.live[i].flags.(dirty := true))];
    if Listed(s, i) || s.count == |s.live| then s.(live := live)
    else s.(live := live, scratch := Put(s.scratch, s.count, i), positions := s.positions[i := s.count],
            count := s.count + 1)
  }

  /** Swap-remove: the last listed index takes the place of the removed one. */
  function Unmark(s: State, i: nat): (t: State)
    requires Sized(s) && i < |s.live|
    ensures Sized(t) && |t.live| == |s.live|
  {
    var live := s.live[i := Bare(s.live[i])];
    if !Listed(s, i) || s.count == 0 then s.(live := live)
    else
      var swapped := s.scratch[s.count - 1];
      s.(live := live,
         scratch := Put(s.scratch, s.positions[i], swapped),
         positions := Put(s.positions, swapped, s.positions[i])[i := UNSET],
         count := s.count - 1)
  }

  lemma UnlistedMeansRoom(s: State, i: nat)
    requires Shape(s) && SparseSet(s) && i < |s.live| && !Listed(s, i)
    ensures s.count < |s.live|
  {
    var list := s.scratch[..s.count];
    forall j, k | 0 <= j < k < |list|
      ensures list[j] != list[k]
    {
      assert s.positions[s.scratch[j]] == j && s.positions[s.scratch[k]] == k;
    }
    assert i !in list;
    Pigeonhole(list, |s.live|);
  }

  lemma MarkDirtyKeepsSparseSet(s: State, i: nat)
    requires Shape(s) && SparseSet(s) && i < |s.live|
    ensures Listed(s, i) || s.count < |s.live|
    ensures var t := MarkDirty(s, i); Shape(t) && SparseSet(t) && Listed(t, i)
    ensures var t := MarkDirty(s, i); forall j | 0 <= j < |s.live| && j != i :: Listed(t, j) == Listed(s, j)
  {
    if !Listed(s, i) {
      UnlistedMeansRoom(s, i);
    }
  }

  /** After a swap-remove the list still says where each listed index is. */
  lemma UnmarkedListAt(s: State, i: nat, k: nat)
    requires Shape(s) && SparseSet(s) && i < |s.live| && Listed(s, i) && k < s.count - 1
    ensures var t := Unmark(s, i); t.scratch[k] < |t.live| && t.positions[t.scratch[k]] == k
  {
    assert s.positions[s.scratch[k]] == k;
    assert s.positions[s.scratch[s.count - 1]] == s.count - 1;
  }

  /** And the position table still says which place of the list each index has. */
  lemma UnmarkedPositionAt(s: State, i: nat, j: nat)
    requires Shape(s) && SparseSet(s) && i < |s.live| && Listed(s, i) && j < |s.live|
    ensures var t := Unmark(s, i);
            && (t.positions[j] == UNSET || (0 <= t.positions[j] < t.count && t.scratch[t.positions[j]] == j))
            && Listed(t, j) == (j != i && Listed(s, j))
  {
    var swapped := s.scratch[s.count - 1];
    assert s.positions[swapped] == s.count - 1;
    if j != i && j != swapped && Listed(s, j) {
      assert s.scratch[s.positions[j]] == j;
      assert s.positions[j] != s.count - 1;
    }
  }

  lemma UnmarkKeepsSparseSet(s: State, i: nat)
    requires Shape(s) && SparseSet(s) && i < |s.live|
    ensures var t := Unmark(s, i); Shape(t) && SparseSet(t) && !Listed(t, i)
    ensures var t := Unmark(s, i); forall j | 0 <= j < |s.live| && j != i :: Listed(t, j) == Listed(s, j)
  {
    if Listed(s, i) {
      var t := Unmark(s, i);
      forall k | 0 <= k < t.count
        ensures t.scratch[k] < |t.live| && t.positions[t.scratch[k]] == k
      {
        UnmarkedListAt(s, i, k);
      }
      forall j | 0 <= j < |s.live|
        ensures t.positions[j] == UNSET || (0 <= t.positions[j] < t.count && t.scratch[t.positions[j]] == j)
        ensures Listed(t, j) == (j != i && Listed(s, j))
      {
        UnmarkedPositionAt(s, i, j);
      }
    }
  }

  // ----- writing a row

  /** `unmarkIfClean` */
  function UnmarkIfClean(p: Precision, s: State, i: nat): (t: State)
    requires Sized(s) && i < |s.live|
    ensures Sized(t) && |t.live| == |s.live|
  {
    if RowClean(p, s.live[i], s.published[i]) then Unmark(s, i) else s
  }

  function WithLive(s: State, i: nat, row: Row): State
    requires i < |s.live|
  {
    s.(live := s.live[i := row])
  }

  /** The values of the live rows, without the dirty bits. */
  function Values(s: State): (r: seq<Row>)
    ensures |r| == |s.live|
  {
    seq(|s.live|, i requires 0 <= i < |s.live| => Bare(s.live[i]))
  }

  /** Nothing but the live rows and the dirty list moved. */
  ghost predicate SameBuffers(s: State, t: State) {
    s.published == t.published && s.publishedDirty == t.publishedDirty && s.standby == t.standby
  }

  /** Income, expense and net rate are published as they are, within tolerance. */
  predicate RatesShown(p: Precision, live: Row, published: Row) {
    && p.equals(live.income, published.income, live.tolerance, live.tolerance != p.ceiling)
    && p.equals(live.expense, published.expense, live.tolerance, live.tolerance != p.ceiling)
    && p.equals(live.net, published.net, live.tolerance, live.tolerance != p.ceiling)
  }

  /** The rates of resource `i` are shown, or the next publish has it on its list. */
  predicate Shown(p: Precision, s: State, i: nat)
    requires Sized(s) && i < |s.live|
  {
    Listed(s, i) || RatesShown(p, s.live[i], s.published[i])
  }

  /** No rates that were shown get lost. */
  ghost predicate KeepsShown(p: Precision, s: State, t: State)
    requires Sized(s) && Sized(t) && |t.live| == |s.live|
  {
    forall j | 0 <= j < |s.live| && Shown(p, s, j) :: Shown(p, t, j)
  }

  /** The state and the whole effect of an operation that gives resource `i` a new row. */
  ghost predicate Wrote(p: Precision, s: State, t: State, i: nat, row: Row)
    requires Sized(s) && i < |s.live|
  {
    && Good(p, t) && SameBuffers(s, t) && s.guard == t.guard
    && |t.live| == |s.live|
    && Values(t) == Values(s)[i := Bare(row)]
    && KeepsShown(p, s, t)
  }

  lemma MarkDirtyIsGood(p: Precision, s: State, i: nat)
    requires Shape(s) && SparseSet(s) && Buffered(s) && i < |s.live|
    requires forall j | 0 <= j < |s.live| :: ToleranceOk(p, s.live[j])
    requires forall j | 0 <= j < |s.live| && j != i :: Listed(s, j) || InSync(p, s.live[j], s.published[j])
    ensures Listed(s, i) || s.count < |s.live|
    ensures Wrote(p, s, MarkDirty(s, i), i, s.live[i])
  {
    MarkDirtyKeepsSparseSet(s, i);
    var t := MarkDirty(s, i);
    forall j | 0 <= j < |t.live|
      ensures Listed(t, j) || InSync(p, t.live[j], t.published[j])
    {
      if j != i {
        assert Listed(t, j) == Listed(s, j);
      }
    }
  }

  lemma UnmarkIfCleanIsGood(p: Precision, s: State, i: nat)
    requires Shape(s) && SparseSet(s) && Buffered(s) && i < |s.live|
    requires forall j | 0 <= j < |s.live| :: ToleranceOk(p, s.live[j])
    requires forall j | 0 <= j < |s.live| :: Listed(s, j) || InSync(p, s.live[j], s.published[j])
    ensures Wrote(p, s, UnmarkIfClean(p, s, i), i, s.live[i])
  {
    var t := UnmarkIfClean(p, s, i);
    if RowClean(p, s.live[i], s.published[i]) {
      UnmarkKeepsSparseSet(s, i);
      forall j | 0 <= j < |t.live|
        ensures Listed(t, j) || InSync(p, t.live[j], t.published[j])
      {
        if j != i {
          assert Listed(t, j) == Listed(s, j);
        }
      }
    }
    assert Values(t) == Values(s)[i := Bare(s.live[i])];
  }

  lemma StoredKeepsSets(p: Precision, s: State, i: nat, row: Row)
    requires Good(p, s) && i < |s.live|
    requires row.flags.dirty == s.live[i].flags.dirty && ToleranceOk(p, row)
    ensures var stored := WithLive(s, i, row);
            && Shape(stored) && SparseSet(stored) && Buffered(stored)
            && (forall j | 0 <= j < |stored.live| :: ToleranceOk(p, stored.live[j]))
            && (forall j | 0 <= j < |stored.live| && j != i ::
                  Listed(stored, j) || InSync(p, stored.live[j], stored.published[j]))
            && Values(stored) == Values(s)[i := Bare(row)]
  {
    var stored := WithLive(s, i, row);
    forall j | 0 <= j < |stored.live|
      ensures Listed(stored, j) == Listed(s, j)
    {
    }
    assert Values(stored) == Values(s)[i := Bare(row)];
  }

  lemma WroteStored(p: Precision, s: State, t: State, i: nat, row: Row)
    requires Sized(s) && i < |s.live|
    requires Values(WithLive(s, i, row)) == Values(s)[i := Bare(row)]
    requires Wrote(p, WithLive(s, i, row), t, i, row)
    requires Shown(p, s, i) ==> Shown(p, t, i)
    ensures Wrote(p, s, t, i, row)
  {
    assert Values(t) == Values(s)[i := Bare(row)];
    forall j | 0 <= j < |s.live| && Shown(p, s, j)
      ensures Shown(p, t, j)
    {
      assert j != i ==> Shown(p, WithLive(s, i, row), j);
    }
  }

  /** Storing a row and reconciling: `near` is whether the written field agrees with the published one. */
  function WriteRow(p: Precision, s: State, i: nat, row: Row, near: bool): (t: State)
    requires Sized(s) && i < |s.live|
    ensures Sized(t) && |t.live| == |s.live|
  {
    if near then UnmarkIfClean(p, WithLive(s, i, row), i) else MarkDirty(WithLive(s, i, row), i)
  }

  lemma WriteRowIsSound(p: Precision, s: State, i: nat, row: Row, near: bool)
    requires Good(p, s) && i < |s.live|
    requires row.flags.dirty == s.live[i].flags.dirty && ToleranceOk(p, row)
    requires near && InSync(p, s.live[i], s.published[i]) ==> InSync(p, row, s.published[i])
    requires near && RatesShown(p, s.live[i], s.published[i]) ==> RatesShown(p, row, s.published[i])
    ensures Wrote(p, s, WriteRow(p, s, i, row, near), i, row)
    ensures !near ==> Listed(WriteRow(p, s, i, row, near), i)
  {
    var stored := WithLive(s, i, row);
    StoredKeepsSets(p, s, i, row);
    if near {
      UnmarkIfCleanIsGood(p, stored, i);
    } else {
      MarkDirtyIsGood(p, stored, i);
      MarkDirtyKeepsSparseSet(stored, i);
    }
    WroteStored(p, s, WriteRow(p, s, i, row, near), i, row);
  }

  lemma Unchanged(p: Precision, s: State, i: nat)
    requires Good(p, s) && i < |s.live|
    ensures Wrote(p, s, s, i, s.live[i])
  {
  }

  lemma WroteTwice(p: Precision, s: State, t: State, u: State, i: nat, a: Row, b: Row, c: Row)
    requires Sized(s) && i < |s.live| && Wrote(p, s, t, i, a) && Wrote(p, t, u, i, b) && Bare(b) == Bare(c)
    ensures Wrote(p, s, u, i, c)
  {
    assert forall j | 0 <= j < |s.live| && Shown(p, s, j) :: Shown(p, t, j);
    assert Values(u) == Values(s)[i := Bare(c)];
  }

  /** What a write leaves behind, at the index written and elsewhere. */
  lemma WroteValue(p: Precision, s: State, t: State, i: nat, row: Row, j: nat)
    requires Sized(s) && i < |s.live| && j < |s.live| && Wrote(p, s, t, i, row)
    ensures Bare(t.live[j]) == if j == i then Bare(row) else Bare(s.live[j])
  {
    assert Values(t)[j] == Values(s)[i := Bare(row)][j];
  }

  // ----- operations

  datatype FlagName = Visible | Unlocked

  function WithFlag(row: Row, name: FlagName, on: bool): Row {
    row.(flags := if name == Visible then row.flags.(visible := on) else row.flags.(unlocked := on))
  }

  predicate RatesNear(p: Precision, live: Row, published: Row) {
    var t, floored := live.tolerance, live.tolerance != p.ceiling;
    && p.equals(live.income, published.income, t, floored)
    && p.equals(live.expense, published.expense, t, floored)
    && p.equals(live.net, published.net, t, floored)
  }

  /**
   * After `k` iterations of `finalizeTick`, the first `k` resources have rolled their rates into
   * their amounts, and their rates are shown or on their way.
   */
  ghost predicate FinalizedSoFar(p: Precision, s: State, t: State, deltaMs: real, k: nat) {
    && Good(p, t) && SameBuffers(s, t) && s.guard == t.guard && |t.live| == |s.live|
    && (forall i | 0 <= i < k && i < |t.live| :: Shown(p, t, i))
    && forall i | 0 <= i < |s.live| ::
         Bare(t.live[i]) == if i < k then Bare(Finalized(p, s.live[i], deltaMs)) else Bare(s.live[i])
  }

  lemma MovedIgnoresDirtyBit(p: Precision, a: Row, b: Row, amount: real)
    requires Bare(a) == Bare(b)
    ensures Bare(MovedTo(p, a, amount)) == Bare(MovedTo(p, b, amount))
  {
  }

  lemma FinalizedIgnoresDirtyBit(p: Precision, a: Row, b: Row, deltaMs: real)
    requires Bare(a) == Bare(b)
    ensures Bare(Finalized(p, a, deltaMs)) == Bare(Finalized(p, b, deltaMs))
  {
  }

  lemma FinalizeOneAdvances(p: Precision, s: State, t: State, u: State, deltaMs: real, k: nat)
    requires k < |s.live| && FinalizedSoFar(p, s, t, deltaMs, k) && Wrote(p, t, u, k, Finalized(p, t.live[k], deltaMs))
    requires Shown(p, u, k)
    ensures FinalizedSoFar(p, s, u, deltaMs, k + 1)
  {
    FinalizedIgnoresDirtyBit(p, t.live[k], s.live[k], deltaMs);
    forall i | 0 <= i < |s.live|
      ensures Bare(u.live[i]) == if i < k + 1 then Bare(Finalized(p, s.live[i], deltaMs)) else Bare(s.live[i])
      ensures i < k + 1 ==> Shown(p, u, i)
    {
      assert i < k ==> Shown(p, t, i);
      WroteValue(p, t, u, k, Finalized(p, t.live[k], deltaMs), i);
    }
  }

  function ResetRow(row: Row): Row {
    row.(income := 0.0, expense := 0.0, net := 0.0, tickDelta := 0.0)
  }

  /** `resetPerTickAccumulators`: rates and tick deltas vanish without touching the dirty list. */
  function ResetPerTick(s: State): State {
    s.(live := seq(|s.live|, i requires 0 <= i < |s.live| => ResetRow(s.live[i])), guard := Idle)
  }

  lemma ResetPerTickIsSound(p: Precision, s: State)
    requires Good(p, s)
    ensures Good(p, ResetPerTick(s)) && SameBuffers(s, ResetPerTick(s))
  {
    assert forall i | 0 <= i < |s.live| :: Listed(ResetPerTick(s), i) == Listed(s, i);
  }

  lemma GuardIsFree(p: Precision, s: State, guard: Guard)
    requires Good(p, s)
    ensures Good(p, s.(guard := guard))
  {
    assert forall i | 0 <= i < |s.live| :: Listed(s.(guard := guard), i) == Listed(s, i);
  }

  // ----- publishing

  /** The listed indices that differ from the active buffer, in list order. */
  function Changed(p: Precision, s: State, k: nat): seq<nat>
    requires Sized(s) && k <= s.count
  {
    if k == 0 then []
    else
      var i := s.scratch[k - 1];
      Changed(p, s, k - 1)
        + (if i < |s.live| && !RowClean(p, s.live[i], s.published[i]) then [i] else [])
  }

  lemma DistinctOneMore(list: seq<nat>, i: nat)
    requires Distinct(list) && i !in list
    ensures Distinct(list + [i])
  {
  }

  lemma ChangedOneMore(p: Precision, s: State, k: nat, i: nat)
    requires Sized(s) && k < s.count && s.scratch[k] < |s.live|
    ensures |Changed(p, s, k)| <= |Changed(p, s, k + 1)| <= |Changed(p, s, k)| + 1
    ensures var j := s.scratch[k];
            i in Changed(p, s, k + 1) <==>
              i in Changed(p, s, k) || (i == j && !RowClean(p, s.live[j], s.published[j]))
  {
  }

  lemma ListedOnce(s: State, j: nat, i: nat)
    requires Shape(s) && SparseSet(s) && j < s.count
    ensures s.scratch[j] < |s.live| && (s.scratch[j] == i <==> i < |s.live| && s.positions[i] == j)
  {
    assert s.positions[s.scratch[j]] == j;
    if i < |s.live| && s.positions[i] == j {
      assert s.scratch[s.positions[i]] == i;
    }
  }

  lemma {:induction false} ChangedAt(p: Precision, s: State, k: nat, i: nat)
    requires Sized(s) && k <= s.count
    requires forall j | 0 <= j < k ::
               s.scratch[j] < |s.live| && (s.scratch[j] == i <==> i < |s.live| && s.positions[i] == j)
    ensures i in Changed(p, s, k)
       <==> i < |s.live| && 0 <= s.positions[i] < k && !RowClean(p, s.live[i], s.published[i])
  {
    if k > 0 {
      ChangedAt(p, s, k - 1, i);
      ChangedOneMore(p, s, k - 1, i);
    }
  }

  lemma ChangedIff(p: Precision, s: State, k: nat, i: nat)
    requires Shape(s) && SparseSet(s) && k <= s.count
    ensures i in Changed(p, s, k)
       <==> i < |s.live| && 0 <= s.positions[i] < k && !RowClean(p, s.live[i], s.published[i])
  {
    forall j | 0 <= j < k
      ensures s.scratch[j] < |s.live| && (s.scratch[j] == i <==> i < |s.live| && s.positions[i] == j)
    {
      ListedOnce(s, j, i);
    }
    ChangedAt(p, s, k, i);
  }

  lemma {:induction false} ChangedIsDistinct(p: Precision, s: State, k: nat)
    requires Shape(s) && SparseSet(s) && k <= s.count
    ensures |Changed(p, s, k)| <= k && Distinct(Changed(p, s, k))
  {
    if k > 0 {
      ChangedIsDistinct(p, s, k - 1);
      var last := s.scratch[k - 1];
      assert s.positions[last] == k - 1;
      ChangedIff(p, s, k - 1, last);
      DistinctOneMore(Changed(p, s, k - 1), last);
    }
  }

  lemma ChangedIsExact(p: Precision, s: State, k: nat)
    requires Shape(s) && SparseSet(s) && k <= s.count
    ensures |Changed(p, s, k)| <= k && Distinct(Changed(p, s, k))
    ensures forall i: nat :: i in Changed(p, s, k) <==>
              i < |s.live| && 0 <= s.positions[i] < k && !RowClean(p, s.live[i], s.published[i])
  {
    ChangedIsDistinct(p, s, k);
    forall i: nat
      ensures i in Changed(p, s, k) <==>
              i < |s.live| && 0 <= s.positions[i] < k && !RowClean(p, s.live[i], s.published[i])
    {
      ChangedIff(p, s, k, i);
    }
  }

  /** Row `i` of the buffer that the next publish fills. */
  function NextRow(p: Precision, s: State, i: nat): Row
    requires Sized(s) && i < |s.live|
  {
    var visited := Listed(s, i) || i in s.publishedDirty;
    if Listed(s, i) && !RowClean(p, s.live[i], s.published[i]) then Bare(s.live[i])
    else (if i in s.publishedDirty then s.published[i] else s.standby[i])
           .(tickDelta := if visited then 0.0 else s.standby[i].tickDelta)
  }

  /**
   * `createPublishSnapshot`: the standby buffer, two generations old, first catches up on what the
   * active one changed, then takes the live rows that differ; the buffers swap and the list empties.
   */
  function Publish(p: Precision, s: State): State
    requires Sized(s)
  {
    var n := |s.live|;
    s.(live := Values(s),
       positions := seq(n, _ => UNSET),
       count := 0,
       published := seq(n, i requires 0 <= i < n => NextRow(p, s, i)),
       publishedDirty := Changed(p, s, s.count),
       standby := s.published,
       guard := Published)
  }

  lemma PublishedRow(p: Precision, s: State, i: nat)
    requires PrecisionOk(p) && Good(p, s) && i < |s.live|
    ensures var t := Publish(p, s);
            && (if i in t.publishedDirty then t.published[i] == Bare(s.live[i])
                else SameRow(t.published[i], s.published[i]))
            && InSync(p, t.live[i], t.published[i]) && !t.published[i].flags.dirty
            && ToleranceOk(p, t.live[i]) && !t.live[i].flags.dirty
            && t.live[i] == Bare(s.live[i]) && t.positions[i] == UNSET
            && (i in t.publishedDirty || SameRow(t.standby[i], t.published[i]))
  {
    var t := Publish(p, s);
    ChangedIsExact(p, s, s.count);
    assert i in t.publishedDirty <==> Listed(s, i) && !RowClean(p, s.live[i], s.published[i]);
    assert SameRow(s.standby[i], s.published[i]) || i in s.publishedDirty;
    if i !in t.publishedDirty {
      assert Listed(s, i) ==> RowClean(p, s.live[i], s.published[i]);
      assert InSync(p, s.live[i], s.published[i]);
    }
  }

  lemma PublishKeepsShape(p: Precision, s: State)
    requires Good(p, s)
    ensures Shape(Publish(p, s)) && Distinct(Publish(p, s).publishedDirty)
  {
    ChangedIsExact(p, s, s.count);
    var t := Publish(p, s);
    forall k | 0 <= k < |t.publishedDirty|
      ensures t.publishedDirty[k] < |t.live|
    {
      assert t.publishedDirty[k] in t.publishedDirty;
    }
  }

  /**
   * A publish differs from the previous one only at its dirty indices, where it equals the live
   * rows; afterwards nothing is listed and every resource is in sync.
   */
  lemma PublishIsExact(p: Precision, s: State)
    requires PrecisionOk(p) && Good(p, s)
    ensures var t := Publish(p, s);
            && Good(p, t) && t.count == 0 && |t.live| == |s.live| && Distinct(t.publishedDirty)
            && (forall i | 0 <= i < |s.live| ::
                  if i in t.publishedDirty then t.published[i] == Bare(s.live[i])
                  else SameRow(t.published[i], s.published[i]))
            && (forall i | 0 <= i < |s.live| :: t.live[i] == Bare(s.live[i]) && InSync(p, t.live[i], t.published[i]))
  {
    var t := Publish(p, s);
    PublishKeepsShape(p, s);
    forall i | 0 <= i < |s.live|
      ensures if i in t.publishedDirty then t.published[i] == Bare(s.live[i])
              else SameRow(t.published[i], s.published[i])
      ensures InSync(p, t.live[i], t.published[i]) && !t.published[i].flags.dirty
      ensures ToleranceOk(p, t.live[i]) && !t.live[i].flags.dirty
      ensures t.live[i] == Bare(s.live[i]) && t.positions[i] == UNSET
      ensures i in t.publishedDirty || SameRow(t.standby[i], t.published[i])
    {
      PublishedRow(p, s, i);
    }
  }

  /** Some field of a live row is further from its published value than the tolerance allows. */
  predicate Differs(p: Precision, live: Row, published: Row) {
    var (t, floored) := (live.tolerance, live.tolerance != p.ceiling);
    || !p.equals(live.amount, published.amount, t, floored)
    || live.capacity.Finite? != published.capacity.Finite?
    || (live.capacity.Finite? && published.capacity.Finite?
        && !p.equals(live.capacity.limit, published.capacity.limit, t, floored))
    || !p.equals(live.income, published.income, t, floored)
    || !p.equals(live.expense, published.expense, t, floored)
    || !p.equals(live.net, published.net, t, floored)
    || !p.equals(live.tickDelta, published.tickDelta, t, floored)
    || !p.equals(live.tolerance, published.tolerance, p.absolute, false)
    || live.flags.visible != published.flags.visible || live.flags.unlocked != published.flags.unlocked
  }

  /** A publish takes exactly the listed resources of which some field differs. */
  lemma PublishedIff(p: Precision, s: State, i: nat)
    requires Good(p, s) && i < |s.live|
    ensures i in Publish(p, s).publishedDirty <==> Listed(s, i) && Differs(p, s.live[i], s.published[i])
  {
    ChangedIsExact(p, s, s.count);
  }

  /** Rates that are shown, or of a listed resource, are shown by the next publish. */
  lemma PublishShowsRates(p: Precision, s: State, i: nat)
    requires PrecisionOk(p) && Good(p, s) && i < |s.live| && Shown(p, s, i)
    ensures var t := Publish(p, s);
            && t.live[i].(flags := s.live[i].flags) == s.live[i]
            && p.equals(t.live[i].income, t.published[i].income, t.live[i].tolerance, t.live[i].tolerance != p.ceiling)
            && p.equals(t.live[i].expense, t.published[i].expense, t.live[i].tolerance,
                        t.live[i].tolerance != p.ceiling)
            && p.equals(t.live[i].net, t.published[i].net, t.live[i].tolerance, t.live[i].tolerance != p.ceiling)
  {
    PublishIsExact(p, s);
    PublishedIff(p, s, i);
  }

  /** The tick delta a publish shows: the live one of what it takes, zero on either dirty list, else an old one. */
  lemma PublishedTickDelta(p: Precision, s: State, i: nat)
    requires Good(p, s) && i < |s.live|
    ensures Publish(p, s).published[i].tickDelta
         == if i in Publish(p, s).publishedDirty then s.live[i].tickDelta
            else if Listed(s, i) || i in s.publishedDirty then 0.0
            else s.standby[i].tickDelta
  {
    ChangedIsExact(p, s, s.count);
  }

  lemma NothingPublished(p: Precision, s: State, i: nat)
    requires PrecisionOk(p) && Good(p, s) && s.count == 0 && i < |s.live|
    ensures Publish(p, s).publishedDirty == [] && Publish(p, s).standby == s.published && !Listed(s, i)
  {
  }

  /**
   * A tick delta that was published comes back two publishes later, although nothing happened and the live one
   * was reset: the buffer that recycled it is active again.
   */
  lemma TickDeltaComesBack(p: Precision, s: State, i: nat)
    requires PrecisionOk(p) && Good(p, s) && i in Publish(p, s).publishedDirty && i < |s.live|
    ensures var next := Publish(p, ResetPerTick(Publish(p, s)));
            var last := Publish(p, ResetPerTick(next));
            && next.published[i].tickDelta == 0.0 && last.live[i].tickDelta == 0.0
            && last.published[i].tickDelta == s.live[i].tickDelta
  {
    PublishIsExact(p, s);
    PublishedTickDelta(p, s, i);
    var first := ResetPerTick(Publish(p, s));
    ResetPerTickIsSound(p, Publish(p, s));
    NothingPublished(p, first, i);
    PublishIsExact(p, first);
    PublishedTickDelta(p, first, i);
    var second := ResetPerTick(Publish(p, first));
    ResetPerTickIsSound(p, Publish(p, first));
    NothingPublished(p, second, i);
    PublishIsExact(p, second);
    PublishedTickDelta(p, second, i);
  }

  // ----- the mirror on the other side of the transport

  /** A publish as it is sent: the dirty indices and, in the same order, their published rows. */
  datatype Transport = Transport(indices: seq<nat>, rows: seq<Row>)

  function BuildTransport(s: State): (t: Transport)
    ensures |t.rows| == |t.indices|
  {
    Transport(s.publishedDirty,
              seq(|s.publishedDirty|, k requires 0 <= k < |s.publishedDirty| =>
                if s.publishedDirty[k] < |s.published| then Bare(s.published[s.publishedDirty[k]]) else MISSING))
  }

  const MISSING := Row(0.0, Infinite, 0.0, 0.0, 0.0, 0.0, Flags(false, false, false), 0.0)

  function ReceiveUpTo(mirror: seq<Row>, t: Transport, k: nat): (r: seq<Row>)
    requires |t.indices| == |t.rows| && k <= |t.indices|
    ensures |r| == |mirror|
  {
    if k == 0 then mirror else Put(ReceiveUpTo(mirror, t, k - 1), t.indices[k - 1], t.rows[k - 1])
  }

  /** The receiver stores each row it is sent at its index, in order. */
  function Receive(mirror: seq<Row>, t: Transport): (r: seq<Row>)
    requires |t.indices| == |t.rows|
    ensures |r| == |mirror|
  {
    ReceiveUpTo(mirror, t, |t.indices|)
  }

  lemma {:induction false} MirrorAfterTransport(mirror: seq<Row>, s: State, k: nat)
    requires Shape(s) && |mirror| == |s.live| && k <= |s.publishedDirty|
    ensures forall i | 0 <= i < |mirror| ::
              ReceiveUpTo(mirror, BuildTransport(s), k)[i]
              == if i in s.publishedDirty[..k] then Bare(s.published[i]) else mirror[i]
  {
    if k > 0 {
      MirrorAfterTransport(mirror, s, k - 1);
      assert s.publishedDirty[..k] == s.publishedDirty[..k - 1] + [s.publishedDirty[k - 1]];
    }
  }

  ghost predicate MirrorAgrees(mirror: seq<Row>, s: State)
    requires Shape(s)
  {
    |mirror| == |s.live| && forall i | 0 <= i < |mirror| :: SameRow(mirror[i], s.published[i])
  }

  lemma TransportKeepsMirror(p: Precision, s: State, mirror: seq<Row>)
    requires PrecisionOk(p) && Good(p, s) && MirrorAgrees(mirror, s)
    ensures var t := Publish(p, s);
            && Good(p, t)
            && MirrorAgrees(Receive(mirror, BuildTransport(t)), t)
  {
    PublishIsExact(p, s);
    var t := Publish(p, s);
    MirrorAfterTransport(mirror, t, |t.publishedDirty|);
    assert t.publishedDirty[..|t.publishedDirty|] == t.publishedDirty;
  }

  // ----- whole runs

  datatype Op =
    | Add(i: int, x: real)
    | Spend(i: int, x: real)
    | SetCap(i: int, capacity: Capacity)
    | SetTol(i: int, value: real)
    | Rate(i: int, rate: real, field: RateField)
    | Flag(i: int, name: FlagName, on: bool)
    | Finalize(deltaMs: real)
    | Reset
    | Snapshot

  /** Whether a call is rejected with an exception. */
  predicate Rejected(s: State, op: Op) {
    match op
    case Add(i, x) => !(0 <= i < |s.live|) || x < 0.0
    case Spend(i, x) => !(0 <= i < |s.live|) || x < 0.0
    case SetCap(i, c) => !(0 <= i < |s.live|) || (c.Finite? && c.limit < 0.0)
    case SetTol(i, _) => !(0 <= i < |s.live|)
    case Rate(i, r, _) => !(0 <= i < |s.live|) || r < 0.0
    case Flag(i, _, _) => !(0 <= i < |s.live|)
    case Finalize(d) => d < 0.0
    case Reset => s.guard != Published
    case Snapshot => false
  }

  /** The row that an operation on one resource leaves. */
  function Touched(p: Precision, row: Row, op: Op): Row {
    match op
    case Add(_, x) => Added(p, row, x)
    case Spend(_, x) => Spent(p, row, x)
    case SetCap(_, c) => Resized(p, row, c)
    case SetTol(_, v) => row.(tolerance := ClampTolerance(p, v))
    case Rate(_, r, f) => if r == 0.0 then row else Rated(row, r, f)
    case Flag(_, name, on) => WithFlag(row, name, on)
    case _ => row
  }

  /** What one call does: it changes the values it should, keeps tracking sound, and publishes exactly. */
  ghost predicate Stepped(p: Precision, s: State, t: State, op: Op) {
    if Rejected(s, op) then t == s
    else
      match op
      case Finalize(d) => t.guard == AwaitingPublish && FinalizedSoFar(p, s, t.(guard := s.guard), d, |s.live|)
      case Reset => t == ResetPerTick(s)
      case Snapshot => Sized(s) && t == Publish(p, s)
      case _ => Sized(s) && Wrote(p, s, t, op.i, Touched(p, s.live[op.i], op))
  }

  lemma StepKeepsGood(p: Precision, s: State, t: State, op: Op)
    requires PrecisionOk(p) && Good(p, s) && Stepped(p, s, t, op)
    ensures Good(p, t) && |t.live| == |s.live| && (op != Snapshot ==> SameBuffers(s, t))
  {
    match op
    case Finalize(d) =>
      if !Rejected(s, op) {
        GuardIsFree(p, t.(guard := s.guard), t.guard);
        assert t == t.(guard := s.guard).(guard := t.guard);
      }
    case Reset => ResetPerTickIsSound(p, s);
    case Snapshot => PublishIsExact(p, s);
    case _ =>
  }

  /** Nothing but amount, tick delta and dirty bit; the tick delta moves with the amount. */
  predicate OnlyAmount(p: Precision, a: Row, b: Row) {
    && SameFlags(a, b) && b.(amount := a.amount, tickDelta := a.tickDelta, flags := a.flags) == a
    && var moved := a.tickDelta + (b.amount - a.amount);
       b.tickDelta == (if b.amount != a.amount && p.equals(moved, 0.0, a.tolerance, false) then 0.0 else moved)
  }

  /** What a call is for: how the row of a resource it concerns comes out of it. */
  predicate Effect(p: Precision, a: Row, b: Row, op: Op) {
    match op
    case Add(_, x) =>
      && OnlyAmount(p, a, b)
      && b.amount == if a.capacity.Finite? && a.capacity.limit < a.amount + x then a.capacity.limit else a.amount + x
    case Spend(_, x) =>
      && OnlyAmount(p, a, b)
      && b.amount == if a.amount >= x then a.amount - x else a.amount
    case SetCap(_, c) =>
      && OnlyAmount(p, a.(capacity := c), b)
      && b.amount == if c.Finite? && c.limit < a.amount then c.limit else a.amount
    case SetTol(_, v) =>
      && SameFlags(a, b) && b.(tolerance := a.tolerance, flags := a.flags) == a
      && b.tolerance == (if v < p.absolute then p.absolute else if p.overrideMax < v then p.overrideMax else v)
    case Rate(_, r, f) =>
      && SameFlags(a, b) && b.(income := a.income, expense := a.expense, net := a.net, flags := a.flags) == a
      && b.income == (if f == Income then a.income + r else a.income)
      && b.expense == (if f == Expense then a.expense + r else a.expense)
      && b.net == (if r > 0.0 then b.income - b.expense else a.net)
    case Flag(_, name, on) =>
      && b.(flags := a.flags) == a
      && b.flags.visible == (if name == Visible then on else a.flags.visible)
      && b.flags.unlocked == (if name == Unlocked then on else a.flags.unlocked)
    case Finalize(ms) =>
      && OnlyAmount(p, a.(net := a.income - a.expense), b)
      && var reached := a.amount + (a.income * (ms / 1000.0) - a.expense * (ms / 1000.0));
         b.amount == if reached < 0.0 then 0.0
                     else if a.capacity.Finite? && a.capacity.limit < reached then a.capacity.limit
                     else reached
    case Reset => b == a.(income := 0.0, expense := 0.0, net := 0.0, tickDelta := 0.0)
    case Snapshot => SameFlags(a, b) && b.(flags := a.flags) == a
  }

  /** Whether a call concerns a resource. */
  predicate Concerns(op: Op, i: nat) {
    op.Finalize? || op.Reset? || op.Snapshot? || op.i == i
  }

  lemma TouchedHasEffect(p: Precision, row: Row, b: Row, op: Op)
    requires !op.Finalize? && !op.Reset? && !op.Snapshot? && (op.Rate? ==> op.rate >= 0.0)
    requires Bare(b) == Bare(Touched(p, row, op))
    ensures Effect(p, row, b, op)
  {
  }

  lemma WriteHasEffect(p: Precision, s: State, t: State, op: Op)
    requires !op.Finalize? && !op.Reset? && !op.Snapshot? && !Rejected(s, op) && Sized(s)
    requires Wrote(p, s, t, op.i, Touched(p, s.live[op.i], op))
    ensures Effect(p, s.live[op.i], t.live[op.i], op)
  {
    WroteValue(p, s, t, op.i, Touched(p, s.live[op.i], op), op.i);
    TouchedHasEffect(p, s.live[op.i], t.live[op.i], op);
  }

  lemma FinalizedHasEffect(p: Precision, row: Row, b: Row, deltaMs: real)
    requires Bare(b) == Bare(Finalized(p, row, deltaMs))
    ensures Effect(p, row, b, Finalize(deltaMs))
  {
  }

  /** Every accepted call has its effect on the resources it concerns and leaves the values of all others. */
  lemma StepHasEffect(p: Precision, s: State, t: State, op: Op, i: nat)
    requires PrecisionOk(p) && Good(p, s) && Stepped(p, s, t, op) && !Rejected(s, op) && i < |s.live|
    ensures |t.live| == |s.live|
    ensures if Concerns(op, i) then Effect(p, s.live[i], t.live[i], op) else Bare(t.live[i]) == Bare(s.live[i])
  {
    StepKeepsGood(p, s, t, op);
    match op
    case Finalize(d) => FinalizedHasEffect(p, s.live[i], t.live[i], d);
    case Reset =>
    case Snapshot => PublishIsExact(p, s);
    case _ =>
      WroteValue(p, s, t, op.i, Touched(p, s.live[op.i], op), i);
      WriteHasEffect(p, s, t, op);
  }

  /** The net rate is income minus expense in every row. */
  ghost predicate Netting(rows: seq<Row>) {
    forall i | 0 <= i < |rows| :: rows[i].net == rows[i].income - rows[i].expense
  }

  lemma StepKeepsNetting(p: Precision, s: State, t: State, op: Op)
    requires PrecisionOk(p) && Good(p, s) && Stepped(p, s, t, op) && Netting(s.live)
    ensures Netting(t.live)
  {
    if !Rejected(s, op) {
      StepKeepsGood(p, s, t, op);
      forall i | 0 <= i < |t.live|
        ensures t.live[i].net == t.live[i].income - t.live[i].expense
      {
        assert s.live[i].net == s.live[i].income - s.live[i].expense;
        StepHasEffect(p, s, t, op, i);
      }
    }
  }

  /** Every amount is between zero and its capacity. */
  ghost predicate InBounds(rows: seq<Row>) {
    forall i | 0 <= i < |rows| :: Bounded(rows[i])
  }

  lemma TouchedIsBounded(p: Precision, s: State, op: Op)
    requires !op.Finalize? && op != Reset && op != Snapshot
    requires !Rejected(s, op) && 0 <= op.i < |s.live| && Bounded(s.live[op.i])
    ensures Bounded(Touched(p, s.live[op.i], op))
  {
    match op
    case Add(i, x) => OperationsKeepBounds(p, s.live[i], x, Infinite, 0.0);
    case Spend(i, x) => OperationsKeepBounds(p, s.live[i], x, Infinite, 0.0);
    case SetCap(i, c) => OperationsKeepBounds(p, s.live[i], 0.0, c, 0.0);
    case _ =>
  }

  lemma FinalizedIsBounded(p: Precision, row: Row, deltaMs: real)
    requires Bounded(row)
    ensures Bounded(Bare(Finalized(p, row, deltaMs)))
  {
    OperationsKeepBounds(p, row, 0.0, Infinite, deltaMs);
  }

  lemma StepBoundsAt(p: Precision, s: State, t: State, op: Op, i: nat)
    requires PrecisionOk(p) && Good(p, s) && Stepped(p, s, t, op) && !Rejected(s, op)
    requires i < |s.live| == |t.live| && forall j | 0 <= j < |s.live| :: Bounded(s.live[j])
    ensures Bounded(t.live[i])
  {
    match op
    case Finalize(d) => FinalizedIsBounded(p, s.live[i], d);
    case Reset =>
    case Snapshot => PublishIsExact(p, s);
    case _ =>
      TouchedIsBounded(p, s, op);
      WroteValue(p, s, t, op.i, Touched(p, s.live[op.i], op), i);
  }

  /** No call takes an amount out of its bounds. */
  lemma StepKeepsBounds(p: Precision, s: State, t: State, op: Op)
    requires PrecisionOk(p) && Good(p, s) && Stepped(p, s, t, op) && InBounds(s.live)
    ensures InBounds(t.live)
  {
    if !Rejected(s, op) {
      StepKeepsGood(p, s, t, op);
      forall i | 0 <= i < |t.live|
        ensures Bounded(t.live[i])
      {
        assert Bounded(s.live[i]);
        StepBoundsAt(p, s, t, op, i);
      }
    }
  }

  /** The call counts for the order of finalizing, publishing and resetting. */
  predicate MovesGuard(s: State, op: Op) {
    op.Snapshot? || (op.Finalize? && !Rejected(s, op)) || (op.Reset? && !Rejected(s, op))
  }

  lemma GuardAfter(p: Precision, s: State, t: State, op: Op)
    requires PrecisionOk(p) && Good(p, s) && Stepped(p, s, t, op)
    ensures t.guard == if !MovesGuard(s, op) then s.guard
                       else if op.Snapshot? then Published else if op.Reset? then Idle else AwaitingPublish
  {
  }

  /** States linked by calls, one per operation. */
  ghost predicate IsRun(p: Precision, states: seq<State>, ops: seq<Op>) {
    |states| == |ops| + 1 && forall k | 0 <= k < |ops| :: Stepped(p, states[k], states[k + 1], ops[k])
  }

  /** A mirror that applies the transport of every publish of the first `k` calls. */
  function Mirror(states: seq<State>, ops: seq<Op>, k: nat): seq<Row>
    requires |states| == |ops| + 1 && k <= |ops|
  {
    if k == 0 then states[0].published
    else if ops[k - 1] == Snapshot then Receive(Mirror(states, ops, k - 1), BuildTransport(states[k]))
    else Mirror(states, ops, k - 1)
  }

  /** A freshly created state: both buffers hold the sanitised definitions. */
  function Initial(rows: seq<Row>): State {
    var bare := seq(|rows|, i requires 0 <= i < |rows| => Bare(rows[i]));
    State(bare, seq(|rows|, _ => 0), seq(|rows|, _ => UNSET), 0, bare, [], bare, Idle)
  }

  lemma InitialIsGood(p: Precision, rows: seq<Row>)
    requires PrecisionOk(p) && forall i | 0 <= i < |rows| :: ToleranceOk(p, rows[i])
    ensures Good(p, Initial(rows)) && MirrorAgrees(Initial(rows).published, Initial(rows))
  {
    var s := Initial(rows);
    forall i | 0 <= i < |rows|
      ensures InSync(p, s.live[i], s.published[i])
    {
    }
  }

  /** What a call does to a mirror that applies the transport of every publish. */
  lemma MirrorFollowsStep(p: Precision, s: State, t: State, op: Op, mirror: seq<Row>)
    requires PrecisionOk(p) && Good(p, s) && MirrorAgrees(mirror, s) && Stepped(p, s, t, op)
    ensures Good(p, t) && MirrorAgrees(if op == Snapshot then Receive(mirror, BuildTransport(t)) else mirror, t)
    ensures op == Snapshot ==> forall i | 0 <= i < |t.live| :: InSync(p, t.live[i], t.published[i])
  {
    StepKeepsGood(p, s, t, op);
    if op == Snapshot {
      TransportKeepsMirror(p, s, mirror);
      PublishIsExact(p, s);
    }
  }

  /** Whether every rate is shown or of a listed resource. */
  ghost predicate AllShown(p: Precision, s: State) {
    Sized(s) && forall i | 0 <= i < |s.live| :: Shown(p, s, i)
  }

  /** What every call of a stretch passes on holds at its end. */
  lemma {:induction false} Carried(holds: State -> bool, states: seq<State>, j: nat, k: nat)
    requires j <= k < |states| && holds(states[j])
    requires forall m | j <= m < k :: holds(states[m]) ==> holds(states[m + 1])
    ensures holds(states[k])
  {
    if j < k {
      Carried(holds, states, j, k - 1);
      assert holds(states[k - 1]);
    }
  }

  /** No call but the reset of rates loses sight of a rate, and `finalizeTick` catches up on all of them. */
  lemma StepKeepsShown(p: Precision, s: State, t: State, op: Op)
    requires PrecisionOk(p) && Good(p, s) && Stepped(p, s, t, op) && op != Reset
    requires AllShown(p, s) || (op.Finalize? && !Rejected(s, op))
    ensures Good(p, t) && AllShown(p, t)
  {
    StepKeepsGood(p, s, t, op);
    if !Rejected(s, op) {
      forall i | 0 <= i < |t.live|
        ensures Shown(p, t, i)
      {
        if op.Finalize? {
          assert Shown(p, t.(guard := s.guard), i);
        } else {
          assert Shown(p, s, i);
          if op == Snapshot {
            PublishShowsRates(p, s, i);
          }
        }
      }
    }
  }

  /** A run all of whose states are in order. */
  ghost predicate GoodRun(p: Precision, states: seq<State>, ops: seq<Op>) {
    IsRun(p, states, ops) && forall k | 0 <= k < |states| :: Good(p, states[k])
  }

  lemma RunIsGood(p: Precision, rows: seq<Row>, states: seq<State>, ops: seq<Op>)
    requires PrecisionOk(p) && forall i | 0 <= i < |rows| :: ToleranceOk(p, rows[i])
    requires IsRun(p, states, ops) && states[0] == Initial(rows)
    ensures GoodRun(p, states, ops)
  {
    forall k | 0 <= k < |states|
      ensures Good(p, states[k])
    {
      MirrorFollowsEveryRun(p, rows, states, ops, k);
    }
  }

  /** Whether rates are in sight when call `k` begins: at first, or right after a `finalizeTick`. */
  ghost predicate SeesRates(states: seq<State>, ops: seq<Op>, k: nat)
    requires |states| == |ops| + 1 && k <= |ops|
  {
    k == 0 || (ops[k - 1].Finalize? && !Rejected(states[k - 1], ops[k - 1]))
  }

  lemma StepOfRunKeepsShown(p: Precision, states: seq<State>, ops: seq<Op>, k: nat)
    requires PrecisionOk(p) && GoodRun(p, states, ops) && k < |ops| && ops[k] != Reset
    requires AllShown(p, states[k]) || SeesRates(states, ops, k + 1)
    ensures AllShown(p, states[k + 1])
  {
    assert Good(p, states[k]) && Stepped(p, states[k], states[k + 1], ops[k]);
    StepKeepsShown(p, states[k], states[k + 1], ops[k]);
  }

  lemma StaysShown(p: Precision, states: seq<State>, ops: seq<Op>, j: nat, k: nat)
    requires PrecisionOk(p) && GoodRun(p, states, ops) && AllShown(p, states[0])
    requires j <= k <= |ops| && SeesRates(states, ops, j) && forall m | j <= m < k :: ops[m] != Reset
    ensures AllShown(p, states[k])
  {
    if j > 0 {
      StepOfRunKeepsShown(p, states, ops, j - 1);
    }
    ghost var holds := (s: State) => AllShown(p, s);
    forall m | j <= m < k
      ensures holds(states[m]) ==> holds(states[m + 1])
    {
      if holds(states[m]) {
        StepOfRunKeepsShown(p, states, ops, m);
      }
    }
    Carried(holds, states, j, k);
  }

  /**
   * From a fresh state on, or from a `finalizeTick` on, every publish before the next reset of rates
   * shows the mirror each resource's income, expense and net rate as they are, within tolerance.
   */
  lemma {:induction false} MirrorShowsRates(p: Precision, rows: seq<Row>, states: seq<State>, ops: seq<Op>,
                                            j: nat, k: nat, i: nat)
    requires PrecisionOk(p) && forall i | 0 <= i < |rows| :: ToleranceOk(p, rows[i])
    requires IsRun(p, states, ops) && states[0] == Initial(rows)
    requires j <= k < |ops| && ops[k] == Snapshot && i < |states[k + 1].live|
    requires j == 0 || (ops[j - 1].Finalize? && !Rejected(states[j - 1], ops[j - 1]))
    requires forall m | j <= m < k :: ops[m] != Reset
    ensures var live := states[k + 1].live[i]; var mirror := Mirror(states, ops, k + 1);
            && i < |mirror|
            && p.equals(live.income, mirror[i].income, live.tolerance, live.tolerance != p.ceiling)
            && p.equals(live.expense, mirror[i].expense, live.tolerance, live.tolerance != p.ceiling)
            && p.equals(live.net, mirror[i].net, live.tolerance, live.tolerance != p.ceiling)
  {
    RunIsGood(p, rows, states, ops);
    InitialIsShown(p, rows);
    StaysShown(p, states, ops, j, k);
    SnapshotShowsRates(p, states, ops, k, i);
    MirrorFollowsEveryRun(p, rows, states, ops, k + 1);
    assert SameRow(Mirror(states, ops, k + 1)[i], states[k + 1].published[i]);
  }

  /** Over any run of resource operations and publishes the net rate stays income minus expense. */
  lemma NetIsIncomeMinusExpense(p: Precision, rows: seq<Row>, states: seq<State>, ops: seq<Op>, k: nat)
    requires PrecisionOk(p) && forall i | 0 <= i < |rows| :: ToleranceOk(p, rows[i])
    requires IsRun(p, states, ops) && states[0] == Initial(rows) && k <= |ops| && Netting(rows)
    ensures Netting(states[k].live)
  {
    RunIsGood(p, rows, states, ops);
    ghost var holds := (s: State) => Netting(s.live);
    forall m | 0 <= m < k
      ensures holds(states[m]) ==> holds(states[m + 1])
    {
      assert Good(p, states[m]) && Stepped(p, states[m], states[m + 1], ops[m]);
      if holds(states[m]) {
        StepKeepsNetting(p, states[m], states[m + 1], ops[m]);
      }
    }
    forall i | 0 <= i < |rows|
      ensures Initial(rows).live[i].net == Initial(rows).live[i].income - Initial(rows).live[i].expense
    {
      assert rows[i].net == rows[i].income - rows[i].expense;
    }
    Carried(holds, states, 0, k);
  }

  lemma InitialIsShown(p: Precision, rows: seq<Row>)
    requires PrecisionOk(p)
    ensures AllShown(p, Initial(rows))
  {
  }

  lemma SnapshotShowsRates(p: Precision, states: seq<State>, ops: seq<Op>, k: nat, i: nat)
    requires PrecisionOk(p) && GoodRun(p, states, ops) && k < |ops| && ops[k] == Snapshot
    requires AllShown(p, states[k]) && i < |states[k + 1].live|
    ensures |states[k + 1].published| == |states[k + 1].live|
    ensures RatesShown(p, states[k + 1].live[i], states[k + 1].published[i])
  {
    assert Good(p, states[k]) && Stepped(p, states[k], states[k + 1], ops[k]) && Shown(p, states[k], i);
    PublishShowsRates(p, states[k], i);
  }

  /** Since call `j`, a publish, no tick was finalized and no reset accepted. */
  ghost predicate PublishedSince(states: seq<State>, ops: seq<Op>, j: nat, k: nat)
    requires |states| == |ops| + 1
  {
    j < k <= |ops| && ops[j].Snapshot? && forall m | j < m < k :: ops[m].Snapshot? || !MovesGuard(states[m], ops[m])
  }

  /** Rates are only reset when the last tick finalized was published, and only once. */
  lemma {:induction false} ResetIsAcceptedIff(p: Precision, rows: seq<Row>, states: seq<State>, ops: seq<Op>, k: nat)
    requires PrecisionOk(p) && forall i | 0 <= i < |rows| :: ToleranceOk(p, rows[i])
    requires IsRun(p, states, ops) && states[0] == Initial(rows) && k <= |ops|
    ensures !Rejected(states[k], Reset) <==> exists j: nat :: PublishedSince(states, ops, j, k)
  {
    if k > 0 {
      var m := k - 1;
      ResetIsAcceptedIff(p, rows, states, ops, m);
      MirrorFollowsEveryRun(p, rows, states, ops, m);
      assert Stepped(p, states[m], states[m + 1], ops[m]);
      GuardAfter(p, states[m], states[k], ops[m]);
      SinceOneMore(states, ops, m, k);
    }
  }

  lemma SinceOneMore(states: seq<State>, ops: seq<Op>, m: nat, n: nat)
    requires |states| == |ops| + 1 && m < |ops| && n == m + 1
    ensures (exists j: nat :: PublishedSince(states, ops, j, n)) <==>
              ops[m].Snapshot? || (!MovesGuard(states[m], ops[m]) && exists j: nat :: PublishedSince(states, ops, j, m))
  {
    if ops[m].Snapshot? {
      assert PublishedSince(states, ops, m, n);
    } else if j: nat :| PublishedSince(states, ops, j, n) {
      assert PublishedSince(states, ops, j, m);
    } else if j: nat :| PublishedSince(states, ops, j, m) {
      assert !MovesGuard(states[m], ops[m]) ==> PublishedSince(states, ops, j, n);
    }
  }

  lemma InitialInBounds(rows: seq<Row>)
    requires InBounds(rows)
    ensures InBounds(Initial(rows).live)
  {
    forall i | 0 <= i < |rows|
      ensures Bounded(Initial(rows).live[i])
    {
      assert Bounded(rows[i]);
    }
  }

  /**
   * Over any run of resource operations and publishes from a fresh state, dirty tracking stays
   * sound, and a mirror that applies every transport equals the published rows; right after a
   * publish it is in sync with every live row. Amounts that start within bounds stay there.
   */
  lemma {:induction false} MirrorFollowsEveryRun(p: Precision, rows: seq<Row>, states: seq<State>, ops: seq<Op>, k: nat)
    requires PrecisionOk(p) && forall i | 0 <= i < |rows| :: ToleranceOk(p, rows[i])
    requires IsRun(p, states, ops) && states[0] == Initial(rows) && k <= |ops|
    ensures Good(p, states[k]) && MirrorAgrees(Mirror(states, ops, k), states[k])
    ensures k > 0 && ops[k - 1] == Snapshot ==>
              forall i | 0 <= i < |states[k].live| :: InSync(p, states[k].live[i], states[k].published[i])
    ensures InBounds(rows) ==> InBounds(states[k].live)
  {
    if k == 0 {
      InitialIsGood(p, rows);
      if InBounds(rows) {
        InitialInBounds(rows);
      }
    } else {
      var j := k - 1;
      MirrorFollowsEveryRun(p, rows, states, ops, j);
      assert Stepped(p, states[j], states[j + 1], ops[j]);
      MirrorFollowsStep(p, states[j], states[k], ops[j], Mirror(states, ops, j));
      if InBounds(rows) {
        StepKeepsBounds(p, states[j], states[k], ops[j]);
      }
    }
  }

  // ----- how a flag change can hide

  /** The state after a flag write. */
  function SetFlag(p: Precision, s: State, i: nat, name: FlagName, on: bool): State
    requires Sized(s) && i < |s.live|
  {
    var row := WithFlag(s.live[i], name, on);
    WriteRow(p, s, i, row, Near(p, row.flags.Code(), s.published[i].flags.Code(), row.tolerance))
  }

  /** A flag change of a resource off the list goes unnoticed exactly when its numbers compare as equal. */
  lemma FlagChangeHidesIff(p: Precision, s: State, i: nat, name: FlagName, on: bool)
    requires PrecisionOk(p) && Good(p, s) && i < |s.live| && !Listed(s, i)
    requires s.live[i].flags == s.published[i].flags && WithFlag(s.live[i], name, on) != s.live[i]
    ensures var row := WithFlag(s.live[i], name, on);
            !Listed(SetFlag(p, s, i, name, on), i)
            <==> Near(p, row.flags.Code(), s.published[i].flags.Code(), row.tolerance)
  {
    var row := WithFlag(s.live[i], name, on);
    StoredKeepsSets(p, s, i, row);
    MarkDirtyKeepsSparseSet(WithLive(s, i, row), i);
    assert !RowClean(p, row, s.published[i]);
  }

  /** A change that goes unnoticed is not published either: the resource is visible, its mirror is not. */
  lemma HiddenFlagIsNeverPublished(p: Precision, row: Row)
    requires PrecisionOk(p) && ToleranceOk(p, row) && !row.flags.visible && !row.flags.dirty
    requires Near(p, WithFlag(row, Visible, true).flags.Code(), row.flags.Code(), row.tolerance)
    ensures var t := SetFlag(p, Initial([row]), 0, Visible, true);
            t.live[0].flags.visible && !Publish(p, t).published[0].flags.visible
  {
    InitialIsGood(p, [row]);
    var s := Initial([row]);
    FlagChangeHidesIff(p, s, 0, Visible, true);
    StoredKeepsSets(p, s, 0, WithFlag(row, Visible, true));
    var t := SetFlag(p, s, 0, Visible, true);
    assert !RowClean(p, WithFlag(row, Visible, true), s.published[0]);
    assert t == WithLive(s, 0, WithFlag(row, Visible, true));
  }
}
