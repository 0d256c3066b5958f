/**
 * What the command queue promises (packages/core/src/command-queue.ts), as functions on
 * values: three lanes in dispatch order, each ordered by timestamp and then by sequence.
 */
module Scheduling {
  import opened Wrappers
  import opened Commands
  import Texts

  datatype Entry = Entry(command: Command, sequence: nat)

  /** The three lanes of the `lanes` map, whose keys never change. */
  datatype Lanes = Lanes(system: seq<Entry>, player: seq<Entry>, automation: seq<Entry>) {
    function At(p: Priority): seq<Entry> {
      match p
      case System => system
      case Player => player
      case Automation => automation
    }

    function With(p: Priority, lane: seq<Entry>): Lanes {
      match p
      case System => this.(system := lane)
      case Player => this.(player := lane)
      case Automation => this.(automation := lane)
    }

    function Size(): nat {
      |system| + |player| + |automation|
    }
  }

  const EMPTY_LANES := Lanes([], [], [])

  /** Types absent from `policy` are unrestricted. */
  type Policy = map<Texts.Text, set<Priority>>

  datatype QueueState = QueueState(lanes: Lanes, nextSequence: nat, maxSize: real, policy: Policy)

  predicate Authorized(policy: Policy, c: Command) {
    c.ctype in policy ==> c.priority in policy[c.ctype]
  }

  /** The dispatch order inside one lane. */
  predicate Before(a: Entry, b: Entry) {
    || a.command.timestamp < b.command.timestamp
    || (a.command.timestamp == b.command.timestamp && a.sequence < b.sequence)
  }

  ghost predicate Ordered(lane: seq<Entry>) {
    forall i, j | 0 <= i < j < |lane| :: Before(lane[i], lane[j])
  }

  ghost predicate LaneOk(lane: seq<Entry>, p: Priority, nextSequence: nat, policy: Policy) {
    && Ordered(lane)
    && forall i | 0 <= i < |lane| ::
         lane[i].command.priority == p && lane[i].sequence < nextSequence && Authorized(policy, lane[i].command)
  }

  ghost predicate WellFormed(q: QueueState) {
    && q.maxSize > 0.0
    && q.lanes.Size() as real < q.maxSize + 1.0
    && forall p: Priority :: LaneOk(q.lanes.At(p), p, q.nextSequence, q.policy)
  }

  // ----- enqueue

  /** How many leading entries are not later than `t`. */
  function UpperBound(lane: seq<Entry>, t: real): (k: nat)
    ensures k <= |lane|
    ensures forall i | 0 <= i < k :: lane[i].command.timestamp <= t
    ensures k < |lane| ==> lane[k].command.timestamp > t
  {
    if lane == [] || lane[0].command.timestamp > t then 0
    else 1 + UpperBound(lane[1..], t)
  }

  function Insert(lane: seq<Entry>, e: Entry): seq<Entry> {
    var k := UpperBound(lane, e.command.timestamp);
    lane[..k] + [e] + lane[k..]
  }

  lemma InsertKeepsLaneOk(lane: seq<Entry>, e: Entry, p: Priority, n: nat, policy: Policy)
    requires LaneOk(lane, p, n, policy) && e.command.priority == p && e.sequence == n
    requires Authorized(policy, e.command)
    ensures LaneOk(Insert(lane, e), p, n + 1, policy)
  {
    var k := UpperBound(lane, e.command.timestamp);
    var next := Insert(lane, e);
    forall i, j | 0 <= i < j < |next|
      ensures Before(next[i], next[j])
    {
      if j == k {
        assert next[i] == lane[i];
      } else if i == k {
        assert next[j] == lane[j - 1];
        assert k == j - 1 || Before(lane[k], lane[j - 1]);
      }
    }
  }

  /** The lowest lane that may make room for `floor`, lowest priority first. */
  function Victim(lanes: Lanes, floor: Priority): Option<Priority> {
    if lanes.automation != [] then Some(Automation)
    else if floor != Automation && lanes.player != [] then Some(Player)
    else if floor == System && lanes.system != [] then Some(System)
    else None
  }

  lemma VictimIsLowest(lanes: Lanes, floor: Priority)
    ensures Victim(lanes, floor).Some? <==> exists p: Priority :: p.Rank() >= floor.Rank() && lanes.At(p) != []
    ensures Victim(lanes, floor).Some? ==>
              var v := Victim(lanes, floor).value;
              && v.Rank() >= floor.Rank() && lanes.At(v) != []
              && forall p: Priority | lanes.At(p) != [] :: p.Rank() <= v.Rank()
  {
    assert lanes.At(System) == lanes.system && lanes.At(Player) == lanes.player;
    assert lanes.At(Automation) == lanes.automation;
  }

  datatype Enqueued = Enqueued(queue: QueueState, accepted: bool, dropped: Option<Entry>)

  function Admit(q: QueueState, c: Command): QueueState {
    q.(lanes := q.lanes.With(c.priority, Insert(q.lanes.At(c.priority), Entry(c, q.nextSequence))),
       nextSequence := q.nextSequence + 1)
  }

  function Enqueue(q: QueueState, c: Command): Enqueued {
    if !Authorized(q.policy, c) then Enqueued(q, false, None)
    else if q.lanes.Size() as real < q.maxSize then Enqueued(Admit(q, c), true, None)
    else
      match Victim(q.lanes, c.priority)
      case None => Enqueued(q, false, None)
      case Some(p) =>
        var lane := q.lanes.At(p);
        Enqueued(Admit(q.(lanes := q.lanes.With(p, lane[1..])), c), true, Some(lane[0]))
  }

  lemma AdmitKeepsWellFormed(q: QueueState, c: Command)
    requires WellFormed(q) && q.lanes.Size() as real < q.maxSize && Authorized(q.policy, c)
    ensures WellFormed(Admit(q, c))
  {
    assert LaneOk(q.lanes.At(c.priority), c.priority, q.nextSequence, q.policy);
    InsertKeepsLaneOk(q.lanes.At(c.priority), Entry(c, q.nextSequence), c.priority, q.nextSequence, q.policy);
    forall p: Priority
      ensures LaneOk(Admit(q, c).lanes.At(p), p, q.nextSequence + 1, q.policy)
    {
      assert LaneOk(q.lanes.At(p), p, q.nextSequence, q.policy);
    }
  }

  /** Taking the head off a lane makes room in a well-formed queue. */
  lemma RoomKeepsWellFormed(q: QueueState, p: Priority, room: QueueState)
    requires WellFormed(q) && q.lanes.At(p) != []
    requires room == q.(lanes := q.lanes.With(p, q.lanes.At(p)[1..]))
    ensures WellFormed(room) && room.lanes.Size() as real < room.maxSize
  {
    forall p': Priority
      ensures LaneOk(room.lanes.At(p'), p', room.nextSequence, room.policy)
    {
      assert LaneOk(q.lanes.At(p'), p', q.nextSequence, q.policy);
    }
  }

  lemma EnqueueKeepsWellFormed(q: QueueState, c: Command)
    requires WellFormed(q)
    ensures WellFormed(Enqueue(q, c).queue)
  {
    var e := Enqueue(q, c);
    if e.dropped.Some? {
      var p := Victim(q.lanes, c.priority).value;
      var room := q.(lanes := q.lanes.With(p, q.lanes.At(p)[1..]));
      RoomKeepsWellFormed(q, p, room);
      AdmitKeepsWellFormed(room, c);
    } else if e.accepted {
      AdmitKeepsWellFormed(q, c);
    }
  }

  /**
   * Overflow policy: a command is refused only when nothing of equal or lower priority is queued,
   * and what makes room is the oldest entry of the lowest nonempty lane, never one that outranks
   * the newcomer.
   */
  lemma OverflowDropsTheOldestOfTheLowestLane(q: QueueState, c: Command)
    requires WellFormed(q) && Authorized(q.policy, c) && q.lanes.Size() as real >= q.maxSize
    ensures var r := Enqueue(q, c);
            && (r.accepted <==> exists p: Priority :: p.Rank() >= c.priority.Rank() && q.lanes.At(p) != [])
            && (r.accepted ==> r.dropped.Some? && r.queue.lanes.Size() == q.lanes.Size())
    ensures var r := Enqueue(q, c);
            r.accepted ==>
              var d := r.dropped.value;
              && d.command.priority.Rank() >= c.priority.Rank()
              && forall p: Priority, i | 0 <= i < |q.lanes.At(p)| ::
                   && p.Rank() <= d.command.priority.Rank()
                   && (p == d.command.priority ==> i == 0 || Before(d, q.lanes.At(p)[i]))
  {
    var r := Enqueue(q, c);
    VictimIsLowest(q.lanes, c.priority);
    if r.accepted {
      var v := Victim(q.lanes, c.priority).value;
      assert LaneOk(q.lanes.At(v), v, q.nextSequence, q.policy);
      assert r.dropped.value == q.lanes.At(v)[0] && r.dropped.value.command.priority == v;
    }
  }

  /** `after` is `before` with one entry spliced in somewhere. */
  ghost predicate SplicedIn(before: seq<Entry>, after: seq<Entry>, e: Entry) {
    exists k | 0 <= k <= |before| :: after == before[..k] + [e] + before[k..]
  }

  /** The newcomer joins its lane under the next sequence number, and nothing else changes. */
  ghost predicate Joins(q: QueueState, c: Command, t: QueueState) {
    && t.nextSequence == q.nextSequence + 1 && t.maxSize == q.maxSize && t.policy == q.policy
    && SplicedIn(q.lanes.At(c.priority), t.lanes.At(c.priority), Entry(c, q.nextSequence))
    && forall p: Priority | p != c.priority :: t.lanes.At(p) == q.lanes.At(p)
  }

  /** `v` is the lowest nonempty lane. */
  ghost predicate Lowest(lanes: Lanes, v: Priority) {
    lanes.At(v) != [] && forall p: Priority | lanes.At(p) != [] :: p.Rank() <= v.Rank()
  }

  /**
   * The answer to an enqueue, whatever the timestamp. A command that its type forbids in its lane is refused,
   * and so is one that finds the queue full of commands that outrank it. With room, any other joins its lane;
   * without, the head of the lowest nonempty lane leaves first.
   */
  ghost predicate Answers(q: QueueState, c: Command, t: QueueState, accepted: bool, dropped: Option<Entry>) {
    var allowed := c.ctype !in q.policy || c.priority in q.policy[c.ctype];
    var room := q.lanes.Size() as real < q.maxSize;
    && (accepted <==> allowed && (room || exists p: Priority :: p.Rank() >= c.priority.Rank() && q.lanes.At(p) != []))
    && (!accepted ==> t == q && dropped == None)
    && (accepted && room ==> Joins(q, c, t) && dropped == None)
    && (accepted && !room ==>
          exists v: Priority ::
            && Lowest(q.lanes, v) && dropped == Some(q.lanes.At(v)[0])
            && Joins(q.(lanes := q.lanes.With(v, q.lanes.At(v)[1..])), c, t))
  }

  ghost predicate Answered(q: QueueState, c: Command, t: QueueState, accepted: bool) {
    exists dropped :: Answers(q, c, t, accepted, dropped)
  }

  lemma AdmittedJoins(q: QueueState, c: Command)
    ensures Joins(q, c, Admit(q, c))
  {
    var lane := q.lanes.At(c.priority);
    var k := UpperBound(lane, c.timestamp);
    assert Insert(lane, Entry(c, q.nextSequence)) == lane[..k] + [Entry(c, q.nextSequence)] + lane[k..];
  }

  /** Every enqueue answers so. */
  lemma EnqueueAnswers(q: QueueState, c: Command)
    ensures var r := Enqueue(q, c);
            Answers(q, c, r.queue, r.accepted, r.dropped)
  {
    VictimIsLowest(q.lanes, c.priority);
    if Authorized(q.policy, c) {
      if q.lanes.Size() as real < q.maxSize {
        AdmittedJoins(q, c);
      } else if Victim(q.lanes, c.priority).Some? {
        var v := Victim(q.lanes, c.priority).value;
        AdmittedJoins(q.(lanes := q.lanes.With(v, q.lanes.At(v)[1..])), c);
      }
    }
  }

  lemma EnqueueIsAnswered(q: QueueState, c: Command)
    ensures var r := Enqueue(q, c); Answered(q, c, r.queue, r.accepted)
  {
    EnqueueAnswers(q, c);
  }

  // ----- dequeue

  datatype Bound = UpTo(step: int) | Unbounded {
    predicate Covers(c: Command) {
      Unbounded? || c.step <= step
    }
  }

  function Due(lane: seq<Entry>, b: Bound): seq<Entry> {
    if lane == [] then []
    else
      var n := |lane| - 1;
      Due(lane[..n], b) + (if b.Covers(lane[n].command) then [lane[n]] else [])
  }

  function Later(lane: seq<Entry>, b: Bound): seq<Entry> {
    if lane == [] then []
    else
      var n := |lane| - 1;
      Later(lane[..n], b) + (if b.Covers(lane[n].command) then [] else [lane[n]])
  }

  ghost predicate AllBefore(lane: seq<Entry>, e: Entry) {
    forall i | 0 <= i < |lane| :: Before(lane[i], e)
  }

  lemma {:induction false} FilteringKeepsAllBefore(lane: seq<Entry>, b: Bound, e: Entry)
    requires AllBefore(lane, e)
    ensures AllBefore(Due(lane, b), e) && AllBefore(Later(lane, b), e)
  {
    if lane != [] {
      var n := |lane| - 1;
      FilteringKeepsAllBefore(lane[..n], b, e);
      assert Before(lane[n], e);
    }
  }

  /** Both halves of a drain keep the lane's order. */
  lemma {:induction false} FilteringKeepsOrder(lane: seq<Entry>, b: Bound)
    requires Ordered(lane)
    ensures Ordered(Due(lane, b)) && Ordered(Later(lane, b))
  {
    if lane != [] {
      var n := |lane| - 1;
      FilteringKeepsOrder(lane[..n], b);
      assert AllBefore(lane[..n], lane[n]);
      FilteringKeepsAllBefore(lane[..n], b, lane[n]);
    }
  }

  /** Every entry is due or kept, by whether the bound covers it; none is lost or doubled. */
  lemma {:induction false} DueAndLaterPartition(lane: seq<Entry>, b: Bound)
    ensures forall e: Entry :: e in Due(lane, b) <==> e in lane && b.Covers(e.command)
    ensures forall e: Entry :: e in Later(lane, b) <==> e in lane && !b.Covers(e.command)
    ensures |Due(lane, b)| + |Later(lane, b)| == |lane|
  {
    if lane != [] {
      var n := |lane| - 1;
      DueAndLaterPartition(lane[..n], b);
      forall e: Entry
        ensures e in lane <==> e in lane[..n] || e == lane[n]
      {
        assert lane == lane[..n] + [lane[n]];
      }
    }
  }

  function DrainLanes(lanes: Lanes, b: Bound): seq<Entry> {
    Due(lanes.system, b) + Due(lanes.player, b) + Due(lanes.automation, b)
  }

  function KeepLanes(lanes: Lanes, b: Bound): Lanes {
    Lanes(Later(lanes.system, b), Later(lanes.player, b), Later(lanes.automation, b))
  }

  function Dequeue(q: QueueState, b: Bound): (QueueState, seq<Entry>) {
    (q.(lanes := KeepLanes(q.lanes, b)), DrainLanes(q.lanes, b))
  }

  lemma FilteringKeepsLaneOk(lane: seq<Entry>, b: Bound, p: Priority, n: nat, policy: Policy)
    requires LaneOk(lane, p, n, policy)
    ensures LaneOk(Later(lane, b), p, n, policy) && LaneOk(Due(lane, b), p, n, policy)
  {
    FilteringKeepsOrder(lane, b);
    DueAndLaterPartition(lane, b);
    forall i | 0 <= i < |Due(lane, b)|
      ensures Due(lane, b)[i] in lane
    {
      assert Due(lane, b)[i] in Due(lane, b);
    }
    forall i | 0 <= i < |Later(lane, b)|
      ensures Later(lane, b)[i] in lane
    {
      assert Later(lane, b)[i] in Later(lane, b);
    }
  }

  lemma DequeueKeepsWellFormed(q: QueueState, b: Bound)
    requires WellFormed(q)
    ensures WellFormed(Dequeue(q, b).0)
  {
    DequeueSize(q, b);
    forall p: Priority
      ensures LaneOk(Dequeue(q, b).0.lanes.At(p), p, q.nextSequence, q.policy)
    {
      assert LaneOk(q.lanes.At(p), p, q.nextSequence, q.policy);
      FilteringKeepsLaneOk(q.lanes.At(p), b, p, q.nextSequence, q.policy);
    }
  }

  /** The dispatch order of a whole batch: priority, then timestamp, then sequence. */
  predicate DispatchedBefore(a: Entry, b: Entry) {
    || a.command.priority.Rank() < b.command.priority.Rank()
    || (a.command.priority == b.command.priority && Before(a, b))
  }

  /** System commands come before all others, automation commands after all others, and earlier ones first. */
  lemma DispatchedBeforeIff(a: Entry, b: Entry)
    ensures DispatchedBefore(a, b) <==>
              if a.command.priority == b.command.priority
              then a.command.timestamp < b.command.timestamp
                   || (a.command.timestamp == b.command.timestamp && a.sequence < b.sequence)
              else a.command.priority == System || b.command.priority == Automation
  {
  }

  /** A drained batch is in strict dispatch order. */
  lemma DequeueIsOrdered(q: QueueState, b: Bound)
    requires WellFormed(q)
    ensures var batch := Dequeue(q, b).1;
            forall i, j | 0 <= i < j < |batch| :: DispatchedBefore(batch[i], batch[j])
  {
    forall p: Priority
      ensures LaneOk(Due(q.lanes.At(p), b), p, q.nextSequence, q.policy)
    {
      assert LaneOk(q.lanes.At(p), p, q.nextSequence, q.policy);
      FilteringKeepsLaneOk(q.lanes.At(p), b, p, q.nextSequence, q.policy);
    }
    assert LaneOk(Due(q.lanes.system, b), System, q.nextSequence, q.policy) by {
      assert q.lanes.At(System) == q.lanes.system;
    }
    assert LaneOk(Due(q.lanes.player, b), Player, q.nextSequence, q.policy) by {
      assert q.lanes.At(Player) == q.lanes.player;
    }
    assert LaneOk(Due(q.lanes.automation, b), Automation, q.nextSequence, q.policy) by {
      assert q.lanes.At(Automation) == q.lanes.automation;
    }
  }

  lemma EntriesSitInTheirLane(q: QueueState, p: Priority, e: Entry)
    requires WellFormed(q) && e in q.lanes.At(p)
    ensures e.command.priority == p && e.sequence < q.nextSequence
  {
    assert LaneOk(q.lanes.At(p), p, q.nextSequence, q.policy);
  }

  lemma DrainedFromLanes(q: QueueState, b: Bound, e: Entry)
    ensures e in Dequeue(q, b).1 <==> exists p: Priority :: e in Due(q.lanes.At(p), b)
  {
    var (x, y, z) := (Due(q.lanes.At(System), b), Due(q.lanes.At(Player), b), Due(q.lanes.At(Automation), b));
    assert Dequeue(q, b).1 == x + y + z;
    assert e in x + y + z <==> e in x || e in y || e in z;
  }

  /** A drained batch holds exactly the due entries; exactly the others stay queued. */
  lemma DequeueIsComplete(q: QueueState, b: Bound, e: Entry)
    requires WellFormed(q)
    ensures e in Dequeue(q, b).1 <==> e in q.lanes.At(e.command.priority) && b.Covers(e.command)
    ensures e in Dequeue(q, b).0.lanes.At(e.command.priority)
       <==> e in q.lanes.At(e.command.priority) && !b.Covers(e.command)
  {
    var p := e.command.priority;
    forall p': Priority
      ensures e in Due(q.lanes.At(p'), b) <==> p' == p && e in q.lanes.At(p) && b.Covers(e.command)
    {
      DueAndLaterPartition(q.lanes.At(p'), b);
      if e in q.lanes.At(p') {
        EntriesSitInTheirLane(q, p', e);
      }
    }
    DueAndLaterPartition(q.lanes.At(p), b);
    assert Dequeue(q, b).0.lanes.At(p) == Later(q.lanes.At(p), b);
    DrainedFromLanes(q, b, e);
  }

  lemma DequeueSize(q: QueueState, b: Bound)
    ensures Dequeue(q, b).0.lanes.Size() + |Dequeue(q, b).1| == q.lanes.Size()
  {
    DueAndLaterPartition(q.lanes.system, b);
    DueAndLaterPartition(q.lanes.player, b);
    DueAndLaterPartition(q.lanes.automation, b);
  }

  // ----- what a caller can see

  /** A command as far as scheduling is concerned: saves do not carry the request id. */
  function Visible(c: Command): Command {
    c.(requestId := None)
  }

  ghost predicate SameLane(a: seq<Entry>, b: seq<Entry>) {
    && |a| == |b|
    && forall i | 0 <= i < |a| :: Visible(a[i].command) == Visible(b[i].command)
  }

  /** Two queues a caller cannot tell apart: only sequence numbers and request ids may differ. */
  ghost predicate Indistinguishable(q: QueueState, r: QueueState) {
    && q.maxSize == r.maxSize
    && q.policy == r.policy
    && forall p: Priority :: SameLane(q.lanes.At(p), r.lanes.At(p))
  }

  lemma {:induction false} SameLaneUpperBound(a: seq<Entry>, b: seq<Entry>, t: real)
    requires SameLane(a, b)
    ensures UpperBound(a, t) == UpperBound(b, t)
  {
    if a != [] {
      assert Visible(a[0].command).timestamp == Visible(b[0].command).timestamp;
      SameLaneUpperBound(a[1..], b[1..], t);
    }
  }

  lemma SameLaneInsert(a: seq<Entry>, b: seq<Entry>, e: Entry, f: Entry)
    requires SameLane(a, b) && Visible(e.command) == Visible(f.command)
    ensures SameLane(Insert(a, e), Insert(b, f))
  {
    assert Visible(e.command).timestamp == Visible(f.command).timestamp;
    SameLaneUpperBound(a, b, e.command.timestamp);
  }

  lemma SameLaneConcat(a: seq<Entry>, b: seq<Entry>, x: seq<Entry>, y: seq<Entry>)
    requires SameLane(a, b) && SameLane(x, y)
    ensures SameLane(a + x, b + y)
  {
  }

  lemma {:induction false} SameLaneDue(a: seq<Entry>, b: seq<Entry>, bound: Bound)
    requires SameLane(a, b)
    ensures SameLane(Due(a, bound), Due(b, bound)) && SameLane(Later(a, bound), Later(b, bound))
  {
    if a != [] {
      var n := |a| - 1;
      SameLaneDue(a[..n], b[..n], bound);
      assert Visible(a[n].command).step == Visible(b[n].command).step;
      assert SameLane([a[n]], [b[n]]);
      if bound.Covers(a[n].command) {
        SameLaneConcat(Due(a[..n], bound), Due(b[..n], bound), [a[n]], [b[n]]);
      } else {
        SameLaneConcat(Later(a[..n], bound), Later(b[..n], bound), [a[n]], [b[n]]);
      }
    }
  }

  datatype Op = Submit(c: Command) | Drain(b: Bound)

  datatype Output =
    | Refused
    | Taken(dropped: Option<Command>)
    | Drained(commands: seq<Command>)

  function CommandsOf(lane: seq<Entry>): (r: seq<Command>)
    ensures |r| == |lane| && forall i | 0 <= i < |r| :: r[i] == Visible(lane[i].command)
  {
    seq(|lane|, i requires 0 <= i < |lane| => Visible(lane[i].command))
  }

  function Apply(q: QueueState, op: Op): (QueueState, Output) {
    match op
    case Submit(c) =>
      var r := Enqueue(q, c);
      (r.queue,
       if !r.accepted then Refused
       else Taken(if r.dropped.Some? then Some(Visible(r.dropped.value.command)) else None))
    case Drain(b) =>
      var r := Dequeue(q, b);
      (r.0, Drained(CommandsOf(r.1)))
  }

  function Outputs(q: QueueState, ops: seq<Op>): seq<Output>
    decreases |ops|
  {
    if ops == [] then []
    else [Apply(q, ops[0]).1] + Outputs(Apply(q, ops[0]).0, ops[1..])
  }

  lemma SameLanes(q: QueueState, r: QueueState)
    requires Indistinguishable(q, r)
    ensures SameLane(q.lanes.system, r.lanes.system)
    ensures SameLane(q.lanes.player, r.lanes.player)
    ensures SameLane(q.lanes.automation, r.lanes.automation)
    ensures q.lanes.Size() == r.lanes.Size()
  {
    assert SameLane(q.lanes.At(System), r.lanes.At(System));
    assert SameLane(q.lanes.At(Player), r.lanes.At(Player));
    assert SameLane(q.lanes.At(Automation), r.lanes.At(Automation));
  }

  lemma AdmitRespectsIndistinguishable(q: QueueState, r: QueueState, c: Command)
    requires Indistinguishable(q, r)
    ensures Indistinguishable(Admit(q, c), Admit(r, c))
  {
    var p := c.priority;
    SameLaneInsert(q.lanes.At(p), r.lanes.At(p), Entry(c, q.nextSequence), Entry(c, r.nextSequence));
    forall p': Priority
      ensures SameLane(Admit(q, c).lanes.At(p'), Admit(r, c).lanes.At(p'))
    {
      assert SameLane(q.lanes.At(p'), r.lanes.At(p'));
    }
  }

  lemma EnqueueRespectsIndistinguishable(q: QueueState, r: QueueState, c: Command)
    requires Indistinguishable(q, r)
    ensures Apply(q, Submit(c)).1 == Apply(r, Submit(c)).1
    ensures Indistinguishable(Enqueue(q, c).queue, Enqueue(r, c).queue)
  {
    SameLanes(q, r);
    var victim := Victim(q.lanes, c.priority);
    assert victim == Victim(r.lanes, c.priority);
    if Authorized(q.policy, c) {
      if q.lanes.Size() as real < q.maxSize {
        AdmitRespectsIndistinguishable(q, r, c);
      } else if victim.Some? {
        var p := victim.value;
        assert SameLane(q.lanes.At(p), r.lanes.At(p));
        var q' := q.(lanes := q.lanes.With(p, q.lanes.At(p)[1..]));
        var r' := r.(lanes := r.lanes.With(p, r.lanes.At(p)[1..]));
        assert Visible(q.lanes.At(p)[0].command) == Visible(r.lanes.At(p)[0].command);
        forall p': Priority
          ensures SameLane(q'.lanes.At(p'), r'.lanes.At(p'))
        {
          assert SameLane(q.lanes.At(p'), r.lanes.At(p'));
        }
        AdmitRespectsIndistinguishable(q', r', c);
      }
    }
  }

  lemma DequeueRespectsIndistinguishable(q: QueueState, r: QueueState, b: Bound)
    requires Indistinguishable(q, r)
    ensures CommandsOf(Dequeue(q, b).1) == CommandsOf(Dequeue(r, b).1)
    ensures Indistinguishable(Dequeue(q, b).0, Dequeue(r, b).0)
  {
    SameLanes(q, r);
    SameLaneDue(q.lanes.system, r.lanes.system, b);
    SameLaneDue(q.lanes.player, r.lanes.player, b);
    SameLaneDue(q.lanes.automation, r.lanes.automation, b);
    SameLaneConcat(Due(q.lanes.system, b), Due(r.lanes.system, b), Due(q.lanes.player, b), Due(r.lanes.player, b));
    SameLaneConcat(Due(q.lanes.system, b) + Due(q.lanes.player, b), Due(r.lanes.system, b) + Due(r.lanes.player, b),
                   Due(q.lanes.automation, b), Due(r.lanes.automation, b));
    forall p: Priority
      ensures SameLane(Dequeue(q, b).0.lanes.At(p), Dequeue(r, b).0.lanes.At(p))
    {
      match p
      case System =>
      case Player =>
      case Automation =>
    }
  }

  lemma ApplyRespectsIndistinguishable(q: QueueState, r: QueueState, op: Op)
    requires Indistinguishable(q, r)
    ensures Apply(q, op).1 == Apply(r, op).1
    ensures Indistinguishable(Apply(q, op).0, Apply(r, op).0)
  {
    match op
    case Submit(c) => EnqueueRespectsIndistinguishable(q, r, c);
    case Drain(b) => DequeueRespectsIndistinguishable(q, r, b);
  }

  /** Indistinguishable queues answer every later sequence of calls identically. */
  lemma {:induction false} FutureAgrees(q: QueueState, r: QueueState, ops: seq<Op>)
    requires Indistinguishable(q, r)
    ensures Outputs(q, ops) == Outputs(r, ops)
    decreases |ops|
  {
    if ops != [] {
      ApplyRespectsIndistinguishable(q, r, ops[0]);
      FutureAgrees(Apply(q, ops[0]).0, Apply(r, ops[0]).0, ops[1..]);
    }
  }

  // ----- save and restore

  /** One element of a save's `entries`; `Malformed` stands for any value of the wrong shape. */
  datatype SavedEntry =
    | Malformed
    | SavedEntry(ctype: Texts.Text, priority: int, timestamp: real, step: int, payload: Payload)

  function Save(c: Command): Option<SavedEntry> {
    match CloneJson(c.payload)
    case None => None
    case Some(payload) => Some(SavedEntry(c.ctype, c.priority.Rank(), c.timestamp, c.step, payload))
  }

  function ExportLane(lane: seq<Entry>): seq<SavedEntry> {
    if lane == [] then []
    else
      var n := |lane| - 1;
      var saved := Save(lane[n].command);
      ExportLane(lane[..n]) + (if saved.Some? then [saved.value] else [])
  }

  function Export(lanes: Lanes): seq<SavedEntry> {
    ExportLane(lanes.system) + ExportLane(lanes.player) + ExportLane(lanes.automation)
  }

  /** `rebaseStep`: `None` when the option is absent, else `currentStep - savedStep`. */
  type Rebase = Option<int>

  function RebasedStep(step: int, rebase: Rebase): int {
    match rebase
    case None => step
    case Some(delta) => if step + delta < 0 then 0 else step + delta
  }

  function Normalize(entry: SavedEntry, rebase: Rebase): Option<Command> {
    match entry
    case Malformed => None
    case SavedEntry(ctype, priority, timestamp, step, payload) =>
      if IsBlank(ctype) || PriorityOfCode(priority).None? || step < 0 then None
      else
        match CloneJson(payload)
        case None => None
        case Some(copy) =>
          Some(Command(ctype, PriorityOfCode(priority).value, timestamp, RebasedStep(step, rebase), copy, None))
  }

  datatype Restored = Restored(queue: QueueState, restored: nat, skipped: nat)

  /** One iteration of the restore loop; an overflow that only swaps entries counts as skipped. */
  function RestoreOne(r: Restored, entry: SavedEntry, supported: Texts.Text -> bool, rebase: Rebase): Restored {
    match Normalize(entry, rebase)
    case None => r.(skipped := r.skipped + 1)
    case Some(c) =>
      if !supported(c.ctype) then r.(skipped := r.skipped + 1)
      else
        var next := Enqueue(r.queue, c).queue;
        if next.lanes.Size() > r.queue.lanes.Size() then Restored(next, r.restored + 1, r.skipped)
        else Restored(next, r.restored, r.skipped + 1)
  }

  function RestoreAll(r: Restored, entries: seq<SavedEntry>, supported: Texts.Text -> bool, rebase: Rebase): Restored {
    if entries == [] then r
    else
      var n := |entries| - 1;
      RestoreOne(RestoreAll(r, entries[..n], supported, rebase), entries[n], supported, rebase)
  }

  function RestoreInto(q: QueueState, entries: seq<SavedEntry>, supported: Texts.Text -> bool,
                       rebase: Rebase): Restored
  {
    RestoreAll(Restored(q.(lanes := EMPTY_LANES), 0, 0), entries, supported, rebase)
  }

  /** What a queued command must be for a save to bring it back. */
  predicate Survives(c: Command, supported: Texts.Text -> bool) {
    IsJson(c.payload) && WithoutObjectProto(c.payload) && !IsBlank(c.ctype) && c.step >= 0 && supported(c.ctype)
  }

  /** The command a save brings back: its payload is a copy. */
  function Survivor(c: Command, rebase: Rebase): Command {
    var copy := CloneJson(c.payload);
    Unchanged(c, rebase).(payload := if copy.Some? then copy.value else c.payload)
  }

  /** The same command, with its step moved and without its request id. */
  function Unchanged(c: Command, rebase: Rebase): Command {
    c.(requestId := None, step := RebasedStep(c.step, rebase))
  }

  /** What it must be to come back as it was. */
  predicate Unharmed(c: Command, supported: Texts.Text -> bool) {
    IsJson(c.payload) && WithoutProto(c.payload) && !IsBlank(c.ctype) && c.step >= 0 && supported(c.ctype)
  }

  lemma UnharmedIff(c: Command, supported: Texts.Text -> bool, rebase: Rebase)
    ensures Unharmed(c, supported) <==> Survives(c, supported) && Survivor(c, rebase) == Unchanged(c, rebase)
  {
    CloneAcceptsJson(c.payload);
    if IsJson(c.payload) {
      CloneIsSameIff(c.payload);
      if WithoutProto(c.payload) {
        WithoutProtoIsWithoutObjectProto(c.payload);
      }
    }
  }

  /** The commands of a lane that survive a save, rebased and in lane order. */
  function Survivors(lane: seq<Entry>, supported: Texts.Text -> bool, rebase: Rebase): seq<Command> {
    if lane == [] then []
    else
      var n := |lane| - 1;
      Survivors(lane[..n], supported, rebase)
        + (if Survives(lane[n].command, supported) then [Survivor(lane[n].command, rebase)] else [])
  }

  lemma {:induction false} RestoreAllConcat(r: Restored, xs: seq<SavedEntry>, ys: seq<SavedEntry>,
                                            supported: Texts.Text -> bool, rebase: Rebase)
    ensures RestoreAll(r, xs + ys, supported, rebase)
         == RestoreAll(RestoreAll(r, xs, supported, rebase), ys, supported, rebase)
  {
    if ys == [] {
      assert xs + ys == xs;
    } else {
      var n := |ys| - 1;
      assert (xs + ys)[..|xs + ys| - 1] == xs + ys[..n];
      RestoreAllConcat(r, xs, ys[..n], supported, rebase);
    }
  }

  lemma {:induction false} UpperBoundAtEnd(lane: seq<Entry>, t: real)
    requires forall i | 0 <= i < |lane| :: lane[i].command.timestamp <= t
    ensures UpperBound(lane, t) == |lane|
  {
    if lane != [] {
      UpperBoundAtEnd(lane[1..], t);
    }
  }

  /** The lane that restoring a survivor list rebuilds. */
  ghost predicate Rebuilt(lane: seq<Entry>, commands: seq<Command>) {
    |lane| == |commands| && forall i | 0 <= i < |lane| :: lane[i].command == commands[i]
  }

  lemma {:induction false} SurvivorsAreNotLater(lane: seq<Entry>, t: real, supported: Texts.Text -> bool,
                                                rebase: Rebase)
    requires forall i | 0 <= i < |lane| :: lane[i].command.timestamp <= t
    ensures |Survivors(lane, supported, rebase)| <= |lane|
    ensures forall i | 0 <= i < |Survivors(lane, supported, rebase)| ::
              Survivors(lane, supported, rebase)[i].timestamp <= t
  {
    if lane != [] {
      SurvivorsAreNotLater(lane[..|lane| - 1], t, supported, rebase);
    }
  }

  /** What restoring part of lane `p` has done so far to the queue in `r`. */
  ghost predicate LaneProgress(r: Restored, s: Restored, p: Priority, kept: seq<Command>, seen: nat) {
    && Rebuilt(s.queue.lanes.At(p), kept)
    && (forall p': Priority | p' != p :: s.queue.lanes.At(p') == r.queue.lanes.At(p'))
    && s.queue.maxSize == r.queue.maxSize && s.queue.policy == r.queue.policy
    && s.restored == r.restored + |kept|
    && s.skipped == r.skipped + seen - |kept|
  }

  lemma LaneProgressSize(r: Restored, s: Restored, p: Priority, kept: seq<Command>, seen: nat)
    requires LaneProgress(r, s, p, kept, seen) && r.queue.lanes.At(p) == []
    ensures s.queue.lanes.Size() == r.queue.lanes.Size() + |kept|
  {
    match p
    case System =>
      assert s.queue.lanes.At(Player) == r.queue.lanes.At(Player);
      assert s.queue.lanes.At(Automation) == r.queue.lanes.At(Automation);
    case Player =>
      assert s.queue.lanes.At(System) == r.queue.lanes.At(System);
      assert s.queue.lanes.At(Automation) == r.queue.lanes.At(Automation);
    case Automation =>
      assert s.queue.lanes.At(System) == r.queue.lanes.At(System);
      assert s.queue.lanes.At(Player) == r.queue.lanes.At(Player);
  }

  /** A command no earlier than its lane goes to the end of it when there is room. */
  lemma AdmittedAtEnd(q: QueueState, c: Command)
    requires Authorized(q.policy, c) && q.lanes.Size() as real < q.maxSize
    requires var lane := q.lanes.At(c.priority); forall i | 0 <= i < |lane| :: lane[i].command.timestamp <= c.timestamp
    ensures var t := Enqueue(q, c).queue;
            && t.lanes.At(c.priority) == q.lanes.At(c.priority) + [Entry(c, q.nextSequence)]
            && (forall p': Priority | p' != c.priority :: t.lanes.At(p') == q.lanes.At(p'))
            && t.maxSize == q.maxSize && t.policy == q.policy && t.lanes.Size() == q.lanes.Size() + 1
  {
    var lane := q.lanes.At(c.priority);
    UpperBoundAtEnd(lane, c.timestamp);
    assert Insert(lane, Entry(c, q.nextSequence)) == lane + [Entry(c, q.nextSequence)];
  }

  /** An exported entry is read as its survivor, or not at all. */
  lemma NormalizesToSurvivor(c: Command, saved: SavedEntry, supported: Texts.Text -> bool, rebase: Rebase)
    requires Save(c) == Some(saved) && IsJson(c.payload)
    ensures var n := Normalize(saved, rebase); Survives(c, supported) <==> n.Some? && supported(n.value.ctype)
    ensures Survives(c, supported) ==> Normalize(saved, rebase) == Some(Survivor(c, rebase))
  {
    CloneAcceptsJson(c.payload);
    CloneTwiceIff(c.payload);
    assert PriorityOfCode(c.priority.Rank()) == Some(c.priority);
  }

  lemma SurvivorGoesToTheEnd(r: Restored, s: Restored, p: Priority, kept: seq<Command>, seen: nat, d: Command)
    requires LaneProgress(r, s, p, kept, seen) && r.queue.lanes.At(p) == []
    requires d.priority == p && Authorized(r.queue.policy, d)
    requires forall i | 0 <= i < |kept| :: kept[i].timestamp <= d.timestamp
    requires (r.queue.lanes.Size() + |kept|) as real < r.queue.maxSize
    ensures var next := Enqueue(s.queue, d).queue;
            && next.lanes.Size() > s.queue.lanes.Size()
            && LaneProgress(r, Restored(next, s.restored + 1, s.skipped), p, kept + [d], seen + 1)
  {
    LaneProgressSize(r, s, p, kept, seen);
    var done := s.queue.lanes.At(p);
    assert forall i | 0 <= i < |done| :: done[i].command == kept[i];
    AdmittedAtEnd(s.queue, d);
  }

  /** Restoring the next entry of a lane appends its command when it survives and skips it when not. */
  lemma RestoreStep(r: Restored, s: Restored, p: Priority, kept: seq<Command>, seen: nat, c: Command,
                    saved: SavedEntry, supported: Texts.Text -> bool, rebase: Rebase)
    requires Save(c) == Some(saved)
    requires LaneProgress(r, s, p, kept, seen) && r.queue.lanes.At(p) == []
    requires c.priority == p && IsJson(c.payload) && Authorized(r.queue.policy, c)
    requires forall i | 0 <= i < |kept| :: kept[i].timestamp <= c.timestamp
    requires (r.queue.lanes.Size() + |kept|) as real < r.queue.maxSize
    ensures LaneProgress(r, RestoreOne(s, saved, supported, rebase), p,
                         kept + (if Survives(c, supported) then [Survivor(c, rebase)] else []), seen + 1)
  {
    NormalizesToSurvivor(c, saved, supported, rebase);
    if Survives(c, supported) {
      SurvivorGoesToTheEnd(r, s, p, kept, seen, Survivor(c, rebase));
    } else {
      assert kept + [] == kept;
    }
  }

  lemma ExportOneMore(lane: seq<Entry>)
    requires lane != []
    ensures var last := |lane| - 1; var saved := Save(lane[last].command);
            && ExportLane(lane) == ExportLane(lane[..last]) + (if saved.Some? then [saved.value] else [])
            && (saved.Some? <==> IsJson(lane[last].command.payload))
  {
    CloneAcceptsJson(lane[|lane| - 1].command.payload);
  }

  lemma RestoreAllOneMore(r: Restored, entries: seq<SavedEntry>, saved: SavedEntry,
                          supported: Texts.Text -> bool, rebase: Rebase)
    ensures RestoreAll(r, entries + [saved], supported, rebase)
         == RestoreOne(RestoreAll(r, entries, supported, rebase), saved, supported, rebase)
  {
    assert (entries + [saved])[..|entries|] == entries;
  }

  lemma SurvivorsOneMore(lane: seq<Entry>, supported: Texts.Text -> bool, rebase: Rebase)
    requires lane != []
    ensures var (before, c) := (lane[..|lane| - 1], lane[|lane| - 1].command);
            Survivors(lane, supported, rebase) ==
            Survivors(before, supported, rebase) + (if Survives(c, supported) then [Survivor(c, rebase)] else [])
  {
  }

  /** Restoring the export of one lane into an empty lane rebuilds its survivors in order. */
  lemma {:induction false} RestoreLane(r: Restored, lane: seq<Entry>, p: Priority, n: nat,
                                       supported: Texts.Text -> bool, rebase: Rebase)
    requires LaneOk(lane, p, n, r.queue.policy) && r.queue.lanes.At(p) == []
    requires (r.queue.lanes.Size() + |lane|) as real < r.queue.maxSize + 1.0
    ensures LaneProgress(r, RestoreAll(r, ExportLane(lane), supported, rebase), p,
                         Survivors(lane, supported, rebase), |ExportLane(lane)|)
    ensures |Survivors(lane, supported, rebase)| <= |lane|
  {
    if lane == [] {
      return;
    }
    var last := |lane| - 1;
    RestoreLane(r, lane[..last], p, n, supported, rebase);
    RestoreLaneOneMore(r, lane, lane[last].command, p, n, supported, rebase);
  }

  lemma RestoreLaneOneMore(r: Restored, lane: seq<Entry>, c: Command, p: Priority, n: nat,
                           supported: Texts.Text -> bool, rebase: Rebase)
    requires LaneOk(lane, p, n, r.queue.policy) && r.queue.lanes.At(p) == []
    requires (r.queue.lanes.Size() + |lane|) as real < r.queue.maxSize + 1.0
    requires lane != [] && c == lane[|lane| - 1].command
    requires var before := lane[..|lane| - 1];
             && LaneProgress(r, RestoreAll(r, ExportLane(before), supported, rebase), p,
                             Survivors(before, supported, rebase), |ExportLane(before)|)
             && |Survivors(before, supported, rebase)| <= |before|
    ensures LaneProgress(r, RestoreAll(r, ExportLane(lane), supported, rebase), p,
                         Survivors(lane, supported, rebase), |ExportLane(lane)|)
    ensures |Survivors(lane, supported, rebase)| <= |lane|
  {
    var before := lane[..|lane| - 1];
    ExportOneMore(lane);
    SurvivorsOneMore(lane, supported, rebase);
    if IsJson(c.payload) {
      var saved := Save(c).value;
      var kept := Survivors(before, supported, rebase);
      RestoreAllOneMore(r, ExportLane(before), saved, supported, rebase);
      LaneIsNotLater(lane, p, n, r.queue.policy);
      SurvivorsAreNotLater(before, c.timestamp, supported, rebase);
      RestoreStep(r, RestoreAll(r, ExportLane(before), supported, rebase), p, kept, |ExportLane(before)|, c,
                  saved, supported, rebase);
    } else {
      assert ExportLane(lane) == ExportLane(before);
      assert Survivors(lane, supported, rebase) == Survivors(before, supported, rebase);
    }
  }

  lemma LaneIsNotLater(lane: seq<Entry>, p: Priority, n: nat, policy: Policy)
    requires LaneOk(lane, p, n, policy) && lane != []
    ensures var last := |lane| - 1;
            forall i | 0 <= i < last :: lane[..last][i].command.timestamp <= lane[last].command.timestamp
  {
    var last := |lane| - 1;
    forall i | 0 <= i < last
      ensures lane[..last][i].command.timestamp <= lane[last].command.timestamp
    {
      assert Before(lane[i], lane[last]);
    }
  }

  /**
   * Restoring the save of any well-formed queue into a queue with room for it rebuilds, lane by
   * lane, exactly the commands a save can carry, in their order, and counts every other exported
   * entry as skipped.
   */
  lemma RestoreRebuildsEverySurvivor(q: QueueState, target: QueueState, supported: Texts.Text -> bool, rebase: Rebase)
    requires WellFormed(q)
    requires target.policy == q.policy && q.lanes.Size() as real < target.maxSize + 1.0
    ensures var s := RestoreInto(target, Export(q.lanes), supported, rebase);
            && (forall p: Priority :: Rebuilt(s.queue.lanes.At(p), Survivors(q.lanes.At(p), supported, rebase)))
            && s.queue.maxSize == target.maxSize && s.queue.policy == target.policy
            && s.restored == s.queue.lanes.Size()
            && s.restored + s.skipped == |Export(q.lanes)|
  {
    forall p: Priority
      ensures LaneOk(q.lanes.At(p), p, q.nextSequence, q.policy)
    {
    }
    var r0 := Restored(target.(lanes := EMPTY_LANES), 0, 0);
    var (x, y, z) := (ExportLane(q.lanes.At(System)), ExportLane(q.lanes.At(Player)),
                      ExportLane(q.lanes.At(Automation)));
    RestoreLane(r0, q.lanes.At(System), System, q.nextSequence, supported, rebase);
    var r1 := RestoreAll(r0, x, supported, rebase);
    LaneProgressSize(r0, r1, System, Survivors(q.lanes.At(System), supported, rebase), |x|);
    RestoreLane(r1, q.lanes.At(Player), Player, q.nextSequence, supported, rebase);
    var r2 := RestoreAll(r1, y, supported, rebase);
    LaneProgressSize(r1, r2, Player, Survivors(q.lanes.At(Player), supported, rebase), |y|);
    RestoreLane(r2, q.lanes.At(Automation), Automation, q.nextSequence, supported, rebase);
    var r3 := RestoreAll(r2, z, supported, rebase);
    LaneProgressSize(r2, r3, Automation, Survivors(q.lanes.At(Automation), supported, rebase), |z|);
    RestoreAllConcat(r0, x, y, supported, rebase);
    RestoreAllConcat(r0, x + y, z, supported, rebase);
    assert r3 == RestoreInto(target, Export(q.lanes), supported, rebase);
    assert r3.queue.lanes.At(System) == r2.queue.lanes.At(System) == r1.queue.lanes.At(System);
    assert r3.queue.lanes.At(Player) == r2.queue.lanes.At(Player);
  }

  /** Whether a save brings back everything queued. */
  ghost predicate AllSurvive(q: QueueState, supported: Texts.Text -> bool) {
    forall p: Priority, i | 0 <= i < |q.lanes.At(p)| :: Survives(q.lanes.At(p)[i].command, supported)
  }

  lemma {:induction false} SurvivorsOfLane(lane: seq<Entry>, supported: Texts.Text -> bool, rebase: Rebase)
    ensures |Survivors(lane, supported, rebase)| <= |lane|
    ensures |Survivors(lane, supported, rebase)| == |lane|
       <==> forall i | 0 <= i < |lane| :: Survives(lane[i].command, supported)
    ensures |Survivors(lane, supported, rebase)| == |lane| ==>
              forall i | 0 <= i < |lane| :: Survivors(lane, supported, rebase)[i] == Survivor(lane[i].command, rebase)
  {
    if lane != [] {
      var n := |lane| - 1;
      SurvivorsOfLane(lane[..n], supported, rebase);
      assert forall i | 0 <= i < n :: lane[..n][i] == lane[i];
      if |Survivors(lane, supported, rebase)| == |lane| {
        assert Survives(lane[n].command, supported);
      }
    }
  }

  /** No lane is longer and the sizes agree: then no lane is shorter either. */
  lemma SizesAgreeIff(a: Lanes, b: Lanes)
    requires forall p: Priority :: |a.At(p)| <= |b.At(p)|
    ensures a.Size() == b.Size() <==> forall p: Priority :: |a.At(p)| == |b.At(p)|
  {
    assert |a.At(System)| <= |b.At(System)| && |a.At(Player)| <= |b.At(Player)|;
    assert |a.At(Automation)| <= |b.At(Automation)|;
    if a.Size() == b.Size() {
      forall p: Priority
        ensures |a.At(p)| == |b.At(p)|
      {
        match p
        case System =>
        case Player =>
        case Automation =>
      }
    }
  }

  lemma ExportSize(lanes: Lanes)
    ensures |Export(lanes)| <= lanes.Size()
  {
    ExportIsNoLonger(lanes.system);
    ExportIsNoLonger(lanes.player);
    ExportIsNoLonger(lanes.automation);
  }

  lemma RebuiltLane(lane: seq<Entry>, was: seq<Entry>, supported: Texts.Text -> bool, rebase: Rebase)
    requires Rebuilt(lane, Survivors(was, supported, rebase))
    ensures |lane| <= |was|
    ensures |lane| == |was| <==> forall i | 0 <= i < |was| :: Survives(was[i].command, supported)
    ensures |lane| == |was| ==>
              forall i | 0 <= i < |was| :: lane[i].command == Survivor(was[i].command, rebase)
  {
    SurvivorsOfLane(was, supported, rebase);
  }

  /** A save brings back as many commands as were queued exactly when every command survives. */
  lemma RestoreIsCompleteIff(q: QueueState, target: QueueState, supported: Texts.Text -> bool, rebase: Rebase)
    requires WellFormed(q)
    requires target.policy == q.policy && q.lanes.Size() as real < target.maxSize + 1.0
    ensures var s := RestoreInto(target, Export(q.lanes), supported, rebase);
            s.restored == q.lanes.Size() <==> AllSurvive(q, supported)
    ensures var s := RestoreInto(target, Export(q.lanes), supported, rebase);
            AllSurvive(q, supported) ==>
              s.skipped == 0 && forall p: Priority ::
                && |s.queue.lanes.At(p)| == |q.lanes.At(p)|
                && forall i | 0 <= i < |q.lanes.At(p)| ::
                     s.queue.lanes.At(p)[i].command == Survivor(q.lanes.At(p)[i].command, rebase)
  {
    RestoreRebuildsEverySurvivor(q, target, supported, rebase);
    ExportSize(q.lanes);
    var s := RestoreInto(target, Export(q.lanes), supported, rebase);
    forall p: Priority
      ensures |s.queue.lanes.At(p)| <= |q.lanes.At(p)|
      ensures |s.queue.lanes.At(p)| == |q.lanes.At(p)|
         <==> forall i | 0 <= i < |q.lanes.At(p)| :: Survives(q.lanes.At(p)[i].command, supported)
      ensures |s.queue.lanes.At(p)| == |q.lanes.At(p)| ==>
                forall i | 0 <= i < |q.lanes.At(p)| ::
                  s.queue.lanes.At(p)[i].command == Survivor(q.lanes.At(p)[i].command, rebase)
    {
      RebuiltLane(s.queue.lanes.At(p), q.lanes.At(p), supported, rebase);
    }
    SizesAgreeIff(s.queue.lanes, q.lanes);
  }

  ghost predicate AllUnharmed(q: QueueState, supported: Texts.Text -> bool) {
    forall p: Priority, i | 0 <= i < |q.lanes.At(p)| :: Unharmed(q.lanes.At(p)[i].command, supported)
  }

  /** The command as it was, with its step moved by the rebase but not below zero, and without a request id. */
  ghost predicate SameCommand(c: Command, was: Command, rebase: Rebase) {
    && c.ctype == was.ctype && c.priority == was.priority && c.timestamp == was.timestamp && c.payload == was.payload
    && c.requestId == None
    && c.step == match rebase {
                   case None => was.step
                   case Some(delta) => if was.step + delta >= 0 then was.step + delta else 0
                 }
  }

  /** The lane as it was. */
  ghost predicate SameAgain(lane: seq<Entry>, was: seq<Entry>, rebase: Rebase) {
    |lane| == |was| && forall i | 0 <= i < |was| :: SameCommand(lane[i].command, was[i].command, rebase)
  }

  lemma SameIsUnchanged(c: Command, was: Command, rebase: Rebase)
    ensures SameCommand(c, was, rebase) <==> c == Unchanged(was, rebase)
  {
  }

  lemma SameAgainIff(lane: seq<Entry>, was: seq<Entry>, supported: Texts.Text -> bool, rebase: Rebase)
    requires Rebuilt(lane, Survivors(was, supported, rebase))
    ensures SameAgain(lane, was, rebase) <==> forall i | 0 <= i < |was| :: Unharmed(was[i].command, supported)
  {
    SurvivorsOfLane(was, supported, rebase);
    forall i | 0 <= i < |was|
      ensures Unharmed(was[i].command, supported)
         <==> Survives(was[i].command, supported)
              && SameCommand(Survivor(was[i].command, rebase), was[i].command, rebase)
    {
      UnharmedIff(was[i].command, supported, rebase);
      SameIsUnchanged(Survivor(was[i].command, rebase), was[i].command, rebase);
    }
  }

  /**
   * A save restores the whole queue as it was, each step moved by the rebase, exactly when every command has a
   * JSON payload without members named like the prototype, a type that is supported and not blank, and a step
   * that is not negative.
   */
  lemma RestoreIsFaithfulIff(q: QueueState, target: QueueState, supported: Texts.Text -> bool, rebase: Rebase)
    requires WellFormed(q)
    requires target.policy == q.policy && q.lanes.Size() as real < target.maxSize + 1.0
    ensures var s := RestoreInto(target, Export(q.lanes), supported, rebase);
            (forall p: Priority :: SameAgain(s.queue.lanes.At(p), q.lanes.At(p), rebase)) <==> AllUnharmed(q, supported)
  {
    RestoreRebuildsEverySurvivor(q, target, supported, rebase);
    var s := RestoreInto(target, Export(q.lanes), supported, rebase);
    forall p: Priority
      ensures SameAgain(s.queue.lanes.At(p), q.lanes.At(p), rebase)
         <==> forall i | 0 <= i < |q.lanes.At(p)| :: Unharmed(q.lanes.At(p)[i].command, supported)
    {
      SameAgainIff(s.queue.lanes.At(p), q.lanes.At(p), supported, rebase);
    }
  }

  lemma {:induction false} ExportIsNoLonger(lane: seq<Entry>)
    ensures |ExportLane(lane)| <= |lane|
  {
    if lane != [] {
      ExportIsNoLonger(lane[..|lane| - 1]);
    }
  }

  // ----- restoring any save

  /** Which entries of a save are usable, whoever wrote it, and which command each gives. */
  lemma NormalizeIff(entry: SavedEntry, rebase: Rebase, c: Command)
    ensures Normalize(entry, rebase) == Some(c) <==>
              && entry.SavedEntry? && !IsBlank(entry.ctype) && entry.step >= 0 && IsJson(entry.payload)
              && c.ctype == entry.ctype && c.timestamp == entry.timestamp && c.requestId == None
              && (entry.priority, c.priority) in {(0, System), (1, Player), (2, Automation)}
              && c.step == (if rebase.Some? && entry.step + rebase.value < 0 then 0
                            else if rebase.Some? then entry.step + rebase.value else entry.step)
              && CloneJson(entry.payload) == Some(c.payload)
  {
    if entry.SavedEntry? {
      CloneAcceptsJson(entry.payload);
    }
  }

  /** A command that some usable entry gives, of a type the game supports. */
  ghost predicate ComesFrom(c: Command, entries: seq<SavedEntry>, supported: Texts.Text -> bool, rebase: Rebase) {
    supported(c.ctype) && exists k :: 0 <= k < |entries| && Normalize(entries[k], rebase) == Some(c)
  }

  ghost predicate AllComeFrom(lanes: Lanes, entries: seq<SavedEntry>, supported: Texts.Text -> bool, rebase: Rebase) {
    forall p: Priority, i | 0 <= i < |lanes.At(p)| :: ComesFrom(lanes.At(p)[i].command, entries, supported, rebase)
  }

  lemma ComesFromMore(c: Command, entries: seq<SavedEntry>, last: SavedEntry, supported: Texts.Text -> bool,
                      rebase: Rebase)
    ensures ComesFrom(c, entries, supported, rebase) ==> ComesFrom(c, entries + [last], supported, rebase)
    ensures Normalize(last, rebase) == Some(c) && supported(c.ctype) ==>
              ComesFrom(c, entries + [last], supported, rebase)
  {
    if k :| 0 <= k < |entries| && Normalize(entries[k], rebase) == Some(c) {
      assert (entries + [last])[k] == entries[k];
    }
    assert (entries + [last])[|entries|] == last;
  }

  /** Every entry of one is of another, or the newcomer. */
  ghost predicate NothingElse(lanes: Lanes, was: Lanes, c: Command) {
    forall p: Priority, e | e in lanes.At(p) :: e.command == c || e in was.At(p)
  }

  lemma InsertHolds(lane: seq<Entry>, e: Entry)
    ensures |Insert(lane, e)| == |lane| + 1 && forall x | x in Insert(lane, e) :: x == e || x in lane
  {
  }

  lemma AdmitSize(q: QueueState, c: Command)
    ensures Admit(q, c).lanes.Size() == q.lanes.Size() + 1 && NothingElse(Admit(q, c).lanes, q.lanes, c)
  {
    InsertHolds(q.lanes.At(c.priority), Entry(c, q.nextSequence));
    assert forall p: Priority | p != c.priority :: Admit(q, c).lanes.At(p) == q.lanes.At(p);
  }

  lemma DropSize(q: QueueState, v: Priority, c: Command)
    requires q.lanes.At(v) != []
    ensures var room := q.(lanes := q.lanes.With(v, q.lanes.At(v)[1..]));
            room.lanes.Size() == q.lanes.Size() - 1 && NothingElse(room.lanes, q.lanes, c)
  {
    var room := q.(lanes := q.lanes.With(v, q.lanes.At(v)[1..]));
    assert forall p: Priority | p != v :: room.lanes.At(p) == q.lanes.At(p);
    forall e | e in q.lanes.At(v)[1..]
      ensures e in q.lanes.At(v)
    {
    }
  }

  /** An enqueue adds one command, or swaps one for another, or changes nothing. */
  lemma EnqueueSize(q: QueueState, c: Command)
    ensures var t := Enqueue(q, c).queue;
            q.lanes.Size() <= t.lanes.Size() <= q.lanes.Size() + 1 && NothingElse(t.lanes, q.lanes, c)
  {
    AdmitSize(q, c);
    var victim := Victim(q.lanes, c.priority);
    if victim.Some? {
      VictimIsLowest(q.lanes, c.priority);
      DropSize(q, victim.value, c);
      AdmitSize(q.(lanes := q.lanes.With(victim.value, q.lanes.At(victim.value)[1..])), c);
    }
  }

  lemma RestoreOneCounts(r: Restored, entries: seq<SavedEntry>, last: SavedEntry, supported: Texts.Text -> bool,
                         rebase: Rebase)
    requires r.restored == r.queue.lanes.Size() && r.restored + r.skipped == |entries|
    requires AllComeFrom(r.queue.lanes, entries, supported, rebase)
    ensures var t := RestoreOne(r, last, supported, rebase);
            && t.restored == t.queue.lanes.Size() && t.restored + t.skipped == |entries| + 1
            && AllComeFrom(t.queue.lanes, entries + [last], supported, rebase)
  {
    var c := Normalize(last, rebase);
    if c.Some? && supported(c.value.ctype) {
      EnqueueSize(r.queue, c.value);
    }
    var t := RestoreOne(r, last, supported, rebase).queue;
    forall p: Priority, i | 0 <= i < |t.lanes.At(p)|
      ensures ComesFrom(t.lanes.At(p)[i].command, entries + [last], supported, rebase)
    {
      var d := t.lanes.At(p)[i];
      assert d in t.lanes.At(p);
      ComesFromMore(d.command, entries, last, supported, rebase);
      if d in r.queue.lanes.At(p) {
        var j :| 0 <= j < |r.queue.lanes.At(p)| && r.queue.lanes.At(p)[j] == d;
        assert ComesFrom(r.queue.lanes.At(p)[j].command, entries, supported, rebase);
      }
    }
  }

  /**
   * Whatever is in a save, a restore leaves as many commands as it counts as restored, counts every other
   * entry as skipped, and queues nothing but commands that usable entries of supported types give.
   */
  lemma {:induction false} RestoreCounts(q: QueueState, entries: seq<SavedEntry>, supported: Texts.Text -> bool,
                                         rebase: Rebase)
    ensures var r := RestoreInto(q, entries, supported, rebase);
            && r.restored == r.queue.lanes.Size() && r.restored + r.skipped == |entries|
            && AllComeFrom(r.queue.lanes, entries, supported, rebase)
  {
    if entries == [] {
      assert forall p: Priority :: EMPTY_LANES.At(p) == [];
    } else {
      var n := |entries| - 1;
      RestoreCounts(q, entries[..n], supported, rebase);
      RestoreOneCounts(RestoreInto(q, entries[..n], supported, rebase), entries[..n], entries[n], supported, rebase);
      assert entries[..n] + [entries[n]] == entries;
    }
  }

  function NewQueue(maxSize: real, policy: Policy): QueueState {
    QueueState(EMPTY_LANES, 0, maxSize, policy)
  }

  function Run(q: QueueState, ops: seq<Op>): QueueState
    decreases |ops|
  {
    if ops == [] then q else Run(Apply(q, ops[0]).0, ops[1..])
  }

  /** Lane order, the size bound and authorization hold after any history of calls. */
  lemma {:induction false} EveryHistoryIsWellFormed(q: QueueState, history: seq<Op>)
    requires WellFormed(q)
    ensures WellFormed(Run(q, history))
    ensures Run(q, history).policy == q.policy && Run(q, history).maxSize == q.maxSize
    decreases |history|
  {
    if history != [] {
      match history[0] {
        case Submit(c) =>
          EnqueueKeepsWellFormed(q, c);
        case Drain(b) =>
          DequeueKeepsWellFormed(q, b);
      }
      EveryHistoryIsWellFormed(Apply(q, history[0]).0, history[1..]);
    }
  }

  /**
   * Save and restore preserve scheduling: after any history whose queued commands all come back from
   * a save unharmed, restoring that save into any queue of the same size limit answers every later sequence
   * of calls exactly as the saved queue would have, including what overflow drops.
   */
  lemma SaveRestorePreservesScheduling(maxSize: real, policy: Policy, history: seq<Op>, target: QueueState,
                                       supported: Texts.Text -> bool, future: seq<Op>)
    requires maxSize > 0.0
    requires AllUnharmed(Run(NewQueue(maxSize, policy), history), supported)
    requires target.policy == policy && target.maxSize == maxSize
    ensures var q := Run(NewQueue(maxSize, policy), history);
            Outputs(RestoreInto(target, Export(q.lanes), supported, None).queue, future) == Outputs(q, future)
  {
    var q0 := NewQueue(maxSize, policy);
    assert forall p: Priority :: q0.lanes.At(p) == [];
    EveryHistoryIsWellFormed(q0, history);
    var q := Run(q0, history);
    RestoreRebuildsEverySurvivor(q, target, supported, None);
    RestoreIsFaithfulIff(q, target, supported, None);
    var s := RestoreInto(target, Export(q.lanes), supported, None).queue;
    forall p: Priority
      ensures SameLane(s.lanes.At(p), q.lanes.At(p))
    {
      assert SameAgain(s.lanes.At(p), q.lanes.At(p), None);
    }
    FutureAgrees(s, q, future);
  }

  function BlankCommand(): Command {
    Command([0x20], Player, 0.0, 0, Null, None)
  }

  lemma BlankIsQueued(target: QueueState)
    requires target.maxSize == 10.0 && target.policy == map[] && target.lanes == EMPTY_LANES
    ensures Enqueue(target, BlankCommand()).queue.lanes == Lanes([], [Entry(BlankCommand(), target.nextSequence)], [])
  {
  }

  lemma BlankIsNotRestored(r: Restored, supported: Texts.Text -> bool)
    ensures RestoreAll(r, [SavedEntry([0x20], 1, 0.0, 0, Null)], supported, None).queue == r.queue
  {
    var saved := SavedEntry([0x20], 1, 0.0, 0, Null);
    assert IsBlank([0x20]);
    assert RestoreAll(r, [saved][..0], supported, None) == r;
    assert RestoreAll(r, [saved], supported, None) == RestoreOne(r, saved, supported, None);
  }

  /** A command whose type is blank is accepted and then silently lost by a save. */
  lemma BlankTypeIsLost(target: QueueState, supported: Texts.Text -> bool)
    requires target.maxSize == 10.0 && target.policy == map[] && target.lanes == EMPTY_LANES
    ensures var q := Enqueue(target, BlankCommand()).queue;
            && q.lanes.Size() == 1
            && RestoreInto(target, Export(q.lanes), supported, None).queue.lanes.Size() == 0
  {
    BlankIsQueued(target);
    var lanes := Enqueue(target, BlankCommand()).queue.lanes;
    var saved := SavedEntry([0x20], 1, 0.0, 0, Null);
    assert ExportLane(lanes.player) == [saved];
    assert Export(lanes) == [saved];
    BlankIsNotRestored(Restored(target.(lanes := EMPTY_LANES), 0, 0), supported);
  }
}

/** The queue object itself: lanes are spliced, shifted and compacted in place. */
module CommandQueues {
  import opened Wrappers
  import opened Commands
  import Texts
  import opened Scheduling

  /** Binary insertion finds the same place as a scan, because new sequences are the largest. */
  lemma {:induction false} UpperBoundIsUnique(lane: seq<Entry>, t: real, k: nat)
    requires Ordered(lane) && k <= |lane|
    requires forall i | 0 <= i < k :: lane[i].command.timestamp <= t
    requires forall i | k <= i < |lane| :: lane[i].command.timestamp > t
    ensures UpperBound(lane, t) == k
  {
    if k > 0 {
      assert forall i | 0 <= i < |lane| - 1 :: lane[1..][i] == lane[i + 1];
      UpperBoundIsUnique(lane[1..], t, k - 1);
    }
  }

  lemma LaneOkAfterDrop(q: QueueState, p: Priority)
    requires WellFormed(q)
    ensures LaneOk(q.lanes.At(p), p, q.nextSequence, q.policy)
    ensures forall v: Priority | q.lanes.At(v) != [] ::
              LaneOk(q.lanes.With(v, q.lanes.At(v)[1..]).At(p), p, q.nextSequence, q.policy)
  {
    assert LaneOk(q.lanes.At(p), p, q.nextSequence, q.policy);
  }

  class CommandQueue {
    var lanes: Lanes
    var nextSequence: nat
    var totalSize: nat
    const maxSize: real
    const policy: Policy

    ghost function State(): QueueState
      reads this
    {
      QueueState(lanes, nextSequence, maxSize, policy)
    }

    ghost predicate Valid()
      reads this
    {
      totalSize == lanes.Size() && WellFormed(State())
    }

    constructor (maxSize: real, policy: Policy)
      requires maxSize > 0.0
      ensures Valid() && State() == NewQueue(maxSize, policy)
    {
      this.maxSize, this.policy := maxSize, policy;
      lanes, nextSequence, totalSize := EMPTY_LANES, 0, 0;
      new;
      assert forall p: Priority :: lanes.At(p) == [];
    }

    /** Makes room by shifting the head off the lowest nonempty lane at or below `floor`. */
    method DropLowestPriorityUpTo(floor: Priority) returns (dropped: Option<Entry>)
      requires Valid()
      modifies this`lanes, this`totalSize
      ensures totalSize == lanes.Size()
      ensures var victim := Victim(old(lanes), floor);
              if victim.None? then dropped == None && lanes == old(lanes)
              else
                var lane := old(lanes).At(victim.value);
                dropped == Some(lane[0]) && lanes == old(lanes).With(victim.value, lane[1..])
    {
      var index := |PRIORITY_ORDER|;
      while index > 0
        invariant 0 <= index <= 3 && lanes == old(lanes) && totalSize == old(totalSize)
        invariant forall j | index <= j < 3 :: j >= floor.Rank() ==> lanes.At(PRIORITY_ORDER[j]) == []
      {
        index := index - 1;
        var priority := PRIORITY_ORDER[index];
        assert priority.Rank() == index;
        if priority.Rank() < floor.Rank() {
          continue;
        }
        var queue := lanes.At(priority);
        if queue == [] {
          continue;
        }
        forall j | index < j < 3 && j >= floor.Rank()
          ensures lanes.At(PRIORITY_ORDER[j]) == []
        {
        }
        assert Victim(lanes, floor) == Some(priority) by {
          assert lanes.At(PRIORITY_ORDER[2]) == lanes.automation && lanes.At(PRIORITY_ORDER[1]) == lanes.player;
          assert lanes.At(PRIORITY_ORDER[0]) == lanes.system;
        }
        lanes := lanes.With(priority, queue[1..]);
        totalSize := totalSize - 1;
        return Some(queue[0]);
      }
      assert lanes.At(PRIORITY_ORDER[2]) == lanes.automation && lanes.At(PRIORITY_ORDER[1]) == lanes.player;
      assert lanes.At(PRIORITY_ORDER[0]) == lanes.system;
      return None;
    }

    /** Binary search for the place of a newcomer, by timestamp and then by sequence. */
    method FindPlace(queue: seq<Entry>, entry: Entry) returns (low: nat)
      requires Ordered(queue) && forall i | 0 <= i < |queue| :: queue[i].sequence < entry.sequence
      ensures low == UpperBound(queue, entry.command.timestamp)
    {
      low := 0;
      var high := |queue|;
      while low < high
        invariant low <= high <= |queue|
        invariant forall i | 0 <= i < low :: queue[i].command.timestamp <= entry.command.timestamp
        invariant forall i | high <= i < |queue| :: queue[i].command.timestamp > entry.command.timestamp
      {
        var mid := (low + high) / 2;
        assert forall i | 0 <= i < mid :: Before(queue[i], queue[mid]);
        assert forall i | mid < i < |queue| :: Before(queue[mid], queue[i]);
        if Before(queue[mid], entry) {
          low := mid + 1;
        } else {
          high := mid;
        }
      }
      UpperBoundIsUnique(queue, entry.command.timestamp, low);
    }

    /** Stamps the next sequence number on a command and splices it into its lane. */
    method Splice(command: Command)
      requires totalSize == lanes.Size()
      requires LaneOk(lanes.At(command.priority), command.priority, nextSequence, policy)
      modifies this
      ensures totalSize == lanes.Size()
      ensures State() == Admit(old(State()), command)
    {
      var queue := lanes.At(command.priority);
      var entry := Entry(command, nextSequence);
      nextSequence := nextSequence + 1;
      var low := FindPlace(queue, entry);
      lanes := lanes.With(command.priority, queue[..low] + [entry] + queue[low..]);
      totalSize := totalSize + 1;
    }

    /** At the size limit, drops an entry that the command may displace. */
    method MakeRoom(command: Command) returns (room: bool)
      requires Valid()
      modifies this`lanes, this`totalSize
      ensures totalSize == lanes.Size()
      ensures LaneOk(lanes.At(command.priority), command.priority, nextSequence, policy)
      ensures room <==> old(lanes).Size() as real < maxSize || Victim(old(lanes), command.priority).Some?
      ensures lanes == if old(lanes).Size() as real < maxSize || !room then old(lanes)
                       else
                         var v := Victim(old(lanes), command.priority).value;
                         old(lanes).With(v, old(lanes).At(v)[1..])
    {
      LaneOkAfterDrop(State(), command.priority);
      room := true;
      if totalSize as real >= maxSize {
        var dropped := DropLowestPriorityUpTo(command.priority);
        room := dropped != None;
      }
    }

    method Enqueue(command: Command) returns (accepted: bool)
      requires Valid()
      modifies this
      ensures Valid()
      ensures var r := Scheduling.Enqueue(old(State()), command);
              State() == r.queue && accepted == r.accepted
      ensures Answered(old(State()), command, State(), accepted)
    {
      EnqueueIsAnswered(State(), command);
      EnqueueKeepsWellFormed(State(), command);
      if !Authorized(policy, command) {
        return false;
      }
      var room := MakeRoom(command);
      if !room {
        return false;
      }
      Splice(command);
      return true;
    }

    /** Splits one lane by a read and a write index, overwriting kept entries in place. */
    method CompactLane(lane: seq<Entry>, bound: Bound) returns (kept: seq<Entry>, drained: seq<Entry>)
      ensures kept == Later(lane, bound) && drained == Due(lane, bound)
    {
      var queue := lane;
      drained := [];
      var writeIndex := 0;
      for readIndex := 0 to |queue|
        invariant |queue| == |lane| && 0 <= writeIndex <= readIndex
        invariant queue[..writeIndex] == Later(lane[..readIndex], bound)
        invariant queue[readIndex..] == lane[readIndex..]
        invariant drained == Due(lane[..readIndex], bound)
      {
        var entry := queue[readIndex];
        assert entry == lane[readIndex] by { assert queue[readIndex..][0] == lane[readIndex..][0]; }
        assert lane[..readIndex + 1][..readIndex] == lane[..readIndex];
        ghost var was := queue;
        if bound.Covers(entry.command) {
          drained := drained + [entry];
        } else {
          if writeIndex != readIndex {
            queue := queue[writeIndex := entry];
          }
          assert queue[..writeIndex + 1] == was[..writeIndex] + [entry];
          writeIndex := writeIndex + 1;
        }
        assert queue[readIndex + 1..] == was[readIndex..][1..] == lane[readIndex + 1..];
      }
      assert lane[..|lane|] == lane;
      kept := queue[..writeIndex];
    }

    method DequeueUpToStep(bound: Bound) returns (drained: seq<Entry>)
      requires Valid()
      modifies this`lanes, this`totalSize
      ensures Valid()
      ensures (State(), drained) == Dequeue(old(State()), bound)
    {
      DequeueKeepsWellFormed(State(), bound);
      DequeueSize(State(), bound);
      if totalSize == 0 {
        assert lanes == EMPTY_LANES;
        return [];
      }
      var keptSystem, dueSystem := CompactLane(lanes.system, bound);
      var keptPlayer, duePlayer := CompactLane(lanes.player, bound);
      var keptAutomation, dueAutomation := CompactLane(lanes.automation, bound);
      lanes := Lanes(keptSystem, keptPlayer, keptAutomation);
      drained := dueSystem + duePlayer + dueAutomation;
      totalSize := totalSize - |drained|;
    }

    method Clear()
      requires Valid()
      modifies this`lanes, this`totalSize
      ensures Valid() && State() == old(State()).(lanes := EMPTY_LANES)
    {
      lanes, totalSize := EMPTY_LANES, 0;
      assert forall p: Priority :: lanes.At(p) == [];
    }

    method ExportLaneForSave(queue: seq<Entry>) returns (entries: seq<SavedEntry>)
      ensures entries == ExportLane(queue)
    {
      entries := [];
      for i := 0 to |queue|
        invariant entries == ExportLane(queue[..i])
      {
        assert queue[..i + 1][..i] == queue[..i];
        var saved := Save(queue[i].command);
        if saved.Some? {
          entries := entries + [saved.value];
        }
      }
      assert queue[..|queue|] == queue;
    }

    method ExportForSave() returns (entries: seq<SavedEntry>)
      ensures entries == Export(lanes)
    {
      var system := ExportLaneForSave(lanes.system);
      var player := ExportLaneForSave(lanes.player);
      var automation := ExportLaneForSave(lanes.automation);
      entries := system + player + automation;
    }

    /** Enqueues one entry of a save if it is usable; it counts as restored when the queue has grown. */
    method RestoreEntry(entry: SavedEntry, supported: Texts.Text -> bool, rebase: Rebase, ghost was: Restored)
      returns (restored: bool)
      requires Valid() && was.queue == State()
      modifies this
      ensures Valid()
      ensures RestoreOne(was, entry, supported, rebase)
           == Restored(State(), was.restored + (if restored then 1 else 0), was.skipped + (if restored then 0 else 1))
    {
      var command := Normalize(entry, rebase);
      if command == None || !supported(command.value.ctype) {
        return false;
      }
      var sizeBefore := totalSize;
      var _ := Enqueue(command.value);
      restored := totalSize > sizeBefore;
    }

    /** Clears the queue and enqueues every usable entry of a save, counting the others. */
    method RestoreFromSave(entries: seq<SavedEntry>, supported: Texts.Text -> bool, rebase: Rebase)
      returns (restored: nat, skipped: nat)
      requires Valid()
      modifies this
      ensures Valid()
      ensures Restored(State(), restored, skipped) == RestoreInto(old(State()), entries, supported, rebase)
    {
      Clear();
      restored, skipped := 0, 0;
      ghost var cleared := Restored(State(), 0, 0);
      for i := 0 to |entries|
        invariant Valid()
        invariant Restored(State(), restored, skipped) == RestoreAll(cleared, entries[..i], supported, rebase)
      {
        assert entries[..i + 1][..i] == entries[..i];
        var grown := RestoreEntry(entries[i], supported, rebase, Restored(State(), restored, skipped));
        if grown {
          restored := restored + 1;
        } else {
          skipped := skipped + 1;
        }
      }
      assert entries[..|entries|] == entries;
    }
  }
}
