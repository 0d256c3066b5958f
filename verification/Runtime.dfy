/**
 * What executing commands in fixed steps promises (packages/core/src/internals.browser.ts,
 * `runTickStep`): a machine on values that remembers every accepted command and its fate.
 */
module Execution {
  import opened Wrappers
  import opened Commands
  import opened Scheduling

  /**
   * Everything that handlers and systems do to the kernel during a tick: the commands they enqueue
   * and the time they credit, as arbitrary functions of the step and of the command executed. Where
   * `fails` holds, an event subscriber throws once the commands have run, which ends the step; what
   * systems enqueue and credit in such a step is what they do before that.
   */
  datatype World = World(
    onCommand: (int, Entry) -> seq<Command>,
    onSystems: int -> seq<Command>,
    credited: int -> int,
    fails: int -> bool)

  datatype Executed = Executed(entry: Entry, atStep: int)

  /** `accepted[k]` is the command that received sequence number `k`; `log` is what handlers ran. */
  datatype Machine = Machine(
    queue: QueueState,
    currentStep: int,
    nextExecutableStep: int,
    accepted: seq<Command>,
    dropped: set<nat>,
    log: seq<Executed>,
    skipped: seq<Entry>)

  function Submit(m: Machine, c: Command): Machine {
    var r := Enqueue(m.queue, c);
    if !r.accepted then m
    else m.(queue := r.queue,
            accepted := m.accepted + [c],
            dropped := m.dropped + (if r.dropped.Some? then {r.dropped.value.sequence} else {}))
  }

  function SubmitAll(m: Machine, cs: seq<Command>): Machine {
    if cs == [] then m else Submit(SubmitAll(m, cs[..|cs| - 1]), cs[|cs| - 1])
  }

  /** One iteration of the execution loop: a step mismatch is skipped, anything else is handled. */
  function Execute(m: Machine, e: Entry, world: World): Machine {
    if e.command.step != m.currentStep then m.(skipped := m.skipped + [e])
    else SubmitAll(m.(log := m.log + [Executed(e, m.currentStep)]), world.onCommand(m.currentStep, e))
  }

  function ExecuteAll(m: Machine, batch: seq<Entry>, world: World): Machine {
    if batch == [] then m else Execute(ExecuteAll(m, batch[..|batch| - 1], world), batch[|batch| - 1], world)
  }

  function Capture(m: Machine): (Machine, seq<Entry>) {
    var (q, batch) := Dequeue(m.queue, UpTo(m.currentStep));
    (m.(queue := q, nextExecutableStep := m.currentStep + 1), batch)
  }

  /** A step up to where it is closed. */
  function Perform(m: Machine, world: World): Machine {
    var (captured, batch) := Capture(m);
    SubmitAll(ExecuteAll(captured, batch, world), world.onSystems(m.currentStep))
  }

  function RunStep(m: Machine, world: World): Machine {
    Perform(m, world).(currentStep := m.currentStep + 1, nextExecutableStep := m.currentStep + 1)
  }

  function Iterate<T>(f: T -> T, x: T, n: nat): T {
    if n == 0 then x else f(Iterate(f, x, n - 1))
  }

  function Stepper(world: World): Machine -> Machine {
    (m: Machine) => RunStep(m, world)
  }

  // ----- the fate of every accepted command

  function EntryOf(m: Machine, k: nat): Entry
    requires k < |m.accepted|
  {
    Entry(m.accepted[k], k)
  }

  predicate Queued(m: Machine, k: nat)
    requires k < |m.accepted|
  {
    EntryOf(m, k) in m.queue.lanes.At(m.accepted[k].priority)
  }

  predicate Ran(m: Machine, k: nat)
    requires k < |m.accepted|
  {
    Executed(EntryOf(m, k), m.accepted[k].step) in m.log
  }

  /** Execution order: by step, then priority, then timestamp, then sequence. */
  predicate RunsBefore(a: Executed, b: Executed) {
    a.atStep < b.atStep || (a.atStep == b.atStep && DispatchedBefore(a.entry, b.entry))
  }

  /** Exactly one of queued, captured but not yet run, run, and displaced by overflow. */
  ghost predicate OneFate(m: Machine, pending: seq<Entry>, k: nat)
    requires k < |m.accepted|
  {
    var (q, p, r, d) := (Queued(m, k), EntryOf(m, k) in pending, Ran(m, k), k in m.dropped);
    && (q || p || r || d)
    && !(q && p) && !(q && r) && !(q && d) && !(p && r) && !(p && d) && !(r && d)
  }

  ghost predicate QueueMatches(m: Machine) {
    && WellFormed(m.queue) && |m.accepted| == m.queue.nextSequence
    && forall p: Priority, e: Entry | e in m.queue.lanes.At(p) ::
         e.sequence < |m.accepted| && e == EntryOf(m, e.sequence) && e.command.step >= m.nextExecutableStep
  }

  ghost predicate LogMatches(m: Machine) {
    && (forall i | 0 <= i < |m.log| ::
          && m.log[i].entry.sequence < |m.accepted|
          && m.log[i] == Executed(EntryOf(m, m.log[i].entry.sequence), m.log[i].entry.command.step)
          && m.log[i].atStep < m.nextExecutableStep)
    && forall i, j | 0 <= i < j < |m.log| :: RunsBefore(m.log[i], m.log[j])
  }

  ghost predicate PendingMatches(m: Machine, pending: seq<Entry>) {
    && (forall i | 0 <= i < |pending| ::
          && pending[i].sequence < |m.accepted| && pending[i] == EntryOf(m, pending[i].sequence)
          && pending[i].command.step == m.currentStep < m.nextExecutableStep)
    && (forall i, j | 0 <= i < j < |pending| :: DispatchedBefore(pending[i], pending[j]))
    && forall i, j | 0 <= i < |m.log| && 0 <= j < |pending| ::
         RunsBefore(m.log[i], Executed(pending[j], m.currentStep))
  }

  ghost predicate Sound(m: Machine, pending: seq<Entry>) {
    && QueueMatches(m) && LogMatches(m) && PendingMatches(m, pending)
    && (forall k | k in m.dropped :: k < |m.accepted|)
    && (forall k | 0 <= k < |m.accepted| :: OneFate(m, pending, k))
    && m.skipped == []
  }

  lemma InsertMembership<T>(s: seq<T>, k: nat, x: T, e: T)
    requires k <= |s|
    ensures e in s[..k] + [x] + s[k..] <==> e in s || e == x
  {
    assert s == s[..k] + s[k..];
  }

  lemma AdmitMembership(q: QueueState, c: Command, p: Priority, e: Entry)
    ensures e in Admit(q, c).lanes.At(p)
       <==> e in q.lanes.At(p) || (p == c.priority && e == Entry(c, q.nextSequence))
  {
    var lane := q.lanes.At(c.priority);
    var k := UpperBound(lane, c.timestamp);
    InsertMembership(lane, k, Entry(c, q.nextSequence), e);
  }

  lemma DropMembership(q: QueueState, v: Priority, p: Priority, e: Entry)
    requires WellFormed(q) && q.lanes.At(v) != []
    ensures e in q.lanes.With(v, q.lanes.At(v)[1..]).At(p) <==> e in q.lanes.At(p) && e != q.lanes.At(v)[0]
    ensures q.lanes.At(v)[0].command.priority == v
  {
    var lane := q.lanes.At(v);
    assert LaneOk(lane, v, q.nextSequence, q.policy);
    assert LaneOk(q.lanes.At(p), p, q.nextSequence, q.policy);
    assert lane == [lane[0]] + lane[1..];
    forall i | 0 <= i < |lane| - 1
      ensures lane[1..][i] != lane[0]
    {
      assert Before(lane[0], lane[i + 1]);
    }
  }

  /** What one enqueue does to lane membership. */
  lemma EnqueueMembership(q: QueueState, c: Command, p: Priority, e: Entry)
    requires WellFormed(q)
    ensures var r := Enqueue(q, c);
            e in r.queue.lanes.At(p) <==>
              || (e in q.lanes.At(p) && r.dropped != Some(e))
              || (r.accepted && p == c.priority && e == Entry(c, q.nextSequence))
    ensures var r := Enqueue(q, c);
            r.dropped.Some? ==> r.dropped.value in q.lanes.At(r.dropped.value.command.priority)
  {
    var r := Enqueue(q, c);
    if r.dropped.Some? {
      var v := Victim(q.lanes, c.priority).value;
      DropMembership(q, v, p, e);
      AdmitMembership(q.(lanes := q.lanes.With(v, q.lanes.At(v)[1..])), c, p, e);
    } else if r.accepted {
      AdmitMembership(q, c, p, e);
    }
  }

  lemma SubmitMembership(m: Machine, c: Command, k: nat)
    requires QueueMatches(m) && k < |m.accepted|
    ensures var n := Submit(m, c);
            && (Queued(n, k) <==> Queued(m, k) && Enqueue(m.queue, c).dropped != Some(EntryOf(m, k)))
            && (k in n.dropped <==> k in m.dropped || Enqueue(m.queue, c).dropped == Some(EntryOf(m, k)))
            && EntryOf(n, k) == EntryOf(m, k)
  {
    var r := Enqueue(m.queue, c);
    EnqueueMembership(m.queue, c, m.accepted[k].priority, EntryOf(m, k));
    if r.dropped.Some? {
      assert r.dropped.value == EntryOf(m, r.dropped.value.sequence);
    }
  }

  lemma SubmitKeepsQueueMatches(m: Machine, c: Command)
    requires QueueMatches(m) && c.step >= m.nextExecutableStep
    ensures QueueMatches(Submit(m, c))
  {
    var n := Submit(m, c);
    EnqueueKeepsWellFormed(m.queue, c);
    forall p: Priority, e: Entry | e in n.queue.lanes.At(p)
      ensures e.sequence < |n.accepted| && e == EntryOf(n, e.sequence) && e.command.step >= n.nextExecutableStep
    {
      EnqueueMembership(m.queue, c, p, e);
    }
  }

  lemma SubmitDecidesNewFate(m: Machine, pending: seq<Entry>, c: Command)
    requires QueueMatches(m) && LogMatches(m) && PendingMatches(m, pending)
    requires forall k | k in m.dropped :: k < |m.accepted|
    requires Enqueue(m.queue, c).accepted
    ensures OneFate(Submit(m, c), pending, |m.accepted|)
  {
    EnqueueMembership(m.queue, c, c.priority, Entry(c, m.queue.nextSequence));
  }

  lemma SubmitKeepsRecords(m: Machine, pending: seq<Entry>, c: Command)
    requires LogMatches(m) && PendingMatches(m, pending)
    ensures LogMatches(Submit(m, c)) && PendingMatches(Submit(m, c), pending)
  {
  }

  lemma SubmitKeepsFates(m: Machine, pending: seq<Entry>, c: Command, k: nat)
    requires Sound(m, pending) && k < |Submit(m, c).accepted|
    ensures OneFate(Submit(m, c), pending, k)
  {
    if k < |m.accepted| {
      assert OneFate(m, pending, k);
      SubmitMembership(m, c, k);
    } else {
      SubmitDecidesNewFate(m, pending, c);
    }
  }

  /** Accepting or refusing a command keeps every fate decided exactly once. */
  lemma SubmitIsSound(m: Machine, pending: seq<Entry>, c: Command)
    requires Sound(m, pending) && c.step >= m.nextExecutableStep
    ensures Sound(Submit(m, c), pending)
  {
    var n := Submit(m, c);
    SubmitKeepsQueueMatches(m, c);
    SubmitKeepsRecords(m, pending, c);
    forall k | 0 <= k < |n.accepted|
      ensures OneFate(n, pending, k)
    {
      SubmitKeepsFates(m, pending, c, k);
    }
    forall k | k in n.dropped
      ensures k < |n.accepted|
    {
      if k !in m.dropped {
        var d := Enqueue(m.queue, c).dropped.value;
        EnqueueMembership(m.queue, c, d.command.priority, d);
      }
    }
  }

  ghost predicate AllFrom(cs: seq<Command>, step: int) {
    forall i | 0 <= i < |cs| :: cs[i].step >= step
  }

  lemma {:induction false} SubmitAllIsSound(m: Machine, pending: seq<Entry>, cs: seq<Command>)
    requires Sound(m, pending) && AllFrom(cs, m.nextExecutableStep)
    ensures Sound(SubmitAll(m, cs), pending)
    ensures SubmitAll(m, cs).currentStep == m.currentStep
    ensures SubmitAll(m, cs).nextExecutableStep == m.nextExecutableStep
  {
    if cs != [] {
      SubmitAllIsSound(m, pending, cs[..|cs| - 1]);
      SubmitIsSound(SubmitAll(m, cs[..|cs| - 1]), pending, cs[|cs| - 1]);
    }
  }

  /** The discipline of producers: nothing is stamped before the next executable step. */
  ghost predicate Stamped(world: World) {
    && (forall s: int, e: Entry :: AllFrom(world.onCommand(s, e), s + 1))
    && forall s: int :: AllFrom(world.onSystems(s), s + 1)
  }

  lemma HeadIsAlone(pending: seq<Entry>, e: Entry)
    requires pending != [] && forall i, j | 0 <= i < j < |pending| :: DispatchedBefore(pending[i], pending[j])
    ensures e in pending <==> e == pending[0] || e in pending[1..]
    ensures pending[0] !in pending[1..]
  {
    assert pending == [pending[0]] + pending[1..];
    forall i | 0 <= i < |pending| - 1
      ensures pending[1..][i] != pending[0]
    {
      assert DispatchedBefore(pending[0], pending[i + 1]);
    }
  }

  lemma LoggingKeepsRecords(m: Machine, pending: seq<Entry>)
    requires LogMatches(m) && PendingMatches(m, pending) && pending != []
    ensures var n := m.(log := m.log + [Executed(pending[0], m.currentStep)]);
            LogMatches(n) && PendingMatches(n, pending[1..])
  {
  }

  lemma MoveToLog(m: Machine, pending: seq<Entry>)
    requires Sound(m, pending) && pending != []
    ensures Sound(m.(log := m.log + [Executed(pending[0], m.currentStep)]), pending[1..])
  {
    var e := pending[0];
    var n := m.(log := m.log + [Executed(e, m.currentStep)]);
    LoggingKeepsRecords(m, pending);
    forall k | 0 <= k < |n.accepted|
      ensures OneFate(n, pending[1..], k)
    {
      assert OneFate(m, pending, k);
      HeadIsAlone(pending, EntryOf(m, k));
      assert Ran(n, k) <==> Ran(m, k) || EntryOf(m, k) == e;
    }
  }

  lemma {:induction false} ExecuteAllIsSound(m: Machine, batch: seq<Entry>, rest: seq<Entry>, world: World)
    requires Sound(m, batch + rest) && Stamped(world) && m.nextExecutableStep == m.currentStep + 1
    ensures var n := ExecuteAll(m, batch, world);
            Sound(n, rest) && n.currentStep == m.currentStep && n.nextExecutableStep == m.nextExecutableStep
  {
    if batch == [] {
      assert batch + rest == rest;
      return;
    }
    var last := |batch| - 1;
    assert batch + rest == batch[..last] + ([batch[last]] + rest);
    ExecuteAllIsSound(m, batch[..last], [batch[last]] + rest, world);
    var n := ExecuteAll(m, batch[..last], world);
    var pending := [batch[last]] + rest;
    assert pending[0] == batch[last] && pending[1..] == rest;
    MoveToLog(n, pending);
    SubmitAllIsSound(n.(log := n.log + [Executed(batch[last], n.currentStep)]), rest,
                     world.onCommand(n.currentStep, batch[last]));
  }

  /** The next executable step is the current one, or the one after it if the current one was broken off. */
  predicate Paced(m: Machine) {
    m.currentStep <= m.nextExecutableStep <= m.currentStep + 1
  }

  lemma CaptureMembership(m: Machine, e: Entry)
    requires WellFormed(m.queue)
    ensures e in Capture(m).1 <==> e in m.queue.lanes.At(e.command.priority) && e.command.step <= m.currentStep
    ensures e in Capture(m).0.queue.lanes.At(e.command.priority)
       <==> e in m.queue.lanes.At(e.command.priority) && e.command.step > m.currentStep
  {
    DequeueIsComplete(m.queue, UpTo(m.currentStep), e);
  }

  lemma CaptureKeepsQueueMatches(m: Machine)
    requires QueueMatches(m)
    ensures QueueMatches(Capture(m).0)
  {
    var n := Capture(m).0;
    DequeueKeepsWellFormed(m.queue, UpTo(m.currentStep));
    forall p: Priority, e: Entry | e in n.queue.lanes.At(p)
      ensures e.sequence < |n.accepted| && e == EntryOf(n, e.sequence) && e.command.step >= n.nextExecutableStep
    {
      EntriesSitInTheirLane(n.queue, p, e);
      CaptureMembership(m, e);
    }
  }

  lemma CapturedIsPending(m: Machine)
    requires QueueMatches(m) && LogMatches(m) && Paced(m)
    ensures LogMatches(Capture(m).0) && PendingMatches(Capture(m).0, Capture(m).1)
  {
    var (n, batch) := Capture(m);
    DequeueIsOrdered(m.queue, UpTo(m.currentStep));
    forall i | 0 <= i < |batch|
      ensures batch[i].sequence < |n.accepted| && batch[i] == EntryOf(n, batch[i].sequence)
      ensures m.nextExecutableStep <= batch[i].command.step == n.currentStep
    {
      assert batch[i] in batch;
      CaptureMembership(m, batch[i]);
    }
  }

  lemma CaptureIsSound(m: Machine)
    requires Sound(m, []) && Paced(m)
    ensures Sound(Capture(m).0, Capture(m).1)
  {
    var (n, batch) := Capture(m);
    CaptureKeepsQueueMatches(m);
    CapturedIsPending(m);
    forall k | 0 <= k < |n.accepted|
      ensures OneFate(n, batch, k)
    {
      assert OneFate(m, [], k);
      CaptureMembership(m, EntryOf(m, k));
    }
  }

  lemma ClosingAStepIsSound(m: Machine, step: int, n: Machine)
    requires Sound(m, []) && m.nextExecutableStep == step
    requires n == m.(currentStep := step, nextExecutableStep := step)
    ensures Sound(n, []) && Paced(n)
  {
    forall k | 0 <= k < |n.accepted|
      ensures OneFate(n, [], k)
    {
      assert OneFate(m, [], k);
    }
  }

  lemma PerformIsSound(m: Machine, world: World)
    requires Sound(m, []) && Paced(m) && Stamped(world)
    ensures Sound(Perform(m, world), [])
    ensures Perform(m, world).currentStep == m.currentStep && Perform(m, world).nextExecutableStep == m.currentStep + 1
  {
    CaptureIsSound(m);
    var (captured, batch) := Capture(m);
    assert Sound(captured, batch + []) by {
      assert batch + [] == batch;
    }
    ExecuteAllIsSound(captured, batch, [], world);
    SubmitAllIsSound(ExecuteAll(captured, batch, world), [], world.onSystems(m.currentStep));
  }

  lemma RunStepIsSound(m: Machine, world: World)
    requires Sound(m, []) && Paced(m) && Stamped(world)
    ensures Sound(RunStep(m, world), []) && Paced(RunStep(m, world))
  {
    PerformIsSound(m, world);
    ClosingAStepIsSound(Perform(m, world), m.currentStep + 1, RunStep(m, world));
  }

  // ----- whole runs

  datatype Event = Enqueued(c: Command) | Ticked(world: World)

  function Step(m: Machine, event: Event): Machine {
    match event
    case Enqueued(c) => Submit(m, c)
    case Ticked(world) => if world.fails(m.currentStep) then Perform(m, world) else RunStep(m, world)
  }

  function RunAll(m: Machine, events: seq<Event>): Machine {
    if events == [] then m else Step(RunAll(m, events[..|events| - 1]), events[|events| - 1])
  }

  ghost predicate Disciplined(m: Machine, events: seq<Event>) {
    events == [] ||
    (var last := |events| - 1;
     && Disciplined(m, events[..last])
     && match events[last] {
          case Enqueued(c) => c.step >= RunAll(m, events[..last]).nextExecutableStep
          case Ticked(world) => Stamped(world)
        })
  }

  function NewMachine(maxSize: real, policy: Policy, initialStep: int): Machine {
    Machine(NewQueue(maxSize, policy), initialStep, initialStep, [], {}, [], [])
  }

  lemma {:induction false} RunsAreSound(m: Machine, events: seq<Event>)
    requires Sound(m, []) && Paced(m) && Disciplined(m, events)
    ensures Sound(RunAll(m, events), []) && Paced(RunAll(m, events))
  {
    if events != [] {
      var last := |events| - 1;
      RunsAreSound(m, events[..last]);
      match events[last] {
        case Enqueued(c) => SubmitIsSound(RunAll(m, events[..last]), [], c);
        case Ticked(world) =>
          PerformIsSound(RunAll(m, events[..last]), world);
          RunStepIsSound(RunAll(m, events[..last]), world);
      }
    }
  }

  /** Run at exactly one place of the log, in the tick of its own step. */
  ghost predicate RanOnce(m: Machine, k: nat)
    requires k < |m.accepted|
  {
    exists i | 0 <= i < |m.log| ::
      && m.log[i] == Executed(EntryOf(m, k), m.accepted[k].step)
      && forall j | 0 <= j < |m.log| && j != i :: m.log[j].entry.sequence != k
  }

  lemma RanMeansRanOnce(m: Machine, k: nat)
    requires Sound(m, []) && k < |m.accepted| && Ran(m, k)
    ensures RanOnce(m, k)
  {
    var i :| 0 <= i < |m.log| && m.log[i] == Executed(EntryOf(m, k), m.accepted[k].step);
    forall j | 0 <= j < |m.log| && j != i
      ensures m.log[j].entry.sequence != k
    {
      assert if i < j then RunsBefore(m.log[i], m.log[j]) else RunsBefore(m.log[j], m.log[i]);
    }
  }

  /**
   * Exactly-once execution over every run, steps that a subscriber breaks off included: each accepted
   * command is either displaced by overflow, still queued for a step whose commands were not yet
   * captured, or was run at one place of the log, in the tick of its own step; nothing was skipped; and
   * the whole log is in execution order.
   */
  lemma ExactlyOnce(maxSize: real, policy: Policy, initialStep: int, events: seq<Event>)
    requires maxSize > 0.0 && Disciplined(NewMachine(maxSize, policy, initialStep), events)
    ensures var m := RunAll(NewMachine(maxSize, policy, initialStep), events);
            && m.skipped == [] && m.currentStep <= m.nextExecutableStep <= m.currentStep + 1
            && (forall i, j | 0 <= i < j < |m.log| :: RunsBefore(m.log[i], m.log[j]))
            && forall k | 0 <= k < |m.accepted| ::
                 || (k in m.dropped && !Queued(m, k) && !Ran(m, k))
                 || (Queued(m, k) && m.accepted[k].step >= m.nextExecutableStep && k !in m.dropped && !Ran(m, k))
                 || (RanOnce(m, k) && m.accepted[k].step < m.nextExecutableStep && k !in m.dropped && !Queued(m, k))
  {
    var m0 := NewMachine(maxSize, policy, initialStep);
    assert forall p: Priority :: m0.queue.lanes.At(p) == [];
    RunsAreSound(m0, events);
    var m := RunAll(m0, events);
    forall k | 0 <= k < |m.accepted|
      ensures || (k in m.dropped && !Queued(m, k) && !Ran(m, k))
              || (Queued(m, k) && m.accepted[k].step >= m.nextExecutableStep && k !in m.dropped && !Ran(m, k))
              || (RanOnce(m, k) && m.accepted[k].step < m.nextExecutableStep && k !in m.dropped && !Queued(m, k))
    {
      assert OneFate(m, [], k);
      if Ran(m, k) {
        RanMeansRanOnce(m, k);
      }
    }
  }

  // ----- what a step enqueues

  /** Commands offered to a queue one after the other: the queue they leave, which were taken, what was displaced. */
  datatype Offered = Offered(queue: QueueState, taken: seq<Command>, dropped: set<nat>)

  function Offer(q: QueueState, cs: seq<Command>): Offered {
    if cs == [] then Offered(q, [], {})
    else
      var before, c := Offer(q, cs[..|cs| - 1]), cs[|cs| - 1];
      var r := Enqueue(before.queue, c);
      Offered(r.queue, before.taken + (if r.accepted then [c] else []),
              before.dropped + (if r.dropped.Some? then {r.dropped.value.sequence} else {}))
  }

  /** The `k`-th command offered is taken unless it is forbidden or finds no room. */
  lemma OfferAnswers(q: QueueState, cs: seq<Command>, k: nat) returns (accepted: bool)
    requires k < |cs|
    ensures var before, after := Offer(q, cs[..k]), Offer(q, cs[..k + 1]);
            && Answered(before.queue, cs[k], after.queue, accepted)
            && after.taken == before.taken + (if accepted then [cs[k]] else [])
  {
    var some := cs[..k + 1];
    assert some[..|some| - 1] == cs[..k] && some[|some| - 1] == cs[k];
    var r := Enqueue(Offer(q, cs[..k]).queue, cs[k]);
    EnqueueIsAnswered(Offer(q, cs[..k]).queue, cs[k]);
    accepted := r.accepted;
  }

  lemma OneIsTaken(q: QueueState, c: Command)
    requires Authorized(q.policy, c) && q.lanes.Size() as real < q.maxSize
    ensures var r := Enqueue(q, c);
            && r == Scheduling.Enqueued.Enqueued(Admit(q, c), true, None) && r.queue.nextSequence == q.nextSequence + 1
            && r.queue.policy == q.policy && r.queue.maxSize == q.maxSize
            && r.queue.lanes.Size() == q.lanes.Size() + 1
  {
  }

  /** There is room for all of these commands, and all are allowed. */
  ghost predicate Welcome(q: QueueState, cs: seq<Command>) {
    && (q.lanes.Size() + |cs|) as real < q.maxSize + 1.0
    && forall k | 0 <= k < |cs| :: Authorized(q.policy, cs[k])
  }

  /** Then all are taken, under consecutive sequence numbers, and nothing is displaced. */
  lemma {:induction false} AllAreTaken(q: QueueState, cs: seq<Command>)
    requires Welcome(q, cs)
    ensures var o := Offer(q, cs);
            && o.taken == cs && o.dropped == {} && o.queue.nextSequence == q.nextSequence + |cs|
            && o.queue.policy == q.policy && o.queue.maxSize == q.maxSize
            && o.queue.lanes.Size() == q.lanes.Size() + |cs|
  {
    if cs != [] {
      var n := |cs| - 1;
      assert Welcome(q, cs[..n]);
      AllAreTaken(q, cs[..n]);
      OneIsTaken(Offer(q, cs[..n]).queue, cs[n]);
      assert cs[..n] + [cs[n]] == cs;
    }
  }

  /** One of these commands under its number, counted from `first`. */
  ghost predicate IsNumbered(cs: seq<Command>, first: nat, e: Entry) {
    first <= e.sequence < first + |cs| && e.command == cs[e.sequence - first]
  }

  lemma OneMoreIsNumbered(cs: seq<Command>, first: nat, e: Entry)
    requires cs != []
    ensures var n := |cs| - 1;
            IsNumbered(cs, first, e) <==> IsNumbered(cs[..n], first, e) || e == Entry(cs[n], first + n)
  {
  }

  /** And queued: exactly they and what was queued before. */
  lemma {:induction false} TakenAreQueued(q: QueueState, cs: seq<Command>, p: Priority, e: Entry)
    requires Welcome(q, cs)
    ensures e in Offer(q, cs).queue.lanes.At(p)
       <==> e in q.lanes.At(p) || (e.command.priority == p && IsNumbered(cs, q.nextSequence, e))
  {
    if cs != [] {
      var n := |cs| - 1;
      assert Welcome(q, cs[..n]);
      AllAreTaken(q, cs[..n]);
      TakenAreQueued(q, cs[..n], p, e);
      OneIsTaken(Offer(q, cs[..n]).queue, cs[n]);
      AdmitMembership(Offer(q, cs[..n]).queue, cs[n], p, e);
      OneMoreIsNumbered(cs, q.nextSequence, e);
    }
  }

  lemma {:induction false} OfferConcat(q: QueueState, xs: seq<Command>, ys: seq<Command>)
    ensures var first := Offer(q, xs);
            var second := Offer(first.queue, ys);
            Offer(q, xs + ys) == Offered(second.queue, first.taken + second.taken, first.dropped + second.dropped)
  {
    if ys == [] {
      assert xs + ys == xs;
    } else {
      var n := |ys| - 1;
      assert (xs + ys)[..|xs + ys| - 1] == xs + ys[..n];
      OfferConcat(q, xs, ys[..n]);
    }
  }

  /** What a batch runs in a step, and what it skips, in order. */
  function AtStep(batch: seq<Entry>, step: int): seq<Executed> {
    if batch == [] then []
    else
      var n := |batch| - 1;
      AtStep(batch[..n], step) + (if batch[n].command.step == step then [Executed(batch[n], step)] else [])
  }

  function OffStep(batch: seq<Entry>, step: int): seq<Entry> {
    if batch == [] then []
    else
      var n := |batch| - 1;
      OffStep(batch[..n], step) + (if batch[n].command.step == step then [] else [batch[n]])
  }

  /** What handlers enqueue for the entries of a log, in log order. */
  function Handled(log: seq<Executed>, world: World): seq<Command> {
    if log == [] then []
    else
      var n := |log| - 1;
      Handled(log[..n], world) + world.onCommand(log[n].atStep, log[n].entry)
  }

  /** From `m` to `n`, these commands were offered, and nothing else happened. */
  ghost predicate Receives(m: Machine, n: Machine, cs: seq<Command>) {
    var o := Offer(m.queue, cs);
    && n.queue == o.queue && n.accepted == m.accepted + o.taken && n.dropped == m.dropped + o.dropped
    && n.currentStep == m.currentStep && n.nextExecutableStep == m.nextExecutableStep
  }

  lemma ReceivesOn(a: Machine, b: Machine, c: Machine, xs: seq<Command>, ys: seq<Command>)
    requires Receives(a, b, xs) && Receives(b, c, ys)
    ensures Receives(a, c, xs + ys)
  {
    OfferConcat(a.queue, xs, ys);
    var first := Offer(a.queue, xs);
    var second := Offer(first.queue, ys);
    assert (a.accepted + first.taken) + second.taken == a.accepted + (first.taken + second.taken);
  }

  lemma {:induction false} SubmitAllReceives(m: Machine, cs: seq<Command>)
    ensures var n := SubmitAll(m, cs); Receives(m, n, cs) && n.log == m.log && n.skipped == m.skipped
  {
    if cs != [] {
      SubmitAllReceives(m, cs[..|cs| - 1]);
    }
  }

  lemma ExecuteReceives(m: Machine, e: Entry, world: World)
    ensures var n := Execute(m, e, world);
            if e.command.step == m.currentStep then
              Receives(m, n, world.onCommand(m.currentStep, e)) && n.skipped == m.skipped
              && n.log == m.log + [Executed(e, m.currentStep)]
            else Receives(m, n, []) && n.log == m.log && n.skipped == m.skipped + [e]
  {
    if e.command.step == m.currentStep {
      var logged := m.(log := m.log + [Executed(e, m.currentStep)]);
      SubmitAllReceives(logged, world.onCommand(m.currentStep, e));
    }
  }

  lemma {:induction false} ExecuteAllReceives(m: Machine, batch: seq<Entry>, world: World)
    ensures var n, ran := ExecuteAll(m, batch, world), AtStep(batch, m.currentStep);
            && Receives(m, n, Handled(ran, world))
            && n.log == m.log + ran && n.skipped == m.skipped + OffStep(batch, m.currentStep)
  {
    if batch != [] {
      var last := |batch| - 1;
      var before, e, ran := ExecuteAll(m, batch[..last], world), batch[last], AtStep(batch[..last], m.currentStep);
      ExecuteAllReceives(m, batch[..last], world);
      ExecuteReceives(before, e, world);
      if e.command.step == m.currentStep {
        var x := Executed(e, m.currentStep);
        assert (ran + [x])[..|ran|] == ran;
        assert Handled(ran + [x], world) == Handled(ran, world) + world.onCommand(m.currentStep, e);
        ReceivesOn(m, before, ExecuteAll(m, batch, world), Handled(ran, world), world.onCommand(m.currentStep, e));
      } else {
        assert AtStep(batch, m.currentStep) == ran && Handled(ran, world) + [] == Handled(ran, world);
        ReceivesOn(m, before, ExecuteAll(m, batch, world), Handled(ran, world), []);
      }
    }
  }

  /**
   * A step from `m` to `n`: the due commands of the step are run in dispatch order, others are skipped, and
   * what is offered to the queue is what the handlers of the commands run enqueue, in that order, and then
   * what the systems enqueue. The step is closed when `ok`, and only its commands are when not.
   */
  ghost predicate Stepped(m: Machine, world: World, n: Machine, ok: bool) {
    var (q, batch) := Dequeue(m.queue, UpTo(m.currentStep));
    var ran := AtStep(batch, m.currentStep);
    var o := Offer(q, Handled(ran, world) + world.onSystems(m.currentStep));
    && n.log == m.log + ran && n.skipped == m.skipped + OffStep(batch, m.currentStep)
    && n.queue == o.queue && n.accepted == m.accepted + o.taken && n.dropped == m.dropped + o.dropped
    && n.currentStep == m.currentStep + (if ok then 1 else 0) && n.nextExecutableStep == m.currentStep + 1
  }

  lemma PerformIsStep(m: Machine, world: World)
    ensures Stepped(m, world, Perform(m, world), false)
  {
    var (captured, batch) := Capture(m);
    var ran := ExecuteAll(captured, batch, world);
    ExecuteAllReceives(captured, batch, world);
    SubmitAllReceives(ran, world.onSystems(m.currentStep));
    ReceivesOn(captured, ran, Perform(m, world), Handled(AtStep(batch, m.currentStep), world),
               world.onSystems(m.currentStep));
  }

  lemma RunStepIsStep(m: Machine, world: World)
    ensures Stepped(m, world, RunStep(m, world), true)
  {
    PerformIsStep(m, world);
  }

  // ----- step mismatches

  lemma {:induction false} SubmitAllKeepsSkipped(m: Machine, cs: seq<Command>)
    ensures SubmitAll(m, cs).skipped == m.skipped && SubmitAll(m, cs).currentStep == m.currentStep
  {
    if cs != [] {
      SubmitAllKeepsSkipped(m, cs[..|cs| - 1]);
    }
  }

  lemma {:induction false} SkipsExactlyMismatches(m: Machine, batch: seq<Entry>, world: World)
    ensures ExecuteAll(m, batch, world).currentStep == m.currentStep
    ensures |ExecuteAll(m, batch, world).skipped| >= |m.skipped|
    ensures ExecuteAll(m, batch, world).skipped == m.skipped
       <==> forall i | 0 <= i < |batch| :: batch[i].command.step == m.currentStep
  {
    if batch != [] {
      var last := |batch| - 1;
      SkipsExactlyMismatches(m, batch[..last], world);
      var n := ExecuteAll(m, batch[..last], world);
      SubmitAllKeepsSkipped(n.(log := n.log + [Executed(batch[last], n.currentStep)]),
                            world.onCommand(n.currentStep, batch[last]));
      assert batch == batch[..last] + [batch[last]];
    }
  }

  /** A tick skips a command exactly when something stale is queued, whatever the producers do. */
  lemma TickSkipsIffStale(m: Machine, world: World)
    requires WellFormed(m.queue)
    ensures RunStep(m, world).skipped == m.skipped
       <==> forall p: Priority, e: Entry | e in m.queue.lanes.At(p) :: e.command.step >= m.currentStep
  {
    var (captured, batch) := Capture(m);
    SkipsExactlyMismatches(captured, batch, world);
    SubmitAllKeepsSkipped(ExecuteAll(captured, batch, world), world.onSystems(m.currentStep));
    forall e: Entry
      ensures e in batch <==> e in m.queue.lanes.At(e.command.priority) && e.command.step <= m.currentStep
    {
      DequeueIsComplete(m.queue, UpTo(m.currentStep), e);
    }
    if exists p: Priority, e: Entry :: e in m.queue.lanes.At(p) && e.command.step < m.currentStep {
      var p: Priority, e: Entry :| e in m.queue.lanes.At(p) && e.command.step < m.currentStep;
      EntriesSitInTheirLane(m.queue, p, e);
      assert e in batch;
      var i :| 0 <= i < |batch| && batch[i] == e;
    } else {
      forall i | 0 <= i < |batch|
        ensures batch[i].command.step == m.currentStep
      {
        assert batch[i] in batch;
      }
    }
  }

  /** `fastForward` moves the clock without running anything. */
  function Jump(m: Machine, steps: nat): Machine {
    m.(currentStep := m.currentStep + steps, nextExecutableStep := m.currentStep + steps)
  }

  /** A jump keeps every fate decided exactly when no command is queued for a step that it passes over. */
  lemma JumpIsSoundIff(m: Machine, steps: nat)
    requires Sound(m, []) && Paced(m) && steps > 0
    ensures Jump(m, steps).nextExecutableStep == Jump(m, steps).currentStep == m.currentStep + steps
    ensures Sound(Jump(m, steps), []) <==>
              forall p: Priority, e: Entry | e in m.queue.lanes.At(p) :: e.command.step >= m.currentStep + steps
  {
    var n := Jump(m, steps);
    assert LogMatches(n);
    forall k | 0 <= k < |n.accepted|
      ensures OneFate(n, [], k)
    {
      assert OneFate(m, [], k);
    }
  }

  /** A command that a jump passes over is skipped by the next tick: exactly-once needs `tick` alone. */
  lemma FastForwardStrandsCommands(policy: Policy, world: World)
    requires policy == map[]
    ensures var c := Command([0x63], Player, 0.0, 0, Null, None);
            var m := Submit(NewMachine(10.0, policy, 0), c);
            && RunStep(m, world).skipped == []
            && RunStep(Jump(m, 1), world).skipped != []
  {
    var c := Command([0x63], Player, 0.0, 0, Null, None);
    var m0 := NewMachine(10.0, policy, 0);
    var m := Submit(m0, c);
    assert forall p: Priority :: m0.queue.lanes.At(p) == [];
    EnqueueKeepsWellFormed(m0.queue, c);
    forall p: Priority, e: Entry
      ensures e in m.queue.lanes.At(p) <==> p == Player && e == Entry(c, 0)
    {
      EnqueueMembership(m0.queue, c, p, e);
    }
    TickSkipsIffStale(m, world);
    TickSkipsIffStale(Jump(m, 1), world);
    assert Entry(c, 0) in Jump(m, 1).queue.lanes.At(Player);
  }
}

/** The runtime object: two backlog accumulators, a step counter and the loop that drains them. */
module Runtimes {
  import opened Wrappers
  import opened Commands
  import opened Scheduling
  import opened CommandQueues
  import opened Execution

  datatype Source = Any | Credited

  function Max0(x: int): nat {
    if x > 0 then x else 0
  }

  function Min(x: int, y: int): int {
    if x < y then x else y
  }

  /** The step budget of a drain: the frame budget, cut down by an explicit limit. */
  function DrainStepBudget(maxStepsPerFrame: int, maxSteps: Option<int>): int {
    if maxStepsPerFrame <= 0 then 0
    else if maxSteps.None? then maxStepsPerFrame
    else if maxSteps.value <= 0 then 0
    else Min(maxSteps.value, maxStepsPerFrame)
  }

  /** The time that handlers credit during `n` ticks starting at step `from`. */
  function CreditedDuring(world: World, from: int, n: nat): nat {
    if n == 0 then 0 else CreditedDuring(world, from, n - 1) + Max0(world.credited(from + n - 1))
  }

  /** No handler credits time while a tick runs. */
  ghost predicate NoReentrantCredit(world: World) {
    forall s: int :: world.credited(s) <= 0
  }

  lemma {:induction false} NothingCredited(world: World, from: int, n: nat)
    requires NoReentrantCredit(world)
    ensures CreditedDuring(world, from, n) == 0
  {
    if n > 0 {
      NothingCredited(world, from, n - 1);
      assert world.credited(from + n - 1) <= 0;
    }
  }

  lemma {:induction false} IterateAdd<T>(f: T -> T, x: T, a: nat, b: nat)
    ensures Iterate(f, Iterate(f, x, a), b) == Iterate(f, x, a + b)
  {
    if b > 0 {
      IterateAdd(f, x, a, b - 1);
    }
  }

  lemma {:induction false} CreditsAdd(world: World, from: int, a: nat, mid: int, b: nat, x: int, y: int, z: int)
    requires y == x + CreditedDuring(world, from, a) && mid == from + a && z == y + CreditedDuring(world, mid, b)
    ensures z == x + CreditedDuring(world, from, a + b)
  {
    if b > 0 {
      CreditsAdd(world, from, a, mid, b - 1, x, y, y + CreditedDuring(world, mid, b - 1));
    }
  }

  lemma StepsAdd(a: int, b: int, c: int, size: int)
    requires c == a + b
    ensures c * size == a * size + b * size
  {
  }

  /** No subscriber throws in `n` steps from step `from` on. */
  ghost predicate Unbroken(world: World, from: int, n: nat) {
    forall s | from <= s < from + n :: !world.fails(s)
  }

  /** The machine after `n` whole steps, and after one more that is broken off unless `ok`. */
  function After(step: Machine -> Machine, broken: Machine -> Machine, m: Machine, n: nat, ok: bool): Machine {
    if ok then Iterate(step, m, n) else broken(Iterate(step, m, n))
  }

  function Breaker(world: World): Machine -> Machine {
    (m: Machine) => Perform(m, world)
  }

  /** What `n` steps, and one more that is broken off unless `ok`, leave of a machine. */
  function Left(m: Machine, world: World, n: nat, ok: bool): Machine {
    After(Stepper(world), Breaker(world), m, n, ok)
  }

  /** How many steps ran at least in part. */
  function Begun(n: nat, ok: bool): nat {
    if ok then n else n + 1
  }

  /** `n` whole steps from `x` to `y`, and unless `ok` one more that is broken off. */
  ghost predicate Chain<T(!new)>(steps: (T, T, bool) -> bool, x: T, y: T, n: nat, ok: bool)
    decreases n, !ok
  {
    if !ok then exists z :: Chain(steps, x, z, n, true) && steps(z, y, false)
    else if n == 0 then y == x
    else exists z :: Chain(steps, x, z, n - 1, true) && steps(z, y, true)
  }

  ghost function StepsOf(world: World): (Machine, Machine, bool) -> bool {
    (m: Machine, n: Machine, ok: bool) => Stepped(m, world, n, ok)
  }

  /** `n` steps as `Stepped` describes them, and unless `ok` one more that is broken off. */
  ghost predicate RanSteps(m: Machine, world: World, t: Machine, n: nat, ok: bool) {
    Chain(StepsOf(world), m, t, n, ok)
  }

  lemma {:induction false} IterateIsChain<T(!new)>(steps: (T, T, bool) -> bool, f: T -> T, x: T, n: nat)
    requires forall y :: steps(y, f(y), true)
    ensures Chain(steps, x, Iterate(f, x, n), n, true)
  {
    if n > 0 {
      IterateIsChain(steps, f, x, n - 1);
      assert steps(Iterate(f, x, n - 1), f(Iterate(f, x, n - 1)), true);
    }
  }

  lemma AfterIsChain(steps: (Machine, Machine, bool) -> bool, f: Machine -> Machine, g: Machine -> Machine, m: Machine,
                     n: nat, ok: bool)
    requires (forall y :: steps(y, f(y), true)) && forall y :: steps(y, g(y), false)
    ensures Chain(steps, m, After(f, g, m, n, ok), n, ok)
  {
    IterateIsChain(steps, f, m, n);
    assert steps(Iterate(f, m, n), g(Iterate(f, m, n)), false);
  }

  lemma LeftRan(m: Machine, world: World, t: Machine, n: nat, ok: bool)
    requires t == Left(m, world, n, ok)
    ensures RanSteps(m, world, t, n, ok)
  {
    var steps, f, g := StepsOf(world), Stepper(world), Breaker(world);
    forall y
      ensures steps(y, f(y), true) && steps(y, g(y), false)
    {
      RunStepIsStep(y, world);
      PerformIsStep(y, world);
    }
    AfterIsChain(steps, f, g, m, n, ok);
  }

  /** A world, with its whole and its broken steps as functions. */
  datatype Running = Running(world: World, step: Machine -> Machine, broken: Machine -> Machine)

  ghost predicate Describes(r: Running) {
    && (forall m {:trigger RunStep(m, r.world)} :: RunStep(m, r.world) == r.step(m))
    && forall m {:trigger Perform(m, r.world)} :: Perform(m, r.world) == r.broken(m)
  }

  function RunningIn(world: World): Running {
    Running(world, Stepper(world), Breaker(world))
  }

  lemma RunningDescribes(world: World)
    ensures Describes(RunningIn(world))
  {
  }

  /** A machine, its step, and the time that it stands for. */
  datatype Clocked = Clocked(machine: Machine, step: int, ms: int)

  /**
   * From `a` to `b`, `n` steps ran, and unless `ok` one more was broken off. Time grew by what was credited
   * and shrank by what was paid for steps that did not run.
   */
  ghost predicate Advanced(r: Running, a: Clocked, b: Clocked, n: nat, ok: bool, lostMs: nat) {
    && b.machine == After(r.step, r.broken, a.machine, n, ok) && b.step == a.step + n
    && Unbroken(r.world, a.step, n) && (!ok ==> r.world.fails(b.step))
    && b.ms == a.ms + CreditedDuring(r.world, a.step, Begun(n, ok)) - lostMs
  }

  lemma OneStepAdvances(r: Running, a: Clocked, b: Clocked, ok: bool)
    requires Describes(r) && ok == !r.world.fails(a.step) && b.step == a.step + (if ok then 1 else 0)
    requires b.machine == if ok then RunStep(a.machine, r.world) else Perform(a.machine, r.world)
    requires b.ms == a.ms + Max0(r.world.credited(a.step))
    ensures Advanced(r, a, b, if ok then 1 else 0, ok, 0)
  {
    var m := a.machine;
    assert RunStep(m, r.world) == r.step(m) && Perform(m, r.world) == r.broken(m);
    assert Iterate(r.step, m, 0) == m && Iterate(r.step, m, 1) == r.step(m);
    assert CreditedDuring(r.world, a.step, 0) == 0;
    assert CreditedDuring(r.world, a.step, 1) == Max0(r.world.credited(a.step));
  }

  lemma AdvancedOn(r: Running, a: Clocked, b: Clocked, c: Clocked, m: nat, n: nat, ok: bool, lostMs: nat)
    requires Advanced(r, a, b, m, true, 0) && Advanced(r, b, c, n, ok, lostMs)
    ensures Advanced(r, a, c, m + n, ok, lostMs)
  {
    IterateAdd(r.step, a.machine, m, n);
    CreditsAdd(r.world, a.step, m, b.step, Begun(n, ok), a.ms, b.ms, c.ms + lostMs);
    assert Begun(m + n, ok) == m + Begun(n, ok);
  }

  /** What happened between two points: whole steps, one that was broken off unless `ok`, and lost time. */
  type Progress = (Clocked, Clocked, nat, bool, nat) -> bool

  ghost function AdvancedIn(r: Running): Progress {
    (a: Clocked, b: Clocked, n: nat, ok: bool, lostMs: nat) => Advanced(r, a, b, n, ok, lostMs)
  }

  /** Progress goes on, by another step or batch. */
  ghost predicate GoesOn(progress: Progress, more: Progress) {
    forall a, b, c, m: nat, n: nat, ok, lostMs: nat {:trigger progress(a, b, m, true, 0), more(b, c, n, ok, lostMs)} |
      progress(a, b, m, true, 0) && more(b, c, n, ok, lostMs) :: progress(a, c, m + n, ok, lostMs)
  }

  /** Advancing is progress of this kind. */
  ghost predicate Covers(progress: Progress, r: Running) {
    forall a, b, n: nat, ok, lostMs: nat {:trigger Advanced(r, a, b, n, ok, lostMs)} |
      Advanced(r, a, b, n, ok, lostMs) :: progress(a, b, n, ok, lostMs)
  }

  /** `progress` is advancing, as a function whose definition stays out of sight. */
  ghost predicate IsAdvanced(progress: Progress, r: Running) {
    forall a, b, n: nat, ok, lostMs: nat
      {:trigger progress(a, b, n, ok, lostMs)} {:trigger Advanced(r, a, b, n, ok, lostMs)} ::
      progress(a, b, n, ok, lostMs) <==> Advanced(r, a, b, n, ok, lostMs)
  }

  lemma AdvancedInIsAdvanced(r: Running)
    ensures IsAdvanced(AdvancedIn(r), r)
  {
  }

  lemma AdvancesOnce(progress: Progress, r: Running, a: Clocked, b: Clocked, c: Clocked,
                     m: nat, n: nat, ok: bool, lostMs: nat)
    requires IsAdvanced(progress, r) && progress(a, b, m, true, 0) && progress(b, c, n, ok, lostMs)
    ensures progress(a, c, m + n, ok, lostMs)
  {
    AdvancedOn(r, a, b, c, m, n, ok, lostMs);
  }

  lemma AdvancesGoOn(progress: Progress, r: Running)
    requires IsAdvanced(progress, r)
    ensures GoesOn(progress, progress)
  {
    forall a, b, c, m: nat, n: nat, ok, lostMs: nat | progress(a, b, m, true, 0) && progress(b, c, n, ok, lostMs)
      ensures progress(a, c, m + n, ok, lostMs)
    {
      AdvancesOnce(progress, r, a, b, c, m, n, ok, lostMs);
    }
  }

  lemma AdvancedNowhere(progress: Progress, r: Running, a: Clocked)
    requires IsAdvanced(progress, r)
    ensures progress(a, a, 0, true, 0)
  {
    assert Advanced(r, a, a, 0, true, 0);
  }

  lemma AdvancesCover(progress: Progress, r: Running)
    requires IsAdvanced(progress, r)
    ensures Covers(progress, r)
  {
  }

  /** Advancing as progress that goes on, by its own steps, from any point. */
  lemma AdvancingIsProgress(r: Running, start: Clocked) returns (progress: Progress)
    ensures IsAdvanced(progress, r) && GoesOn(progress, progress) && Covers(progress, r)
    ensures progress(start, start, 0, true, 0)
  {
    progress := AdvancedIn(r);
    AdvancedInIsAdvanced(r);
    AdvancesGoOn(progress, r);
    AdvancesCover(progress, r);
    AdvancedNowhere(progress, r, start);
  }

  /** A batch advances the clock as it advances the credit, less what was paid and did not run. */
  lemma PaidBatchAdvances(r: Running, before: Clocked, paid: Clocked, ran: Clocked, after: Clocked,
                          n: nat, ok: bool, lostMs: nat)
    requires Advanced(r, paid, ran, n, ok, 0)
    requires before.machine == paid.machine && before.step == paid.step
    requires after.machine == ran.machine && after.step == ran.step
    requires after.ms - before.ms == ran.ms - paid.ms - lostMs
    ensures Advanced(r, before, after, n, ok, lostMs)
  {
  }

  lemma ScaledOnce(k: int, d: nat)
    ensures k >= 1 ==> k * d >= d
    ensures k <= -1 ==> k * d + d <= 0
  {
    if k >= 1 {
      assert k * d == d + (k - 1) * d;
    } else if k <= -1 {
      assert k * d + d == (k + 1) * d;
    }
  }

  /** The price of the steps that did not run. */
  lemma Unrun(steps: nat, ran: nat, size: nat) returns (ms: nat)
    requires ran <= steps && size > 0
    ensures ms == (steps - ran) * size && steps * size == ran * size + ms && (ms == 0 <==> ran == steps)
  {
    ScaledOnce(steps - ran, size);
    StepsAdd(steps - ran, ran, steps, size);
    ms := (steps - ran) * size;
  }

  /** A whole number of steps within the quotient can be paid for; none means less than a step is left. */
  lemma WholeSteps(available: nat, stepSize: nat, steps: int)
    requires stepSize > 0 && steps <= available / stepSize
    ensures steps * stepSize <= available
    ensures available / stepSize <= 0 ==> available < stepSize
  {
    var q := available / stepSize;
    assert available == q * stepSize + available % stepSize;
    assert (q - steps) * stepSize == q * stepSize - steps * stepSize;
    ScaledOnce(q - steps, stepSize);
  }

  /** A drain that stopped at its budget or below one step took the largest number of steps it could. */
  lemma StepsDrained(available: nat, stepSize: nat, steps: nat, budget: nat)
    requires stepSize > 0 && steps <= budget && steps * stepSize <= available
    requires steps == budget || available - steps * stepSize < stepSize
    ensures steps == Min(available / stepSize, budget)
  {
    var q := available / stepSize;
    assert available == q * stepSize + available % stepSize;
    assert (q - steps) * stepSize == q * stepSize - steps * stepSize;
    ScaledOnce(q - steps, stepSize);
  }

  class IdleEngineRuntime {
    var hostFrameAccumulator: nat
    var creditedAccumulator: nat
    var currentStep: int
    var nextExecutableStep: int
    const stepSizeMs: int
    const maxStepsPerFrame: int
    const commandQueue: CommandQueue

    // What became of every accepted command.
    ghost var accepted: seq<Command>
    ghost var dropped: set<nat>
    ghost var log: seq<Executed>
    ghost var skipped: seq<Entry>

    ghost function Model(): Machine
      reads this, commandQueue
    {
      Machine(commandQueue.State(), currentStep, nextExecutableStep, accepted, dropped, log, skipped)
    }

    ghost predicate Valid()
      reads this, commandQueue
    {
      stepSizeMs > 0 && commandQueue.Valid()
    }

    /** Simulated time: steps run, plus what the host and the credit account still owe. */
    ghost function SimulatedMs(): int
      reads this
    {
      currentStep * stepSizeMs + hostFrameAccumulator + creditedAccumulator
    }

    /** Where the runtime is in simulated time, and in credited time. */
    ghost function Clock(): Clocked
      reads this, commandQueue
    {
      Clocked(Model(), currentStep, SimulatedMs())
    }

    ghost function CreditClock(): Clocked
      reads this, commandQueue
    {
      Clocked(Model(), currentStep, creditedAccumulator)
    }

    constructor (stepSizeMs: int, maxStepsPerFrame: int, queue: CommandQueue, initialStep: nat,
                 hostFrameMs: int, creditedMs: int)
      requires stepSizeMs > 0 && queue.Valid() && queue.nextSequence == 0
      ensures Valid() && commandQueue == queue
      ensures this.stepSizeMs == stepSizeMs && this.maxStepsPerFrame == maxStepsPerFrame
      ensures Model() == Machine(queue.State(), initialStep, initialStep, [], {}, [], [])
      ensures hostFrameAccumulator == Max0(hostFrameMs) && creditedAccumulator == Max0(creditedMs)
    {
      this.stepSizeMs, this.maxStepsPerFrame, commandQueue := stepSizeMs, maxStepsPerFrame, queue;
      currentStep, nextExecutableStep := initialStep, initialStep;
      hostFrameAccumulator, creditedAccumulator := Max0(hostFrameMs), Max0(creditedMs);
      accepted, dropped, log, skipped := [], {}, [], [];
    }

    /** `creditTime`: non-positive amounts are ignored. */
    method CreditTime(deltaMs: int)
      modifies this`creditedAccumulator
      ensures creditedAccumulator == old(creditedAccumulator) + Max0(deltaMs)
    {
      if deltaMs > 0 {
        creditedAccumulator := creditedAccumulator + deltaMs;
      }
    }

    method ConsumeAccumulatorBacklog(amountMs: nat, source: Source)
      requires source == Credited ==> amountMs <= creditedAccumulator
      requires source == Any ==> amountMs <= hostFrameAccumulator + creditedAccumulator
      modifies this`hostFrameAccumulator, this`creditedAccumulator
      ensures hostFrameAccumulator + creditedAccumulator == old(hostFrameAccumulator + creditedAccumulator) - amountMs
      ensures source == Credited ==> hostFrameAccumulator == old(hostFrameAccumulator)
      ensures source == Any ==> hostFrameAccumulator == Max0(old(hostFrameAccumulator) - amountMs)
    {
      if amountMs == 0 {
        return;
      }
      if source == Credited {
        creditedAccumulator := creditedAccumulator - amountMs;
        return;
      }
      var hostFrameConsumedMs := Min(hostFrameAccumulator, amountMs);
      hostFrameAccumulator := hostFrameAccumulator - hostFrameConsumedMs;
      var remainingMs := amountMs - hostFrameConsumedMs;
      if remainingMs > 0 {
        creditedAccumulator := creditedAccumulator - remainingMs;
      }
    }

    /** A producer enqueues; the ghost record follows. */
    method Produce(c: Command)
      requires Valid()
      modifies this`accepted, this`dropped, commandQueue
      ensures Valid() && Model() == Execution.Submit(old(Model()), c)
    {
      ghost var r := Scheduling.Enqueue(commandQueue.State(), c);
      var taken := commandQueue.Enqueue(c);
      if taken {
        accepted := accepted + [c];
        dropped := dropped + (if r.dropped.Some? then {r.dropped.value.sequence} else {});
      }
    }

    method ProduceAll(cs: seq<Command>)
      requires Valid()
      modifies this`accepted, this`dropped, commandQueue
      ensures Valid() && Model() == SubmitAll(old(Model()), cs)
    {
      for i := 0 to |cs|
        invariant Valid() && Model() == SubmitAll(old(Model()), cs[..i])
      {
        assert cs[..i + 1][..i] == cs[..i];
        Produce(cs[i]);
      }
      assert cs[..|cs|] == cs;
    }

    method DequeueCommandsForCurrentStep() returns (commands: seq<Entry>)
      requires Valid()
      modifies this`nextExecutableStep, commandQueue
      ensures Valid() && (Model(), commands) == Capture(old(Model()))
    {
      nextExecutableStep := currentStep;
      commands := commandQueue.DequeueUpToStep(UpTo(currentStep));
      nextExecutableStep := currentStep + 1;
    }

    method ExecuteCommandsForCurrentStep(commands: seq<Entry>, world: World)
      requires Valid()
      modifies this`accepted, this`dropped, this`log, this`skipped, commandQueue
      ensures Valid() && Model() == ExecuteAll(old(Model()), commands, world)
      ensures Receives(old(Model()), Model(), Handled(AtStep(commands, currentStep), world))
      ensures log == old(log) + AtStep(commands, currentStep)
      ensures skipped == old(skipped) + OffStep(commands, currentStep)
    {
      ExecuteAllReceives(Model(), commands, world);
      for i := 0 to |commands|
        invariant Valid() && Model() == ExecuteAll(old(Model()), commands[..i], world)
      {
        assert commands[..i + 1][..i] == commands[..i];
        var command := commands[i];
        if command.command.step != currentStep {
          skipped := skipped + [command];
          continue;
        }
        log := log + [Executed(command, currentStep)];
        ProduceAll(world.onCommand(currentStep, command));
      }
      assert commands[..|commands|] == commands;
    }

    /** The work of a step, up to where it is closed. */
    method PerformStep(world: World)
      requires Valid()
      modifies this`nextExecutableStep, this`accepted, this`dropped, this`log, this`skipped, commandQueue
      ensures Valid() && Model() == Perform(old(Model()), world)
    {
      var commands := DequeueCommandsForCurrentStep();
      ExecuteCommandsForCurrentStep(commands, world);
      ProduceAll(world.onSystems(currentStep));
    }

    /** One step; `false` stands for the exception of a subscriber, which is rethrown. */
    method RunTickStep(world: World) returns (ok: bool)
      requires Valid()
      modifies this, commandQueue
      ensures Valid() && ok == !world.fails(old(currentStep))
      ensures Model() == if ok then RunStep(old(Model()), world) else Perform(old(Model()), world)
      ensures Stepped(old(Model()), world, Model(), ok)
      ensures currentStep == old(currentStep) + if ok then 1 else 0
      ensures hostFrameAccumulator == old(hostFrameAccumulator)
      ensures creditedAccumulator == old(creditedAccumulator) + Max0(world.credited(old(currentStep)))
    {
      RunStepIsStep(Model(), world);
      PerformIsStep(Model(), world);
      PerformStep(world);
      CreditTime(world.credited(currentStep));
      if world.fails(currentStep) {
        return false;
      }
      currentStep := currentStep + 1;
      nextExecutableStep := currentStep;
      ok := true;
    }

    /** One more step of a batch in which `n` steps ran so far. */
    method RunNextStep(ghost progress: Progress, ghost more: Progress, ghost r: Running, world: World,
                       ghost start: Clocked, ghost n: nat)
      returns (ok: bool)
      requires Valid() && r.world == world && Describes(r) && GoesOn(progress, more) && Covers(more, r)
      requires progress(start, CreditClock(), n, true, 0)
      modifies this, commandQueue
      ensures Valid() && progress(start, CreditClock(), if ok then n + 1 else n, ok, 0)
      ensures hostFrameAccumulator == old(hostFrameAccumulator)
    {
      ghost var before := CreditClock();
      ok := RunTickStep(world);
      ghost var ran := if ok then 1 else 0;
      OneStepAdvances(r, before, CreditClock(), ok);
      assert Advanced(r, before, CreditClock(), ran, ok, 0);
      assert more(before, CreditClock(), ran, ok, 0);
      assert n + ran == if ok then n + 1 else n;
    }

    method RunTickBatch(stepCount: nat, ghost progress: Progress, ghost more: Progress, ghost r: Running, world: World)
      returns (ran: nat, ok: bool)
      requires Valid() && r.world == world && Describes(r) && GoesOn(progress, more) && Covers(more, r)
      requires progress(CreditClock(), CreditClock(), 0, true, 0)
      modifies this, commandQueue
      ensures Valid() && progress(old(CreditClock()), CreditClock(), ran, ok, 0)
      ensures if ok then ran == stepCount else ran < stepCount
      ensures hostFrameAccumulator == old(hostFrameAccumulator)
    {
      ghost var start := CreditClock();
      ran, ok := 0, true;
      while ran < stepCount
        invariant Valid() && progress(start, CreditClock(), ran, true, 0) && ok && ran <= stepCount
        invariant hostFrameAccumulator == old(hostFrameAccumulator)
      {
        ok := RunNextStep(progress, more, r, world, start, ran);
        if !ok {
          return;
        }
        ran := ran + 1;
      }
    }

    ghost function Available(source: Source): nat
      reads this
    {
      if source == Credited then creditedAccumulator else hostFrameAccumulator + creditedAccumulator
    }

    ghost predicate Affords(steps: int, source: Source)
      reads this
    {
      steps * stepSizeMs <= Available(source)
    }

    /** The whole steps that a backlog pays for, within a budget. */
    method AffordableSteps(stepBudget: nat, source: Source) returns (steps: int)
      requires stepSizeMs > 0 && stepBudget > 0
      ensures steps <= stepBudget && Affords(steps, source)
      ensures steps <= 0 ==> Available(source) < stepSizeMs
    {
      var availableMs := if source == Credited then creditedAccumulator
                         else hostFrameAccumulator + creditedAccumulator;
      steps := Min(availableMs / stepSizeMs, stepBudget);
      WholeSteps(availableMs, stepSizeMs, steps);
    }

    /** A batch that was paid for. */
    method RunPaidBatch(steps: nat, ghost r: Running, world: World) returns (ran: nat, ok: bool)
      requires Valid() && r.world == world && Describes(r)
      modifies this, commandQueue
      ensures Valid() && Advanced(r, old(CreditClock()), CreditClock(), ran, ok, 0)
      ensures if ok then ran == steps else ran < steps
      ensures hostFrameAccumulator == old(hostFrameAccumulator)
    {
      ghost var progress := AdvancingIsProgress(r, CreditClock());
      ran, ok := RunTickBatch(steps, progress, progress, r, world);
    }

    /** Pays for a batch of steps out of a backlog and runs it. What is paid for steps that do not run is lost. */
    method PayAndRun(steps: nat, source: Source, ghost r: Running, world: World)
      returns (ran: nat, ok: bool, ghost lostMs: nat)
      requires Valid() && r.world == world && Describes(r) && Affords(steps, source)
      modifies this, commandQueue
      ensures Valid() && Advanced(r, old(Clock()), Clock(), ran, ok, lostMs)
      ensures ran <= steps && lostMs == (steps - ran) * stepSizeMs && (ok <==> ran == steps) && (ok <==> lostMs == 0)
      ensures source == Credited ==> hostFrameAccumulator == old(hostFrameAccumulator)
    {
      ghost var before := Clock();
      ConsumeAccumulatorBacklog(steps * stepSizeMs, source);
      ghost var paid := CreditClock();
      ran, ok := RunPaidBatch(steps, r, world);
      lostMs := Unrun(steps, ran, stepSizeMs);
      StepsAdd(before.step, ran, currentStep, stepSizeMs);
      PaidBatchAdvances(r, before, paid, CreditClock(), Clock(), ran, ok, lostMs);
    }

    /** Pays for one more batch, after `processed` steps since `start`. */
    method DrainBatch(steps: nat, source: Source, ghost progress: Progress, ghost more: Progress, ghost r: Running,
                      world: World, ghost start: Clocked, ghost processed: nat)
      returns (ran: nat, ok: bool, ghost lostMs: nat)
      requires Valid() && r.world == world && Describes(r) && GoesOn(progress, more) && Covers(more, r)
      requires Affords(steps, source) && progress(start, Clock(), processed, true, 0)
      modifies this, commandQueue
      ensures Valid() && progress(start, Clock(), processed + ran, ok, lostMs)
      ensures ran <= steps && (ok <==> ran == steps) && (ok <==> lostMs == 0)
      ensures source == Credited ==> hostFrameAccumulator == old(hostFrameAccumulator)
    {
      ghost var before := Clock();
      ran, ok, lostMs := PayAndRun(steps, source, r, world);
      assert more(before, Clock(), ran, ok, lostMs);
    }

    /** The loop of a drain, whatever its progress is measured by. */
    method DrainWith(stepBudget: int, source: Source, ghost progress: Progress, ghost more: Progress,
                     ghost r: Running, world: World)
      returns (processed: nat, ok: bool, ghost lostMs: nat)
      requires Valid() && r.world == world && Describes(r) && GoesOn(progress, more) && Covers(more, r)
      requires progress(Clock(), Clock(), 0, true, 0)
      modifies this, commandQueue
      ensures Valid() && progress(old(Clock()), Clock(), processed, ok, lostMs)
      ensures processed <= Max0(stepBudget) && (ok <==> lostMs == 0)
      ensures ok ==> processed == Max0(stepBudget) || Available(source) < stepSizeMs
      ensures source == Credited ==> hostFrameAccumulator == old(hostFrameAccumulator)
    {
      processed, ok, lostMs := 0, true, 0;
      if stepBudget <= 0 {
        return;
      }
      ghost var start := Clock();
      var remainingStepBudget := stepBudget;
      while remainingStepBudget > 0
        invariant Valid() && progress(start, Clock(), processed, true, 0) && ok && lostMs == 0
        invariant 0 <= remainingStepBudget && processed + remainingStepBudget == stepBudget
        invariant source == Credited ==> hostFrameAccumulator == old(hostFrameAccumulator)
      {
        var steps := AffordableSteps(remainingStepBudget, source);
        if steps <= 0 {
          break;
        }
        var ran;
        ran, ok, lostMs := DrainBatch(steps, source, progress, more, r, world, start, processed);
        processed := processed + ran;
        remainingStepBudget := remainingStepBudget - ran;
        if !ok {
          return;
        }
      }
    }

    /**
     * Drains whole steps from a backlog until it or the budget is used up, or a step is broken off.
     * Simulated time grows only by what handlers credit meanwhile, and shrinks by what was paid for steps
     * that did not run, which is more than nothing exactly when a step is broken off.
     */
    method DrainAccumulator(stepBudget: int, source: Source, world: World)
      returns (processed: nat, ok: bool, ghost lostMs: nat)
      requires Valid()
      modifies this, commandQueue
      ensures Valid() && Advanced(RunningIn(world), old(Clock()), Clock(), processed, ok, lostMs)
      ensures processed <= Max0(stepBudget) && (ok <==> lostMs == 0)
      ensures ok ==> processed == Max0(stepBudget) || Available(source) < stepSizeMs
      ensures source == Credited ==> hostFrameAccumulator == old(hostFrameAccumulator)
    {
      ghost var r := RunningIn(world);
      ghost var progress := AdvancingIsProgress(r, Clock());
      RunningDescribes(world);
      processed, ok, lostMs := DrainWith(stepBudget, source, progress, progress, r, world);
    }

    /**
     * Adds frame time and drains at most a frame's worth of steps. Without re-entrant credit, the number of
     * steps is known, and simulated time grows by exactly `deltaMs` if and only if no subscriber throws.
     */
    method Tick(deltaMs: int, world: World) returns (processed: nat, ok: bool)
      requires Valid()
      modifies this, commandQueue
      ensures Valid() && Model() == Left(old(Model()), world, processed, ok)
      ensures processed <= Max0(maxStepsPerFrame) && currentStep == old(currentStep) + processed
      ensures Unbroken(world, old(currentStep), processed) && (!ok ==> world.fails(currentStep))
      ensures ok ==>
                SimulatedMs()
                == old(SimulatedMs()) + Max0(deltaMs) + CreditedDuring(world, old(currentStep), processed)
      ensures NoReentrantCredit(world) ==> (SimulatedMs() == old(SimulatedMs()) + Max0(deltaMs) <==> ok)
      ensures NoReentrantCredit(world) && ok ==>
                processed == if deltaMs <= 0 then 0
                             else Min((old(hostFrameAccumulator + creditedAccumulator) + deltaMs) / stepSizeMs,
                                      Max0(maxStepsPerFrame))
    {
      if deltaMs <= 0 {
        return 0, true;
      }
      hostFrameAccumulator := hostFrameAccumulator + deltaMs;
      ghost var backlog := hostFrameAccumulator + creditedAccumulator;
      ghost var lostMs;
      processed, ok, lostMs := DrainAccumulator(maxStepsPerFrame, Any, world);
      if NoReentrantCredit(world) {
        NothingCredited(world, old(currentStep), Begun(processed, ok));
        if ok {
          StepsAdd(old(currentStep), processed, currentStep, stepSizeMs);
          StepsDrained(backlog, stepSizeMs, processed, Max0(maxStepsPerFrame));
        }
      }
    }

    /**
     * Drains credited time only: the host backlog is left alone, and simulated time is preserved if and only
     * if no subscriber throws.
     */
    method DrainCreditedBacklog(maxSteps: Option<int>, world: World) returns (processed: nat, ok: bool)
      requires Valid()
      modifies this, commandQueue
      ensures Valid() && Model() == Left(old(Model()), world, processed, ok)
      ensures processed <= Max0(maxStepsPerFrame) && (maxSteps.Some? ==> processed <= Max0(maxSteps.value))
      ensures hostFrameAccumulator == old(hostFrameAccumulator)
      ensures ok ==> SimulatedMs() == old(SimulatedMs()) + CreditedDuring(world, old(currentStep), processed)
      ensures NoReentrantCredit(world) ==> (SimulatedMs() == old(SimulatedMs()) <==> ok)
    {
      var budget := DrainStepBudget(maxStepsPerFrame, maxSteps);
      ghost var lostMs;
      processed, ok, lostMs := DrainAccumulator(budget, Credited, world);
      if NoReentrantCredit(world) {
        NothingCredited(world, old(currentStep), Begun(processed, ok));
      }
    }

    /** Moves the clock over every whole step of the backlog without running anything. */
    method FastForward(deltaMs: int) returns (steps: nat)
      requires Valid()
      modifies this
      ensures Valid() && Model() == if steps == 0 then old(Model()) else Jump(old(Model()), steps)
      ensures currentStep == old(currentStep) + steps && (steps > 0 ==> nextExecutableStep == currentStep)
      ensures SimulatedMs() == old(SimulatedMs()) + Max0(deltaMs)
      ensures steps == if deltaMs <= 0 then 0
                       else (old(hostFrameAccumulator + creditedAccumulator) + deltaMs) / stepSizeMs
      ensures deltaMs > 0 ==> hostFrameAccumulator + creditedAccumulator < stepSizeMs
    {
      if deltaMs <= 0 {
        return 0;
      }
      hostFrameAccumulator := hostFrameAccumulator + deltaMs;
      ghost var backlog := hostFrameAccumulator + creditedAccumulator;
      steps := (hostFrameAccumulator + creditedAccumulator) / stepSizeMs;
      if steps <= 0 {
        return 0;
      }
      WholeSteps(backlog, stepSizeMs, steps);
      ghost var from := currentStep;
      ConsumeAccumulatorBacklog(steps * stepSizeMs, Any);
      currentStep := currentStep + steps;
      nextExecutableStep := currentStep;
      StepsAdd(from, steps, currentStep, stepSizeMs);
    }
  }
}
