/**
 * Automations (packages/core/src/automation-system.ts): what one tick does to one automation, and what any
 * run of ticks and toggles keeps. Steps are integers; what the rest of the game says at a tick is an input.
 */
module Automations {
  import opened Wrappers

  datatype Trigger = Interval | ResourceThreshold | CommandQueueEmpty | Event

  /** `lastFiredStep` is `None` for "never", and `lastThresholdSatisfied` for "not evaluated yet". */
  datatype State = State(
    enabled: bool, lastFiredStep: Option<int>, cooldownExpiresStep: int, unlocked: bool,
    lastThresholdSatisfied: Option<bool>)

  /**
   * What an automation finds at its turn: whether it may unlock, whether its threshold is satisfied, its
   * queue empty or its event pending, its formulas, and whether its cost can be spent.
   */
  datatype Facts = Facts(
    step: int, unlocks: bool, satisfied: bool, queueEmpty: bool, pendingEvent: bool, intervalMs: real,
    cooldownMs: Option<real>, spends: bool)

  /** A positive step duration in milliseconds. */
  type Duration = d: real | d > 0.0 witness 1.0

  function Ceil(x: real): int {
    -((-x).Floor)
  }

  function StepsOf(ms: real, stepMs: Duration): int {
    Ceil(ms / stepMs)
  }

  predicate CooldownActive(s: State, step: int) {
    step < s.cooldownExpiresStep
  }

  /** Unlocking is for good. */
  function Unlocked(s: State, f: Facts): State {
    s.(unlocked := s.unlocked || f.unlocks)
  }

  predicate IntervalDue(s: State, f: Facts, stepMs: Duration) {
    s.lastFiredStep.None? || f.step - s.lastFiredStep.value >= StepsOf(f.intervalMs, stepMs)
  }

  predicate Crossing(s: State, f: Facts) {
    f.satisfied && s.lastThresholdSatisfied != Some(true)
  }

  predicate Triggered(trigger: Trigger, s: State, f: Facts, stepMs: Duration) {
    match trigger
    case Interval => IntervalDue(s, f, stepMs)
    case ResourceThreshold => Crossing(s, f)
    case CommandQueueEmpty => f.queueEmpty
    case Event => f.pendingEvent
  }

  /** Evaluating a threshold that is not being crossed remembers how it is. */
  function Evaluated(trigger: Trigger, s: State, f: Facts): State {
    if trigger.ResourceThreshold? && !Crossing(s, f) then s.(lastThresholdSatisfied := Some(f.satisfied)) else s
  }

  /** When the cooldown of a fire at this step is over; zero for no cooldown. */
  function CooldownExpires(f: Facts, stepMs: Duration): int {
    if f.cooldownMs.None? || f.cooldownMs.value <= 0.0 then 0 else f.step + StepsOf(f.cooldownMs.value, stepMs) + 1
  }

  function FiredState(trigger: Trigger, s: State, f: Facts, stepMs: Duration): State {
    var fired := s.(lastFiredStep := Some(f.step), cooldownExpiresStep := CooldownExpires(f, stepMs));
    if trigger.ResourceThreshold? then fired.(lastThresholdSatisfied := Some(true)) else fired
  }

  datatype Outcome = Outcome(state: State, fired: bool, retained: bool)

  /** `processAutomationTick`: `fired` enqueues the command, `retained` keeps a pending event for the next tick. */
  function ProcessTick(trigger: Trigger, s: State, f: Facts, stepMs: Duration): Outcome {
    var u := Unlocked(s, f);
    if !u.unlocked || !u.enabled then Outcome(u, false, false)
    else if CooldownActive(u, f.step) then
      Outcome(if trigger.ResourceThreshold? && !f.satisfied then u.(lastThresholdSatisfied := Some(false)) else u,
              false, false)
    else if !Triggered(trigger, u, f, stepMs) then Outcome(Evaluated(trigger, u, f), false, false)
    else if !f.spends then
      Outcome(if trigger.ResourceThreshold? then u.(lastThresholdSatisfied := Some(false)) else u,
              false, trigger.Event?)
    else Outcome(FiredState(trigger, u, f, stepMs), true, false)
  }

  /** Runs without `restoreState`: ticks, and toggles through the event bus. */
  datatype Op = Tick(facts: Facts) | Toggle(enabled: bool)

  function Step(trigger: Trigger, s: State, op: Op, stepMs: Duration): State {
    match op
    case Tick(f) => ProcessTick(trigger, s, f, stepMs).state
    case Toggle(enabled) => s.(enabled := enabled)
  }

  function Run(trigger: Trigger, s: State, ops: seq<Op>, stepMs: Duration, n: nat): State
    requires n <= |ops|
  {
    if n == 0 then s else Step(trigger, Run(trigger, s, ops, stepMs, n - 1), ops[n - 1], stepMs)
  }

  /** The automation fires at the `k`-th operation of a run. */
  predicate FiresAt(trigger: Trigger, s: State, ops: seq<Op>, stepMs: Duration, k: nat)
    requires k < |ops|
  {
    Fires(trigger, Run(trigger, s, ops, stepMs, k), ops[k], stepMs)
  }

  /** The `k`-th operation is a tick that gets as far as looking at the threshold, and finds it not satisfied. */
  predicate SeesUnsatisfied(trigger: Trigger, s: State, ops: seq<Op>, stepMs: Duration, k: nat)
    requires k < |ops|
  {
    && ops[k].Tick? && !ops[k].facts.satisfied
    && var u := Unlocked(Run(trigger, s, ops, stepMs, k), ops[k].facts); u.unlocked && u.enabled
  }

  /** When a threshold automation fires, exactly. */
  lemma ThresholdFiresIff(s: State, f: Facts, stepMs: Duration)
    ensures ProcessTick(ResourceThreshold, s, f, stepMs).fired <==>
              && (s.unlocked || f.unlocks) && s.enabled && f.step >= s.cooldownExpiresStep
              && f.satisfied && s.lastThresholdSatisfied != Some(true) && f.spends
  {
  }

  /** A ceiling of a quotient is reached by the numbers whose product reaches the dividend. */
  lemma CeilingReached(n: int, x: real, d: real)
    requires d > 0.0
    ensures n >= Ceil(x / d) <==> n as real * d >= x
  {
    var q := x / d;
    assert q * d == x;
    assert n >= Ceil(q) <==> n as real >= q;
    Ordered(n as real, q, d);
  }

  lemma Ordered(x: real, y: real, d: real)
    requires d > 0.0
    ensures x >= y <==> x * d >= y * d
  {
    if x < y {
      assert (y - x) * d > 0.0;
    } else {
      assert (x - y) * d >= 0.0;
    }
  }

  /** Whether a trigger is met: an interval over, a threshold crossed, a queue empty, an event pending. */
  predicate Met(trigger: Trigger, s: State, f: Facts, stepMs: Duration) {
    match trigger
    case Interval => s.lastFiredStep.None? || (f.step - s.lastFiredStep.value) as real * stepMs >= f.intervalMs
    case ResourceThreshold => f.satisfied && s.lastThresholdSatisfied != Some(true)
    case CommandQueueEmpty => f.queueEmpty
    case Event => f.pendingEvent
  }

  /** Whether an automation is looked at: unlocked by now, enabled, and not cooling down. */
  predicate Ready(s: State, f: Facts) {
    (s.unlocked || f.unlocks) && s.enabled && s.cooldownExpiresStep <= f.step
  }

  /** A tick fires exactly the automations that are ready, whose trigger is met and whose cost is spent. */
  lemma FiresIff(trigger: Trigger, s: State, f: Facts, stepMs: Duration)
    ensures ProcessTick(trigger, s, f, stepMs).fired <==> Ready(s, f) && Met(trigger, s, f, stepMs) && f.spends
    ensures ProcessTick(trigger, s, f, stepMs).retained
       <==> trigger == Event && Ready(s, f) && f.pendingEvent && !f.spends
  {
    if trigger == Interval && s.lastFiredStep.Some? {
      CeilingReached(f.step - s.lastFiredStep.value, f.intervalMs, stepMs);
    }
  }

  /** What a fire with a cooldown leaves cools down through every step that begins within the cooldown. */
  predicate CoolsDown(f: Facts, expires: int, stepMs: Duration, step: int) {
    if f.cooldownMs.Some? && f.cooldownMs.value > 0.0
    then step < expires <==> (step - f.step - 1) as real * stepMs < f.cooldownMs.value
    else expires == 0
  }

  /** What a tick leaves of an automation, field by field. */
  lemma TickLeaves(trigger: Trigger, s: State, f: Facts, stepMs: Duration, step: int)
    ensures var o := ProcessTick(trigger, s, f, stepMs); var t := o.state;
            && t.enabled == s.enabled && t.unlocked == (s.unlocked || f.unlocks)
            && t.lastFiredStep == (if o.fired then Some(f.step) else s.lastFiredStep)
            && (!o.fired ==> t.cooldownExpiresStep == s.cooldownExpiresStep)
            && (o.fired ==> CoolsDown(f, t.cooldownExpiresStep, stepMs, step))
            && t.lastThresholdSatisfied
               == if !trigger.ResourceThreshold? || !t.unlocked || !s.enabled then s.lastThresholdSatisfied
                  else if !f.satisfied then Some(false)
                  else if f.step < s.cooldownExpiresStep || s.lastThresholdSatisfied == Some(true)
                  then s.lastThresholdSatisfied
                  else Some(f.spends)
  {
    if f.cooldownMs.Some? {
      CeilingReached(step - f.step - 1, f.cooldownMs.value, stepMs);
    }
  }

  lemma {:induction false} StaysSatisfied(s: State, ops: seq<Op>, stepMs: Duration, i: nat, n: nat)
    requires i < n <= |ops| && FiresAt(ResourceThreshold, s, ops, stepMs, i)
    requires forall k | i < k < n :: !SeesUnsatisfied(ResourceThreshold, s, ops, stepMs, k)
    ensures Run(ResourceThreshold, s, ops, stepMs, n).lastThresholdSatisfied == Some(true)
    decreases n
  {
    if i + 1 < n {
      StaysSatisfied(s, ops, stepMs, i, n - 1);
      assert !SeesUnsatisfied(ResourceThreshold, s, ops, stepMs, n - 1);
    }
  }

  /**
   * Runs are edge-triggered: between two fires of a threshold automation there is a tick that found the
   * threshold not satisfied.
   */
  lemma FiresAreEdges(s: State, ops: seq<Op>, stepMs: Duration, i: nat, j: nat)
    requires i < j < |ops|
    requires FiresAt(ResourceThreshold, s, ops, stepMs, i) && FiresAt(ResourceThreshold, s, ops, stepMs, j)
    ensures exists k :: i < k < j && SeesUnsatisfied(ResourceThreshold, s, ops, stepMs, k)
  {
    if forall k | i < k < j :: !SeesUnsatisfied(ResourceThreshold, s, ops, stepMs, k) {
      StaysSatisfied(s, ops, stepMs, i, j);
      ThresholdFiresIff(Run(ResourceThreshold, s, ops, stepMs, j), ops[j].facts, stepMs);
    }
  }

  /** Between fires, the step of the last one and the end of its cooldown stay. */
  lemma {:induction false} TimingStays(trigger: Trigger, s: State, ops: seq<Op>, stepMs: Duration, i: nat, n: nat)
    requires i < n <= |ops| && FiresAt(trigger, s, ops, stepMs, i)
    requires forall k | i < k < n :: !FiresAt(trigger, s, ops, stepMs, k)
    ensures var t := Run(trigger, s, ops, stepMs, n);
            && t.lastFiredStep == Some(ops[i].facts.step)
            && t.cooldownExpiresStep == CooldownExpires(ops[i].facts, stepMs)
    decreases n
  {
    if i + 1 < n {
      TimingStays(trigger, s, ops, stepMs, i, n - 1);
      assert !FiresAt(trigger, s, ops, stepMs, n - 1);
    }
  }

  lemma CeilingCovers(x: real)
    ensures x <= Ceil(x) as real < x + 1.0 && (x > 0.0 ==> Ceil(x) >= 1)
  {
  }

  /**
   * Consecutive fires are more than a cooldown apart, whatever the trigger, and an interval automation
   * fires no earlier than its interval after the last time.
   */
  lemma FiresAreSpaced(trigger: Trigger, s: State, ops: seq<Op>, stepMs: Duration, i: nat, j: nat)
    requires i < j < |ops| && FiresAt(trigger, s, ops, stepMs, i) && FiresAt(trigger, s, ops, stepMs, j)
    requires forall k | i < k < j :: !FiresAt(trigger, s, ops, stepMs, k)
    ensures var gap, f := ops[j].facts.step - ops[i].facts.step, ops[i].facts;
            && (f.cooldownMs.Some? && f.cooldownMs.value > 0.0 ==> gap > StepsOf(f.cooldownMs.value, stepMs) >= 1)
            && (trigger == Interval ==> gap >= StepsOf(ops[j].facts.intervalMs, stepMs))
  {
    TimingStays(trigger, s, ops, stepMs, i, j);
    var f := ops[i].facts;
    if f.cooldownMs.Some? && f.cooldownMs.value > 0.0 {
      PositiveQuotient(f.cooldownMs.value, stepMs);
      CeilingCovers(f.cooldownMs.value / stepMs);
    }
  }

  lemma PositiveQuotient(x: real, d: real)
    requires x > 0.0 && d > 0.0
    ensures x / d > 0.0
  {
  }

  /** Ready to fire on the next satisfied tick. */
  predicate Armed(s: State) {
    s.lastThresholdSatisfied != Some(true)
  }

  /** A crossing whose cost cannot be spent leaves the automation armed, and nothing else changed but its unlocking. */
  lemma FailedSpendStaysArmed(s: State, f: Facts, stepMs: Duration)
    requires !f.spends && Armed(s)
    ensures var o := ProcessTick(ResourceThreshold, s, f, stepMs);
            !o.fired && Armed(o.state)
                && o.state == Unlocked(s, f).(lastThresholdSatisfied := o.state.lastThresholdSatisfied)
  {
  }

  lemma {:induction false} ArmedWhileUnspent(s: State, ops: seq<Op>, stepMs: Duration, n: nat)
    requires n <= |ops| && Armed(s) && forall k | 0 <= k < n && ops[k].Tick? :: !ops[k].facts.spends
    ensures var t := Run(ResourceThreshold, s, ops, stepMs, n);
            Armed(t) && t.cooldownExpiresStep == s.cooldownExpiresStep && t.lastFiredStep == s.lastFiredStep
  {
    if n > 0 {
      ArmedWhileUnspent(s, ops, stepMs, n - 1);
      if ops[n - 1].Tick? {
        FailedSpendStaysArmed(Run(ResourceThreshold, s, ops, stepMs, n - 1), ops[n - 1].facts, stepMs);
      }
    }
  }

  /** However often the spend fails, the first tick that can pay fires, if the threshold still holds. */
  lemma FiresOnceAffordable(s: State, ops: seq<Op>, stepMs: Duration, n: nat)
    requires n < |ops| && Armed(s) && forall k | 0 <= k < n && ops[k].Tick? :: !ops[k].facts.spends
    requires ops[n].Tick? && ops[n].facts.spends && ops[n].facts.satisfied && ops[n].facts.step >= s.cooldownExpiresStep
    requires var u := Unlocked(Run(ResourceThreshold, s, ops, stepMs, n), ops[n].facts); u.unlocked && u.enabled
    ensures FiresAt(ResourceThreshold, s, ops, stepMs, n)
  {
    ArmedWhileUnspent(s, ops, stepMs, n);
  }

  // ----- moving to another clock

  /** A saved automation restored on a clock that is `delta` steps ahead. */
  function Rebased(s: State, delta: int): State {
    s.(lastFiredStep := if s.lastFiredStep.None? then None else Some(s.lastFiredStep.value + delta),
       cooldownExpiresStep := s.cooldownExpiresStep + delta)
  }

  /** The same automation on two clocks, as far as steps that are not negative on either can tell. */
  ghost predicate SameTiming(s: State, t: State, delta: int) {
    && t.enabled == s.enabled && t.unlocked == s.unlocked && t.lastThresholdSatisfied == s.lastThresholdSatisfied
    && t.lastFiredStep == Rebased(s, delta).lastFiredStep
    && forall step: int | step >= 0 && step + delta >= 0 :: CooldownActive(s, step) == CooldownActive(t, step + delta)
  }

  function Later(op: Op, delta: int): Op {
    if op.Tick? then Tick(op.facts.(step := op.facts.step + delta)) else op
  }

  lemma TickKeepsTiming(trigger: Trigger, s: State, t: State, f: Facts, stepMs: Duration, delta: int)
    requires SameTiming(s, t, delta) && f.step >= 0 && f.step + delta >= 0
    ensures var o, p := ProcessTick(trigger, s, f, stepMs), ProcessTick(trigger, t, f.(step := f.step + delta), stepMs);
            o.fired == p.fired && o.retained == p.retained && SameTiming(o.state, p.state, delta)
  {
    var o, p := ProcessTick(trigger, s, f, stepMs), ProcessTick(trigger, t, f.(step := f.step + delta), stepMs);
    assert CooldownActive(s, f.step) == CooldownActive(t, f.step + delta);
    forall step: int | step >= 0 && step + delta >= 0
      ensures CooldownActive(o.state, step) == CooldownActive(p.state, step + delta)
    {
      assert CooldownActive(s, step) == CooldownActive(t, step + delta);
    }
  }

  lemma ToggleKeepsTiming(s: State, t: State, enabled: bool, delta: int)
    requires SameTiming(s, t, delta)
    ensures SameTiming(s.(enabled := enabled), t.(enabled := enabled), delta)
  {
    forall step: int | step >= 0 && step + delta >= 0
      ensures CooldownActive(s.(enabled := enabled), step) == CooldownActive(t.(enabled := enabled), step + delta)
    {
      assert CooldownActive(s, step) == CooldownActive(t, step + delta);
    }
  }

  predicate Fires(trigger: Trigger, s: State, op: Op, stepMs: Duration) {
    op.Tick? && ProcessTick(trigger, s, op.facts, stepMs).fired
  }

  lemma StepKeepsTiming(trigger: Trigger, s: State, t: State, op: Op, stepMs: Duration, delta: int)
    requires SameTiming(s, t, delta)
    requires op.Tick? ==> op.facts.step >= 0 && op.facts.step + delta >= 0
    ensures SameTiming(Step(trigger, s, op, stepMs), Step(trigger, t, Later(op, delta), stepMs), delta)
    ensures Fires(trigger, s, op, stepMs) == Fires(trigger, t, Later(op, delta), stepMs)
  {
    match op
    case Tick(f) => TickKeepsTiming(trigger, s, t, f, stepMs, delta);
    case Toggle(enabled) => ToggleKeepsTiming(s, t, enabled, delta);
  }

  /** After a save and a restore with rebased steps, every later tick fires exactly when it would have without. */
  lemma {:induction false} RebasedRunsFireAlike(trigger: Trigger, s: State, ops: seq<Op>, stepMs: Duration,
                                                delta: int, n: nat)
    requires n <= |ops|
    requires forall k | 0 <= k < |ops| && ops[k].Tick? :: ops[k].facts.step >= 0 && ops[k].facts.step + delta >= 0
    ensures var later := seq(|ops|, k requires 0 <= k < |ops| => Later(ops[k], delta));
            && SameTiming(Run(trigger, s, ops, stepMs, n), Run(trigger, Rebased(s, delta), later, stepMs, n), delta)
            && forall k | 0 <= k < n ::
                FiresAt(trigger, s, ops, stepMs, k) == FiresAt(trigger, Rebased(s, delta), later, stepMs, k)
  {
    var later := seq(|ops|, k requires 0 <= k < |ops| => Later(ops[k], delta));
    if n > 0 {
      var m := n - 1;
      RebasedRunsFireAlike(trigger, s, ops, stepMs, delta, m);
      StepKeepsTiming(trigger, Run(trigger, s, ops, stepMs, m),
                      Run(trigger, Rebased(s, delta), later, stepMs, m), ops[m], stepMs, delta);
    }
  }
}

/** The automation system: states and pending events that change in place. */
module AutomationSystems {
  import opened Wrappers
  import opened Texts
  import A = Automations

  datatype Definition = Definition(id: Text, trigger: A.Trigger, enabledByDefault: bool)

  /** A saved state; absent fields keep what the system has. `Some(None)` is a fire that never happened. */
  datatype Restored = Restored(
    id: Text, enabled: Option<bool>, unlocked: Option<bool>, lastFiredStep: Option<Option<int>>,
    cooldownExpiresStep: Option<int>, lastThresholdSatisfied: Option<Option<bool>>)

  /** The state a saved one leads to, on a clock that is `delta` steps ahead. */
  function Applied(s: A.State, r: Restored, delta: int): A.State {
    A.State(
      if r.enabled.Some? then r.enabled.value else s.enabled,
      match r.lastFiredStep {
        case None => s.lastFiredStep
        case Some(None) => None
        case Some(Some(step)) => Some(step + delta)
      },
      if r.cooldownExpiresStep.Some? then r.cooldownExpiresStep.value + delta else s.cooldownExpiresStep,
      if r.unlocked.Some? then r.unlocked.value else s.unlocked,
      if r.lastThresholdSatisfied.Some? then r.lastThresholdSatisfied.value else s.lastThresholdSatisfied)
  }

  /** `serializeAutomationState` for one automation. */
  function Serialized(id: Text, s: A.State): Restored {
    Restored(id, Some(s.enabled), Some(s.unlocked), Some(s.lastFiredStep), Some(s.cooldownExpiresStep),
             Some(s.lastThresholdSatisfied))
  }

  /** Restoring a save forgets what was there and moves the clock. */
  lemma RestoreUndoesSave(s: A.State, id: Text, other: A.State, delta: int)
    ensures Applied(other, Serialized(id, s), delta) == A.Rebased(s, delta)
  {
  }

  /** A saved field that is there replaces what the system has, steps moved to the new clock. */
  lemma AppliedFields(s: A.State, r: Restored, delta: int)
    ensures var t := Applied(s, r, delta);
            && t.enabled == (if r.enabled == None then s.enabled else r.enabled.value)
            && t.unlocked == (if r.unlocked == None then s.unlocked else r.unlocked.value)
            && t.lastFiredStep == (if r.lastFiredStep == None then s.lastFiredStep
                                   else if r.lastFiredStep.value == None then None
                                   else Some(r.lastFiredStep.value.value + delta))
            && t.cooldownExpiresStep == (if r.cooldownExpiresStep == None then s.cooldownExpiresStep
                                         else r.cooldownExpiresStep.value + delta)
            && t.lastThresholdSatisfied == (if r.lastThresholdSatisfied == None then s.lastThresholdSatisfied
                                            else r.lastThresholdSatisfied.value)
  {
  }

  class AutomationSystem {
    const automations: seq<Definition>
    const stepMs: A.Duration
    var states: map<Text, A.State>
    var pendingEventTriggers: set<Text>

    ghost predicate Valid()
      reads this
    {
      && (forall i, j | 0 <= i < j < |automations| :: automations[i].id != automations[j].id)
      && forall i | 0 <= i < |automations| :: automations[i].id in states
    }

    constructor (automations: seq<Definition>, stepMs: A.Duration)
      requires forall i, j | 0 <= i < j < |automations| :: automations[i].id != automations[j].id
      ensures Valid() && this.automations == automations && this.stepMs == stepMs && pendingEventTriggers == {}
      ensures forall i | 0 <= i < |automations| ::
                states[automations[i].id] == A.State(automations[i].enabledByDefault, None, 0, false, None)
    {
      this.automations, this.stepMs, pendingEventTriggers := automations, stepMs, {};
      states := map i | 0 <= i < |automations| ::
          automations[i].id := A.State(automations[i].enabledByDefault, None, 0, false, None);
    }

    /** The event bus tells that an automation's event happened. */
    method OnEvent(id: Text)
      modifies `pendingEventTriggers
      ensures pendingEventTriggers == old(pendingEventTriggers) + {id}
    {
      pendingEventTriggers := pendingEventTriggers + {id};
    }

    method OnToggled(id: Text, enabled: bool)
      requires Valid()
      modifies `states
      ensures Valid()
      ensures states
           == if id in old(states) then old(states)[id := old(states)[id].(enabled := enabled)] else old(states)
    {
      if id in states {
        states := states[id := states[id].(enabled := enabled)];
      }
    }

    /** One automation's turn. */
    method ProcessAutomation(i: nat, facts: A.Facts) returns (fired: bool, retained: bool)
      requires Valid() && i < |automations|
      modifies `states
      ensures Valid()
      ensures var id := automations[i].id;
              var o := A.ProcessTick(automations[i].trigger, old(states)[id], facts, stepMs);
              states == old(states)[id := o.state] && fired == o.fired && retained == o.retained
    {
      var id, trigger := automations[i].id, automations[i].trigger;
      var s := states[id];
      fired, retained := false, false;
      if !s.unlocked && facts.unlocks {
        s := s.(unlocked := true);
      }
      if s.unlocked && s.enabled {
        if facts.step < s.cooldownExpiresStep {
          if trigger.ResourceThreshold? && !facts.satisfied {
            s := s.(lastThresholdSatisfied := Some(false));
          }
        } else {
          s, fired, retained := Evaluate(trigger, s, facts);
        }
      }
      states := states[id := s];
    }

    /** Triggers, pays and fires an automation that is not cooling down. */
    method Evaluate(trigger: A.Trigger, start: A.State, facts: A.Facts)
      returns (s: A.State, fired: bool, retained: bool)
      requires start.unlocked && start.enabled && start.cooldownExpiresStep <= facts.step
      ensures A.Outcome(s, fired, retained) == A.ProcessTick(trigger, start, facts, stepMs)
    {
      s, fired, retained := start, false, false;
      var crossing := A.Crossing(s, facts);
      if trigger.ResourceThreshold? && !crossing {
        s := s.(lastThresholdSatisfied := Some(facts.satisfied));
      }
      if !A.Triggered(trigger, start, facts, stepMs) {
        return;
      }
      if !facts.spends {
        retained := trigger.Event?;
        if trigger.ResourceThreshold? {
          s := s.(lastThresholdSatisfied := Some(false));
        }
        return;
      }
      fired := true;
      s := s.(lastFiredStep := Some(facts.step), cooldownExpiresStep := A.CooldownExpires(facts, stepMs));
      if trigger.ResourceThreshold? {
        s := s.(lastThresholdSatisfied := Some(true));
      }
    }

    /** A tick: every automation in turn; only events whose spend failed stay pending. */
    method Tick(facts: seq<A.Facts>) returns (fired: seq<Text>)
      requires Valid() && |facts| == |automations|
      requires forall i | 0 <= i < |facts| :: facts[i].pendingEvent == (automations[i].id in pendingEventTriggers)
      modifies this
      ensures Valid() && states.Keys == old(states).Keys
      ensures forall i | 0 <= i < |automations| ::
                var id := automations[i].id;
                var o := A.ProcessTick(automations[i].trigger, old(states)[id], facts[i], stepMs);
                && states[id] == o.state && (id in fired <==> o.fired) && (id in pendingEventTriggers <==> o.retained)
      ensures fired == FiredInOrder(old(states), facts, |automations|)
      ensures forall id | id in pendingEventTriggers :: exists i :: 0 <= i < |automations| && automations[i].id == id
    {
      ghost var before := states;
      var retainedEventTriggers: set<Text> := {};
      fired := [];
      for i := 0 to |automations|
        invariant forall k | 0 <= k < |automations| :: automations[k].id in before
        invariant fired == FiredInOrder(before, facts, i)
        invariant Valid() && TurnsTaken(before, facts, fired, retainedEventTriggers, i)
      {
        fired, retainedEventTriggers := TakeTurn(i, facts, fired, retainedEventTriggers, before);
      }
      pendingEventTriggers := retainedEventTriggers;
    }

    /** The first `n` automations had their turn. */
    ghost predicate TurnsTaken(before: map<Text, A.State>, facts: seq<A.Facts>, fired: seq<Text>, retained: set<Text>,
                               n: nat)
      requires |facts| == |automations|
      reads this
    {
      && states.Keys == before.Keys && (forall k | 0 <= k < |automations| :: automations[k].id in before)
      && (forall k | 0 <= k < |automations| ::
            var id, o := automations[k].id, OutcomeOf(before, facts, k);
            && states[id] == (if k < n then o.state else before[id])
            && (id in fired <==> k < n && o.fired) && (id in retained <==> k < n && o.retained))
      && forall id | id in retained :: exists k :: 0 <= k < |automations| && automations[k].id == id
    }

    method TakeTurn(i: nat, facts: seq<A.Facts>, firedBefore: seq<Text>, retainedBefore: set<Text>,
                    ghost before: map<Text, A.State>)
      returns (fired: seq<Text>, retained: set<Text>)
      requires Valid() && i < |automations| == |facts| && TurnsTaken(before, facts, firedBefore, retainedBefore, i)
      modifies `states
      ensures Valid() && TurnsTaken(before, facts, fired, retained, i + 1)
      ensures fired == firedBefore + (if OutcomeOf(before, facts, i).fired then [automations[i].id] else [])
    {
      fired, retained := firedBefore, retainedBefore;
      var fires, retains := ProcessAutomation(i, facts[i]);
      if fires {
        fired := fired + [automations[i].id];
      }
      if retains {
        retained := retained + {automations[i].id};
      }
    }

    ghost function OutcomeOf(before: map<Text, A.State>, facts: seq<A.Facts>, k: nat): A.Outcome
      requires k < |automations| == |facts| && automations[k].id in before
    {
      A.ProcessTick(automations[k].trigger, before[automations[k].id], facts[k], stepMs)
    }

    /** The automations among the first `n` that fire, in the order they are declared in. */
    ghost function FiredInOrder(before: map<Text, A.State>, facts: seq<A.Facts>, n: nat): seq<Text>
      requires n <= |automations| == |facts| && forall k | 0 <= k < |automations| :: automations[k].id in before
    {
      if n == 0 then []
      else FiredInOrder(before, facts, n - 1)
             + if OutcomeOf(before, facts, n - 1).fired then [automations[n - 1].id] else []
    }

    /** Applies saved states to the automations they belong to; other entries are ignored. */
    method RestoreState(saved: seq<Restored>, delta: int)
      requires Valid() && forall i, j | 0 <= i < j < |saved| :: saved[i].id != saved[j].id
      modifies `states
      ensures Valid() && states.Keys == old(states).Keys
      ensures forall i | 0 <= i < |saved| && saved[i].id in states ::
                states[saved[i].id] == Applied(old(states)[saved[i].id], saved[i], delta)
      ensures forall id | id in states && (forall i | 0 <= i < |saved| :: saved[i].id != id) ::
                states[id] == old(states)[id]
    {
      for i := 0 to |saved|
        invariant Valid() && states.Keys == old(states).Keys
        invariant forall k | 0 <= k < |saved| && saved[k].id in states ::
                    states[saved[k].id] == if k < i then Applied(old(states)[saved[k].id], saved[k], delta)
                        else old(states)[saved[k].id]
        invariant forall id | id in states && (forall k | 0 <= k < |saved| :: saved[k].id != id) ::
                    states[id] == old(states)[id]
      {
        if saved[i].id in states {
          states := states[saved[i].id := Applied(states[saved[i].id], saved[i], delta)];
        }
      }
    }
  }
}
