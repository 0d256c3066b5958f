/**
 * Offline catch-up in chunks (packages/core/src/offline-progress-limits.ts and
 * packages/core/src/offline-progress.ts), in integer milliseconds.
 */
module OfflineProgress {
  import opened Wrappers
  import opened Execution
  import opened Runtimes

  datatype Limits = Limits(maxElapsedMs: Option<int>, maxSteps: Option<int>, maxTicksPerCall: Option<int>)

  datatype Totals = Totals(totalMs: nat, totalSteps: nat, totalRemainderMs: nat)

  /** A limit that is absent or negative does not limit. */
  function NonNegative(limit: Option<int>): Option<nat> {
    if limit.Some? && limit.value >= 0 then Some(limit.value) else None
  }

  function AtMost(x: nat, limit: Option<nat>): nat {
    if limit.Some? && limit.value < x then limit.value else x
  }

  function ResolveTotals(elapsedMs: int, stepSizeMs: nat, limits: Limits): Totals
    requires stepSizeMs > 0
  {
    var cappedMs := AtMost(Max0(elapsedMs), NonNegative(limits.maxElapsedMs));
    var fullSteps: nat := cappedMs / stepSizeMs;
    var remainderMs: nat := cappedMs % stepSizeMs;
    var totalSteps := AtMost(fullSteps, NonNegative(limits.maxSteps));
    var totalRemainderMs := if totalSteps == fullSteps then remainderMs else 0;
    assert totalSteps * stepSizeMs >= 0;
    Totals(totalSteps * stepSizeMs + totalRemainderMs, totalSteps, totalRemainderMs)
  }

  /** A tick limit of zero or less does not limit. */
  function ResolveMaxTicksPerCall(limits: Limits): Option<nat> {
    if limits.maxTicksPerCall.Some? && limits.maxTicksPerCall.value > 0
    then Some(limits.maxTicksPerCall.value) else None
  }

  datatype Progress = Progress(
    processedMs: nat, totalMs: nat, processedSteps: nat, totalSteps: nat,
    remainingMs: nat, remainingSteps: nat, completed: bool)

  function BuildResult(processedMs: nat, totalMs: nat, processedSteps: nat, totalSteps: nat): Progress {
    var remainingMs := Max0(totalMs - processedMs);
    var remainingSteps := Max0(totalSteps - processedSteps);
    Progress(processedMs, totalMs, processedSteps, totalSteps, remainingMs, remainingSteps,
             remainingMs == 0 && remainingSteps == 0)
  }

  /** What one call reports, whichever path it takes. */
  function Call(elapsedMs: int, stepSizeMs: nat, limits: Limits): Progress
    requires stepSizeMs > 0
  {
    if elapsedMs <= 0 then BuildResult(0, 0, 0, 0)
    else
      var t := ResolveTotals(elapsedMs, stepSizeMs, limits);
      if t.totalMs == 0 then BuildResult(0, t.totalMs, 0, t.totalSteps)
      else
        var callSteps := AtMost(t.totalSteps, ResolveMaxTicksPerCall(limits));
        var callRemainderMs := if callSteps == t.totalSteps then t.totalRemainderMs else 0;
        assert callSteps * stepSizeMs >= 0;
        BuildResult(callSteps * stepSizeMs + callRemainderMs, t.totalMs, callSteps, t.totalSteps)
  }

  lemma ProductOrder(a: nat, b: nat, d: nat)
    requires a < b && d > 0
    ensures a * d + d <= b * d
  {
    ScaledOnce(b - a, d);
    assert (b - a) * d == b * d - a * d;
  }

  lemma DivModOf(n: nat, d: nat, q: nat, r: nat)
    requires r < d && n == q * d + r
    ensures n / d == q && n % d == r
  {
    assert n == (n / d) * d + n % d;
    if n / d < q {
      ProductOrder(n / d, q, d);
    } else if q < n / d {
      ProductOrder(q, n / d, d);
    }
  }

  /** The totals of a call split its time into whole steps and a remainder below one step. */
  lemma TotalsSplit(elapsedMs: int, stepSizeMs: nat, limits: Limits)
    requires stepSizeMs > 0
    ensures var t := ResolveTotals(elapsedMs, stepSizeMs, limits);
            && t.totalRemainderMs < stepSizeMs
            && t.totalMs == t.totalSteps * stepSizeMs + t.totalRemainderMs <= Max0(elapsedMs)
            && AtMost(t.totalMs, NonNegative(limits.maxElapsedMs)) == t.totalMs
            && AtMost(t.totalSteps, NonNegative(limits.maxSteps)) == t.totalSteps
  {
    var cappedMs := AtMost(Max0(elapsedMs), NonNegative(limits.maxElapsedMs));
    var fullSteps := cappedMs / stepSizeMs;
    assert cappedMs == fullSteps * stepSizeMs + cappedMs % stepSizeMs;
    var t := ResolveTotals(elapsedMs, stepSizeMs, limits);
    if t.totalSteps < fullSteps {
      ProductOrder(t.totalSteps, fullSteps, stepSizeMs);
    }
  }

  /** Time within the elapsed time and its limit. */
  predicate InTime(ms: int, elapsedMs: int, limits: Limits) {
    && (ms <= elapsedMs || ms <= 0)
    && (limits.maxElapsedMs.Some? && limits.maxElapsedMs.value >= 0 ==> ms <= limits.maxElapsedMs.value)
  }

  /** A number of steps within their limit. */
  predicate InSteps(n: nat, limits: Limits) {
    limits.maxSteps.Some? && limits.maxSteps.value >= 0 ==> n <= limits.maxSteps.value
  }

  /** The steps are as many as the time and both limits allow. */
  lemma StepsAreLargest(elapsedMs: int, stepSizeMs: nat, limits: Limits, n: nat)
    requires stepSizeMs > 0
    ensures n <= ResolveTotals(elapsedMs, stepSizeMs, limits).totalSteps
       <==> InTime(n * stepSizeMs, elapsedMs, limits) && InSteps(n, limits)
  {
    var cappedMs := AtMost(Max0(elapsedMs), NonNegative(limits.maxElapsedMs));
    var fullSteps := cappedMs / stepSizeMs;
    assert cappedMs == fullSteps * stepSizeMs + cappedMs % stepSizeMs;
    if n < fullSteps {
      ProductOrder(n, fullSteps, stepSizeMs);
    } else if fullSteps < n {
      ProductOrder(fullSteps, n, stepSizeMs);
    }
    ScaledOnce(n, stepSizeMs);
  }

  /**
   * While there is time for another step, which the limit on steps then forbids, the time is that of whole
   * steps; otherwise it is as long as the elapsed time and its limit allow.
   */
  lemma TimeIsLargest(elapsedMs: int, stepSizeMs: nat, limits: Limits, ms: nat)
    requires stepSizeMs > 0
    ensures var t := ResolveTotals(elapsedMs, stepSizeMs, limits);
            if InTime((t.totalSteps + 1) * stepSizeMs, elapsedMs, limits) then t.totalMs == t.totalSteps * stepSizeMs
            else ms <= t.totalMs <==> InTime(ms, elapsedMs, limits)
  {
    var cappedMs := AtMost(Max0(elapsedMs), NonNegative(limits.maxElapsedMs));
    var fullSteps := cappedMs / stepSizeMs;
    assert cappedMs == fullSteps * stepSizeMs + cappedMs % stepSizeMs;
    var t := ResolveTotals(elapsedMs, stepSizeMs, limits);
    StepsAreLargest(elapsedMs, stepSizeMs, limits.(maxSteps := None), t.totalSteps + 1);
  }

  /** One call completes exactly when no tick limit applies or the limit covers all steps; else it takes the limit. */
  lemma OneCallCompletesIff(elapsedMs: int, stepSizeMs: nat, limits: Limits)
    requires stepSizeMs > 0
    ensures var r := Call(elapsedMs, stepSizeMs, limits);
            var limit := limits.maxTicksPerCall;
            && (r.completed <==> limit.None? || limit.value <= 0 || r.totalSteps <= limit.value)
            && r.processedSteps == if r.completed then r.totalSteps else limit.value
  {
    TotalsSplit(elapsedMs, stepSizeMs, limits);
    var t := ResolveTotals(elapsedMs, stepSizeMs, limits);
    var callSteps := AtMost(t.totalSteps, ResolveMaxTicksPerCall(limits));
    LeftOver(t.totalMs, t.totalSteps, callSteps, t.totalRemainderMs, stepSizeMs);
  }

  /** What is left after some whole steps divides into the steps not taken and the same remainder. */
  lemma LeftOver(total: nat, steps: nat, taken: nat, remainder: nat, d: nat)
    requires taken <= steps && remainder < d && total == steps * d + remainder
    ensures var left := total - taken * d;
            && 0 <= left && left / d == steps - taken && left % d == remainder
            && (0 < taken < steps ==> 0 < left < total)
  {
    assert (steps - taken) * d == steps * d - taken * d;
    ScaledOnce(steps - taken, d);
    ScaledOnce(taken, d);
    DivModOf(total - taken * d, d, steps - taken, remainder);
  }

  /** A call reports time and steps that add up, and makes progress when it is not the last. */
  lemma CallAddsUp(elapsedMs: int, stepSizeMs: nat, limits: Limits)
    requires stepSizeMs > 0
    ensures var r := Call(elapsedMs, stepSizeMs, limits);
            && r.processedMs + r.remainingMs == r.totalMs <= Max0(elapsedMs)
            && r.processedSteps + r.remainingSteps == r.totalSteps
            && (!r.completed ==> 0 < r.remainingMs < elapsedMs)
  {
    TotalsSplit(elapsedMs, stepSizeMs, limits);
    var t := ResolveTotals(elapsedMs, stepSizeMs, limits);
    var callSteps := AtMost(t.totalSteps, ResolveMaxTicksPerCall(limits));
    LeftOver(t.totalMs, t.totalSteps, callSteps, t.totalRemainderMs, stepSizeMs);
  }

  /** Limits that did not cut the whole do not cut a part. */
  lemma TotalsOfUncut(elapsedMs: nat, stepSizeMs: nat, limits: Limits)
    requires stepSizeMs > 0
    requires AtMost(elapsedMs, NonNegative(limits.maxElapsedMs)) == elapsedMs
    requires AtMost(elapsedMs / stepSizeMs, NonNegative(limits.maxSteps)) == elapsedMs / stepSizeMs
    ensures ResolveTotals(elapsedMs, stepSizeMs, limits)
         == Totals(elapsedMs, elapsedMs / stepSizeMs, elapsedMs % stepSizeMs)
  {
  }

  /** Feeding a call the remaining time of the previous one continues it: no limit bites twice. */
  lemma CallContinues(elapsedMs: int, stepSizeMs: nat, limits: Limits)
    requires stepSizeMs > 0 && !Call(elapsedMs, stepSizeMs, limits).completed
    ensures var r := Call(elapsedMs, stepSizeMs, limits);
            && Call(r.remainingMs, stepSizeMs, limits).totalMs == r.remainingMs
            && Call(r.remainingMs, stepSizeMs, limits).totalSteps == r.remainingSteps
  {
    TotalsSplit(elapsedMs, stepSizeMs, limits);
    CallAddsUp(elapsedMs, stepSizeMs, limits);
    var t := ResolveTotals(elapsedMs, stepSizeMs, limits);
    var callSteps := AtMost(t.totalSteps, ResolveMaxTicksPerCall(limits));
    LeftOver(t.totalMs, t.totalSteps, callSteps, t.totalRemainderMs, stepSizeMs);
    var left := t.totalMs - callSteps * stepSizeMs;
    TotalsOfUncut(left, stepSizeMs, limits);
    assert Call(elapsedMs, stepSizeMs, limits).remainingMs == left;
  }

  /** Calling again with the previous `remainingMs` until a call completes. */
  function Chunks(elapsedMs: int, stepSizeMs: nat, limits: Limits): seq<Progress>
    requires stepSizeMs > 0
    decreases Max0(elapsedMs)
  {
    var r := Call(elapsedMs, stepSizeMs, limits);
    if r.completed then [r]
    else
      CallAddsUp(elapsedMs, stepSizeMs, limits);
      [r] + Chunks(r.remainingMs, stepSizeMs, limits)
  }

  function SumMs(rs: seq<Progress>): nat {
    if rs == [] then 0 else rs[0].processedMs + SumMs(rs[1..])
  }

  function SumSteps(rs: seq<Progress>): nat {
    if rs == [] then 0 else rs[0].processedSteps + SumSteps(rs[1..])
  }

  /** Chunked catch-up terminates having processed exactly the time and steps the first call announced. */
  lemma {:induction false} ChunksConserveTime(elapsedMs: int, stepSizeMs: nat, limits: Limits)
    requires stepSizeMs > 0
    ensures var rs := Chunks(elapsedMs, stepSizeMs, limits);
            && rs != [] && rs[|rs| - 1].completed
            && SumMs(rs) == rs[0].totalMs
            && SumSteps(rs) == rs[0].totalSteps
            && rs[0] == Call(elapsedMs, stepSizeMs, limits)
    decreases Max0(elapsedMs)
  {
    var r := Call(elapsedMs, stepSizeMs, limits);
    CallAddsUp(elapsedMs, stepSizeMs, limits);
    if !r.completed {
      CallContinues(elapsedMs, stepSizeMs, limits);
      ChunksConserveTime(r.remainingMs, stepSizeMs, limits);
      var rest := Chunks(r.remainingMs, stepSizeMs, limits);
      assert ([r] + rest)[1..] == rest;
    } else {
      assert [r][1..] == [];
    }
  }

  /** No chunk runs more ticks than `maxTicksPerCall`. */
  lemma {:induction false} ChunksStayWithinTickLimit(elapsedMs: int, stepSizeMs: nat, limits: Limits, i: nat)
    requires stepSizeMs > 0 && i < |Chunks(elapsedMs, stepSizeMs, limits)|
    requires ResolveMaxTicksPerCall(limits).Some?
    ensures Chunks(elapsedMs, stepSizeMs, limits)[i].processedSteps <= ResolveMaxTicksPerCall(limits).value
    decreases Max0(elapsedMs)
  {
    var r := Call(elapsedMs, stepSizeMs, limits);
    if i > 0 {
      CallAddsUp(elapsedMs, stepSizeMs, limits);
      ChunksStayWithinTickLimit(r.remainingMs, stepSizeMs, limits, i - 1);
    }
  }

  /** What the runtime still owes, in either account. */
  ghost function Backlog(runtime: IdleEngineRuntime): nat
    reads runtime
  {
    runtime.hostFrameAccumulator + runtime.creditedAccumulator
  }

  lemma MulAdd(a: nat, b: nat, d: nat)
    ensures (a + b) * d == a * d + b * d
  {
  }

  lemma WholeQuotient(steps: nat, d: nat, rest: nat)
    requires rest < d
    ensures (steps * d + rest) / d == steps
  {
    StepsDrained(steps * d + rest, d, steps, steps + 1);
  }

  /** The coordinator brought up to the step of the runtime after a tick, by the runtime itself or here. */
  function Updated(coordinatorStep: int, ran: nat, currentStep: int): int {
    if ran > 0 then currentStep else coordinatorStep
  }

  /**
   * Ticks once for `steps` steps; not `ok` stands for the exception of a subscriber. Otherwise simulated time
   * moves by exactly as much, and from an empty backlog and within the budget of a frame, exactly these steps
   * run and the backlog is empty again.
   */
  method TickSteps(runtime: IdleEngineRuntime, steps: nat, world: World) returns (ms: nat, ran: nat, ok: bool)
    requires runtime.Valid() && NoReentrantCredit(world)
    modifies runtime, runtime.commandQueue
    ensures runtime.Valid() && ms == steps * runtime.stepSizeMs && (!ok ==> world.fails(runtime.currentStep))
    ensures runtime.currentStep == old(runtime.currentStep) + ran
    ensures ok ==> runtime.SimulatedMs() == old(runtime.SimulatedMs()) + ms
    ensures ok && old(Backlog(runtime)) == 0 && steps <= runtime.maxStepsPerFrame ==>
            ran == steps && Backlog(runtime) == 0
  {
    assert steps * runtime.stepSizeMs >= 0;
    ms := steps * runtime.stepSizeMs;
    ran, ok := runtime.Tick(ms, world);
    WholeQuotient(steps, runtime.stepSizeMs, 0);
    StepsAdd(old(runtime.currentStep), ran, runtime.currentStep, runtime.stepSizeMs);
  }

  /** Ticks for less than a step. */
  method TickRemainder(runtime: IdleEngineRuntime, remainderMs: nat, world: World) returns (ran: nat, ok: bool)
    requires runtime.Valid() && NoReentrantCredit(world)
    modifies runtime, runtime.commandQueue
    ensures runtime.Valid() && (!ok ==> world.fails(runtime.currentStep))
    ensures runtime.currentStep == old(runtime.currentStep) + ran
    ensures ok ==> runtime.SimulatedMs() == old(runtime.SimulatedMs()) + remainderMs
    ensures ok && old(Backlog(runtime)) == 0 && remainderMs < runtime.stepSizeMs ==>
            ran == 0 && Backlog(runtime) == remainderMs
  {
    ran, ok := runtime.Tick(remainderMs, world);
    StepsAdd(old(runtime.currentStep), ran, runtime.currentStep, runtime.stepSizeMs);
    if remainderMs < runtime.stepSizeMs {
      WholeQuotient(0, runtime.stepSizeMs, remainderMs);
    }
  }

  /**
   * Ticks `callSteps` whole steps, the first alone and the rest in batches, then the remainder. The
   * coordinator ends at the step of the runtime. The exception of a subscriber ends the call.
   */
  method RunTicks(runtime: IdleEngineRuntime, callSteps: nat, callRemainderMs: nat, updatedByRuntime: bool,
                  coordinatorStep: int, world: World)
    returns (processedMs: nat, processedSteps: nat, coordinator: int, ok: bool)
    requires runtime.Valid() && NoReentrantCredit(world) && coordinatorStep == runtime.currentStep
    modifies runtime, runtime.commandQueue
    ensures runtime.Valid() && (!ok ==> world.fails(runtime.currentStep))
    ensures ok ==> coordinator == runtime.currentStep
    ensures ok ==> processedSteps == callSteps && processedMs == callSteps * runtime.stepSizeMs + callRemainderMs
    ensures ok ==> runtime.SimulatedMs() == old(runtime.SimulatedMs()) + processedMs
    ensures ok && old(Backlog(runtime)) == 0 && runtime.maxStepsPerFrame > 0 && callRemainderMs < runtime.stepSizeMs ==>
              runtime.currentStep == old(runtime.currentStep) + callSteps && Backlog(runtime) == callRemainderMs
  {
    var updating := false;
    ghost var start := runtime.SimulatedMs();
    ghost var exact := Backlog(runtime) == 0 && runtime.maxStepsPerFrame > 0;
    processedMs, processedSteps, coordinator, ok := 0, 0, coordinatorStep, true;
    if callSteps > 0 {
      var ran;
      processedMs, ran, ok := TickSteps(runtime, 1, world);
      if !ok {
        return;
      }
      processedSteps := 1;
      updating := updatedByRuntime && ran > 0;
      coordinator := Updated(coordinator, ran, runtime.currentStep);
    }
    var batchStepsLimit := if updating && runtime.maxStepsPerFrame > 1 then runtime.maxStepsPerFrame else 1;
    while processedSteps < callSteps
      invariant runtime.Valid() && processedSteps <= callSteps && coordinator == runtime.currentStep && ok
      invariant processedMs == processedSteps * runtime.stepSizeMs
      invariant runtime.SimulatedMs() == start + processedMs
      invariant exact ==> runtime.currentStep == old(runtime.currentStep) + processedSteps && Backlog(runtime) == 0
    {
      var batchSteps := Min(callSteps - processedSteps, batchStepsLimit);
      MulAdd(processedSteps, batchSteps, runtime.stepSizeMs);
      var ms, ran;
      ms, ran, ok := TickSteps(runtime, batchSteps, world);
      if !ok {
        return;
      }
      processedSteps, processedMs := processedSteps + batchSteps, processedMs + ms;
      coordinator := Updated(coordinator, ran, runtime.currentStep);
    }
    if callRemainderMs > 0 {
      var ran;
      ran, ok := TickRemainder(runtime, callRemainderMs, world);
      processedMs := processedMs + callRemainderMs;
      coordinator := Updated(coordinator, ran, runtime.currentStep);
    }
  }

  /** The fast path: the clock jumps, and production is applied for the steps it jumped over. */
  method SkipTicks(runtime: IdleEngineRuntime, callSteps: nat, callRemainderMs: nat, t: Totals)
    returns (r: Progress, coordinator: int, productionMs: nat)
    requires runtime.Valid() && callRemainderMs < runtime.stepSizeMs
    modifies runtime
    ensures runtime.Valid() && coordinator == runtime.currentStep
    ensures r == BuildResult(callSteps * runtime.stepSizeMs + callRemainderMs, t.totalMs, callSteps, t.totalSteps)
    ensures runtime.SimulatedMs() == old(runtime.SimulatedMs()) + r.processedMs
    ensures old(Backlog(runtime)) == 0 ==>
              runtime.currentStep == old(runtime.currentStep) + callSteps && Backlog(runtime) == callRemainderMs
    ensures productionMs == (runtime.currentStep - old(runtime.currentStep)) * runtime.stepSizeMs
  {
    coordinator := runtime.currentStep;
    assert callSteps * runtime.stepSizeMs >= 0;
    var callElapsedMs := callSteps * runtime.stepSizeMs + callRemainderMs;
    var steps := runtime.FastForward(callElapsedMs);
    WholeQuotient(callSteps, runtime.stepSizeMs, callRemainderMs);
    StepsAdd(old(runtime.currentStep), steps, runtime.currentStep, runtime.stepSizeMs);
    assert steps * runtime.stepSizeMs >= 0;
    productionMs := steps * runtime.stepSizeMs;
    coordinator := Updated(coordinator, steps, runtime.currentStep);
    r := BuildResult(callElapsedMs, t.totalMs, callSteps, t.totalSteps);
  }

  /**
   * One call, on either path, unless the exception of a subscriber ends it: it reports what `Call` says and
   * moves simulated time by exactly the milliseconds it reports. From an empty backlog the runtime also runs
   * exactly the steps reported, and the rest of the time is its backlog. The coordinator ends at the step of
   * the runtime, and production is given exactly the time that was fast-forwarded. `updatedByRuntime` is
   * whether the runtime keeps the coordinator current, which only decides how ticks are batched.
   */
  method ApplyOfflineProgress(runtime: IdleEngineRuntime, elapsedMs: int, limits: Limits, fastPath: bool,
                              updatedByRuntime: bool, world: World)
    returns (r: Progress, coordinator: int, productionMs: nat, ok: bool)
    requires runtime.Valid() && NoReentrantCredit(world)
    modifies runtime, runtime.commandQueue
    ensures runtime.Valid() && (!ok ==> !fastPath && world.fails(runtime.currentStep))
    ensures ok ==> coordinator == runtime.currentStep && r == Call(elapsedMs, runtime.stepSizeMs, limits)
    ensures ok ==> runtime.SimulatedMs() == old(runtime.SimulatedMs()) + r.processedMs
    ensures ok && old(Backlog(runtime)) == 0 && (fastPath || runtime.maxStepsPerFrame > 0) ==>
              && runtime.currentStep == old(runtime.currentStep) + r.processedSteps
              && Backlog(runtime) == r.processedMs - r.processedSteps * runtime.stepSizeMs
    ensures productionMs
         == if fastPath then (runtime.currentStep - old(runtime.currentStep)) * runtime.stepSizeMs else 0
  {
    coordinator, productionMs, ok := runtime.currentStep, 0, true;
    r := BuildResult(0, 0, 0, 0);
    if elapsedMs <= 0 {
      return;
    }
    var t := ResolveTotals(elapsedMs, runtime.stepSizeMs, limits);
    if t.totalMs == 0 {
      r := BuildResult(0, t.totalMs, 0, t.totalSteps);
      return;
    }
    TotalsSplit(elapsedMs, runtime.stepSizeMs, limits);
    var callSteps := AtMost(t.totalSteps, ResolveMaxTicksPerCall(limits));
    var callRemainderMs := if callSteps == t.totalSteps then t.totalRemainderMs else 0;
    if fastPath {
      r, coordinator, productionMs := SkipTicks(runtime, callSteps, callRemainderMs, t);
      return;
    }
    var processedMs, processedSteps;
    processedMs, processedSteps, coordinator, ok :=
      RunTicks(runtime, callSteps, callRemainderMs, updatedByRuntime, coordinator, world);
    r := BuildResult(processedMs, t.totalMs, processedSteps, t.totalSteps);
  }
}
