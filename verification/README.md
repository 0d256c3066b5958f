# Deterministic simulation kernel: model and proofs

A Dafny model of the deterministic core of an idle-game engine: the fixed-step runtime and its command
queue, the resource store and its published snapshots, production, entities, automations, the idempotent
command transport, replay checking, save migrations, offline catch-up, and the canonical text that render
output is hashed from.

Every file holds the specification of one component as functions over values. Where the component changes
its state in place, a class beside it has the same fields and loops, and each method is proved to end in the
state that the specification gives. The lemmas are about the specification: what every step keeps, what
holds over every run, and which simple thing the code is equal to.

| file | component |
|---|---|
| `Commands.dfy`, `CommandQueue.dfy`, `Runtime.dfy` | priority lanes with overflow, save and restore, and the fixed-step loop over them |
| `OfflineProgress.dfy` | chunked catch-up after time away |
| `ResourceRows.dfy`, `ResourceTracking.dfy`, `ResourceState.dfy` | tolerances, the dirty list, double-buffered publishing and its transport |
| `CommandRecorder.dfy` | matching of follow-up commands during replay |
| `Production.dfy`, `ProductionTurns.dfy`, `ProductionRefusals.dfy`, `TickSplitting.dfy`, `RateTracking.dfy`, `ProductionSystem.dfy` | generators, threshold accumulators, advertised rates and the two execution flows |
| `Texts.dfy`, `UriComponents.dfy`, `AccumulatorKeys.dfy` | UTF-16 text, percent-encoding and accumulator keys |
| `EntitySystem.dfy` | instances, missions, levels, ids and saves |
| `Automation.dfy` | triggers, cooldowns and event retention |
| `MigrationSearch.dfy` | breadth-first search for a chain of migrations |
| `CanonicalJson.dfy`, `CanonicalText.dfy` | canonical JSON and its text |
| `CommandTransport.dfy` | idempotent requests, pending outcomes and their expiry |
| `BufferPool.dfy` | leases of reusable buffers |
| `Counting.dfy` | duplicate-free lists |

Check everything with `dafny verify dfyconfig.toml`.

Amounts are exact reals, times and steps integers, and no capacity is a constructor of its own. Text is a
sequence of UTF-16 code units. What the code calls into (handlers, systems, formulas, migrations, random
draws, number printing) is a parameter, and the results hold for every such parameter.

## Where the code does not keep what one might expect

Each of these is shown by a concrete lemma, pinned down by an exact condition, or both:

- Flags are compared as numbers under a tolerance, so with an override limit of one or more a change of a
  flag can stay unpublished (`FlagsHideIff`, `FlagChangeHidesIff`, `HiddenFlagIsNeverPublished`).
- Recycled publish buffers keep old tick deltas, so one that was published comes back two publishes later
  (`PublishedTickDelta`, `TickDeltaComesBack`).
- A queue accepts commands that its save drops, and payloads that it changes (`RestoreIsCompleteIff`,
  `RestoreIsFaithfulIff`, `CloneIsSameIff`, `ProtoIsLost`, `BlankTypeIsLost`).
- The exception of an event subscriber loses the time that was paid for the steps it keeps from running
  (`Tick`, `DrainCreditedBacklog`).
- `fastForward` strands commands of the steps it passes over (`TickSkipsIffStale`,
  `FastForwardStrandsCommands`).
- First-fit matching of replayed commands is complete for JSON payloads without shared parts, but not for
  payloads that hold one object twice, nor for maps and sets, which an empty plain object equals
  (`FirstFitIsCompleteIff`, `SharedPartsBreakCompleteness`, `MapPayloadsBreakCompleteness`).
- A generator that names an input twice can be refused in phase 3 (`NeverRefusedIffDistinct`,
  `RepeatedInputIsRefused`).
- An accumulator that owes more than epsilon is forgiven by the first tick (`SplitShowsIffInDebt`).
- A sparse array of one hole has the canonical text of an empty array (`CanonicalTextIsCollapsedData`,
  `LoneHoleCollides`).
- An outcome that comes after the TTL goes to whoever holds the request id by then
  (`OutcomeReachesClientIff`, `LateOutcomeGoesToNewOwner`).
- A save of entities clamps assignment steps below zero (`SaveIsFaithfulIff`).
- A second release of a lease breaks the pool exactly when its entry was leased again, and a replacement
  buffer of a fraction of an element loses the entry (`SecondReleaseBreaksIff`, `ReleaseLosesEntryIff`).

## Model

| member | source | states |
|---|---|---|
| `Scheduling.EnqueueKeepsWellFormed` | packages/core/src/command-queue.ts:95-149 | every enqueue keeps each lane sorted by timestamp and sequence, within the size limit, and free of commands the policy forbids in it |
| `Scheduling.OverflowDropsTheOldestOfTheLowestLane` | packages/core/src/command-queue.ts:118-137 | at the size limit a command is refused exactly when nothing of equal or lower priority is queued; otherwise the oldest entry of the lowest nonempty lane makes room, and never one that outranks the newcomer |
| `Scheduling.EnqueueAnswers` | packages/core/src/command-queue.ts:95-149 | every enqueue, whatever its timestamp, is accepted exactly when the policy allows it and there is room or something of equal or lower priority is queued; with room nothing is dropped, the lane of the newcomer holds the old entries and it, and the other lanes are the same |
| `Scheduling.DequeueIsOrdered` | packages/core/src/command-queue.ts:155-193 | a drained batch is strictly ordered by priority, then timestamp, then sequence |
| `Scheduling.DispatchedBeforeIff` | packages/core/src/command-queue.ts:155-193 | in that order system commands come first and automation commands last |
| `Scheduling.DequeueIsComplete` | packages/core/src/command-queue.ts:155-193 | a drained batch holds exactly the entries that are due, and exactly the others stay queued |
| `Scheduling.DueAndLaterPartition` | packages/core/src/command-queue.ts:155-193 | splitting a lane loses and doubles no entry |
| `Scheduling.FutureAgrees` | packages/core/src/command-queue.ts:76-335 | two queues whose lanes hold the same commands in the same order, whatever their sequence numbers, answer every later sequence of enqueues, drains and clears alike |
| `Scheduling.RestoreRebuildsEverySurvivor` | packages/core/src/command-queue.ts:210-308 | restoring the export of any well-formed queue into a queue with room rebuilds, lane by lane and in order, exactly the commands a save can carry, each with the copy of its payload, and counts all other exported entries as skipped |
| `Scheduling.RestoreIsCompleteIff` | packages/core/src/command-queue.ts:210-401 | a restore brings back as many commands as were queued exactly when each has a JSON payload in which no member named `__proto__` holds an object, a supported type that is not blank, and a step that is not negative; then each comes back in its place with the copy of its payload |
| `Scheduling.RestoreIsFaithfulIff` | packages/core/src/command-queue.ts:210-467 | a restore brings back every lane as it was, with every step moved to max(0, step + delta), exactly when each command is such a one and no object in its payload has a member named `__proto__` at all |
| `Scheduling.EveryHistoryIsWellFormed` | packages/core/src/command-queue.ts:76-335 | lane order, size limit and policy hold after every history of calls |
| `Scheduling.SaveRestorePreservesScheduling` | packages/core/src/command-queue.ts:210-308 | after every history whose queued commands come back from a save as they were, the restored queue answers every later sequence of calls as the saved one would, overflow drops included |
| `Scheduling.BlankTypeIsLost` | packages/core/src/command-queue.ts:338-401 | a command with a blank type is accepted by the queue and lost by a save: why the condition of `RestoreIsCompleteIff` is needed |
| `Scheduling.NormalizeIff` | packages/core/src/command-queue.ts:338-401 | which entries of a save are usable, whoever wrote it, and the command each gives, field by field |
| `Scheduling.RestoreCounts` | packages/core/src/command-queue.ts:253-308 | whatever is in a save, a restore leaves as many commands as it counts as restored, counts all other entries as skipped, and queues nothing but commands that usable entries of supported types give |
| `CommandQueues.UpperBoundIsUnique` | packages/core/src/command-queue.ts:95-149 | there is one place where a newcomer keeps the lane sorted |
| `CommandQueues.CommandQueue.FindPlace` | packages/core/src/command-queue.ts:95-149 | binary search ends at the place a scan of the lane would find |
| `CommandQueues.CommandQueue.Enqueue` | packages/core/src/command-queue.ts:95-149 | for every timestamp: refuses exactly what the policy forbids, and what finds the queue full of commands that outrank it; otherwise the newcomer joins its lane, after the head of the lowest nonempty lane has left if the queue was full, and nothing else changes |
| `CommandQueues.CommandQueue.DropLowestPriorityUpTo` | packages/core/src/command-queue.ts:310-335 | drops the head of the lowest nonempty lane at or below a priority, if there is one |
| `CommandQueues.CommandQueue.CompactLane` | packages/core/src/command-queue.ts:155-193 | compaction by a read and a write index keeps what is not due and drains what is, both in order |
| `CommandQueues.CommandQueue.DequeueUpToStep` | packages/core/src/command-queue.ts:155-193 | drains what the specification of dequeue says, and keeps the rest |
| `CommandQueues.CommandQueue.ExportForSave` | packages/core/src/command-queue.ts:210-251 | writes the exportable entries of the three lanes, highest priority first |
| `CommandQueues.CommandQueue.RestoreFromSave` | packages/core/src/command-queue.ts:253-308 | clears the queue and enqueues every usable entry; the counts add up as specified |
| `Commands.CloneAcceptsJson` | packages/core/src/command-queue.ts:403-467 | copying a payload succeeds exactly when it is JSON |
| `Commands.CloneIsSameIff` | packages/core/src/command-queue.ts:403-467 | the copy is the payload again exactly when no object in it has a member named `__proto__`, which an assignment takes for the prototype |
| `Commands.CloneTwiceIff` | packages/core/src/command-queue.ts:403-467 | a copy can be copied again, as a restore does, exactly when no such member holds an object; then it loses nothing more |
| `Commands.ProtoIsLost` | packages/core/src/command-queue.ts:454-464 | the smallest example: the copy of an object whose only member is named `__proto__` and holds an object has no member, and cannot be copied again |
| `Execution.SubmitIsSound` | packages/core/src/internals.browser.ts:585-620 | accepting, refusing or displacing a command keeps the fate of every accepted command decided exactly once |
| `Execution.CaptureIsSound` | packages/core/src/internals.browser.ts:585-593 | draining the current step moves exactly its commands from queued to about to run, also after a step that was broken off |
| `Execution.PerformIsSound` | packages/core/src/internals.browser.ts:518-583 | a step that a subscriber breaks off after its commands ran keeps every fate decided exactly once, and its step closed to new commands |
| `Execution.OfferAnswers` | packages/core/src/internals.browser.ts:585-620 | offering commands one after the other answers each as an enqueue into what the earlier ones left does |
| `Execution.AllAreTaken` | packages/core/src/internals.browser.ts:585-620 | with room for all of them and an empty policy, commands offered in a row are all accepted, in order, and nothing is dropped |
| `Execution.TakenAreQueued` | packages/core/src/internals.browser.ts:585-620 | and then each of them is queued, under its own number |
| `Execution.ExecuteAllReceives` | packages/core/src/internals.browser.ts:595-620 | executing a batch logs its commands of the current step in order, skips the others, and offers to the queue exactly what the handlers of the logged ones enqueue, in log order |
| `Execution.RunStepIsStep` | packages/core/src/internals.browser.ts:518-583 | over a whole step the commands run before the systems: what is accepted grows by what the handlers of the logged commands enqueue, then by what the systems enqueue, as far as the queue takes it |
| `Execution.ExactlyOnce` | packages/core/src/internals.browser.ts:518-620 | over every run of ticks, broken-off ones included, whose producers stamp steps from the next executable one on, handlers that enqueue included: each accepted command was displaced by overflow, or is queued for a step whose commands were not yet captured, or ran once, in the tick of its own step; nothing is skipped; the log is ordered by step, priority, timestamp and sequence |
| `Execution.TickSkipsIffStale` | packages/core/src/internals.browser.ts:595-620 | a tick skips a command as a step mismatch exactly when some queued command is stamped with an earlier step |
| `Execution.FastForwardStrandsCommands` | packages/core/src/internals.browser.ts:403-420 | a command that fast-forwarding passes over is skipped by the next tick: exactly-once is a property of `tick` alone |
| `Execution.JumpIsSoundIff` | packages/core/src/internals.browser.ts:403-420 | fast-forwarding leaves the next executable step at the current one, and keeps every fate decided exactly when no queued command is stamped with a step it passes over |
| `Runtimes.IdleEngineRuntime.CreditTime` | packages/core/src/internals.browser.ts:381-388 | credits positive time and ignores the rest |
| `Runtimes.IdleEngineRuntime.ConsumeAccumulatorBacklog` | packages/core/src/internals.browser.ts:479-504 | takes exactly the amount from the two backlogs together, host time first, or from credited time alone |
| `Runtimes.IdleEngineRuntime.DequeueCommandsForCurrentStep` | packages/core/src/internals.browser.ts:585-593 | captures the commands due at the current step and opens the next one |
| `Runtimes.IdleEngineRuntime.ExecuteCommandsForCurrentStep` | packages/core/src/internals.browser.ts:595-620 | logs exactly the captured commands of this step, in order, and skips the others; the queue receives what the handlers of the logged ones enqueue, in that order, each accepted unless it is unauthorized or the queue is full of commands that outrank it |
| `Runtimes.IdleEngineRuntime.RunTickStep` | packages/core/src/internals.browser.ts:518-583 | captures what is due, logs it, then queues what its handlers enqueue in log order and then what the systems enqueue, each accepted as an enqueue accepts it; the step number moves on unless a subscriber throws, which is reported; backlogs change only by what handlers credit |
| `Runtimes.LeftRan` | packages/core/src/internals.browser.ts:448-477 | what any number of steps leaves, the last of them broken off or not, comes from a chain of such steps |
| `Runtimes.IdleEngineRuntime.DrainAccumulator` | packages/core/src/internals.browser.ts:448-477 | runs whole steps until the budget is spent, less than a step is left, or a subscriber throws; steps * size plus both backlogs grows only by what handlers credit meanwhile, and shrinks exactly when a subscriber throws, by what was paid for steps that did not run |
| `Runtimes.IdleEngineRuntime.Tick` | packages/core/src/internals.browser.ts:704-713 | runs such steps one after the other (`LeftRan`) within its step budget; without re-entrant credit simulated time grows by exactly the delta if and only if no subscriber throws, and then the number of steps is the least of the budget and the whole steps of the backlog |
| `Runtimes.IdleEngineRuntime.DrainCreditedBacklog` | packages/core/src/internals.browser.ts:395-401 | leaves host backlog alone, stays within both budgets, and without re-entrant credit keeps simulated time if and only if no subscriber throws |
| `Runtimes.IdleEngineRuntime.FastForward` | packages/core/src/internals.browser.ts:403-420 | moves simulated time by exactly the delta, over every whole step of the backlog, and leaves less than a step of backlog; the next executable step is then the current one |
| `OfflineProgress.TotalsSplit` | packages/core/src/offline-progress-limits.ts:39-66 | the totals are within the elapsed time and both limits, and split into whole steps and a remainder below one step |
| `OfflineProgress.StepsAreLargest` | packages/core/src/offline-progress-limits.ts:39-66 | the steps are as many as fit the elapsed time, its limit and the limit on steps |
| `OfflineProgress.TimeIsLargest` | packages/core/src/offline-progress-limits.ts:39-66 | while there is time for one more step, the time is that of whole steps; otherwise it is all that the elapsed time and its limit allow |
| `OfflineProgress.OneCallCompletesIff` | packages/core/src/offline-progress-limits.ts:68-76 | one call completes exactly when no tick limit applies or the limit covers all steps; otherwise it takes as many steps as the limit |
| `OfflineProgress.CallAddsUp` | packages/core/src/offline-progress.ts:93-110 | processed and remaining time, and steps, add up to the totals; a call that is not the last one makes progress |
| `OfflineProgress.CallContinues` | packages/core/src/offline-progress.ts:342-439 | a call fed the remaining time of the previous one takes up exactly what that one left: no limit bites twice |
| `OfflineProgress.ChunksConserveTime` | packages/core/src/offline-progress.ts:342-439 | chunked catch-up ends, having processed exactly the time and the steps that the first call announced |
| `OfflineProgress.ChunksStayWithinTickLimit` | packages/core/src/offline-progress-limits.ts:68-76 | no chunk runs more ticks than the limit of one call |
| `OfflineProgress.RunTicks` | packages/core/src/offline-progress.ts:255-340 | the first tick, the batches and the remainder tick come to exactly the steps and milliseconds of the call; from an empty backlog exactly these steps run and the remainder is the backlog; the coordinator ends at the step of the runtime |
| `OfflineProgress.ApplyOfflineProgress` | packages/core/src/offline-progress.ts:342-439 | on the fast path and on the ticking path alike, reports what the arithmetic of one call says and moves simulated time by exactly the milliseconds it reports; from an empty backlog the runtime moves by exactly the steps reported; the coordinator ends at its step, and production is applied for exactly the time fast-forwarded |
| `ResourceRows.ResolvedPrecisionIsOk` | packages/core/src/config.ts:124-150 | every configuration resolves to nested limits and a reflexive comparison |
| `ResourceRows.ResolvedSettings` | packages/core/src/config.ts:124-150 | settings that are absent or negative take their defaults, and each limit is at least the one before |
| `ResourceRows.EqualsIff` | packages/core/src/resource-state.ts:1988-2034 | two numbers compare as equal exactly when they are, or their distance is within the absolute tolerance, or within the relative one and the ceiling, or within the ceiling where that is floored |
| `ResourceRows.FlagsHideIff` | packages/core/src/resource-state.ts:1836-1935 | no change of a flag can hide inside a tolerance exactly when the override limit is below one, or when it and the ceiling are one, the absolute tolerance is smaller and three relative ones are below one |
| `ResourceRows.SanitizedIsInOrder` | packages/core/src/resource-state.ts:381-463 | definitions start within bounds and with a tolerance in range, or are refused for a negative capacity |
| `ResourceRows.SanitizedFields` | packages/core/src/resource-state.ts:381-463 | a definition starts with its own amount, capacity, tolerance and flags as far as they are in range, with the nearest value where not, and with the defaults where it has none |
| `ResourceTracking.MarkDirtyKeepsSparseSet` | packages/core/src/resource-state.ts:1796-1812 | listing an index keeps the list and the positions inverse to each other, in bounds and in step with the dirty bits |
| `ResourceTracking.UnmarkKeepsSparseSet` | packages/core/src/resource-state.ts:1814-1834 | so does taking one off by moving the last index into its place |
| `ResourceTracking.WriteRowIsSound` | packages/core/src/resource-state.ts:1700-1794 | a write followed by marking or unmarking keeps the dirty list sound: whatever is off it agrees with the published buffer within tolerance |
| `ResourceTracking.PublishIsExact` | packages/core/src/resource-state.ts:1079-1182 | the new active buffer differs from the previous one exactly at its dirty indices, where it equals the live row; afterwards nothing is listed and every resource is in sync |
| `ResourceTracking.PublishedIff` | packages/core/src/resource-state.ts:1163-1260 | a publish takes exactly the listed resources of which some field is further from its published value than the tolerance of the resource: amount, capacity, income, expense, net rate, tick delta, tolerance or a flag |
| `ResourceTracking.PublishShowsRates` | packages/core/src/resource-state.ts:1079-1260 | after a publish, income, expense and net rate of every listed resource, and of every other whose rates were shown before, are published within tolerance of the live ones |
| `ResourceTracking.PublishedTickDelta` | packages/core/src/resource-state.ts:1079-1153 | the tick delta a publish shows is the live one of what it takes, zero where either dirty list was, and otherwise that of two publishes ago |
| `ResourceTracking.TickDeltaComesBack` | packages/core/src/resource-state.ts:1079-1153 | so a published tick delta comes back two publishes later although nothing happened and the live one was reset |
| `ResourceTracking.TransportKeepsMirror` | packages/core/src/resource-publish-transport.ts:185-408 | a mirror of the published rows that applies one transport is a mirror of the next publish |
| `ResourceTracking.StepKeepsGood` | packages/core/src/resource-state.ts:628-1182 | every operation and every publish keeps dirty tracking sound, and only a publish touches the buffers |
| `ResourceTracking.StepKeepsBounds` | packages/core/src/resource-state.ts:628-1182 | no operation or publish takes an amount below zero or above its capacity |
| `ResourceTracking.StepHasEffect` | packages/core/src/resource-state.ts:628-1153 | what each accepted call does to each resource it concerns, field by field and in arithmetic: the amount, capped and clamped, its tick delta, capacity, tolerance, rates and flags; every other resource keeps its values |
| `ResourceTracking.NetIsIncomeMinusExpense` | packages/core/src/resource-state.ts:834-976 | over every run the net rate of every resource is its income minus its expense |
| `ResourceTracking.ResetIsAcceptedIff` | packages/core/src/resource-state.ts:884-1153 | over every run, rates can be reset exactly when there was a publish since which no tick was finalized and no reset accepted |
| `ResourceTracking.MirrorFollowsEveryRun` | packages/core/src/resource-state.ts:628-1182 | over every run of operations and publishes, tracking stays sound and a mirror that applies every transport equals the published amounts, capacities, rates, flags and tolerances; right after a publish it is within tolerance of every live row; amounts that start within bounds stay there |
| `ResourceTracking.MirrorShowsRates` | packages/core/src/resource-state.ts:834-1260 | over every run: from the start or from a `finalizeTick` on, every publish before the next reset shows the mirror each income, expense and net rate within tolerance of the live one |
| `ResourceTracking.FlagChangeHidesIff` | packages/core/src/resource-state.ts:1836-1935 | a flag change of an unlisted resource goes unnoticed exactly when the two flag numbers compare as equal under its tolerance |
| `ResourceTracking.HiddenFlagIsNeverPublished` | packages/core/src/resource-state.ts:1723-1749 | a change that goes unnoticed is not published: the live resource is visible and its published row is not |
| `ResourceStates.ResourceState.MarkDirty` | packages/core/src/resource-state.ts:1796-1812 | appends an index to the scratch list, once |
| `ResourceStates.ResourceState.Unmark` | packages/core/src/resource-state.ts:1814-1834 | swap-removes an index from the scratch list |
| `ResourceStates.ResourceState.WriteRow` | packages/core/src/resource-state.ts:1700-1794 | stores a row in place, marks or unmarks it, and keeps tracking sound |
| `ResourceStates.ResourceState.AddAmount` | packages/core/src/resource-state.ts:704-752 | the amount rises to the capacity at most, what was applied is returned, and the tick delta follows; bad indices and negative amounts change nothing |
| `ResourceStates.ResourceState.SpendAmount` | packages/core/src/resource-state.ts:754-805 | succeeds exactly when the amount suffices, and then takes all of it |
| `ResourceStates.ResourceState.SetCapacity` | packages/core/src/resource-state.ts:628-677 | stores the capacity and moves an amount above it down to it |
| `ResourceStates.ResourceState.SetDirtyTolerance` | packages/core/src/resource-state.ts:679-702 | stores the tolerance, clamped between the absolute and the override limit |
| `ResourceStates.ResourceState.ApplyRate` | packages/core/src/resource-state.ts:834-882 | adds to income or expense and keeps the net rate their difference |
| `ResourceStates.ResourceState.SetFlag` | packages/core/src/resource-state.ts:1723-1749 | sets one flag, leaving all else |
| `ResourceStates.ResourceState.FinalizeTick` | packages/core/src/resource-state.ts:884-976 | moves every amount by its net rate, clamped, with its tick delta, and asks for a publish |
| `ResourceStates.ResourceState.ResetPerTickAccumulators` | packages/core/src/resource-state.ts:978-992 | clears rates and deltas, only after a publish |
| `ResourceStates.ResourceState.CatchUp` | packages/core/src/resource-state.ts:1079-1153 | copies the previous delta into the standby buffer, two generations old |
| `ResourceStates.ResourceState.ProcessCurrentDirtyIndices` | packages/core/src/resource-state.ts:1163-1182 | copies and lists exactly the listed rows of which some field differs from the published one, each field compared under the tolerance of its row |
| `ResourceStates.ResourceState.SwapBuffers` | packages/core/src/resource-state.ts:1079-1153 | the whole in-place publish ends in the state of its specification, and shows within tolerance the income, expense and net rate of every resource that was listed or whose rates were shown |
| `ResourceStates.ResourceState.CreatePublishSnapshot` | packages/core/src/resource-state.ts:1079-1153 | a publish keeps every invariant of the live arrays and both buffers, and shows those rates within tolerance |
| `ResourceStates.ResourceState.PopulateComponentBuffers` | packages/core/src/resource-publish-transport.ts:354-408 | fills the leased arrays with the dirty indices and their rows, dirty bit masked |
| `ReplayMatching.ClaimsAreAssignments` | packages/core/src/command-recorder.ts:707-739 | what first fit claims is an injective assignment of log entries after each enqueuer |
| `ReplayMatching.Exchange` | packages/core/src/command-recorder.ts:707-739 | the exchange step: an assignment can be turned into one that agrees with first fit one request longer |
| `ReplayMatching.FirstFitIsComplete` | packages/core/src/command-recorder.ts:707-739 | first fit serves a whole replay exactly when some injective assignment matches every enqueued command with an equal later log entry, for every comparison under which commands that share one match share all |
| `ReplayMatching.FirstFitIsCompleteIff` | packages/core/src/command-recorder.ts:707-739 | first fit is complete on every log exactly for such comparisons |
| `CommandRecorders.MatchIsSameContent` | packages/core/src/command-recorder.ts:1541-1681 | as trees, JSON payloads match exactly when their content is the same, whatever the order of their keys |
| `CommandRecorders.WalkIsMatch` | packages/core/src/command-recorder.ts:1541-1681 | the comparison, which remembers the object each object was met with, comes to comparing trees where the recorded payload shares no part |
| `CommandRecorders.UnsharedMatchIsSameContent` | packages/core/src/command-recorder.ts:1541-1681 | so a JSON payload without shared parts matches exactly the payloads of the same content, shared or not |
| `CommandRecorders.MapsMatchIff` | packages/core/src/command-recorder.ts:1575-1592 | without shared parts, maps match exactly when they have as many entries and each, in order, has a matching key and value |
| `CommandRecorders.SetsMatchIff` | packages/core/src/command-recorder.ts:1594-1610 | and sets exactly when they have as many members and these match in order |
| `CommandRecorders.KindsMatchIff` | packages/core/src/command-recorder.ts:1541-1681 | dates match exactly when they are the same time; a map, set or date matches an object of another kind exactly when that one has no properties of its own |
| `CommandRecorders.CommandsEqualIff` | packages/core/src/command-recorder.ts:1467-1478 | commands with JSON payloads compare as equal exactly when type, priority, timestamp, step and content are the same |
| `CommandRecorders.JsonCommandsAreDifunctional` | packages/core/src/command-recorder.ts:1467-1478 | comparing commands with JSON payloads without shared parts is such a comparison |
| `CommandRecorders.JsonReplayIsComplete` | packages/core/src/command-recorder.ts:707-739 | so replaying a log of such commands is accepted exactly when every follow-up command has a log entry of its own |
| `CommandRecorders.SharedPartsAreNotDifunctional` | packages/core/src/command-recorder.ts:1541-1681 | with shared parts it is not: a payload that holds one object twice matches only payloads that do so too, and one that holds two equal objects matches both |
| `CommandRecorders.SharedPartsBreakCompleteness` | packages/core/src/command-recorder.ts:707-739 | then some replay of JSON commands is rejected although every follow-up could be matched |
| `CommandRecorders.MapPayloadsAreNotDifunctional` | packages/core/src/command-recorder.ts:1575-1592 | with maps it is not: an empty plain object equals every map, and two maps may differ |
| `CommandRecorders.MapPayloadsBreakCompleteness` | packages/core/src/command-recorder.ts:707-739 | then some replay is rejected although every follow-up could be matched |
| `CommandRecorders.FindMatchingFutureCommandIndex` | packages/core/src/command-recorder.ts:1450-1465 | returns the first unclaimed equal entry from an index on, if there is one |
| `CommandRecorders.VerifyReplaySandboxedEnqueues` | packages/core/src/command-recorder.ts:707-739 | claims as first fit does, and fails only when first fit finds nothing for a request |
| `CommandRecorders.Replay` | packages/core/src/command-recorder.ts:458-479 | the replay loop accepts exactly what first fit over all requests accepts |
| `CommandRecorders.RequestsAreAll` | packages/core/src/command-recorder.ts:458-479 | the requests of a replay are everything its handlers enqueue, in order, each with the entry that enqueued it |
| `Production.ToApplyIsAligned` | packages/core/src/production-system.ts:1165-1210 | what is applied is a whole number of thresholds, at most epsilon above the total and less than a threshold below it, and positive only for a positive total |
| `ProductionTurns.AppliedIsWhole` | packages/core/src/production-system.ts:1165-1210 | what is applied is a whole number of thresholds |
| `ProductionTurns.EarnedIsPerSecond` | packages/core/src/production-system.ts:562-637 | a tick earns at a rate that much per second for every generator owned, times the multiplier |
| `ProductionTurns.ValidRatesAreAll` | packages/core/src/production-system.ts:410-430 | the valid rates are the positive ones of resources that exist, all of them, in order |
| `ProductionTurns.TurnIsThrottled` | packages/core/src/production-system.ts:562-684 | in one turn of an active generator, whatever its state, one share decides: the largest, up to one, that leaves the total and the aligned part of every consumption that applies within what is available; every consumption is debited by that share of its aligned total, every production credited by it too, or by nothing while there are consumptions and none applies, and the rest stays in the accumulators |
| `ProductionTurns.RunTakesTurns` | packages/core/src/production-system.ts:1249-1362 | a run over any generators, on the resources or on their shadow, is such turns one after the other; generators that are not owned or not enabled change nothing |
| `ProductionTurns.DirectContextCredits` | packages/core/src/production-system.ts:711-748 | crediting fills a resource up to its capacity and reports what fitted |
| `ProductionTurns.DirectContextDebits` | packages/core/src/production-system.ts:749-760 | debiting takes all of an amount or nothing, and reports it only if taken |
| `ProductionTurns.ShadowContextCredits` | packages/core/src/production-system.ts:686-709 | crediting the shadow does the same to the amounts it shows |
| `ProductionTurns.ShadowContextDebits` | packages/core/src/production-system.ts:686-709 | and so does debiting it |
| `ProductionTurns.ReportsAddUp` | packages/core/src/production-system.ts:562-684 | whatever the generators, what a tick reports as produced and consumed adds up, resource by resource, to what the amounts changed by |
| `Production.RunGeneratorsRespects` | packages/core/src/production-system.ts:562-684 | the phases only use amounts, credits and debits: contexts that simulate each other take related states to related states |
| `Production.ShadowSimulatesDirect` | packages/core/src/production-system.ts:766-850 | crediting and debiting the shadow simulates crediting and debiting the resources, with income and expense accounting for the difference |
| `Production.RolledIsShown` | packages/core/src/resource-state.ts:884-976 | rates that stand for the recorded income and expense move the amount to what the shadow shows |
| `Production.FinalizeFlowRefinesDirectFlow` | packages/core/src/production-system.ts:1249-1362 | for every list of generators, shadow run, rates and `finalizeTick` end with the amounts, accumulators and reported quantities of direct mutation |
| `Production.DistinctInputsAreNeverRefused` | packages/core/src/production-system.ts:562-684 | with distinct inputs the ratio of phase 1 still fits in phase 3, so no spend fails |
| `Production.RunsAreNeverRefused` | packages/core/src/production-system.ts:1312-1362 | the same over any list of generators, with amounts staying within capacity |
| `ProductionRefusals.RepeatedInputIsRefused` | packages/core/src/production-system.ts:562-570 | an input named twice is throttled as if each mention were alone, and the second spend fails |
| `ProductionRefusals.RepeatedInputsAreRefusable` | packages/core/src/production-system.ts:562-684 | whatever the generator and the tick, an input named twice is refused in some well-formed state |
| `ProductionRefusals.NeverRefusedIffDistinct` | packages/core/src/production-system.ts:562-684 | the spends of an active generator never fail, in any state, exactly when its valid inputs are distinct resources |
| `TickSplitting.ToApplyShifts` | packages/core/src/production-system.ts:1165-1210 | what was applied earlier is not applied again |
| `TickSplitting.BankTwice` | packages/core/src/production-system.ts:611-637 | two deposits into one accumulator come to one deposit of their sum, capacity clamp included |
| `TickSplitting.BanksCommute` | packages/core/src/production-system.ts:611-637 | deposits commute, whether or not they share an accumulator or a resource |
| `TickSplitting.FlowTwice` | packages/core/src/production-system.ts:1364-1391 | two ticks come to one tick of their total length |
| `TickSplitting.TickSplittingIsInvisible` | packages/core/src/production-system.ts:1364-1391 | producers at constant rates leave the same amounts and accumulators after any ticks as after one of the same total length |
| `TickSplitting.OfflineDeltaCatchesUp` | packages/core/src/production-system.ts:1397-1412 | so one offline delta through `finalizeTick` leaves what the ticks would have |
| `TickSplitting.SplitShowsIffInDebt` | packages/core/src/production-system.ts:1165-1210 | splitting a deposit shows exactly when the accumulator owes more than epsilon and the resource is not full: the first tick forgives the debt |
| `RateTracking.RatioIsLargest` | packages/core/src/production-system.ts:460-486 | the advertised ratio is the largest share, up to one, of all consumptions that leaves each within what is available of it |
| `RateTracking.TrackedRates` | packages/core/src/production-system.ts:1214-1245 | a generator's turn raises each resource's income and expense by what its productions and consumptions of it yield per second at that ratio, and by nothing when the ratio is zero |
| `RateTracking.AdvertisedIsEarned` | packages/core/src/production-system.ts:488-500 | what is advertised per second comes, over a tick, to that share of what the tick earns |
| `RateTracking.AdvertisedRatesStay` | packages/core/src/production-system.ts:1312-1362 | production leaves the advertised rates as they are |
| `RateTracking.TrackingIsInvisible` | packages/core/src/production-system.ts:1312-1362 | whatever the generators, advertising rates changes nothing but rates: amounts, accumulators and reported quantities are those of a run without it |
| `ProductionSystems.RunsAreReadyForTick` | packages/core/src/resource-state.ts:628-1182 | every run of resource operations from sanitised definitions that ends in a publish and a reset leaves amounts within bounds and no rates, which is what the two flows start from |
| `ProductionSystems.OfflineDeltasAgree` | packages/core/src/production-system.ts:1397-1412 | every kind of production system, with or without advertised rates, comes out of an offline delta with the same amounts and accumulators, ready for the next tick |
| `ProductionSystems.StandardFlowTakesTurns` | packages/core/src/production-system.ts:1312-1362 | the standard flow is throttled turns one after the other, between which at most rates change, and only in systems that advertise them |
| `ProductionSystems.ProductionSystem.ValidateRates` | packages/core/src/production-system.ts:410-430 | keeps the positive rates of resources that exist, in order |
| `ProductionSystems.ProductionSystem.PrepareConsumptionPhase` | packages/core/src/production-system.ts:562-609 | peeks at every consumption and finds the ratio the available amounts allow |
| `ProductionSystems.ProductionSystem.ExecuteProductionPhase` | packages/core/src/production-system.ts:611-637 | accumulates, aligns and credits each production by its share |
| `ProductionSystems.ProductionSystem.ExecuteConsumptionPhase` | packages/core/src/production-system.ts:639-659 | commits and debits each peeked consumption by the ratio |
| `ProductionSystems.ProductionSystem.ComputeRateConsumptionRatio` | packages/core/src/production-system.ts:460-486 | finds that ratio, and stops at zero as soon as nothing is available of a consumption |
| `ProductionSystems.ProductionSystem.ApplyDirectRateTracking` | packages/core/src/production-system.ts:1214-1245 | advertises the rates of an owned and enabled generator, as specified |
| `ProductionSystems.ProductionSystem.RunStandardFlow` | packages/core/src/production-system.ts:1312-1362 | direct mutation of the resources, one throttled turn (`TurnIsThrottled`) after the other, each generator advertising its rates first if the system does so |
| `ProductionSystems.ProductionSystem.RunFinalizeTickRatesFlow` | packages/core/src/production-system.ts:1249-1310 | throttled turns on a fresh shadow, one after the other, whose records are turned into income and expense per second |
| `ProductionSystems.ProductionSystem.Tick` | packages/core/src/production-system.ts:1364-1391 | the throttled turns of the flow the system was set up for; finalize-tick systems ignore ticks without time |
| `ProductionSystems.ProductionSystem.ApplyOfflineDelta` | packages/core/src/production-system.ts:1397-1412 | the throttled turns of one tick, finalized and reset here; nothing for no time |
| `ProductionSystems.ProductionSystem.ExportAccumulators` | packages/core/src/production-system.ts:1449-1476 | the nonzero accumulators under their printed keys; fails exactly when some key cannot be printed |
| `ProductionSystems.ProductionSystem.RestoreAccumulators` | packages/core/src/production-system.ts:1477-1527 | forgets what was held and reads a save, entry by entry, new keys before old ones |
| `UriComponents.DecodeUndoesEncode` | packages/core/src/production-system.ts:1021-1066 | percent-encoding (section 2.1 of RFC 3986, over UTF-8) fails exactly on lone surrogates, and decoding undoes it everywhere else |
| `UriComponents.EncodedIsSafe` | packages/core/src/production-system.ts:1021-1032 | encoded text holds unreserved characters and escapes only, so never `|` |
| `UriComponents.EncodeInPieces` | packages/core/src/production-system.ts:1021-1032 | encoding goes through the text piece by piece |
| `UriComponents.UnreservedStands` | packages/core/src/production-system.ts:1021-1032 | unreserved text stands for itself |
| `UriComponents.ReservedIsEscaped` | packages/core/src/production-system.ts:1021-1032 | any other ASCII character becomes a percent sign and its two upper-case hexadecimal digits (section 2.1 of RFC 3986) |
| `UriComponents.EncodedAccent` | packages/core/src/production-system.ts:1021-1032 | for example an e with acute accent becomes `%C3%A9`, its two bytes of UTF-8 |
| `UriComponents.EncodedEuro` | packages/core/src/production-system.ts:1021-1032 | the euro sign becomes `%E2%82%AC` |
| `UriComponents.EncodedFace` | packages/core/src/production-system.ts:1021-1032 | and a face that is a pair of surrogates becomes `%F0%9F%98%80` |
| `UriComponents.FromUtf8Iff` | packages/core/src/production-system.ts:1034-1066 | bytes decode to a character exactly when they are its UTF-8, so never when they are longer than they need be |
| `AccumulatorKeys.ParseUndoesSerialize` | packages/core/src/production-system.ts:1021-1066 | a key prints exactly when its ids are well-formed text, and parsing gives it back |
| `AccumulatorKeys.SerializeIsInjective` | packages/core/src/production-system.ts:1021-1032 | printed keys never collide |
| `AccumulatorKeys.SerializedForm` | packages/core/src/production-system.ts:1021-1032 | a printed key is `v2`, the encoded generator, the operation and the encoded resource, between bars |
| `AccumulatorKeys.ParseLegacyIsSound` | packages/core/src/production-system.ts:1104-1159 | an old key is only read as a key that prints so in the old format, of a resource that exists |
| `AccumulatorKeys.ParseLegacyIff` | packages/core/src/production-system.ts:1104-1159 | an old key is read as its only reading with a resource that exists, or else as the only such reading whose generator is known; otherwise it is not read |
| `AccumulatorKeys.RestoreUndoesExport` | packages/core/src/production-system.ts:1449-1527 | restoring an export, in any order of its entries, leaves exactly the accumulators that were not zero |
| `AccumulatorKeys.RestoredValueIff` | packages/core/src/production-system.ts:1477-1527 | after reading any save, a key has the value of its last entry in the current format, or else of its first entry in the old one |
| `AccumulatorKeys.KeyIsReadIff` | packages/core/src/production-system.ts:1477-1527 | and it has a value exactly when some entry is read as that key |
| `AccumulatorKeys.UnreadEntriesAreKept` | packages/core/src/production-system.ts:1477-1527 | what has a value but no key of either format is kept as it is, and nothing else is |
| `AccumulatorKeys.LastUnreadEntryCounts` | packages/core/src/production-system.ts:1477-1527 | of several such entries under one key the last counts |
| `MigrationSearch.BuildMigrationIndex` | packages/core/src/game-state-save.ts:248-261 | groups the migrations by the version they leave, keeping their order |
| `MigrationSearch.NextIsShortest` | packages/core/src/game-state-save.ts:263-293 | a chain one longer than the shortest open one is a shortest chain to a version not visited yet |
| `MigrationSearch.SearchMigrationPath` | packages/core/src/game-state-save.ts:263-293 | the search ends on every graph, cycles and duplicates included, with a shortest chain or the certainty that there is none |
| `MigrationSearch.FindMigrationPath` | packages/core/src/game-state-save.ts:295-306 | a path is found exactly when the target is reachable, and it is a shortest one |
| `MigrationSearch.LoadGameStateSaveFormat` | packages/core/src/game-state-save.ts:352-395 | detects the version, runs exactly the found chain, and validates what comes out; each failure has its error |
| `MigrationSearch.HopsMeet` | packages/core/src/game-state-save.ts:371-394 | consecutive migrations of a chain meet |
| `MigrationSearch.MigratedPassesOrBreaks` | packages/core/src/game-state-save.ts:371-394 | a chain passes each save on to the next migration, which must set the version it announces, or ends at the first migration that breaks, with its error |
| `MigrationSearch.DetectsVersion` | packages/core/src/game-state-save.ts:352-370 | a save that names its version has that one; one without is of version 0 if it looks like the oldest saves |
| `MigrationSearch.EveryHopGetsItsVersion` | packages/core/src/game-state-save.ts:371-394 | every migration of a chain is handed a save of the version it leaves, the detected one first, also when that is version 0 of a save without a version; the chain ends in a save of the target version |
| `CanonicalForm.EscapedDiffers` | packages/renderer-contract/src/hashing.ts:28-79 | a quoted string ends where it ends: no string is confused with another, whatever follows |
| `CanonicalForm.TreesDiffer` | packages/renderer-contract/src/hashing.ts:28-68 | different sorted trees print differently, and where a tree ends shows in the text, for every printer that tells their numbers apart |
| `CanonicalForm.SomePrinter` | packages/renderer-contract/src/hashing.ts:28-79 | for any finite set of numbers there is such a printer |
| `CanonicalForm.NormalizeKeepsData` | packages/renderer-contract/src/hashing.ts:128-178 | normalising -0 and copying objects keeps the data |
| `CanonicalForm.SerializeIsPrint` | packages/renderer-contract/src/hashing.ts:28-68 | serialising a normal value prints the sorted tree of what it says |
| `CanonicalForm.CanonicalizeAccepts` | packages/renderer-contract/src/hashing.ts:70-79 | a value is canonicalised exactly when it says something and holds nothing that is refused |
| `CanonicalForm.SameDataSameText` | packages/renderer-contract/src/hashing.ts:28-79 | however numbers are printed, the same data, in any insertion order of keys, gives the same text |
| `CanonicalForm.SameTextSameData` | packages/renderer-contract/src/hashing.ts:28-79 | if the printer tells the numbers of two values apart, the same text means the same data |
| `CanonicalForm.CanonicalTextIsData` | packages/renderer-contract/src/hashing.ts:28-79 | two values whose numbers the printer tells apart have the same canonical text (section 3.2.3 of RFC 8785) exactly when they hold the same JSON data, whatever the insertion order of their keys, as long as no array consists of a single hole |
| `CanonicalForm.CanonicalTextIsCollapsedData` | packages/renderer-contract/src/hashing.ts:28-79 | for all values whose numbers the printer tells apart: the text is the same exactly when the data is, counting an array of a single hole as empty |
| `CanonicalForm.LoneHoleCollides` | packages/renderer-contract/src/hashing.ts:51-56 | a sparse array of one hole prints like an empty array |
| `CanonicalTexts.CanonicalTextSpells` | packages/renderer-contract/src/hashing.ts:28-79 | told from the text: it is JSON (RFC 8259) without white space for exactly the data of the value, with strings escaped as in section 3.2.2.2 of RFC 8785 and every member of an object once, in ascending order |
| `CanonicalTexts.BeforePrecedes` | packages/renderer-contract/src/hashing.ts:28-49 | that order compares keys by code units: a prefix first, else the smaller unit where they first differ |
| `CanonicalTexts.RefusedForFirst` | packages/renderer-contract/src/hashing.ts:128-178 | a value is refused for the first thing in it, in reading order, that has no JSON form |
| `Transport.KeysDiffer` | packages/core/src/command-transport-server.ts:487-489 | no two pairs of client and request id share a registry key |
| `Transport.NormalizesIff` | packages/core/src/command-transport-server.ts:297-347 | an id is taken exactly when it is there, not blank, not too long and trimmed, and then as it is |
| `Transport.NormalizeFaults` | packages/core/src/command-transport-server.ts:297-347 | any other is refused as missing or blank, as too long once trimmed, or as not trimmed |
| `Transport.NoProblemIff` | packages/core/src/command-transport-server.ts:75-232 | nothing is wrong with a body exactly when all its fields are there and in range, its payload is JSON, and an inner id is that of the envelope |
| `Transport.ProblemIsFirst` | packages/core/src/command-transport-server.ts:349-460 | any other is rejected for the first thing wrong with it |
| `Transport.HandleReplies` | packages/core/src/command-transport-server.ts:75-232 | what every envelope is answered and what it leaves on record, pending and submitted, in fields: a repeat of the record, a rejection with its reason, or an acceptance with the command the envelope carries, for the next executable step |
| `Transport.SettingIs` | packages/core/src/command-transport-server.ts:283-295 | a setting that is missing or not positive takes its default, any other is rounded down |
| `Transport.StepKeeps` | packages/core/src/command-transport-server.ts:66-281 | every envelope, drain and purge keeps: whoever waits has a response on record that lives as long, recorded responses are the latest, and a submitted command keeps its key on record for a TTL |
| `Transport.EveryRunKeepsInv` | packages/core/src/command-transport-server.ts:66-281 | the same over every run under a clock that never goes back |
| `Transport.SubmissionsAreATtlApart` | packages/core/src/command-transport-server.ts:75-132 | two commands submitted for one client and request are at least one TTL apart |
| `Transport.ResendIsDuplicate` | packages/core/src/command-transport-server.ts:75-132 | every well-formed resend in between is answered `duplicate` with the response recorded last, and submits nothing |
| `Transport.SubmitterWaits` | packages/core/src/command-transport-server.ts:75-232 | in every run, the client whose envelope submits a command is then the one waiting for its request id |
| `Transport.OwnerWaitsForTtl` | packages/core/src/command-transport-server.ts:234-272 | in every run, it keeps waiting within the TTL, whatever others send, until an outcome for it is drained |
| `Transport.OutcomeReachesItsClient` | packages/core/src/command-transport-server.ts:234-272 | in every run, that outcome is recorded under the key of the client that submitted the command, and ends its wait |
| `Transport.OthersWaitForTtl` | packages/core/src/command-transport-server.ts:75-132 | in every run, another client submits a command under the same request id only once the TTL is over, or an outcome was drained |
| `Transport.OutcomeReachesClientIff` | packages/core/src/command-transport-server.ts:234-272 | in any state, an outcome is recorded for the client of a submission exactly when the pending entry of the request id holds that client's key |
| `Transport.DrainTells` | packages/core/src/command-transport-server.ts:234-272 | a drain answers, in order, exactly the outcomes somebody waits for: each with its request id and server step, accepted without an error exactly when the outcome has no failure, and otherwise rejected with the code of the failure |
| `Transport.ResendRepeatsOutcome` | packages/core/src/command-transport-server.ts:75-272 | in every run, a resend after a drained outcome repeats the server step and the error of that outcome |
| `Transport.LateOutcomeGoesToNewOwner` | packages/core/src/command-transport-server.ts:234-272 | in every run in which a second client submits a command under the request id of a first one that got no outcome: the TTL of the first is over, and an outcome that comes then is recorded for the second client and ends its wait |
| `TransportServers.InMemoryIdempotencyRegistry.PurgeExpired` | packages/core/src/idempotency-registry.ts:26-32 | removes exactly the entries whose time has come |
| `TransportServers.CommandTransportServer.HandleEnvelope` | packages/core/src/command-transport-server.ts:75-232 | purges what has expired, and then answers as `HandleReplies` says, field by field |
| `TransportServers.CommandTransportServer.DrainOutcomeResponses` | packages/core/src/command-transport-server.ts:234-272 | answers in order exactly the outcomes somebody waits for, each recorded under the key that waits: accepted with no error for a success, rejected with its code for a failure |
| `TransportServers.CommandTransportServer.PurgeExpired` | packages/core/src/command-transport-server.ts:66-74 | removes exactly the expired responses and the expired waits |
| `Levelling.ClimbConserves` | packages/core/src/entity-system.ts:648-704 | experience before equals experience after plus the requirements of the levels gained, levels are left only below the cap and for positive requirements, and levelling stops only at the cap or at a requirement that is not positive or not met |
| `Levelling.ClimbInTwo` | packages/core/src/entity-system.ts:648-704 | experience that comes later could as well have come first |
| `Entities.TrainedConserves` | packages/core/src/entity-system.ts:648-704 | adding experience conserves it, changes nothing else of an instance but level and stats, which follow the level, and levels as far as it can and no further |
| `Entities.TrainedInTwo` | packages/core/src/entity-system.ts:648-704 | adding a and then b at one step equals adding a + b |
| `InstanceIds.IdsDiffer` | packages/core/src/entity-system.ts:911-934 | different numbers make different ids, although suffixes are padded |
| `InstanceIds.SuffixSpells` | packages/core/src/entity-system.ts:911-934 | a suffix spells its number in lower-case hexadecimal digits, six of them or as many as it takes |
| `InstanceIds.TakenRun` | packages/core/src/entity-system.ts:911-934 | a run of taken ids is no longer than the set of taken ids |
| `InstanceIds.GenerateInstanceId` | packages/core/src/entity-system.ts:911-934 | always ends with an unused id: the first free random draw, or the first free suffix counting up |
| `Entities.CreatedBalances` | packages/core/src/entity-system.ts:539-579 | creating an instance keeps the books: counts are list lengths, available counts are unassigned instances, and the lists partition the instances |
| `Entities.DestroyedBalances` | packages/core/src/entity-system.ts:581-603 | so does destroying one |
| `Entities.MovedBalances` | packages/core/src/entity-system.ts:605-646 | and sending one on a mission or back |
| `Entities.CollectFinds` | packages/core/src/entity-system.ts:508-524 | collecting finds as many unassigned instances as there are, up to a number, none twice |
| `Entities.CollectTakesNewest` | packages/core/src/entity-system.ts:508-524 | and the newest first: a free instance further back in the list is collected before one in front of it |
| `Entities.RestoreUndoesSave` | packages/core/src/entity-system.ts:213-261 | restoring a save of balanced books rebuilds the state, with assignments moved to the new clock |
| `Entities.RestoreRecounts` | packages/core/src/entity-system.ts:746-815 | whatever was saved, a tracked entity comes back with the count of its list, of which all that are not on a mission are available; any other with the saved counts, or none |
| `Entities.GroupedByEntity` | packages/core/src/entity-system.ts:817-887 | a save without lists has its instances listed by entity, each list in the order of the save |
| `Entities.ReadInstance` | packages/core/src/entity-system.ts:826-866 | an instance of a save is read with its steps moved to the new clock, but not below zero, and a level of at least one |
| `Entities.RebasedSteps` | packages/core/src/entity-system.ts:213-261 | moving an assignment to another clock adds the offset to its two steps, as long as they stay above zero, and changes nothing else |
| `Entities.DueAlike` | packages/core/src/entity-system.ts:826-866 | an instance is due after a restore exactly when it was before |
| `Entities.RebasedBalances` | packages/core/src/entity-system.ts:213-261 | moving assignments to another clock keeps the books balanced |
| `Entities.SaveIsFaithfulIff` | packages/core/src/entity-system.ts:746-887 | a save is a faithful copy exactly when no assignment has a negative step |
| `EntitySystems.EntitySystem.CreateInstance` | packages/core/src/entity-system.ts:539-579 | creates an instance of level 1 without experience under a new id, at the end of its list, exactly when the entity tracks instances and is not full; each failure has its error |
| `EntitySystems.EntitySystem.DestroyInstance` | packages/core/src/entity-system.ts:581-603 | removes an instance from the map, from its list, where the others keep their order, and from the counts, and changes nothing else |
| `EntitySystems.EntitySystem.AssignToMission` | packages/core/src/entity-system.ts:605-629 | assigns a free instance when the return is not before the deployment |
| `EntitySystems.EntitySystem.ReturnFromMission` | packages/core/src/entity-system.ts:631-646 | frees an assigned instance and leaves any other alone |
| `EntitySystems.EntitySystem.ProcessReturningMissions` | packages/core/src/entity-system.ts:385-395 | brings home exactly the instances whose return step has come |
| `EntitySystems.EntitySystem.AddExperience` | packages/core/src/entity-system.ts:648-704 | adds experience and levels up one instance, leaving counts and lists alone |
| `EntitySystems.EntitySystem.AddEntity` | packages/core/src/entity-system.ts:439-474 | adds new instances one by one until the entity is full, or moves the count to the least of the raised count and its limit, which can also lower it; everything else stays |
| `EntitySystems.EntitySystem.RemoveEntity` | packages/core/src/entity-system.ts:476-537 | removes that many unassigned instances, the newest first, or lowers the count; all or nothing |
| `EntitySystems.EntitySystem.RestoreState` | packages/core/src/entity-system.ts:746-815 | rebuilds states, instances and lists from a save and recounts tracked entities; the books balance after restoring a save of balanced books |
| `EntitySystems.AdmitsIff` | packages/core/src/entity-system.ts:539-558 | an entity admits one more instance exactly when it is known, tracked, and below its limit for one more |
| `Automations.ThresholdFiresIff` | packages/core/src/automation-system.ts:365-501 | a threshold automation fires exactly when it is unlocked, enabled, out of cooldown, its threshold is satisfied and was not at its last evaluation, and its cost can be spent |
| `Automations.FiresIff` | packages/core/src/automation-system.ts:365-501 | a tick fires exactly the automations that are unlocked, enabled and out of cooldown, whose interval has gone by, threshold is crossed, queue is empty or event is pending, and whose cost can be spent; an event is kept pending exactly when only its cost could not |
| `Automations.TickLeaves` | packages/core/src/automation-system.ts:365-586 | what a tick leaves of an automation, field by field: when it last fired, how long it cools down, and whether its threshold counts as satisfied |
| `Automations.FiresAreEdges` | packages/core/src/automation-system.ts:365-586 | between two fires there is a processed tick that found the threshold unsatisfied |
| `Automations.FiresAreSpaced` | packages/core/src/automation-system.ts:815-839 | consecutive fires are more than ceil(cooldown / step) steps apart, and an interval automation fires no earlier than its interval |
| `Automations.FailedSpendStaysArmed` | packages/core/src/automation-system.ts:446-459 | a crossing whose spend fails stays armed and changes nothing else |
| `Automations.FiresOnceAffordable` | packages/core/src/automation-system.ts:446-586 | however often the spend fails, the first tick that can pay fires if the threshold still holds |
| `Automations.RebasedRunsFireAlike` | packages/core/src/automation-system.ts:222-336 | after a restore that rebases steps, every later tick fires exactly when it would have without |
| `AutomationSystems.RestoreUndoesSave` | packages/core/src/automation-system.ts:294-316 | restoring a saved automation forgets what was there and moves its steps to the new clock |
| `AutomationSystems.AppliedFields` | packages/core/src/automation-system.ts:294-316 | each field a save has replaces what the system has, steps moved to the new clock; the others stay |
| `AutomationSystems.AutomationSystem.Tick` | packages/core/src/automation-system.ts:711-741 | every automation takes its turn on its own state; those that fire are reported in the order they are declared in; exactly the events whose spend failed stay pending |
| `AutomationSystems.AutomationSystem.RestoreState` | packages/core/src/automation-system.ts:318-336 | applies each saved state to its automation and ignores the others |
| `BufferPool.FirstFitIsBestFit` | packages/core/src/transport-buffer-pool.ts:226-239 | in a list sorted by capacity the first entry that fits is the smallest that fits |
| `BufferPool.TakenKeeps` | packages/core/src/transport-buffer-pool.ts:113-179 | a lease is of an entry nobody had, fits its capacity and buffer, and keeps the pool in order |
| `BufferPool.TakenIsBestFit` | packages/core/src/transport-buffer-pool.ts:113-239 | a lease is of the smallest available entry that fits, which leaves its list, or when none does of a new entry of exactly the length asked for |
| `BufferPool.AcquireLeases` | packages/core/src/transport-buffer-pool.ts:113-179 | negative lengths and lengths above the maximum are refused, nothing is leased for zero, and any other request gets such a lease |
| `BufferPool.ReleaseKeeps` | packages/core/src/transport-buffer-pool.ts:181-224 | releasing with a whole buffer puts the entry back on its sorted list |
| `BufferPool.ReleaseReturns` | packages/core/src/transport-buffer-pool.ts:181-224 | a release puts the entry among the others of its list by capacity, around the replacement, its own buffer, or a new one if its own was transferred away; a replacement that is no whole number of elements is an error |
| `BufferPool.OrderlyStepsKeepWorld` | packages/core/src/transport-buffer-pool.ts:113-224 | every lease, transfer and single release keeps: each entry is leased or on the list of its kind, not both; lists are sorted; outstanding leases hold different entries, and every active entry is held by one |
| `BufferPool.LeasesAreApart` | packages/core/src/transport-buffer-pool.ts:113-224 | over every such run no two outstanding leases share an entry or a buffer |
| `BufferPool.SecondReleaseBreaksIff` | packages/core/src/transport-buffer-pool.ts:181-201 | in every orderly state, releasing a lease once more leaves things in order exactly when its entry is not leased again by then |
| `BufferPool.SecondReleaseSharesEntry` | packages/core/src/transport-buffer-pool.ts:181-201 | the shortest case: a lease released a second time, after its entry was leased again, hands that entry to a third client as well |
| `BufferPool.ReleaseLosesEntryIff` | packages/core/src/transport-buffer-pool.ts:203-224 | a release puts its entry back exactly when the replacement buffer is a whole number of elements; otherwise the entry is lost |
| `TransportBufferPools.TransportBufferPool.Acquire` | packages/core/src/transport-buffer-pool.ts:113-179 | the pool ends in the state, and gives the lease or error, of the specification, which `AcquireLeases` tells in fields |
| `TransportBufferPools.TransportBufferPool.FindAvailableEntry` | packages/core/src/transport-buffer-pool.ts:226-239 | takes the first fit off its list |
| `TransportBufferPools.TransportBufferPool.Release` | packages/core/src/transport-buffer-pool.ts:181-224 | the pool ends in the specified state, which `ReleaseReturns` tells in fields; unknown leases are ignored |

## Left out

- Execution.ExactlyOnce: handlers and systems enqueue through parameters of a step; promise-returning handlers and handlers that call back into `tick` are not modelled.
- Runtimes.IdleEngineRuntime.Tick: simulated time is conserved exactly only when no handler credits time meanwhile; the contract says by how much it grows otherwise. Milliseconds are integers, so the snap of tiny backlogs to zero does not appear. What systems enqueue and credit in a step that is broken off is what they do before the exception.
- ResourceTracking.MirrorFollowsEveryRun: says nothing about tick deltas, because the recycled buffer keeps stale ones off the dirty list (`TickDeltaComesBack`).
- ResourceTracking.PublishIsExact: tick deltas off the dirty list are excepted for the same reason.
- ResourceStates.ResourceState.CreatePublishSnapshot: the eight parallel typed arrays are one array of rows, and their aliasing with published views is not modelled.
- OfflineProgress.ApplyOfflineProgress: the resource deltas that a caller passes along, progress callbacks and fractional milliseconds are not modelled, and no handler credits time meanwhile.
- CommandRecorders.WalkIsMatch: typed arrays, array buffers and cyclic payloads are not modelled.
- Commands.CloneIsSameIff: payloads are what the structured clone of an enqueue leaves; holes of arrays, named properties of arrays and cyclic payloads are not modelled.
- CommandRecorders.Replay: which commands each handler enqueues is a parameter; state restoration, seeds, rollback, event frames and telemetry are not modelled.
- Production.FinalizeFlowRefinesDirectFlow: amounts start within capacity and rate buffers at zero, as `RunsAreReadyForTick` shows they do after a publish and a reset; rounding is not modelled.
- TickSplitting.TickSplittingIsInvisible: producers without valid inputs, at constant rates, without legacy accumulators.
- ProductionSystems.ProductionSystem.Tick: resource states without capacities, or without per-tick resets, are not modelled, and the errors of the constructor are preconditions; nor is removing near-zero accumulators or those of one generator modelled.
- MigrationSearch.LoadGameStateSaveFormat: validation and the migrations, the one from version 0 included, are parameters.
- CanonicalForm.CanonicalTextIsData: number printing is a parameter that tells the numbers of the two values apart and uses number characters only for them, which `SomePrinter` shows some printer does; NaN and infinities are refused by a constructor of their own.
- Transport.ResendIsDuplicate: the clock never goes back; error messages and details are not modelled, only error codes.
- TransportServers.CommandTransportServer.HandleEnvelope: what the command queue then does with a submitted command is not part of the server.
- Levelling.ClimbConserves: requirements that are positive are at least some positive constant, without which the loop of the code need not end.
- Entities.RestoreUndoesSave: saved records are taken in any order, so the sorting of the save is not modelled.
- EntitySystems.EntitySystem.AddEntity: the start counts of the constructor, and conditions that unlock or show entities during ticks, are not modelled.
- AutomationSystems.AutomationSystem.Tick: whether a condition, formula, threshold or cost is met in a tick is a parameter, as is the queue's emptiness; the enqueued command itself is only an id that fired.
- BufferPool.LeasesAreApart: clients release each lease once (`SecondReleaseBreaksIff` says when that matters), and give the pool buffers of their own that are whole elements.
- TransportBufferPools.TransportBufferPool.Acquire: high-water marks and the entries made ahead from a size hint are not modelled.
- Resource saves, definition digests, `forceClearDirtyState`, `clearDirtyScratch` and direct writes that bypass tracking.
- Floating-point rounding, NaN and infinities; telemetry, event bus, diagnostics, frozen payloads and read-only views.
- Transform systems, prestige, progression facades, render compilation and shells: their state is not part of this model.
