# Verified models of the nevo messaging core

Dafny models of the stateful core of the messaging framework, with proofs of what that core
promises over every run: durable workflow replay, the task scheduler's store, saga compensation,
idempotent request handling, the transactional outbox, adaptive tuning, the wire encoding, method
suggestions, cron, UUIDv7 and rate limiting.

`dafny verify dfyconfig.toml` checks the whole project.

## How the models are built

Time, random bytes, publisher outcomes and crashes are parameters. An object with mutable fields is
a class whose methods are proved against a function of the old state. A protocol whose steps
interleave is a state machine: a total function from state and action to state, where an action
that is not enabled changes nothing. Its theorems range over every sequence of actions, so over
every interleaving.

| area | files |
|---|---|
| durable workflows | `Workflow`, `WorkflowLog`, `WorkflowInvariant`, `WorkflowReplay`, `WorkflowTheorems`, `WorkflowRepeats`, `WorkflowPlans`, `WorkflowCancel` |
| scheduled tasks | `DueHeap`, `SchedulerSpec`, `Scheduler` |
| sagas | `SagaTrace`, `Saga` |
| idempotency | `LruSpec`, `LruNodes`, `LruCache`, `LruHistory`, `IdempotencyRuntime`, `DispatchPipeline`, `PipelineLeases` |
| outbox | `OutboxStore`, `Outbox`, `OutboxAttempts` |
| adaptive tuning | `Quickselect`, `Adaptive` |
| rate limiting | `RateLimit`, `RateLevels`, `RateTable`, `RateDrain`, `RateSweep`, `RateOverflow`, `RateLimiter` |
| algorithms | `Wire`, `Levenshtein`, `Cron`, `Uuid` |
| shared | `Wrappers` |

## What the proofs say

**Workflows.** A workflow function is any function from the outcomes of its calls so far to its
next call. Whatever the log has settled for a call (step result, clock value, wake-up, consumed
signal, time-out) stays settled in every later state, and every later run gets exactly that answer,
even when a wait has both a consumption and a time-out in the log. That later runs repeat a run as a
whole is false of the code in general: the failure of a step body is not recorded, and neither is a
clock read until its append lands, so after a crash both may turn out otherwise.
`RepeatedIffRecorded` gives the exact extent: as long as the log is not closed, every later run
repeats a run, in every continuation, if and only if the log holds all its outcomes.
`HandledFailureBreaksReplay` is an instance. Signals of a name are consumed first in, first out, each
once. A run suspends only where its wake-up is recorded, and each wake-up is scheduled once. A
cancellation that lands while no run is active is final. One that lands during a run is lost if and
only if that run ends by suspending (`CancelIsLostIffSuspended`).

**Scheduler.** The binary heap holds stale and duplicate entries, yet `claimDue` returns what a plain
scan of the task map would accept, and no active task is ever without a current heap entry. A lease
excludes other workers until it expires; a worker that lost a task changes nothing any more. Pruning
never touches an active task. The cap on finished tasks counts entries of the terminal list, so a
task cancelled twice is counted twice (`DoubleCancelOverPrunes`; `KeepsAllUnexpiredIff` is the exact
condition). `cancel` overwrites every status; the
comment at scheduler.ts line 327 says otherwise, the model follows the code. A lease lasts from its
last renewal; enqueuing the task's id again does not disturb it unless the definition changed.

**Sagas.** Every method leaves a legal trace, whatever attempts fail, whatever saves are rejected, and
wherever the process dies. Legality gives: recorded work never runs again, nothing runs forward
after a `compensating` save, a crash repeats at most one step, undos of a pass run in reverse, and
`compensated` means undone.

**Idempotency.** The linked list with its map and expiry times refines a sequence in order of last
use; an unexpired key is missed only when as many other keys as the cache holds were used since. Per
key at most one request executes; waiters get exactly what their leader committed. Pipelines and
runtime together, over every interleaving: when all requests have finished, the leases left behind
are exactly those of requests that were told to execute, stored nothing, and whose metrics callback
threw in the finally block, before the release. So nothing is left if and only if there is none, and
`LeakBlocksKey` proves the cost of one: every later request for the key waits for ever.

**Outbox.** A keyed record is emitted only when every earlier record of its partition is published,
over any run of enqueues, flushes, failures and crashes. A parked record blocks its partition for good.
A record's attempts are the failures the store was told of; it is parked exactly when they reach the
limit, and every call of the publisher is accounted for by a publication, an attempt or a crash.

**Rate limiter.** Admissions of a bucket in any window are at most the capacity plus the refill of
the window, also for a clock that jumps back. On runs in order of time that do not overflow, the
bounded, swept table gives every answer that an unbounded one would if and only if buckets fill up
while idle from every level they can be left at (`AnswersAlikeIff`, for any capacities). Checks take
whole tokens, so a bucket of fractional capacity may never be empty; the levels it can reach are
`DrainedLevel`. For whole-number capacities it is enough that an empty bucket fills. With overflow the
bound holds for each own and each shared bucket, so a key served by both passes at most twice as much.
`retryAfterMs` is exact counted from the last refill, which is the rejected check unless the clock
jumped back.

**UUIDv7.** The generator is a logical clock; ids are ordered exactly as the low 60 bits of its
stamps. They grow strictly while the embedded time fits 48 bits; past that the order breaks
(`TimeWrapBreaksOrder`). Sections 5.7 and 6.2 of RFC 9562.

**Cron.** The tick is the least matching minute strictly after the minute of `from`. The comment at
cron.ts line 170 says "at-or-after"; the model follows the code.

**Wire.** Decoding undoes encoding, except that `acceptLegacy` reads strings such as `12n` as numbers
and that normalisation drops undefined: `RoundTrip` is the exact condition.

**Adaptive tuning.** Settings stay in range once they are in range. The initial retries are
`max(minRetries, 2)`; they, and then all later ones, are within `maxRetries` if and only if that is.

## Model

| member | source | states |
|---|---|---|
| `Workflow.BuildReplayState` | src/common/workflow.ts:455-531 | the loop computes the fold of the log, and nothing for a log without a start |
| `Workflow.FindUnclaimed` | src/common/workflow.ts:384-391 | the scan finds the first unclaimed signal, or there is none |
| `WorkflowFold.FoldMeans` | src/common/workflow.ts:455-531 | the folded state holds exactly the results, ordinals, queues and claims that the log mentions, and its last status |
| `WorkflowReplay.AlwaysInv` | src/common/workflow.ts:283-531 | in every reachable state the run's private copy agrees with the log, and every observed outcome is recorded, pending or a failed step |
| `WorkflowTheorems.AppendsAreNew` | src/common/workflow.ts:337-417 | every action appends at most one event, which repeats nothing and consumes only the next signal in line |
| `WorkflowTheorems.SettledForever` | src/common/workflow.ts:455-531 | what the log has settled for a call is settled the same in every later state |
| `WorkflowTheorems.LaterCallReplays` | src/common/workflow.ts:283-417 | replay determinism: a call made after its key was settled returns the settled outcome, through crashes, restarts and outside appends |
| `WorkflowTheorems.LaterRunRepeats` | src/common/workflow.ts:283-417 | a later run repeats the earlier run's observations as far as those were settled |
| `WorkflowTheorems.EverythingElseIsRecorded` | src/common/workflow.ts:319-417 | every outcome a run has seen is settled by the log or a pending clock append, except the failure of a step body |
| `WorkflowTheorems.FirstDifferenceIsUnrecorded` | src/common/workflow.ts:319-350 | where two runs of one workflow first differ, the earlier one saw a step body throw or a clock read whose append was under way |
| `WorkflowRepeats.RepeatedIffRecorded` | src/common/workflow.ts:283-453 | all later runs repeat a run, in every continuation, if and only if the log holds the outcome of each of its calls |
| `WorkflowRepeats.QuietRunRepeatedIff` | src/common/workflow.ts:337-350 | with no clock append under way: if and only if no step body threw |
| `WorkflowRepeats.UnrecordedCanDiffer` | src/common/workflow.ts:283-350 | after the first unrecorded outcome of any run, a crash and a restart can lead to a run that differs there |
| `WorkflowTheorems.HandledFailureBreaksReplay` | src/common/workflow.ts:337-350 | a concrete workflow that catches a step failure and takes another branch on replay |
| `WorkflowTheorems.StepsAreRecordedOnce` | src/common/workflow.ts:337-350 | no log holds two completions of one step name |
| `WorkflowTheorems.RecordedStepNeverReruns` | src/common/workflow.ts:337-350 | once recorded, a step body cannot be run in any later state |
| `WorkflowTheorems.ClaimedIsAPrefix` | src/common/workflow.ts:373-417 | the claimed signals of a name are exactly the first n, n being the number of consumptions |
| `WorkflowTheorems.SignalsAreFifo` | src/common/workflow.ts:373-417 | the n-th consumption of a name takes signal n, and wait ordinals are used once |
| `WorkflowPlans.RunsEndAsWritten` | src/common/workflow.ts:351-452 | a run suspends only at a sleep or a starved wait whose wake-up is recorded, and otherwise ends with what the function returned or threw |
| `WorkflowPlans.WakeupsAreScheduledOnce` | src/common/workflow.ts:358-370 | no log holds the start of one sleep, or the time-out of one wait, twice |
| `WorkflowCancel.ClosedIsFinal` | src/common/workflow.ts:283-295 | a workflow cancelled, completed or failed while no run is active never runs again |
| `WorkflowCancel.CancelIsLostIffSuspended` | src/common/workflow.ts:419-452 | after a cancellation during a run the workflow can run again at the next idle moment if and only if that run ended by suspending; otherwise it never runs again |
| `WorkflowCancel.CancelledSleeperStartsAgain` | src/common/workflow.ts:351-372 | a sleeping workflow, cancelled just before its sleep is recorded, starts again |
| `DueHeap.RootIsLeast` | src/common/scheduler.ts:39-85 | in an ordered heap no entry is earlier than the root |
| `DueHeap.DueHeap.Push` | src/common/scheduler.ts:46-55 | keeps the order and adds exactly the entry to the multiset |
| `DueHeap.DueHeap.PeekRunAt` | src/common/scheduler.ts:57-59 | the least due time, or none |
| `DueHeap.DueHeap.Pop` | src/common/scheduler.ts:61-80 | removes exactly one entry, a least one, and keeps the order |
| `DueHeap.DueHeap.SiftDown` | src/common/scheduler.ts:67-77 | repairs the order below the root and permutes the entries |
| `SchedulerSpec.PruneIsSafe` | src/common/scheduler.ts:223-243 | no active task is pruned, every listed task is kept or was due, and the terminal list keeps within the cap |
| `SchedulerSpec.DoubleCancelOverPrunes` | src/common/scheduler.ts:206-243 | a task cancelled twice fills two places of the cap, so under a cap of one the only terminal task is dropped at once |
| `SchedulerSpec.KeepsAllUnexpiredIff` | src/common/scheduler.ts:223-243 | every unexpired task is kept if and only if the list has no more live entries than the cap |
| `SchedulerSpec.EntriesCountTasks` | src/common/scheduler.ts:223-243 | without repeated entries the live entries are as many as the unexpired tasks |
| `SchedulerSpec.RunKeepsStoreOk` | src/common/scheduler.ts:87-243 | every run keeps the terminal list complete: each finished task is listed |
| `SchedulerSpec.LeaseIsExclusive` | src/common/scheduler.ts:113-204 | until the lease, as last renewed, has expired no worker is handed the task and its holder keeps it, unless it is finalised, rescheduled or replaced; enqueuing the id again without changing the definition is harmless |
| `SchedulerSpec.LostWorkerIsFenced` | src/common/scheduler.ts:156-204 | a worker that lost a task changes nothing by completing, failing or rescheduling it, and a heartbeat over any ids leaves it untouched, until it claims it again |
| `SchedulerSpec.ActiveTaskStays` | src/common/scheduler.ts:104-243 | a pending or running task stays in the map and active until something finalises it |
| `Scheduler.LoopEndsInBatch` | src/common/scheduler.ts:126-154 | the loop's exit condition gives a batch that a plain scan of the task map would accept |
| `Scheduler.TaskStore.Enqueue` | src/common/scheduler.ts:108-124 | the task is filed under its due time and nothing else changes |
| `Scheduler.TaskStore.ClaimDue` | src/common/scheduler.ts:126-154 | for any lease duration: due, claimable tasks, at most `limit`; fewer means none is left; those left are not earlier; distinct when leases last at all; the heap still covers every active task |
| `Scheduler.TaskStore.ClaimNext` | src/common/scheduler.ts:131-150 | one turn of the claim loop drops a stale entry, requeues a leased task or extends the batch, and shrinks the heap |
| `Scheduler.TaskStore.ClaimPopped` | src/common/scheduler.ts:145-149 | claims the task of a popped entry: the batch, the requeue list and the map grow by exactly that claim |
| `Scheduler.TaskStore.Requeue` | src/common/scheduler.ts:152-152 | after requeueing every active task has a current heap entry again |
| `Scheduler.TaskStore.MarkCompleted` | src/common/scheduler.ts:156-162 | completes the task for its owner only |
| `Scheduler.TaskStore.MarkFailed` | src/common/scheduler.ts:164-178 | fails the task for its owner only |
| `Scheduler.TaskStore.Reschedule` | src/common/scheduler.ts:180-191 | returns the owner's task to pending at the new time, covered by the heap |
| `Scheduler.TaskStore.ExtendLease` | src/common/scheduler.ts:198-204 | renews the leases the worker still holds, of the given tasks and no others |
| `Scheduler.TaskStore.Cancel` | src/common/scheduler.ts:206-212 | cancels an existing task whatever its status |
| `Scheduler.TaskStore.PruneTerminal` | src/common/scheduler.ts:223-243 | expired terminal tasks go, then the oldest listed ones down to the cap |
| `Scheduler.TaskStore.CompactOne` | src/common/scheduler.ts:225-236 | one turn of the compaction: the kept entries stay at the front, the expired task goes |
| `Scheduler.TaskStore.CompactTerminal` | src/common/scheduler.ts:224-237 | the in-place compaction drops exactly the expired or vanished entries |
| `SagaTrace.RecordedWorkNeverReruns` | src/common/saga.ts:213-383 | in a legal trace a recorded step never runs forward again, a recorded undo never again, and nothing runs forward after a compensating save |
| `SagaTrace.UndosRunInReverse` | src/common/saga.ts:273-313 | undos of one pass are in strictly reverse step order, only a failed attempt being repeated |
| `SagaTrace.ProgressIsSavedBeforeTheNextStep` | src/common/saga.ts:240-257 | before another step runs the one before it was saved as executed, so a crash repeats at most one step |
| `SagaTrace.CompensatedMeansUndone` | src/common/saga.ts:260-271 | a `compensated` save means that every executed step with an undo had a successful undo |
| `Saga.StoreBacks` | src/common/saga.ts:352-383 | what the store holds was earned in the trace, so a new process may continue from it |
| `Saga.Orchestrator.Persist` | src/common/saga.ts:213-226 | a save that succeeds, or is rejected or cut short and may still have landed, keeps the trace legal and the store at the latest save |
| `Saga.Orchestrator.Attempt` | src/common/saga.ts:122-138 | up to the given number of attempts, of which only the last may succeed |
| `Saga.Orchestrator.AttemptOnce` | src/common/saga.ts:129-136 | one attempt succeeds, fails, or is cut short by the death of the process |
| `Saga.Orchestrator.Fail` | src/common/saga.ts:260-271 | the decision, the undos and the final status, all legal |
| `Saga.Orchestrator.Compensate` | src/common/saga.ts:273-313 | undoes in reverse what is executed and not yet undone, saving after each |
| `Saga.Orchestrator.UndoOne` | src/common/saga.ts:287-311 | one turn of the compensation loop: the undo, then its save, whose rejection is ignored |
| `Saga.Orchestrator.Forward` | src/common/saga.ts:240-257 | runs the missing steps in order, or fails into compensation |
| `Saga.Orchestrator.RunOne` | src/common/saga.ts:243-252 | one turn of the forward loop: the step, then its save, after which nothing is unsaved |
| `Saga.Orchestrator.Run` | src/common/saga.ts:228-237 | a fresh saga leaves a legal trace wherever it stops |
| `Saga.Orchestrator.Resume` | src/common/saga.ts:352-383 | continues from the stored snapshot legally, and refuses a missing or settled saga |
| `Saga.AnyHistory` | src/common/saga.ts:213-383 | a run and any number of resumes, each of which may die anywhere, leave a legal trace |
| `LruCache.LruIdempotencyCache.Detach` | src/common/idempotency.ts:88-95 | takes the node out and leaves the rest doubly linked in order |
| `LruCache.LruIdempotencyCache.AppendHead` | src/common/idempotency.ts:106-111 | puts the node in front of an intact list |
| `LruCache.LruIdempotencyCache.MoveToHead` | src/common/idempotency.ts:97-104 | moves the entry to the front; list, map and contents agree |
| `LruCache.LruIdempotencyCache.DropTail` | src/common/idempotency.ts:113-118 | removes exactly the last entry |
| `LruCache.LruIdempotencyCache.Has` | src/common/idempotency.ts:120-131 | true exactly for a live entry, which becomes the most recent; an expired one is dropped |
| `LruCache.LruIdempotencyCache.Get` | src/common/idempotency.ts:133-144 | the live value, which becomes the most recent; an expired one is dropped |
| `LruCache.LruIdempotencyCache.Set` | src/common/idempotency.ts:146-161 | the entry goes to the front with a new expiry; beyond the capacity the last one goes |
| `LruCache.LruIdempotencyCache.Delete` | src/common/idempotency.ts:164-170 | removes exactly the key, and says whether it was there |
| `LruCache.LruIdempotencyCache.Clear` | src/common/idempotency.ts:172-176 | empties list and map |
| `LruHistory.AlwaysFaithful` | src/common/idempotency.ts:120-170 | after any history the entries stand in order of last use and hold what was last stored |
| `LruHistory.CapacityHolds` | src/common/idempotency.ts:146-161 | the size never exceeds the capacity |
| `LruHistory.HitIsLatestAndLive` | src/common/idempotency.ts:133-144 | a hit is the value last stored, not deleted since and not expired |
| `LruHistory.MissMeansCrowdedOut` | src/common/idempotency.ts:133-161 | a stored, undeleted, unexpired key is missed only if at least `maxEntries` other keys were used since its last use |
| `LruHistory.OverflowEvictsLeastRecent` | src/common/idempotency.ts:146-161 | an overflowing store evicts exactly the key used longest ago |
| `LruHistory.OnlyOverflowEvicts` | src/common/idempotency.ts:120-170 | no other call loses a key it does not name |
| `IdempotencyRuntime.SingleExecution` | src/common/idempotency-runtime.ts:59-177 | per key at most one request is between `execute` and commit or release |
| `IdempotencyRuntime.NoExecutionWhileCached` | src/common/idempotency-runtime.ts:59-80 | no request is told to execute while its key's committed entry is cached |
| `IdempotencyRuntime.WaiterGetsLeadersCommit` | src/common/idempotency-runtime.ts:72-80 | a waiter is answered with what its own leader committed, or a conflict on a differing fingerprint |
| `IdempotencyRuntime.AnswersAreCommitted` | src/common/idempotency-runtime.ts:59-134 | every replayed answer was committed under the request's key |
| `IdempotencyRuntime.NoLeaseLeaks` | src/common/idempotency-runtime.ts:119-177 | the runtime half: when every request that executed has committed or released, both lease maps are empty |
| `IdempotencyRuntime.WaitersAreNeverStranded` | src/common/idempotency-runtime.ts:72-177 | a waiting request has a live leader or a settled lease |
| `IdempotencyRuntime.TwoTierIdempotency.OpenLease` | src/common/idempotency-runtime.ts:150-163 | leadership goes to the first comer only |
| `IdempotencyRuntime.TwoTierIdempotency.EndLease` | src/common/idempotency-runtime.ts:165-177 | the lease gets its outcome and both maps forget the key |
| `IdempotencyRuntime.TwoTierIdempotency.BeginRequest` | src/common/idempotency-runtime.ts:59-80 | the segment of `begin` up to its first await is the machine's begin step |
| `IdempotencyRuntime.TwoTierIdempotency.WakeRequest` | src/common/idempotency-runtime.ts:72-80 | the continuation after `await` is the machine's wake step |
| `IdempotencyRuntime.TwoTierIdempotency.CommitRequest` | src/common/idempotency-runtime.ts:119-134 | commit caches the entry and settles the lease |
| `IdempotencyRuntime.TwoTierIdempotency.ReleaseRequest` | src/common/idempotency-runtime.ts:137-147 | release breaks the lease |
| `DispatchPipeline.TryBlock` | src/common/dispatch-pipeline.ts:134-257 | what is returned or thrown, whether the lease is held and the response stored, a throwing commit included |
| `DispatchPipeline.LeaseEndsOnceIff` | src/common/dispatch-pipeline.ts:249-327 | a request told to execute ends its lease exactly once, by commit or release, if and only if its response was stored or the bookkeeping passes; a commit that throws ends in one release |
| `DispatchPipeline.RunDispatchPipeline` | src/common/dispatch-pipeline.ts:123-344 | the idempotency calls made, when the promise rejects, what is answered, and that the committed response is returned if and only if neither the commit callback nor the finally block throws |
| `PipelineLeases.LeftoversAreLeaks` | src/common/dispatch-pipeline.ts:123-344 | pipelines and runtime together: when all have finished, the leases left are exactly those of requests that led, stored nothing and whose bookkeeping threw |
| `PipelineLeases.NothingLeftIff` | src/common/idempotency-runtime.ts:119-177 | both lease maps are then empty if and only if there is no such request |
| `PipelineLeases.LeakyRequest` | src/common/dispatch-pipeline.ts:286-327 | one request whose handler and metrics throw leaves its lease behind |
| `PipelineLeases.LeakBlocksKey` | src/common/idempotency-runtime.ts:72-80 | every other request for the key of a leaked lease waits, whatever happens |
| `OutboxStore.StableSortOrders` | src/common/outbox.ts:104-104 | sorting keeps the records and orders them by time, then by arrival |
| `OutboxStore.Prune` | src/common/outbox.ts:122-132 | only published records go, expired or beyond the cap |
| `OutboxStore.PruneCaps` | src/common/outbox.ts:129-131 | after pruning no more published records remain than the cap allows |
| `OutboxStore.InMemoryOutboxStore.PrunePublished` | src/common/outbox.ts:122-132 | the pass over the map and the deletions of the oldest make exactly that set go |
| `OutboxStore.InMemoryOutboxStore.Save` | src/common/outbox.ts:77-83 | appends one pending record |
| `OutboxStore.InMemoryOutboxStore.MarkPublished` | src/common/outbox.ts:85-91 | publishes a pending record and nothing else, and reports ownership, status and attempts |
| `OutboxStore.InMemoryOutboxStore.MarkFailed` | src/common/outbox.ts:93-100 | counts an attempt and parks the record at the limit, pending ones only, and reports ownership, status and attempts |
| `OutboxStore.InMemoryOutboxStore.ListPending` | src/common/outbox.ts:102-120 | prunes, then lists by creation time, skipping partitions behind a parked record |
| `OutboxStore.InMemoryOutboxStore.ScanLoop` | src/common/outbox.ts:105-119 | the loop with its blocked set and early exit computes the recursive scan |
| `Outbox.PartitionRecords` | src/common/outbox.ts:308-324 | each partition's records in batch order, the unkeyed ones apart |
| `Outbox.RelayOrdered` | src/common/outbox.ts:245-260 | marks the lane up to and including its first failure; the counts are the records that became published and parked |
| `Outbox.RelayIsARun` | src/common/outbox.ts:245-260 | relaying a lane is a run of the machine that emits the lane in order, up to and including the first failure, and nothing else |
| `Outbox.ListingFacts` | src/common/outbox.ts:102-120 | a listing holds pending records and, before each keyed one, every unpublished record of its partition |
| `Outbox.AlwaysInv` | src/common/outbox.ts:188-260 | in every reachable state the lanes of the flush are the next unpublished records of their partitions |
| `Outbox.EmittedInTurn` | src/common/outbox.ts:188-260 | a keyed record is emitted only when every earlier record of its partition is published |
| `Outbox.EmissionsFollowEnqueueOrder` | src/common/outbox.ts:188-260 | before a record is emitted every earlier one of its partition was emitted successfully and marked |
| `Outbox.ParkedStaysParked` | src/common/outbox.ts:93-100 | a parked record is parked for ever |
| `Outbox.ParkedBlocksPartition` | src/common/outbox.ts:102-120 | no later record of its partition is emitted any more |
| `OutboxAttempts.AttemptsAreFailures` | src/common/outbox.ts:93-100 | over every run a record's attempts are the failures the store was told of, never more than `maxAttempts` (one at least), and it is parked exactly when they reach that |
| `OutboxAttempts.PublishedOnce` | src/common/outbox.ts:85-91 | the store is told of a success at most once, exactly for published records and never for a parked one |
| `OutboxAttempts.EveryCallIsAccountedFor` | src/common/outbox.ts:188-260 | the publisher was called with a record once if it is published, once per attempt and once per call that the process did not survive |
| `Quickselect.SeparatedIsKth` | src/common/adaptive.ts:21-45 | an element with nothing larger before it and nothing smaller after it is the k-th smallest, in any arrangement |
| `Quickselect.ScanUp` | src/common/adaptive.ts:30-30 | the unguarded scan stays in bounds and stops at the first element not below the pivot |
| `Quickselect.ScanDown` | src/common/adaptive.ts:31-31 | the unguarded scan stays in bounds and stops at the first element not above the pivot |
| `Quickselect.Partition` | src/common/adaptive.ts:27-39 | permutes the range so that the left part is at most and the right part at least the pivot, both smaller than the range |
| `Quickselect.SelectKth` | src/common/adaptive.ts:22-45 | returns element k of the sorted array and permutes the array |
| `Adaptive.Percentile` | src/common/adaptive.ts:115-119 | selection in place gives the percentile of the sorted durations |
| `Adaptive.NextTimeout` | src/common/adaptive.ts:130-134 | the time-out stays in its range, rises only when the window is slow and falls only when it is fast |
| `Adaptive.NextRetries` | src/common/adaptive.ts:138-142 | the retries stay in range, fall only under errors and rise only in a healthy window |
| `Adaptive.NeverAboveMaxIff` | src/common/adaptive.ts:65-143 | over any observations the retries never exceed the maximum if and only if `max(minRetries, 2)` does not |
| `Adaptive.MaximumOfOneIsExceeded` | src/common/adaptive.ts:74-74 | with a minimum and maximum of one a new tuner already retries twice |
| `Adaptive.AdaptiveTuner.constructor` | src/common/adaptive.ts:65-76 | a new tuner has its initial settings and has seen nothing |
| `Adaptive.AdaptiveTuner.Observe` | src/common/adaptive.ts:82-99 | one observation is the tuner's step: the sample is kept, and settings and counters move exactly when a look is due |
| `Adaptive.AdaptiveTuner.Record` | src/common/adaptive.ts:85-91 | the ring holds the last 2048 samples in order |
| `Adaptive.AdaptiveTuner.Window` | src/common/adaptive.ts:102-113 | the durations inside the window in order, and the number of errors among them |
| `Adaptive.AdaptiveTuner.Recompute` | src/common/adaptive.ts:121-143 | settings move by one step as the window's sorted 99th percentile and error rate say |
| `Adaptive.AdaptiveTuner.TakeSnapshot` | src/common/adaptive.ts:152-171 | percentiles, error rate and size of the window, and the settings |
| `Wire.DecimalParses` | src/common/bigint.utils.ts:14-18 | printing and parsing a big integer are inverse |
| `Wire.StringRoundTrip` | src/common/bigint.utils.ts:113-154 | a string survives exactly when it is not taken for a legacy numeral |
| `Wire.TreeRoundTrip` | src/common/bigint.utils.ts:113-198 | decoding an encoded tree gives what the encoder keeps, exactly when legacy numerals cannot interfere |
| `Wire.RoundTrip` | src/common/bigint.utils.ts:27-198 | a tree survives if and only if legacy is off or it has no legacy numeral and, under normalisation, it has no undefined |
| `Wire.PlainTreeDecodesToItself` | src/common/bigint.utils.ts:140-207 | a tree with no string that starts with the sentinel prefix decodes to itself |
| `Wire.EncodedFits` | src/common/bigint.utils.ts:113-134 | what encodes within the depth limit decodes within it |
| `Wire.Deserialize` | src/common/bigint.utils.ts:140-194 | the copy-on-write traversal equals the recursive map, with an error exactly past the depth limit |
| `Wire.NormalizeVisit` | src/common/bigint.utils.ts:27-78 | the copy-on-write normalisation equals the recursive map, with an error exactly past the depth limit |
| `Wire.EncodeThenDecode` | src/common/bigint.utils.ts:27-198 | whatever normalises within the depth limit decodes to what normalisation keeps, which is the tree itself if and only if it has no undefined |
| `Levenshtein.ScriptCostsAtLeastDist` | src/common/levenshtein.ts:1-27 | no edit script is cheaper than the distance |
| `Levenshtein.ScriptOfDist` | src/common/levenshtein.ts:1-27 | some edit script costs exactly the distance |
| `Levenshtein.Symmetric` | src/common/levenshtein.ts:6-8 | swapping the arguments does not change the distance |
| `Levenshtein.LengthBound` | src/common/levenshtein.ts:40-40 | the distance is at least the difference in length |
| `Levenshtein.NextRow` | src/common/levenshtein.ts:16-20 | the inner loop fills the next row of the table |
| `Levenshtein.LevenshteinDistance` | src/common/levenshtein.ts:1-27 | two rows over the shorter string compute the distance |
| `Levenshtein.SuggestClosestMethod` | src/common/levenshtein.ts:32-49 | the first candidate of least distance within the threshold; pre-filter and early exit change nothing |
| `Cron.WalkPart` | src/common/cron.ts:54-56 | every step-th value of the range, Sunday as 7 folded to 0 |
| `Cron.ParseField` | src/common/cron.ts:31-59 | the union of the parts' values, or an error exactly for a bad step or range |
| `Cron.ParseCron` | src/common/cron.ts:61-71 | five valid fields or an error; values in range and wildcards full |
| `Cron.WildcardIsFull` | src/common/cron.ts:39-41 | a wildcard holds its whole range |
| `Cron.DayRuleIsPosix` | src/common/cron.ts:149-160 | the cascade is the POSIX rule: two restricted day fields are alternatives, otherwise both must hold |
| `Cron.FirstInDay` | src/common/cron.ts:190-201 | the earliest matching minute of the day at or after the bound |
| `Cron.NextCronTick` | src/common/cron.ts:171-208 | the least matching minute strictly after that of `from` within the scanned days, or -1 exactly when there is none |
| `Uuid.StampsGrow` | src/common/uuid.ts:21-34 | stamps grow strictly over any clock readings |
| `Uuid.StampBound` | src/common/uuid.ts:24-34 | the stamp outruns the latest clock reading by at most one count per call |
| `Uuid.IdOrderIsStampOrder` | src/common/uuid.ts:36-72 | text order is exactly the order of the low 60 bits of the stamps, whatever was drawn |
| `Uuid.IdsIncrease` | src/common/uuid.ts:21-73 | ids grow strictly, through backward jumps and exhausted counters, while stamps fit 60 bits |
| `Uuid.IdsIncreaseBelow` | src/common/uuid.ts:21-73 | the same from a bound on the clock and on the number of calls |
| `Uuid.TimeWrapBreaksOrder` | src/common/uuid.ts:38-43 | at 2^48 milliseconds a later id sorts before an earlier one |
| `Uuid.IdFormat` | src/common/uuid.ts:45-72 | 36 characters in five dashed groups, version 7, variant 10 |
| `Uuid.TimestampRoundTrip` | src/common/uuid.ts:75-82 | the time read from an id is the embedded time modulo 2^48 |
| `Uuid.Generator.Tick` | src/common/uuid.ts:25-34 | the branches on clock and counter advance the stamp to the larger of its successor and the clock's own |
| `Uuid.Generator.Next` | src/common/uuid.ts:24-73 | the id is the text of the new stamp and the random bytes |
| `Uuid.Fill` | src/common/uuid.ts:36-49 | the buffer byte by byte: time, version and counter, variant and random bytes |
| `RateLimit.TokensInRange` | src/common/rate-limit.ts:156-181 | tokens stay between zero and the capacity |
| `RateLimit.Conserved` | src/common/rate-limit.ts:163-180 | tokens spent and left never exceed those at the start plus the inflow |
| `RateLimit.AdmissionBound` | src/common/rate-limit.ts:156-181 | from any state, admissions are at most the capacity plus the inflow since the first check |
| `RateLimit.WindowBound` | src/common/rate-limit.ts:156-181 | the same for every window of a run |
| `RateLimit.RetryAfterIsExact` | src/common/rate-limit.ts:168-179 | with nothing admitted since, a check succeeds from the last refill plus the hint on and not before |
| `RateLimit.RejectionsCostNothing` | src/common/rate-limit.ts:163-179 | a rejected check does not delay the next success |
| `RateLevels.TakeKeepsLevel` | src/common/rate-limit.ts:163-180 | from any reachable level a check leads to a drained level plus whole tokens, whatever time has passed |
| `RateLevels.EmptyFillsIff` | src/common/rate-limit.ts:146-154 | where an empty bucket fills while idle every bucket does, and for whole-number capacities that is the same |
| `RateLimit.IdleIsFullIff` | src/common/rate-limit.ts:146-154 | every bucket idle long enough to be dropped is full again if and only if an empty one fills in the shortest such time |
| `RateSweep.AnswersAlikeIff` | src/common/rate-limit.ts:108-181 | for all settings and limits: table and unbounded table answer alike on all runs in order of time without overflow if and only if there is no room for a bucket, or every bucket fills while idle from each level it can be left at |
| `RateSweep.TooLowShows` | src/common/rate-limit.ts:146-154 | one level from which a bucket does not fill while idle is enough: repeated sweeps make the answers differ |
| `RateSweep.WholeAnswersAlikeIff` | src/common/rate-limit.ts:108-181 | for whole-number capacities: if and only if empty buckets fill while idle |
| `RateTable.AlwaysBounded` | src/common/rate-limit.ts:108-144 | the table never exceeds its limit |
| `RateTable.AlwaysOldestFirst` | src/common/rate-limit.ts:108-144 | buckets stand in order of last use |
| `RateTable.OverflowMeansBusy` | src/common/rate-limit.ts:112-131 | the look at the oldest bucket decides whether any bucket is idle |
| `RateTable.SameAnswers` | src/common/rate-limit.ts:108-181 | the bounded, swept table answers as an unbounded one would when buckets fill while idle from each level they can be left at |
| `RateTable.FewKeysNeverOverflow` | src/common/rate-limit.ts:112-131 | with no more keys than entries nothing overflows |
| `RateTable.SlowBucketsGainBySweep` | src/common/rate-limit.ts:146-154 | with buckets too slow to fill while idle a sweep grants a token too many |
| `RateTable.LimiterRate` | src/common/rate-limit.ts:108-181 | without overflow, passes of a key in any window are at most the capacity plus the inflow |
| `RateOverflow.OwnRate` | src/common/rate-limit.ts:133-181 | with overflow allowed, the same for the passes of a key's own bucket |
| `RateOverflow.SharedRate` | src/common/rate-limit.ts:117-131 | all keys that overflow with the same limits together keep to the rate of one bucket |
| `RateOverflow.KeyRate` | src/common/rate-limit.ts:108-181 | a key served by its own and a shared bucket passes at most twice the rate |
| `RateLimiter.Draw` | src/common/rate-limit.ts:162-180 | refill, then a token spent or the time to wait |
| `RateLimiter.RateLimiter.GetBucket` | src/common/rate-limit.ts:108-144 | own bucket to the fresh end, idle oldest replaced, or the shared bucket |
| `RateLimiter.RateLimiter.CheckRate` | src/common/rate-limit.ts:156-181 | one check is the table's check step |
| `RateLimiter.RateLimiter.EvictIdle` | src/common/rate-limit.ts:146-154 | exactly the idle buckets go from both maps, the order of the others kept |

## Left out

What the models assume:

- Workflows: one instance with a sequential function, runs serialized by the engine's queue, clock appends that land in order, appends that do not fail, and a suspension that the function does not catch. Wake-ups, time-outs, signals and cancellations may arrive at any moment, also when `onWakeup`'s guards would refuse them.
- Scheduler: tasks are enqueued as pending, as the scheduler does.
- Sagas: distinct step names and one live process at a time; the data passed between steps is not modelled.
- Idempotency runtime: no distributed store, non-empty keys, and woken waiters run before the next leader commits, as promise reactions do.
- Outbox: creation times do not decrease within a partition and flushes do not overlap. A record's position stands for its id.
- Rate limiter: a key always comes with the same limits, limits are not negative, and the two clock readings of one check are equal.
- Numbers: token counts, durations and rates are real numbers, so floating-point rounding is not modelled; time-outs are whole milliseconds. Strings are sequences of characters.

Contracts that say less than the code might suggest:

- Scheduler.TaskStore.Enqueue: for pending tasks, the only ones the scheduler enqueues.
- Scheduler.TaskStore.ClaimDue: that the claimed tasks are distinct is stated for a positive claim time to live, which the scheduler enforces.
- WorkflowRepeats.RepeatedIffRecorded: for a log that is not closed; a run whose workflow was cancelled meanwhile may have no later run.
- Uuid.TimestampRoundTrip: for ids the generator made; text on which `parseInt` fails is not modelled.
- Levenshtein.SuggestClosestMethod: lower-casing is a parameter that keeps lengths.
- Cron.NextCronTick: UTC only, over a calendar that is a parameter; named zones and local time depend on foreign offset data.
- Cron.ParseField: starts from the parts of a field, with whole numbers; splitting the text is not modelled.
- Cron.ParseCron: starts from the fields; splitting the expression is not modelled.
- Wire.Deserialize: a changed value stands for a changed reference, and cycles cannot occur in trees.
- Wire.NormalizeVisit: dates, buffers, functions, symbols and `toJSON` are not modelled.
- LruCache.LruIdempotencyCache.Set: does not model the copying of buffers on store.
- IdempotencyRuntime.TwoTierIdempotency.BeginRequest: for non-empty keys, an enabled cache and no distributed store.
- IdempotencyRuntime.TwoTierIdempotency.CommitRequest: the commit that succeeds; one that throws changes nothing and is a path of the pipeline. No distributed write.
- IdempotencyRuntime.TwoTierIdempotency.ReleaseRequest: no distributed delete.
- DispatchPipeline.RunDispatchPipeline: every collaborator is a parameter that passes, answers or throws; the shape of error responses is not modelled.
- OutboxStore.InMemoryOutboxStore.Save: the direct save; staging in a transaction is not modelled.
- OutboxStore.InMemoryOutboxStore.MarkFailed: the error text is not kept.
- Adaptive.AdaptiveTuner.TakeSnapshot: the rank is computed exactly, not in floating point.

What is not modelled:

- Transports, clients, framework modules, decorators, tracing, logging, metrics export, command line and generators.
- Database, Redis and etcd stores, and idempotency across replicas.
- `Scheduler`'s polling loop, handlers, heartbeats and timers; `list`; workflow and saga registries, saga recovery and leases.
- The circuit breakers, `mapLimit`, the in-memory workflow lock, event-store subscriptions, `relayIndependent`'s batch publisher and outbox transactions.
- Idempotency key construction and payload fingerprints.
