# A verified model of the workflow kernel and its dispatch protocol

This project models, in Dafny 4.11, the parts of the repository that decide what a workflow run may do: the compiler
that turns a definition into a graph, the run state machine, recovery after a restart, the change sets that persist a
run, the file store and the relational store, the local engine, and the lease protocol between the control plane and
the workers with the worker's own safety timer. Two small machines complete it: the alert engine and the 64-bucket
counters that feed it. `dafny verify dfyconfig.toml` checks everything.

## How it is built

Code that changes state step by step is modelled as classes and loops (`RunState`, `Repository`, `Store`, `Engine`,
`LeaseState`, `Metrics`). Each method is proved against a value-level function or an outright property, and the main
theorems are about those functions, over every run or every interleaving.

| file | what it holds |
|---|---|
| `Domain`, `Finite`, `Graph` | data, finite sets and sequences, paths and cycles |
| `Compiler` | the two passes and Kahn's loop |
| `Steps`, `RunStates` | the step functions on values, and as they are executed in place |
| `Propagation`, `RunInvariant`, `RunSteps`, `RunResults`, `RunTheorems` | failure propagation, the invariant, what every step keeps, whole runs |
| `AuditLog`, `RunLogs` | replaying the audit log: every event, every run |
| `History`, `ResumeSteps`, `Recovery`, `ResumedRuns`, `StaleCounterExample` | what is never rewritten, recovery, runs with resumes, concrete runs |
| `ChangeSets`, `SavedRuns`, `Relational`, `RunTables`, `RunRepository`, `FileStore` | difference and application, replay, tables and their consistency, transactions, compare-and-swap |
| `Engine` | the event loop, `Execute`, `Resume`, `Cancel` |
| `DispatchModel`, `DispatchInvariant`, `DispatchSteps`, `DispatchRuns`, `DispatchEffects`, `DispatchHistory`, `DispatchLogs`, `RequestedRuns`, `WorkerSessions`, `DispatchRepository` | the lease protocol as a table and over histories, its logs, runs whose cancellation was requested, sessions, the transactions |
| `LeaseTiming`, `LeaseExample`, `WorkerLeases` | the worker's side of a lease, concrete histories |
| `Alerting`, `AlertCounters` | alert hysteresis, rolling counters |

A transaction of the dispatch protocol is one step, or one step per item of its work list. When a step takes effect and
what it then does is a table over the stored columns (`DispatchEffects`), proved of the steps as they are computed. `DispatchRepository` records
every step it takes, and its invariant says that the tables are those of the recorded history, so every theorem about
histories holds of the class. A history is any sequence of
such steps, refused ones included; nothing is assumed about who runs them or in what order. The clock is a parameter of
each step; only the theorems about time assume that it does not run backwards, or is read at most some time early.

## Where a promise does not hold

* After a resume, the result of a current successful attempt can be refused ("dependency count became negative"):
  recovery leaves the counters of skipped tasks at zero, and success takes one from every successor. It happens if and
  only if the task has a successor that was already skipped when the run was last resumed
  (`ResumedRuns.SuccessRefusedExactly`; a concrete run is `StaleCounterExample.ResumedSuccessRefused`).
* `Execute` takes up a stored run without looking for attempts that an earlier process left running. It neither executes
  nor settles them, and if another task has failed it ends the run as failed over them. An end that is not a
  cancellation leaves every task terminal if and only if there were none (`Engine.Execute`; a concrete run is
  `StaleCounterExample.RunEndedOverRunningTask`). `Resume` does not have this gap (`Engine.ResumeRun`).
* Returning a task and starting an attempt look at the transition table only. Called on a task that waits for its
  dependencies, the first releases it before they succeeded; called in a pending run, the second leaves a running task in
  it. A call keeps the invariant if and only if it does neither (`RunTheorems.CallKeepsExactly`, over whole runs
  `RunTheorems.CalledRunExactly`; a concrete snapshot is `StaleCounterExample.CallsWithoutGuards`). The callers look first.
* A run whose cancellation was requested can still end as failed: settling expired leases does not look at the request. It
  happens if and only if an expiry uses up the last attempt of the last open branch before the cancellation is carried out
  (`RequestedRuns.RequestedStep`, `RequestedRuns.RequestedRunEnds`), and from every history that leaves such a lease
  expired (`RequestedRuns.RequestedRunCanFail`; a concrete one is `LeaseExample.RequestedThenFailed`).
* The relational update never writes the definition columns of a run, while the snapshot form replaces the whole row.
  They agree if and only if the change set leaves those columns alone (`Relational.RowsRefineExactly`), and part on any
  accepted change set that does not (`Relational.OtherVersionParts`). No step of the kernel changes them
  (`History.StepRecorded`).
* The comment above `AlertCounters` says that a window beyond the bucket capacity is limited to the last 64 seconds. The
  code does not limit it: a bucket that was not reused is counted however old it is, and one that was is lost
  (`AlertCounters.LongWindowsAreNotCut`, `AlertCounters.LongWindowsLose`). On a log in order it meets the comment if and only
  if no older entry of the window still stands (`AlertCounters.LimitedExactly`), and on all such logs if and only if the
  window reaches back fewer than 64 seconds, where there is nothing to limit (`AlertCounters.WindowsExactly`).
* A renewal can shorten a lease when the transactions do not read the clock in order: if and only if it asks for less than
  the last grant did, and for less than the deadline (`LeaseTiming.RenewalMovesBackExactly`; over histories
  `LeaseTiming.HistoryMovesBack`, and a concrete one is `LeaseExample.RenewalsOutOfOrder`). It moves back by no more than
  a grant reads the clock early (`LeaseTiming.MovesBackAtMostLag`), and the safety margin covers that: no two attempts of a
  task execute at the same time as long as reading early, handling an answer and acting late fit in the margin
  (`LeaseTiming.WatchedExecutionsNeverOverlap`; `LeaseTiming.UnseenRenewalExactly` says how far it reaches).

## Model

| member | source | states |
|---|---|---|
| Compiler.Compile | workflow/compiler.go:39-160 | Accepts exactly the definitions that pass the header, per-task and dependency checks and have no dependency cycle, reports the cycle error exactly for those that only fail on a cycle, and returns tables that say exactly what the definition says: mutually transposed, duplicate-free, acyclic, with the index a bijection onto positions. |
| Compiler.CheckTasks | workflow/compiler.go:73-101 | The first pass succeeds exactly if every task is acceptable and keys are distinct; it fills the index for every position. |
| Compiler.BuildAdjacency | workflow/compiler.go:103-122 | The second pass succeeds exactly if every dependency list names existing tasks once each, and both tables then hold the same edges. |
| Compiler.TopologicalVisit | workflow/compiler.go:124-144 | Kahn's loop visits in dependency order, each node once, and leaves unvisited exactly nodes with an unvisited dependency. |
| Compiler.CompleteOrderRanks | workflow/compiler.go:132-147 | A complete visit numbers the nodes so that every edge goes upwards. |
| Compiler.IncompleteOrderCycles | workflow/compiler.go:145-147 | An incomplete visit means the successor table has a cycle. |
| Compiler.CyclesAgree | workflow/compiler.go:103-147 | A cycle in the tables is a cycle of dependency keys and the other way round. |
| Compiler.RecompileAccepts | internal/postgres/dispatch_claim.go:116-119 | A definition that was accepted is accepted again as it is stored, and normalizing it again changes nothing. |
| RunStates.RunState.AppendEvent | workflow/state.go:120-134 | The log grows by one event numbered after the last, and nothing else changes. |
| RunStates.RunState.MoveWorkflow | workflow/state.go:71-86 | The in-place workflow transition: the legal-edge table decides, the finish time belongs to terminal states, an event is logged. |
| RunStates.RunState.MoveTask | workflow/state.go:89-105 | The in-place task transition with its retry and finish times, refused exactly for illegal edges; the event it logs is pinned by `AuditLog.MoveTaskReplays`. |
| AuditLog.MoveWorkflowReplays | workflow/state.go:71-86 | The logged event leads from the run as it was recorded to the run as it is recorded now, with its start and finish times, at the time of the move. |
| AuditLog.MoveTaskReplays | workflow/state.go:89-105 | The logged event names the task, the status it had and the status it has, at the time that is its finish time if it ended. |
| AuditLog.FinishAttemptReplays | workflow/state.go:108-117 | The logged event names the attempt by task and number, its old and its new status, at the time that is its finish time. |
| AuditLog.BeginAttemptReplays | workflow/engine.go:520-540 | Starting an attempt logs the task's move into running, from which the new attempt with its number and start time follows. |
| RunStates.RunState.FinishAttempt | workflow/state.go:108-117 | The in-place attempt transition with its result. |
| RunStates.RunState.QueueTask | workflow/distributed_state.go:9-25 | Queues a ready task, starting a pending run first; state and error agree with the value-level step. |
| RunStates.RunState.ReturnQueuedTaskToReady | workflow/distributed_state.go:28-36 | Takes a queued task back. |
| RunStates.RunState.StartQueuedAttempt | workflow/distributed_state.go:39-73 | Starts the next attempt of a queued task on behalf of a worker. |
| RunStates.RunState.BeginAttempt | workflow/engine.go:520-540 | Starts the next attempt of a ready task locally. |
| RunStates.RunState.SkipDescendantsFrom | workflow/distributed_state.go:291-312 | The breadth-first loop with its queue and visited array computes the value-level propagation. |
| RunStates.RunState.SettleIfComplete | workflow/distributed_state.go:268-283 | Ends the run as succeeded, or as failed once every task is terminal, in place. |
| RunStates.RunState.ApplyRetryDecision | workflow/distributed_state.go:245-266 | Retries with a due time while attempts are left, otherwise fails the task and propagates. |
| RunStates.RunState.ReleaseSuccessors | workflow/distributed_state.go:121-131 | The loop over satisfied edges, including the negative-count error. |
| RunStates.RunState.ApplyAttemptResult | workflow/distributed_state.go:76-136 | The whole result step in place: guards, canceled results, success, permanent and temporary failure. |
| RunStates.RunState.InterruptAttempt | workflow/distributed_state.go:139-149 | Ends the current attempt as interrupted. |
| RunStates.RunState.TimeoutAttempt | workflow/distributed_state.go:152-165 | Ends the current attempt as timed out. |
| RunStates.RunState.MakeRetryReady | workflow/distributed_state.go:168-186 | Readies a waiting task exactly when its retry time has come for the named attempt. |
| RunStates.RunState.CancelRun | workflow/distributed_state.go:189-213 | Cancels every unfinished task, its running attempt and the run. |
| Propagation.SkipDescendantsExact | workflow/distributed_state.go:286-312 | For any sources, either some unfinished descendant may not be skipped and the step fails, or exactly the unfinished tasks reachable over at least one successor edge are skipped and no other task, counter or row changes. |
| RunSteps.ReleaseExact | workflow/distributed_state.go:121-131 | The loop takes one count from each successor and readies exactly those that reach zero, or fails exactly if some successor has no count left or cannot become ready. |
| RunSteps.QueueKeeps | workflow/distributed_state.go:9-25 | Queueing keeps the run invariant. |
| RunSteps.BeginKeeps | workflow/distributed_state.go:39-73 | Starting an attempt keeps the run invariant. |
| RunSteps.StartQueuedExactly | workflow/distributed_state.go:39-72 | A queued start is refused exactly for a position, an owner or a key that does not fit, each with its error, or by the transition table; accepted, it appends the next attempt in the owner's name. |
| RunSteps.RetryReadyKeeps | workflow/distributed_state.go:168-186 | A retry becoming ready keeps the run invariant, and is never refused once the guards pass. |
| RunSteps.LiveTaskMeansRunning | workflow/distributed_state.go:39-56 | Queued, running and waiting tasks only occur in a running workflow. |
| RunResults.SuccessKeeps | workflow/distributed_state.go:114-135 | A current successful result is accepted exactly if no skipped successor has run out of counts, and then the invariant, all counters and readiness of the successors hold. |
| RunResults.SkippedSuccessorCounts | workflow/distributed_state.go:114-131 | With right counters a skipped successor of a running task still has two counts to lose, so the negative-count branch is dead. |
| RunResults.PermanentFailureKeeps | workflow/distributed_state.go:99-113 | A permanent failure of the current attempt is always accepted, and skips exactly the unfinished descendants. |
| RunResults.RetryDecisionKeeps | workflow/distributed_state.go:245-266 | Every retryable end of the current attempt is accepted, and leads to a retry exactly while attempts are left. |
| RunResults.TimeoutKeeps | workflow/distributed_state.go:152-165 | A timeout of the current attempt is always accepted and keeps the invariant. |
| RunResults.FailTaskKeeps | workflow/distributed_state.go:245-266 | Failing a running task never meets an illegal transition. |
| RunResults.ResultKeeps | workflow/distributed_state.go:76-136 | A result is applied exactly to the current attempt, refused exactly for an unknown kind or a stale counter, and what it leads to is given by its kind. |
| RunResults.CurrentAttempt | workflow/distributed_state.go:226-243 | The attempt a result is for is current exactly if it is the last one of a running task. |
| RunResults.NoMixedTerminal | workflow/distributed_state.go:268-283 | Terminal tasks are never mixed without a failure: the corresponding error is dead. |
| RunTheorems.InitialInv | workflow/run.go:128-154 | The first snapshot of any compiled definition is pending, with nothing started or logged, and satisfies the invariant. |
| RunTheorems.StepKeeps | workflow/distributed_state.go:9-213 | Every step its callers take keeps the invariant, and keeps the all-task counters right in a run that was never resumed. The guard on the task and the run is the callers': the dispatch steps (`DispatchSteps.ReturnKeepsWorld`, `DispatchSteps.ClaimKeepsWorld`) and the engine's loop over ready tasks (`Engine.Engine.StartTask`) supply it. |
| RunTheorems.ReachableInv | workflow/distributed_state.go:114-135 | Over every sequence of guarded steps from the first snapshot every counter equals the number of direct dependencies that have not succeeded, and every released task has all of them succeeded; `RunTheorems.CalledRunExactly` is the same for any sequence of calls. |
| RunTheorems.CallKeepsExactly | workflow/distributed_state.go:28-73 | Called with any arguments at all, a step that is applied keeps the invariant if and only if it returns no task that waits for its dependencies and starts none in a run that is not running. |
| RunTheorems.CalledRunExactly | workflow/distributed_state.go:9-213 | Over every sequence of calls from the first snapshot all snapshots satisfy the invariant, with all counters right, if and only if every call was such. |
| RunTheorems.GuardedIsPerformed | workflow/engine.go:213-252 | The callers' guard implies that condition. |
| RunTheorems.NoStuckRun | workflow/engine.go:396-407 | In an unfinished run some task is ready, queued, running or waiting for a retry, unless all are terminal. |
| RunTheorems.OutcomeMeaning | workflow/distributed_state.go:268-283 | Succeeded means exactly that all tasks succeeded; failed exactly that all are terminal, one failed and none was canceled; canceled exactly that one was; anything else exactly that a live task is left. |
| History.StepRecorded | workflow/state.go:47-134 | Every step leaves finished attempts, old events and a recorded request alone, pays for its events out of the attempts, and logs exactly the moves that lead from the old to the new snapshot, at the time of the step. |
| RunLogs.RunTells | workflow/state.go:120-134 | Over any run, replaying all its events on its first snapshot is legal move by move, each from the status its entity had then, and gives the current statuses and times of the run, its tasks and its attempts. |
| RunLogs.LocalRunTells | workflow/state.go:120-134 | The same over any local run with any number of resumes. |
| RunLogs.SavedRunTells | workflow/change.go:118-229 | The same over any persisted run. |
| RunLogs.EventsStamped | workflow/state.go:120-134 | The events between two snapshots of a run carry the time of the step between them, then and in every later log. |
| RunLogs.LocalEventsStamped | workflow/state.go:120-134 | The same over any local run with resumes. |
| ResumedRuns.BoundedDistributedRun | workflow/distributed_state.go:28-36 | A distributed run emits at most 2 + 5 times the allowed attempts plus 2 per return-to-ready: that pair is the only thing that can repeat. |
| ResumedRuns.BoundedRun | workflow/engine.go:520-540 | A local run with any number of resumes and a cancellation has at most the allowed attempts per task, numbered 1..k, at most 2 + 4 times the allowed attempts events, numbered from 1 without a gap, and unchanged finished attempts. |
| ResumedRuns.LocalRunInv | workflow/recovery.go:84-168 | The invariant over unfinished tasks holds after any mix of steps and resumes. |
| ResumedRuns.LocalRunRecorded | workflow/state.go:108-134 | Between any two snapshots of a local run finished attempts are unchanged, the log only grows and a recorded request stays. |
| RunStates.ValidateAttemptHistory | workflow/recovery.go:171-252 | The stored-history check, branch by branch, decides exactly the histories that fit the task status and the retry limit. |
| RunStates.RunState.ResumeTask | workflow/recovery.go:91-120 | The first pass over one task, with its three errors and the interrupted attempt. |
| RunStates.RunState.RefillTask | workflow/recovery.go:135-166 | The last pass over one task: recount and status correction. |
| RunStates.RunState.PrepareForResume | workflow/recovery.go:84-168 | The whole preparation in place, agreeing with the value-level function. |
| Recovery.ResumeRestores | workflow/recovery.go:84-168 | Every unfinished snapshot a local run can have saved is accepted; afterwards no task runs, each unfinished task's counter is its number of unsucceeded dependencies, finished ones count zero, and the invariant holds. |
| Recovery.ResumeAccepts | workflow/recovery.go:84-168 | A reachable unfinished snapshot is accepted if and only if no task is queued. |
| Recovery.StoredIsHistory | workflow/recovery.go:171-256 | For a task that is not canceled the stored histories a resume accepts are exactly those that local runs leave. |
| Recovery.ResumeTwiceIsOnce | workflow/recovery.go:84-168 | Preparing a prepared snapshot changes nothing: no event, task or counter. |
| Recovery.ResumeTaskExact | workflow/recovery.go:91-120 | What the first pass does to each reachable task: an interrupted attempt is ended and retried or failed, others stay. |
| Recovery.RefillTasksExact | workflow/recovery.go:135-166 | On a graph that agrees the last pass only counts. |
| ResumedRuns.SuccessAfterResume | workflow/distributed_state.go:114-131 | The exact condition of the negative-count error after a resume: a stale skipped successor. |
| ResumedRuns.SuccessRefusedExactly | workflow/distributed_state.go:114-131 | In any local run a current success is refused if and only if it has a successor that was already skipped when the run was last resumed. |
| StaleCounterExample.ResumedSuccessRefused | workflow/recovery.go:90-139 | A concrete run: a fails, c is skipped, the process restarts, and b's success is refused. |
| StaleCounterExample.RunEndedOverRunningTask | workflow/engine.go:396-407 | A concrete run that is ended as failed while a task is recorded as running, when it is executed instead of resumed after a stop. |
| StaleCounterExample.CallsWithoutGuards | workflow/distributed_state.go:28-73 | A first snapshot on which both calls are applied without the guard and break the invariant: a task is released before its dependencies succeeded, and one runs in a pending run. |
| ChangeSets.ChangeSetFromSnapshots | workflow/change.go:56-115 | The loops compute exactly the difference. |
| ChangeSets.ApplyChangeSet | workflow/change.go:118-229 | The passes with their seen-sets compute exactly the application, error for error. |
| ChangeSets.ApplyTaskLoop | workflow/change.go:150-176 | The task pass. |
| ChangeSets.ApplyAttemptLoop | workflow/change.go:178-210 | The attempt pass. |
| ChangeSets.RoundTrip | workflow/change.go:56-229 | Applying the difference of a snapshot and any later one to the first gives the second. |
| ChangeSets.ApplyReachesExactlyFollowers | workflow/change.go:118-229 | Some change set leads from one snapshot to another if and only if the other follows it: next revision, same identity and keys, attempts continued, events appended without a gap. |
| ChangeSets.StaleConflicts | workflow/change.go:122-133 | A change set made on another revision is never applied. |
| SavedRuns.CommitAccepted | workflow/engine.go:71-75 | The change set of every legal step or resume is accepted on the snapshot it was made from and gives exactly the new one. |
| SavedRuns.SavedRunCommitted | workflow/change.go:240-246 | Over a persisted run revisions count the commits and events are numbered from 1 without a gap. |
| SavedRuns.ReplayRebuilds | workflow/change.go:118-229 | Replaying all change sets of a run on its first snapshot gives its last. |
| Relational.RowsRefineExactly | internal/postgres/run_store.go:198-306 | On tables that represent a snapshot the row-by-row update goes through if and only if the change set applies to the snapshot, whatever definition columns it carries, and the tables then represent the new snapshot if and only if it left those columns alone. |
| Relational.OtherVersionParts | internal/postgres/run_store.go:206-232 | Any accepted change set is accepted by both forms with another definition version too, and then the tables no longer represent the snapshot. |
| Relational.ApplyKeepsOthers | internal/postgres/run_store.go:198-306 | Rows of other runs are untouched. |
| Relational.OthersStayRepresented | internal/postgres/run_store.go:198-306 | So every other run is still represented. |
| RunRepository.RepresentsUnique | internal/postgres/run_store.go:499-668 | The tables determine the snapshot. |
| RunRepository.LoadedIsRepresented | internal/postgres/run_store.go:499-668 | What the checks of the loops let through is represented by consistent tables. |
| RunTables.ApplyKeepsConsistent | internal/postgres/run_store.go:198-306 | Foreign keys, key columns and stored definitions stay consistent under any accepted change set. |
| RunTables.CreateKeepsConsistent | internal/postgres/run_store.go:128-177 | And under a new run. |
| RunRepository.Repository.Create | internal/postgres/run_store.go:15-177 | On consistent tables a first snapshot is stored exactly if it passes the checks and the id is new, and the tables stay consistent; a failure leaves nothing behind. |
| RunRepository.Repository.ValidateChangeSetShape | internal/postgres/run_store.go:308-362 | The shape check with its seen-sets decides exactly the shape predicate. |
| RunRepository.Repository.ApplyChange | internal/postgres/run_store.go:180-306 | One transaction: all rows or none; it keeps the tables consistent. |
| RunRepository.Repository.ApplyToRun | internal/postgres/run_store.go:180-306 | On a represented run it is applied exactly if the snapshot form accepts, and the tables represent the result exactly if the definition was left alone. |
| RunRepository.Repository.LoadSnapshot | internal/postgres/run_store.go:499-668 | The loops over the sorted rows find exactly the snapshot the tables represent: a represented one is given back, and on consistent tables whatever is found is represented. |
| RunRepository.Repository.RequestCancel | internal/postgres/run_store.go:697-733 | Records the first request of an unfinished run on the next revision, reloads it in the same transaction and gives it back; a run that cannot be reloaded keeps its row. |
| FileStore.Store.Create | workflow/filestore/store.go:52-66 | Creates exactly runs with a usable id that does not exist. |
| FileStore.Store.Save | workflow/filestore/store.go:69-83 | Replaces without comparing. |
| FileStore.Store.Load | workflow/filestore/store.go:210-246 | Gives exactly the stored snapshot. |
| FileStore.Store.Apply | workflow/filestore/store.go:86-105 | Compare-and-swap: applied exactly if the snapshot form accepts, otherwise nothing changes; another revision is a conflict. |
| FileStore.Store.RequestCancel | workflow/filestore/store.go:134-162 | Only the first request of an unfinished run changes the file. |
| FileStore.NoLostUpdate | workflow/filestore/store.go:86-162 | In any interleaving of requests and writes computed on old versions, a revision names one version and each applied write was computed on exactly the version it replaces. |
| FileStore.CancellationNeverLost | workflow/filestore/store.go:134-162 | Once a request is recorded on an unfinished run, the file holds that version until it holds its cancellation, and then nothing else, whatever races. |
| Engine.Engine.SaveSnapshot | workflow/engine.go:71-75 | A commit fails exactly when a request got there first. |
| Engine.Engine.FinalizeCancellation | workflow/engine.go:630-658 | Two tries are enough: the run always ends, as canceled unless it had ended before. |
| Engine.Engine.StoppedRunResult | workflow/engine.go:119-128 | A business stop ends the run; a shutdown leaves the file alone. |
| Engine.Engine.StartReadyTasks | workflow/engine.go:213-252 | Fills the slots: afterwards the concurrency is reached or no task is ready, some ready tasks were started as new attempts and nothing else changed; undisturbed it never fails. |
| Engine.Engine.StartTask | workflow/engine.go:226-249 | The next attempt of the task is committed as running before it is executed, and entered into the active table. |
| Engine.Engine.FinishActive | workflow/engine.go:586-595 | The gate lets each attempt through once. |
| Engine.Engine.HandleCompletion | workflow/engine.go:270-302 | The result of an active attempt is what the run is given, by its kind: success with its successors released, permanent failure with its descendants skipped, temporary failure retried or failed; an unknown kind is the error and changes no file; undisturbed only a refused success fails. Any other result changes nothing. |
| Engine.Engine.HandleTimeout | workflow/engine.go:303-329 | The timeout of an active attempt is committed as timed out, and the task retried or failed; any other changes nothing. |
| Engine.Engine.HandleRetry | workflow/engine.go:330-349 | The task becomes ready exactly if it still waits for the retry of that attempt and the time has come; otherwise nothing changes. |
| Engine.Engine.Consume | workflow/engine.go:262-390 | One round: the event is given its meaning, and then tasks that fit are started. Undisturbed it ends the run only for a canceled executor, a refused result or a task that does not exist. |
| Engine.Engine.TakeEvents | workflow/engine.go:255-420 | The snapshots of the loop are a trace in which every event was given its meaning in turn, and a stop comes before any event; undisturbed every end is explained by it. |
| Engine.Engine.ExecuteSnapshot | workflow/engine.go:170-420 | After any events (completions, timeouts, duplicates, late results) that leave it running: running equals the size of the active table and is within the concurrency, the active and the left-over attempts are exactly the running ones, no ready task is passed over, and every event was given its meaning in turn. However it ends, a recorded request is not overwritten; undisturbed it ends with what the tasks have come to. |
| Engine.Engine.Conclude | workflow/engine.go:394-420 | Without left-over attempts an idle run is finished task by task; "no runnable tasks" is dead. |
| Engine.Engine.ReconcilePersistedCancellation | workflow/engine.go:661-673 | A conflict caused by a request ends in the canceled run. |
| Engine.Execute | workflow/engine.go:131-167 | From any stored local run, and whenever the context is stopped: an end that is not a cancellation leaves every task terminal if and only if no attempt was recorded as running at the start; a recorded request always ends in the canceled run. Undisturbed the outcome is that of a trace of the events. |
| Engine.ResumeRun | workflow/recovery.go:10-81 | From any stored local run of the known version, also one with running attempts, and whenever the context is stopped: an end without error leaves every task terminal, and it never runs out of runnable tasks. Undisturbed the outcome is that of a trace of the events from the prepared run. |
| Engine.CancelIdle | workflow/engine.go:442-473 | Cancels an inactive run, failing only if a request was recorded in between, and so never undisturbed. |
| DispatchSteps.PromoteKeepsWorld | internal/postgres/dispatch_schedule.go:155-218 | Promoting readies exactly the first due retry of the run, keeps ownership and never fails. |
| DispatchSteps.QueueKeepsWorld | internal/postgres/dispatch_schedule.go:103-146 | Queueing takes exactly the first ready task, with a new pending dispatch for its executor, keeps ownership and never fails. |
| DispatchSteps.ReturnKeepsWorld | internal/postgres/dispatch_schedule.go:257-309 | Returning readies the task and cancels the dispatch, keeps ownership; "does not match a queued Task" is dead. |
| DispatchSteps.ClaimKeepsWorld | internal/postgres/dispatch_claim.go:106-177 | Claiming starts the next attempt in the worker's name and grants the lease for its duration within the attempt's timeout, keeps ownership; both its error branches are dead. |
| DispatchSteps.RenewKeepsWorld | internal/postgres/dispatch_heartbeat.go:44-86 | A renewal is granted exactly to the worker and token of a lease that has not run out, moves its expiry by the duration within the deadline, answers the whole milliseconds that remain, and keeps ownership. |
| DispatchSteps.HeartbeatAnswers | internal/postgres/dispatch_heartbeat.go:44-93 | A heartbeat answers each of its references as if it were the only one, renews exactly those leases and touches no other dispatch. |
| DispatchSteps.CompleteExact | internal/postgres/dispatch_complete.go:75-141 | A report is applied exactly if worker and token are those of the unexpired lease of a run nobody asked to cancel; the run then takes the reported result by its kind, the dispatch is completed with it, and no other run or dispatch changes. A replay of the accepted result changes nothing, a different one conflicts, anything else is a lost lease; ownership is kept. |
| DispatchSteps.ExpireExact | internal/postgres/dispatch_recovery.go:110-179 | An expired lease always owns the current attempt and is settled: the attempt is timed out exactly if the deadline has passed and interrupted otherwise, its task is retried or failed with its descendants skipped, the dispatch is expired, and no other run or dispatch changes. |
| DispatchSteps.CancelExact | internal/postgres/dispatch_recovery.go:187-265 | A requested cancellation always goes through, cancels the run, its unfinished tasks and its active dispatches, and touches nothing else. |
| DispatchSteps.LeasedOwns | internal/postgres/dispatch_recovery.go:147-156 | A leased dispatch owns the current attempt: "no longer owns" is dead. |
| DispatchInvariant.StepKeepsWorld | internal/postgres/dispatch_complete.go:118-141 | A step on one task and one dispatch that fits keeps the ownership of all runs and dispatches. |
| DispatchEffects.TakeExactly | internal/postgres/dispatch_claim.go:56-177 | The protocol as a table over the stored columns: every step takes effect exactly when the table says, and then does exactly what it says to runs, dispatches and workers. |
| DispatchRuns.TakeKeepsWorld | internal/postgres/dispatch_schedule.go:16-151 | Every transaction keeps the ownership invariant, whose meaning for a task is `DispatchHistory.OwnershipExact`. |
| DispatchRuns.TakeKeepsLimits | internal/postgres/dispatch_claim.go:47-57 | Every transaction keeps: leases per worker at most its concurrency, busy tasks per run at most its concurrency, active dispatches at most the limit, no lease on a stopped worker. |
| DispatchRuns.EveryHistory | internal/postgres/worker_repository.go:141-199 | Ownership and the limits hold after any interleaving of all transactions, refused ones included. |
| DispatchHistory.OwnershipExact | internal/postgres/dispatch_recovery.go:110-179 | A task is queued iff it has exactly one active dispatch and that is pending, running iff it has exactly one and that leased its last attempt (same dispatch, worker and number), and neither iff it has none. |
| DispatchHistory.AttemptsHaveTheirOwnDispatch | internal/postgres/dispatch_claim.go:106-177 | Every attempt was started by exactly one dispatch with the same task, worker and number and the matching outcome, and no dispatch started two. |
| DispatchHistory.LeasesHaveTheirAttempt | internal/postgres/dispatch_claim.go:131-149 | Every dispatch that was ever leased started an attempt that carries its id. |
| DispatchHistory.RowsForward | internal/postgres/dispatch_complete.go:118-141 | Between any two moments a finished dispatch is unchanged and a lease keeps its terms but for the expiry. |
| DispatchHistory.AcceptedOnce | internal/postgres/dispatch_complete.go:75-95 | After a result was accepted, at any later time the same report changes nothing and a different one conflicts. |
| DispatchLogs.HistoryTells | internal/postgres/dispatch_complete.go:118-141 | After any interleaving of transactions, replaying the log of a run on its first snapshot gives the stored statuses and times. |
| DispatchLogs.HistoryStamped | internal/postgres/dispatch_complete.go:31-141 | The events a transaction added to a run carry the time it read, then and in every later log. |
| DispatchHistory.HistoryTimes | internal/postgres/dispatch_recovery.go:147-178 | In time order an earlier attempt had ended when the next was leased, and a lease settled as expired had expired. |
| DispatchHistory.ExpiryLaws | internal/postgres/dispatch_heartbeat.go:64-86 | In time order an expiry never passes the deadline, never moves back, and is never moved again once it has passed. |
| DispatchHistory.ExecutionsNeverOverlap | internal/postgres/dispatch_recovery.go:110-179 | An attempt is leased only after every earlier one had to stop. |
| RequestedRuns.RequestedRunEnds | internal/postgres/dispatch_recovery.go:79-178 | Over any history: once its cancellation was requested, an unfinished run starts no attempt, takes no result and never succeeds; if it has ended, it was ended canceled by its cancellation, or failed by an expiry that used up its last chance. |
| RequestedRuns.RequestedStep | internal/postgres/dispatch_recovery.go:110-179 | One step of such a run: it becomes canceled exactly by its cancellation, and failed exactly by an expiry of a last attempt while every other task has ended or comes after that task. |
| RequestedRuns.RequestedRunCanFail | internal/postgres/dispatch_recovery.go:110-179 | After any history with such a last lease expired and no request yet, a request recorded first leaves the run unfinished, the settling then ends it as failed, and nothing is left to cancel. |
| RequestedRuns.FinishedStays | internal/postgres/dispatch_complete.go:92-104 | A finished run never changes again. |
| DispatchModel.FreeSlotsServe | internal/postgres/dispatch_schedule.go:313-372 | Free slots for a kind come from a session that serves it. |
| DispatchRepository.FreeSlotsExactly | internal/postgres/dispatch_schedule.go:313-372 | There is a free slot for a kind if and only if some active session serves it and has room for one more lease. |
| DispatchRepository.Repository.Complete | internal/postgres/dispatch_complete.go:19-146 | The transaction on the tables is the report step of the table: an accepted report gives the run the reported result by its kind, anything else changes nothing. |
| DispatchRepository.Repository.Claim | internal/postgres/dispatch_claim.go:16-182 | Either an error and nothing changes, exactly if the session, its status or its free slots do not allow it; or the steps of leasing the returned dispatches, at most as many as asked. If fewer, every pending dispatch of one of the session's kinds in a run nobody asked to cancel was leased, unless another transaction held it. |
| DispatchRepository.Repository.Heartbeat | internal/postgres/dispatch_heartbeat.go:15-92 | The session is touched and the references renewed one by one, with their answers; a row that was never leased rolls everything back. |
| DispatchRepository.Repository.ReapExpired | internal/postgres/dispatch_recovery.go:54-184 | Exactly the silent sessions go offline and leases that ran out are settled one by one, all of them but those another transaction holds or beyond the limit; no other dispatch changes. |
| DispatchRepository.Repository.CancelRun | internal/postgres/dispatch_recovery.go:187-265 | The transaction with its loop over dispatches is the cancellation step of the table. |
| DispatchRepository.Repository.CancelRequestedRuns | internal/postgres/dispatch_recovery.go:15-51 | Cancels the requested open runs, never fails on one, leaves none unless the limit was reached, and changes no other run. |
| DispatchRepository.Repository.CreateDispatches | internal/postgres/dispatch_schedule.go:16-151 | One pass of three scans, each of the world the one before left: orphans are returned and due retries promoted, all of them unless the limit was reached or another transaction held the run; then tasks of distinct runs are queued, and a pending or running run without a request, with a ready task and fewer busy tasks than its concurrency, is passed over only if it was held, the limit was reached, or the queued ones used every slot for its kind. |
| DispatchRepository.Repository.FillSlots | internal/postgres/dispatch_schedule.go:63-151 | The third scan: it never exceeds the dispatch limit or the free slots of a kind, and leaves neither unused while a run with room is not held. |
| DispatchRepository.Repository.LoadExecutorCapacity | internal/postgres/dispatch_schedule.go:313-372 | The two scans give, for every kind, the free slots of the active sessions that serve it less the pending dispatches. |
| DispatchRepository.Repository.QueueAll | internal/postgres/dispatch_schedule.go:103-146 | Of the runs tried in order, each was queued or nothing was left for the kind of its first ready task, and no more of a kind are queued than it had slots. |
| DispatchRepository.Repository.CreateRun | internal/postgres/run_store.go:38-82 | A new run is the creation step of the table. |
| DispatchRepository.Repository.RequestCancel | internal/postgres/run_store.go:697-733 | The first request of an unfinished run is recorded on its next revision, and any other changes nothing. |
| DispatchRepository.Repository.ReturnOrphanedPendingDispatches | internal/postgres/dispatch_schedule.go:220-311 | Exactly the orphans are canceled, all of them or as many as the limit, and their tasks are ready again; nothing else in the table changes, and it never fails. |
| DispatchRepository.Repository.PromoteDueRetries | internal/postgres/dispatch_schedule.go:155-218 | In each selected run exactly the first due retry becomes ready, in every run that has one but those beyond the limit or held by another transaction, and it never fails. |
| DispatchRepository.Repository.DrainWorker | internal/postgres/worker_repository.go:141-199 | A session without leases stops, one with leases drains, one that is not online is refused. |
| WorkerSessions.OfflineExactly | internal/postgres/dispatch_recovery.go:69-76 | Over any history a session is offline if and only if a sweep found it online and silent. |
| WorkerSessions.HeartbeatKeepsOnline | internal/postgres/dispatch_heartbeat.go:36-43 | After an accepted heartbeat a session does not go offline as long as no sweep looks for signs after it. |
| WorkerSessions.DrainedStays | internal/postgres/worker_repository.go:141-199 | A session that is not active never is again, and claims nothing any more. |
| DispatchRepository.Repository.RegisterWorker | internal/postgres/worker_repository.go:37-84 | A new session starts active. |
| LeaseTiming.LocalSafetyDelay | internal/workerruntime/runtime.go:335-341 | Positive exactly if more than the margin is left of both the lease and the deadline. |
| LeaseTiming.EnforceLocalSafetyDeadline | internal/workerruntime/runtime.go:299-333 | The execution is canceled when the timer of the last promise it took fires or up to the lateness of its goroutine after, or at once when that promise came too late; a renewal found together with the fired timer may win. |
| LeaseTiming.RenewalInTimeExactly | internal/workerruntime/runtime.go:312-331 | With one clock, an execution that ends with a renewal always stops before the stored expiry if and only if the renewal came before it and, where it set the timer, handling it and acting late took no more than the margin and the truncated milliseconds, or the deadline stops it first. |
| LeaseTiming.LeaseInTimeExactly | internal/workerruntime/runtime.go:300-306 | Without a renewal it always stops in time if and only if it was started before the expiry and acts late by no more than the margin. |
| LeaseTiming.PromptStopsInTime | internal/workerruntime/runtime.go:299-341 | If reading the clock early, handling and acting late fit in the margin, the execution stops no later than one of its promises means at the least. |
| LeaseTiming.WorkerStopsBeforeExpiry | internal/workerruntime/runtime.go:299-341 | Over any history of transactions, such a worker cancels no later than the expiry the database holds, then and later, even where later renewals move it back. |
| LeaseTiming.EarlierHadEnded | internal/postgres/dispatch_claim.go:75-140 | When a later attempt of a task is leased, the dispatch of every earlier one has ended and never changes again, whatever clocks were read. |
| LeaseTiming.SkewedTimes | internal/postgres/dispatch_recovery.go:113-140 | With transactions that read the clock before they take effect, a lease settled as expired had expired. |
| LeaseTiming.WatchedExecutionsNeverOverlap | internal/postgres/dispatch_claim.go:124-129 | Two attempts of one task never execute at the same time, though grants read the clock early and the worker acts late, as long as both and the handling of an answer fit in the safety margin. |
| LeaseTiming.LastGrant | internal/postgres/dispatch_heartbeat.go:64-86 | The stored expiry of every lease is what its last accepted claim or renewal granted, within the deadline, and nothing changed the lease since. |
| LeaseTiming.RenewalMovesBackExactly | internal/postgres/dispatch_heartbeat.go:69-80 | After any history an accepted renewal shortens the lease if and only if it asks for less than the last grant, claim or renewal, and for less than the deadline. |
| LeaseTiming.UnseenRenewalExactly | internal/workerruntime/runtime.go:300-306 | An execution that does not learn of an accepted renewal still always stops before the expiry that it leaves if and only if it took from the last grant no more than the margin less the lateness. |
| LeaseTiming.MovesBackAtMostLag | internal/postgres/dispatch_heartbeat.go:69-80 | An expiry never moves back by more than a grant reads the clock early. |
| LeaseTiming.HistoryMovesBack | internal/postgres/dispatch_heartbeat.go:69-80 | At the end of any history with a held lease and room before the deadline, two renewals of which the second read the clock a moment earlier are both accepted and move the expiry back. |
| LeaseExample.RenewalsOutOfOrder | internal/postgres/dispatch_heartbeat.go:69-80 | A concrete history: created, queued, claimed, renewed until 110 and then cut to 109. |
| LeaseExample.RequestedThenFailed | internal/postgres/dispatch_recovery.go:110-179 | A concrete history: the only attempt of the only task is claimed, the cancellation is requested, the lease expires, and the run has failed. |
| WorkerLeases.ResponseExactly | internal/workerruntime/runtime.go:378-386 | After a response exactly the leases answered as gone or used up are canceled in addition, and each holds the newest time left, or what it held before. |
| WorkerLeases.LeaseState.Add | internal/workerruntime/runtime.go:440-445 | Adds a lease; the wait count stays balanced exactly if the dispatch was not known. |
| WorkerLeases.LeaseState.Remove | internal/workerruntime/runtime.go:447-464 | Removes a lease once and signals capacity only then. |
| WorkerLeases.LeaseState.Refs | internal/workerruntime/runtime.go:485-493 | Each known lease once, with its token. |
| WorkerLeases.LeaseState.Renew | internal/workerruntime/runtime.go:503-528 | The channel of one holds the newest value; nothing left cancels. |
| WorkerLeases.LeaseState.HandleResponse | internal/workerruntime/runtime.go:364-391 | One answered heartbeat round. |
| WorkerLeases.LeaseState.CancelAll | internal/workerruntime/runtime.go:530-536 | Cancels every lease and forgets none. |
| Alerting.FiresExactly | internal/alerting/engine.go:119-129 | A rule fires exactly at the samples where it is off and the stretch of bad samples has lasted its duration, naming the start of the stretch. |
| Alerting.ResolvesExactly | internal/alerting/engine.go:131-147 | It resolves exactly at the samples where it is on and the stretch of recovered samples has lasted the recovery time. |
| Alerting.UnknownExactly | internal/alerting/engine.go:109-117 | It reports missing data exactly at the first sample of a stretch of insufficient ones that begins while it is on. |
| Alerting.BetweenThresholds | internal/alerting/engine.go:135-139 | Between the thresholds nothing fires or resolves. |
| Alerting.EventsAlternate | internal/alerting/engine.go:104-148 | Firing and resolved strictly alternate, starting with firing, and the rule is on exactly after a firing. |
| Alerting.FiringMeans | internal/alerting/engine.go:119-129 | Every sample from the start named by a firing on was bad, for the rule's duration. |
| Alerting.ResolvingMeans | internal/alerting/engine.go:140-147 | Every sample of a window as long as the recovery time was recovered. |
| Alerting.FiringsAreApart | internal/alerting/engine.go:104-148 | Two firings of a rule have a resolve between them and are at least the duration and the recovery time apart. |
| Alerting.Completed | internal/alerting/engine.go:44-68 | All durations are positive, whatever was configured. |
| Alerting.CompletedExactly | internal/alerting/engine.go:44-68 | Each rule waits for its own configured time before it fires and before it resolves, and for the default where none is given. |
| Alerting.Observed | internal/alerting/engine.go:75-103 | The thresholds leave a gap: no snapshot is both bad and recovered, or insufficient and either. |
| Alerting.ObservedExactly | internal/alerting/engine.go:75-103 | What each rule calls bad, recovered or insufficient, in the numbers themselves: more than 5 or less than 1 percent of at least 20 completions, at least 80 or less than 70 percent of the pool. |
| Alerting.AdvanceRule | internal/alerting/engine.go:104-147 | The branches of one check compute the value-level transition. |
| Alerting.Engine.Evaluate | internal/alerting/engine.go:71-150 | The events of a snapshot are, rule by rule in order, those of the trace law over all snapshots so far. |
| AlertCounters.RecordKeepsBucket | internal/observability/metrics.go:140-163 | Recording keeps every bucket equal to the entries of its slot that have not been overwritten. |
| AlertCounters.SlotsCoverAll | internal/observability/metrics.go:122-138 | The 64 slots together hold every entry that has not been overwritten, each once. |
| AlertCounters.ExactUnlessOverwritten | internal/observability/metrics.go:122-138 | That is the count over the complete history if and only if nothing that should count was overwritten, and never more. |
| AlertCounters.ShortWindowsLoseNothing | internal/observability/metrics.go:122-138 | With ordered times and a window of at most 63 whole seconds back nothing is lost. |
| AlertCounters.LimitedExactly | internal/observability/metrics.go:120-138 | On every log in order, a window of 64 seconds or more gives the count of its last 64 seconds if and only if no older entry of the window still stands in its bucket. |
| AlertCounters.WindowsExactly | internal/observability/metrics.go:120-138 | What a caller can rely on without knowing the log: a window is counted completely, and cut as the comment says, if and only if it reaches back fewer than 64 whole seconds. |
| AlertCounters.LongWindowsAreNotCut | internal/observability/metrics.go:120-121 | A longer window is not cut to the last 64 seconds: an older operation is still counted if its bucket was not reused. |
| AlertCounters.LongWindowsLose | internal/observability/metrics.go:120-121 | And of two operations 64 seconds apart it counts only the later. |
| AlertCounters.TallyOfRecords | internal/observability/metrics.go:140-163 | The count over the log is the count over everything recorded: completions, their errors, and failed lease reaps. |
| AlertCounters.Metrics.RecordAlertCounter | internal/observability/metrics.go:140-163 | Records exactly the operations that count, in place. |
| AlertCounters.Metrics.AlertCounters | internal/observability/metrics.go:122-138 | For all records, in any order of times, and every window, each counter is the number of its entries that have not been overwritten, and the number of records that add to it exactly if none was. |

## Left out

- ResumedRuns.BoundedDistributedRun: the number of events is bounded up to two per return of a queued task to ready; how often an orphaned dispatch is returned has no bound in the code.
- DispatchHistory.HistoryTimes: assumes that transactions read the clock in the order in which they commit. The code reads the start time of most transactions, so two that wait for each other's locks can read it the other way round. That executions do not overlap is proved without this, for grants that read the clock early by a bounded time (`LeaseTiming.WatchedExecutionsNeverOverlap`).
- LeaseTiming.WorkerStopsBeforeExpiry: assumes one clock for worker and control plane (a transaction may read it early, and the loop act late, within the margin), and an executor that stops when its context is canceled.
- Engine.Engine.ExecuteSnapshot: the loop is given its events as a sequence, so when a timer is registered and that one fires at all is not modelled, only that any firing is handled correctly; the two readings of the clock when an attempt starts are one.
- Engine.Execute: compiling the stored definition, the registration that keeps two executions of one run out of one process, and stores without atomic changes (`snapshotStoreAdapter`) are not modelled; the caller hands over the compiled definition.
- Compiler.Compile: the check and copy of JSON inputs is left out; an input is an opaque value. Identifier lengths are counted in characters; the identifier patterns admit single-byte characters only.
- RunStates.RunState.PrepareForResume: the texts of history errors are one error; a definition pointer that is nil is not modelled.
- RunRepository.Repository.Create: that canonical definitions are compared as encoded JSON is left out; they are compared as values. Recorded request keys for repeated creation are left out.
- DispatchRepository.Repository.Complete: the SHA-256 digest of a result is the result itself, so equal digests mean equal results; tokens are compared as values. The limits on the sizes of a result count characters where the code counts bytes.
- DispatchRepository.Repository.CreateRun: the recorded request key of a creation and its replay are left out.
- DispatchRepository.Repository.CreateDispatches: which of several candidates a scan returns first is left open, so the fairness of its ORDER BY is not stated. The rows that other transactions hold are a parameter of this and the other scans that skip them; who holds them is not modelled.
- DispatchRepository.Repository.CancelRequestedRuns: nothing else happens between its transactions; in a history anything may.
- DispatchRepository.Repository.RegisterWorker: the check and normalization of a registration, and tokens and authentication of a session, are left out.
- Alerting.Observed: rates are real numbers; the rounding of 64-bit division is not modelled.
- WorkerLeases.LeaseState.Add: the polling loop, its delays and jitter, and retried submissions are left out.
- Steps.AppendEvent: the reason text of an event is carried along, but nothing is proved about its wording.
- Engine.Engine.Poll: stops from outside and requests by other processes come at any time, unless the parameter `calm` says that nobody interferes; what an undisturbed execution comes to is proved for that case.
- Integers: revisions, event numbers and times are unbounded; 64-bit wrap-around is not modelled.
- Transactions are atomic steps: lock order, isolation anomalies, connection failures, the advisory lock of the coordinator and migrations are left out.
- Files: one file is replaced at once; rename, fsync and JSON encoding, and the listing of unfinished runs, are left out.
- HTTP interfaces, clients, command line, configuration, authorization, cursors and the console only move data.
- Docker, Kubernetes, mock and real executors: an execution is any result or none.
- The runtime and dispatch coordinators, alert delivery by webhook, tracing and Prometheus collectors are input and output around the modelled steps.
- The agent packages turn drafts into definitions within a budget and a catalog of actions; fault injection and backoff helpers serve tests and clients. None of them touches the state of a run.
