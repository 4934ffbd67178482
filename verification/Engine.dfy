/** The local engine: one writer per run consumes completions, timeouts and retry timers in any order, commits every
    change before acting on it, and turns a recorded cancellation into the canceled end of the run. */
module Engine {
  import opened Domain
  import opened Finite
  import opened Compiler
  import opened Steps
  import opened ResumeSteps
  import opened RunInvariant
  import opened RunSteps
  import opened RunResults
  import opened RunTheorems
  import opened History
  import opened Recovery
  import opened ResumedRuns
  import opened RunStates
  import opened SavedRuns
  import opened FileStore
  import CS = ChangeSets

  /** Identifies one execution: a late result of an earlier attempt has another key. */
  datatype AttemptKey = AttemptKey(task: int, attempt: int)

  /** What the loop receives; `now` is the engine's clock at the time. */
  datatype EngineEvent =
    | Completion(i: int, attempt: int, response: ExecutionResponse, finished: Time, now: Time)
    | TimeoutFired(i: int, attempt: int, at: Time, now: Time)
    | RetryFired(i: int, attempt: int, at: Time, now: Time)

  datatype ExecutionOutcome =
    | Finished(row: RunRow)
    | Interrupted
    | StepFailed(error: StepError)
    | SaveFailed(reason: FileError)
    | NoRunnableTasks
    | StillRunning
    | LoadFailed(failure: FileError)
    | UnsupportedVersion
    | ResumeFailed(refusal: ResumeError)

  function SaveOutcome(err: Option<FileError>): ExecutionOutcome {
    match err
    case None => StillRunning
    case Some(e) => SaveFailed(e)
  }

  function StepOutcome(err: Failure): ExecutionOutcome {
    match err
    case None => StillRunning
    case Some(e) => StepFailed(e)
  }

  const CURRENT_SNAPSHOT_VERSION := 1

  // ---------- the active table ----------

  /** Attempt `k` is the running attempt of its task. */
  predicate Runs(s: RunSnapshot, k: AttemptKey) {
    0 <= k.task < |s.tasks| && s.tasks[k.task].status.TaskRunning? && k.attempt == |s.tasks[k.task].attempts|
  }

  ghost predicate ActiveExact(s: RunSnapshot, active: set<AttemptKey>) {
    forall k :: k in active <==> Runs(s, k)
  }

  /** Exactly the active and the stale attempts run, and none is both. */
  ghost predicate LiveSet(s: RunSnapshot, active: set<AttemptKey>, stale: set<AttemptKey>) {
    ActiveExact(s, active + stale) && active !! stale
  }

  /** Settled attempts belong to the past: none of them runs or will run again. */
  ghost predicate Past(s: RunSnapshot, settled: set<AttemptKey>) {
    forall k :: k in settled ==> 0 <= k.task < |s.tasks| && k.attempt <= |s.tasks[k.task].attempts| && !Runs(s, k)
  }

  ghost predicate NothingReady(tasks: seq<TaskRun>) {
    forall i :: 0 <= i < |tasks| ==> !tasks[i].status.TaskReady?
  }

  /** The file holds the engine's snapshot, or that snapshot with a cancellation request on top. */
  ghost predicate Raced(s: RunSnapshot, f: RunSnapshot) {
    f == s || exists at :: RequestCancelStep(s, at) == Applied(f)
  }

  /** Task `i` left running, nothing else entered or left it. */
  ghost predicate LeftRunningOnly(s: RunSnapshot, t: RunSnapshot, i: nat) {
    && OthersWaitOrStay(s, t, i) && i < |s.tasks| && !t.tasks[i].status.TaskRunning?
    && |t.tasks[i].attempts| >= |s.tasks[i].attempts|
  }

  lemma {:induction false} SettledActive(s: RunSnapshot, t: RunSnapshot, active: set<AttemptKey>,
      settled: set<AttemptKey>, i: nat, number: int)
    requires LeftRunningOnly(s, t, i) && ActiveExact(s, active) && Past(s, settled) && AttemptKey(i, number) in active
    ensures ActiveExact(t, active - {AttemptKey(i, number)}) && Past(t, settled + {AttemptKey(i, number)})
  {
    var key := AttemptKey(i, number);
    forall k ensures k in active - {key} <==> Runs(t, k) {
      if k.task == i { assert k in active ==> k == key; }
    }
    forall k | k in settled + {key} ensures 0 <= k.task < |t.tasks| && k.attempt <= |t.tasks[k.task].attempts| && !Runs(t, k) {
      assert k in settled ==> !Runs(s, k);
    }
  }

  lemma {:induction false} StartedActive(s: RunSnapshot, t: RunSnapshot, active: set<AttemptKey>,
      settled: set<AttemptKey>, i: nat, at: Time)
    requires i < |s.tasks| && s.tasks[i].status.TaskReady? && t.tasks == s.tasks[i := StartedTask(s.tasks[i], at, "", "")]
    requires ActiveExact(s, active) && Past(s, settled)
    ensures var key := AttemptKey(i, |s.tasks[i].attempts| + 1);
      key !in active && ActiveExact(t, active + {key}) && Past(t, settled)
  {
    var key := AttemptKey(i, |s.tasks[i].attempts| + 1);
    forall k ensures k in active + {key} <==> Runs(t, k) {
      if k.task != i { assert Runs(t, k) <==> Runs(s, k); }
    }
  }

  predicate SameActivity(a: TaskRun, b: TaskRun) {
    b.attempts == a.attempts && (b.status.TaskRunning? <==> a.status.TaskRunning?)
  }

  /** Steps that move no task into or out of running. */
  lemma {:induction false} IdleActive(s: RunSnapshot, t: RunSnapshot, active: set<AttemptKey>, settled: set<AttemptKey>)
    requires |t.tasks| == |s.tasks| && ActiveExact(s, active) && Past(s, settled)
    requires forall i :: 0 <= i < |s.tasks| ==> SameActivity(s.tasks[i], t.tasks[i])
    ensures ActiveExact(t, active) && Past(t, settled)
  {
    forall k ensures Runs(t, k) <==> Runs(s, k) {}
  }

  /** An active attempt is the current one, so its first result is applied and later ones are not. */
  lemma {:induction false} ActiveIsCurrent(c: Compiled, s: RunSnapshot, active: set<AttemptKey>, i: int, number: int)
    requires RunInv(c, s) && ActiveExact(s, active) && AttemptKey(i, number) in active
    ensures 0 <= i < c.Size() && i < |s.tasks| && ActiveAttempt(s, i, number) && Runnable(s, c)
  {
    assert Runs(s, AttemptKey(i, number));
    hide NodeAgrees, Unsucceeded;
    assert TaskHistory(s.tasks[i], c.MaxAttempts(i));
  }

  lemma {:induction false} RacedRevision(s: RunSnapshot, f: RunSnapshot)
    requires Raced(s, f)
    ensures f.row.id == s.row.id && (f != s ==> f.row.revision == s.row.revision + 1 && f.row.cancelRequestedAt.Some?)
    ensures f.row.status == s.row.status && f.tasks == s.tasks
    ensures f != s ==> !WorkflowTerminal(s.row.status) && forall at :: RequestedSnapshot(f, at) == f
  {
  }

  lemma {:induction false} RacedCommitted(c: Compiled, s: RunSnapshot, f: RunSnapshot)
    requires Raced(s, f) && Committed(c, s)
    ensures Committed(c, f) && f.tasks == s.tasks
  {
    hide RunInv;
    if f != s {
      var at :| RequestCancelStep(s, at) == Applied(f);
      RequestedKeeps(c, s, at);
    }
  }

  /** A request that reaches the file: it changes at most the row, and only once. */
  lemma RequestRaces(s: RunSnapshot, f: RunSnapshot, at: Time)
    requires Raced(s, f)
    ensures Raced(s, RequestedSnapshot(f, at))
  {
  }

  /** When nothing runs, waits for a retry or is ready, a local run is finished task by task. */
  lemma {:induction false} IdleIsFinished(c: Compiled, s: RunSnapshot)
    requires RunInv(c, s) && LocalTasks(s.tasks) && NothingReady(s.tasks) && !WorkflowTerminal(s.row.status)
    requires forall i :: 0 <= i < |s.tasks| ==> !s.tasks[i].status.TaskRunning? && !s.tasks[i].status.TaskWaitingRetry?
    ensures AllTerminal(s.tasks) && (HasFailed(s.tasks) || AllSucceeded(s.tasks))
  {
    hide NodeAgrees, Unsucceeded, TaskHistory;
    NoStuckRun(c, s);
    UnfinishedParts(c, s);
    NoMixedTerminal(c, s.tasks);
  }

  lemma TerminalRunIsDone(c: Compiled, s: RunSnapshot)
    requires RunInv(c, s) && WorkflowTerminal(s.row.status)
    ensures AllTerminal(s.tasks)
  {
  }

  /** A stored run this engine can take up: everything the kernel commits locally. */
  ghost predicate Stored(c: Compiled, f: RunSnapshot) {
    Committed(c, f) && LocalTasks(f.tasks)
  }

  /** Attempts of `stale` are recorded as running in a failed run. */
  ghost predicate AbandonedWith(f: RunSnapshot, stale: set<AttemptKey>) {
    f.row.status.WorkflowFailed? && HasFailed(f.tasks) && forall k :: k in stale ==> Runs(f, k)
  }

  predicate OpenOrCanceled(f: RunSnapshot) {
    !WorkflowTerminal(f.row.status) || f.row.status.WorkflowCanceled?
  }

  /** A run with a running attempt is not terminal. */
  lemma {:induction false} RunningIsOpen(c: Compiled, s: RunSnapshot, k: AttemptKey)
    requires RunInv(c, s) && Runs(s, k)
    ensures !WorkflowTerminal(s.row.status)
  {
    if WorkflowTerminal(s.row.status) { TerminalRunIsDone(c, s); }
  }

  lemma {:induction false} StaleIsOpen(c: Compiled, s: RunSnapshot, active: set<AttemptKey>, stale: set<AttemptKey>)
    requires RunInv(c, s) && ActiveExact(s, active + stale)
    ensures stale != {} ==> OpenOrCanceled(s)
  {
    hide RunInv;
    if stale != {} {
      var k :| k in stale;
      RunningIsOpen(c, s, k);
    }
  }

  // ---------- what an event means ----------

  /** The result of the current attempt of task `i` was committed. */
  ghost predicate ResultCommitted(c: Compiled, s: RunSnapshot, t: RunSnapshot, i: int, response: ExecutionResponse, at: Time) {
    && ValidCompiled(c) && 0 <= i < c.Size() && Fits(s, c) && Fits(t, c) && |s.tasks[i].attempts| > 0
    && ResultTaken(c, s, t, i, response, at)
  }

  /** Its timeout was committed. */
  ghost predicate TimeoutCommitted(c: Compiled, s: RunSnapshot, t: RunSnapshot, i: int, at: Time) {
    && ValidCompiled(c) && 0 <= i < c.Size() && Fits(s, c) && Fits(t, c) && |s.tasks[i].attempts| > 0
    && RetriedOrFailed(c, s, t, i, AttemptTimedOut, ExecutionResult("", "timeout", "execution timed out"), at)
  }

  predicate RetryIsDueFor(s: RunSnapshot, i: int, attempt: int, at: Time) {
    0 <= i < |s.tasks| && RetryDue(s.tasks[i], attempt, at)
  }

  /** The task that waited for its retry is ready. */
  predicate RetryCommitted(s: RunSnapshot, t: RunSnapshot, i: int) {
    0 <= i < |s.tasks| && t.tasks == s.tasks[i := s.tasks[i].(status := TaskReady, readyAt := None)]
  }

  /** The kernel refuses the result: its kind is unknown, or a success meets a stale counter. */
  ghost predicate RefusedFor(c: Compiled, s: RunSnapshot, i: int, kind: ResultKind) {
    ValidCompiled(c) && 0 <= i < c.Size() && Fits(s, c) && ResultRefused(c, s, i, kind)
  }

  /** Results and timeouts count for attempts this process runs, retries while they are due; anything else changes nothing. */
  ghost predicate EventTaken(c: Compiled, s: RunSnapshot, t: RunSnapshot, stale: set<AttemptKey>, e: EngineEvent) {
    match e
    case Completion(i, attempt, response, finished, _) =>
      if Runs(s, AttemptKey(i, attempt)) && AttemptKey(i, attempt) !in stale
      then ResultCommitted(c, s, t, i, response, finished) else t == s
    case TimeoutFired(i, attempt, at, _) =>
      if Runs(s, AttemptKey(i, attempt)) && AttemptKey(i, attempt) !in stale
      then TimeoutCommitted(c, s, t, i, at) else t == s
    case RetryFired(i, attempt, at, _) => if RetryIsDueFor(s, i, attempt, at) then RetryCommitted(s, t, i) else t == s
  }

  /** Some of the ready tasks were started. */
  ghost predicate StartedFrom(s: RunSnapshot, t: RunSnapshot, now: Time) {
    && |t.tasks| == |s.tasks|
    && forall j :: 0 <= j < |s.tasks| ==>
         t.tasks[j] == s.tasks[j] || (s.tasks[j].status.TaskReady? && t.tasks[j] == StartedTask(s.tasks[j], now, "", ""))
  }

  /** One round of the loop: the event, and then the tasks that fit into the free slots. */
  ghost predicate Round(c: Compiled, s: RunSnapshot, t: RunSnapshot, stale: set<AttemptKey>, e: EngineEvent) {
    exists mid :: EventTaken(c, s, mid, stale, e) && StartedFrom(mid, t, e.now)
  }

  /** The snapshots between the first events. */
  ghost predicate IsTrace(c: Compiled, trace: seq<RunSnapshot>, stale: set<AttemptKey>, events: seq<EngineEvent>) {
    && 0 < |trace| <= |events| + 1
    && forall p :: 0 <= p < |trace| - 1 ==> Round(c, trace[p], trace[p + 1], stale, events[p])
  }

  /** What can end an undisturbed execution at an event: an executor that was canceled, a result the kernel refuses, or a
      retry of a task that does not exist. */
  ghost predicate StopsAt(c: Compiled, o: ExecutionOutcome, before: RunSnapshot, e: EngineEvent) {
    match e
    case Completion(i, _, response, _, _) =>
      if response.kind.ResultCanceled? then o.Finished? else o.StepFailed? && RefusedFor(c, before, i, response.kind)
    case TimeoutFired(_, _, _, _) => false
    case RetryFired(i, _, _, _) => o == StepFailed(IndexOutOfRange) && !(0 <= i < |before.tasks|)
  }

  /** No attempt but those of an earlier process runs, and none is ready or waits for its retry. */
  ghost predicate Idle(s: RunSnapshot, stale: set<AttemptKey>) {
    forall i :: 0 <= i < |s.tasks| ==>
      && !s.tasks[i].status.TaskWaitingRetry? && !s.tasks[i].status.TaskReady?
      && (s.tasks[i].status.TaskRunning? ==> AttemptKey(i, |s.tasks[i].attempts|) in stale)
  }

  /** An undisturbed execution ends with what the tasks of an idle run have come to. */
  ghost predicate Concluded(o: ExecutionOutcome, s: RunSnapshot) {
    if s.row.status.WorkflowCanceled? then o == Finished(s.row)
    else if HasFailed(s.tasks) then o.Finished? && o.row.status.WorkflowFailed?
    else if AllSucceeded(s.tasks) then o.Finished? && o.row.status.WorkflowSucceeded?
    else o.NoRunnableTasks?
  }

  /** How an undisturbed execution comes to its outcome. */
  ghost predicate Explained(c: Compiled, o: ExecutionOutcome, trace: seq<RunSnapshot>, stale: set<AttemptKey>,
      events: seq<EngineEvent>) {
    && IsTrace(c, trace, stale, events)
    && var last := trace[|trace| - 1];
       if o.StillRunning? then |trace| == |events| + 1
       else (Idle(last, stale) && Concluded(o, last)) || (|trace| <= |events| && StopsAt(c, o, last, events[|trace| - 1]))
  }

  lemma FirstOfTrace(c: Compiled, s: RunSnapshot, stale: set<AttemptKey>, events: seq<EngineEvent>)
    ensures IsTrace(c, [s], stale, events)
  {
  }

  lemma ExplainedBy(c: Compiled, o: ExecutionOutcome, trace: seq<RunSnapshot>, stale: set<AttemptKey>, events: seq<EngineEvent>)
    requires IsTrace(c, trace, stale, events)
    requires var last := trace[|trace| - 1];
      if o.StillRunning? then |trace| == |events| + 1
      else (Idle(last, stale) && Concluded(o, last)) || (|trace| <= |events| && StopsAt(c, o, last, events[|trace| - 1]))
    ensures Explained(c, o, trace, stale, events)
  {
  }

  lemma NextRound(c: Compiled, trace: seq<RunSnapshot>, stale: set<AttemptKey>, events: seq<EngineEvent>, t: RunSnapshot)
    requires IsTrace(c, trace, stale, events) && |trace| <= |events|
    requires Round(c, trace[|trace| - 1], t, stale, events[|trace| - 1])
    ensures IsTrace(c, trace + [t], stale, events)
  {
    hide Round;
  }

  lemma NotSaved(c: Compiled, o: ExecutionOutcome, trace: seq<RunSnapshot>, stale: set<AttemptKey>, events: seq<EngineEvent>)
    ensures Explained(c, o, trace, stale, events) ==> !o.SaveFailed? && !o.Interrupted?
  {
  }

  lemma IdleNow(s: RunSnapshot, active: set<AttemptKey>, stale: set<AttemptKey>)
    requires LiveSet(s, active, stale) && |active| == 0 && NothingReady(s.tasks)
    requires forall i :: 0 <= i < |s.tasks| ==> !s.tasks[i].status.TaskWaitingRetry?
    ensures Idle(s, stale)
  {
    assert active == {};
    forall i | 0 <= i < |s.tasks| && s.tasks[i].status.TaskRunning? ensures AttemptKey(i, |s.tasks[i].attempts|) in stale {
      assert Runs(s, AttemptKey(i, |s.tasks[i].attempts|));
    }
  }

  /** A stored final status is that of the tasks. */
  lemma FinalStatus(c: Compiled, s: RunSnapshot)
    requires RunInv(c, s)
    ensures s.row.status.WorkflowFailed? ==> HasFailed(s.tasks)
    ensures s.row.status.WorkflowSucceeded? ==> AllSucceeded(s.tasks) && !HasFailed(s.tasks)
  {
  }

  lemma StartedSaved(s: RunSnapshot, mid: RunSnapshot, t: RunSnapshot, now: Time)
    requires StartedFrom(Saved(s, mid), t, now)
    ensures StartedFrom(mid, t, now)
  {
  }

  lemma LaunchedFrom(s: RunSnapshot, mid: RunSnapshot, t: RunSnapshot, now: Time)
    requires mid.tasks == s.tasks && StartedFrom(mid, t, now)
    ensures StartedFrom(s, t, now)
  {
  }

  lemma StartedSelf(s: RunSnapshot, now: Time)
    ensures StartedFrom(s, s, now)
  {
  }

  /** The keys of the active table are the attempts that run and are not stale. */
  lemma ActiveRuns(s: RunSnapshot, active: set<AttemptKey>, stale: set<AttemptKey>)
    requires LiveSet(s, active, stale)
    ensures forall k :: k in active <==> Runs(s, k) && k !in stale
  {
  }

  /** A result or timeout of an attempt that is not active changes nothing. */
  lemma {:induction false} Late(c: Compiled, s: RunSnapshot, active: set<AttemptKey>, stale: set<AttemptKey>, e: EngineEvent)
    requires LiveSet(s, active, stale) && !e.RetryFired? && AttemptKey(e.i, e.attempt) !in active
    ensures Round(c, s, s, stale, e)
  {
    hide Runs, ActiveExact, ResultCommitted, TimeoutCommitted;
    ActiveRuns(s, active, stale);
    StartedSelf(s, e.now);
    assert EventTaken(c, s, s, stale, e);
  }

  lemma {:induction false} Taken(c: Compiled, s: RunSnapshot, t: RunSnapshot, active: set<AttemptKey>,
      stale: set<AttemptKey>, e: EngineEvent)
    requires LiveSet(s, active, stale) && (e.RetryFired? || AttemptKey(e.i, e.attempt) in active)
    requires e.Completion? ==> ResultCommitted(c, s, t, e.i, e.response, e.finished)
    requires e.TimeoutFired? ==> TimeoutCommitted(c, s, t, e.i, e.at)
    requires e.RetryFired? ==> if RetryIsDueFor(s, e.i, e.attempt, e.at) then RetryCommitted(s, t, e.i) else t == s
    ensures EventTaken(c, s, t, stale, e)
  {
    hide Runs, ActiveExact, ResultCommitted, TimeoutCommitted;
    ActiveRuns(s, active, stale);
  }

  lemma RoundOf(c: Compiled, s: RunSnapshot, mid: RunSnapshot, t: RunSnapshot, stale: set<AttemptKey>, e: EngineEvent)
    requires EventTaken(c, s, mid, stale, e) && StartedFrom(mid, t, e.now)
    ensures Round(c, s, t, stale, e)
  {
    hide EventTaken, StartedFrom;
  }

  // ---------- the engine ----------

  class Engine {
    const store: Store
    const c: Compiled
    const id: RunID
    /** Nobody else interferes: the context is not stopped from outside and no cancellation request is recorded. */
    const calm: bool

    var snapshot: RunSnapshot
    var running: nat
    var active: set<AttemptKey>
    /** The run context: stopped for a business cancellation (true) or a shutdown (false). */
    var stop: Option<bool>

    /** Attempts the snapshot already had running: nothing in this process executes them. */
    ghost const stale: set<AttemptKey>
    /** Every attempt a result or timeout was accepted for. */
    ghost var settled: set<AttemptKey>
    /** The version a racing cancellation request left in the file. */
    ghost var requested: Option<RunSnapshot>

    constructor (store: Store, c: Compiled, snapshot: RunSnapshot, ghost stale: set<AttemptKey>, calm: bool)
      requires store.Valid() && ValidCompiled(c) && Adjacent(c) && Committed(c, snapshot) && LocalTasks(snapshot.tasks)
      requires snapshot.row.id in store.files && store.files[snapshot.row.id] == snapshot
        && (stale != {} ==> OpenOrCanceled(snapshot))
      ensures this.store == store && this.c == c && this.snapshot == snapshot && this.id == snapshot.row.id && this.stale == stale
        && this.calm == calm
      ensures Inv() && running == 0 && active == {} && settled == {} && requested.None? && stop.None?
    {
      this.store, this.c, this.snapshot, this.id, this.stale, this.calm := store, c, snapshot, snapshot.row.id, stale, calm;
      running, active, stop, settled, requested := 0, {}, None, {}, None;
    }

    // ---------- invariants ----------

    /** What the engine knows of the file it writes. */
    ghost predicate Inv()
      reads this, store
    {
      && store.Valid() && ValidCompiled(c) && Adjacent(c)
      && Committed(c, snapshot) && LocalTasks(snapshot.tasks) && snapshot.row.id == id
      && (stale != {} ==> OpenOrCanceled(snapshot)) && FileRaced()
    }

    ghost predicate FileRaced()
      reads this, store
    {
      && id in store.files && Raced(snapshot, store.files[id])
      && (store.files[id] != snapshot ==> requested.Some?)
      && (requested.Some? ==> requested.value == store.files[id] && requested.value.row.cancelRequestedAt.Some?)
    }

    /** The active table is exact, bounded by the concurrency, and settled attempts are past. */
    ghost predicate Live()
      reads this, store
    {
      && Inv() && (requested.Some? ==> store.files[id] != snapshot)
      && (calm ==> requested.None? && stop.None?) && !snapshot.row.status.WorkflowPending?
      && running == |active| && running <= c.definition.concurrency
      && LiveSet(snapshot, active, stale) && Past(snapshot, settled)
    }

    /** No slot is free that a ready task could take. */
    ghost predicate Filled()
      reads this
    {
      running == c.definition.concurrency || NothingReady(snapshot.tasks)
    }

    /** The run was ended as failed although attempts of an earlier process are recorded as running. */
    ghost predicate Abandoned(f: RunSnapshot)
      reads this
    {
      stale != {} && AbandonedWith(f, stale)
    }

    /** What holds of the file however the execution ends. */
    ghost predicate Ends(o: ExecutionOutcome)
      reads this, store
    {
      && store.Valid() && id in store.files && (Stored(c, store.files[id]) || (o.Finished? && Abandoned(store.files[id])))
      && (o.NoRunnableTasks? ==> stale != {}) && !o.ResumeFailed? && (o.Interrupted? ==> stop == Some(false))
      && (o.Finished? ==> WorkflowTerminal(store.files[id].row.status) && o.row == store.files[id].row)
      && (o.Finished? ==> AllTerminal(store.files[id].tasks) || Abandoned(store.files[id]))
      && (stale != {} ==> OpenOrCanceled(store.files[id]) || (o.Finished? && Abandoned(store.files[id])))
      && (requested.Some? ==> store.files[id] == requested.value || CanceledFrom(requested.value, store.files[id]))
    }

    // ---------- the environment ----------

    /** Another process may record a cancellation request at any moment. */
    method Race()
      requires Inv()
      modifies store, this`requested
      ensures Inv() && (old(requested).Some? ==> requested == old(requested))
      ensures store.files[id] == old(store.files)[id] ==> requested == old(requested)
      ensures calm ==> store.files == old(store.files) && requested == old(requested)
      ensures old(store.files)[id] != snapshot || snapshot.row.cancelRequestedAt.Some? ==> store.files[id] == old(store.files)[id]
    {
      var interferes: bool := *;
      if !calm && interferes {
        var at: Time := *;
        var before := store.files[id];
        RacedRevision(snapshot, before);
        var row, err := store.RequestCancel(id, at);
        RequestRaces(snapshot, before, at);
        if before == snapshot && store.files[id] != snapshot { requested := Some(store.files[id]); }
      }
    }

    /** The context may have been stopped since it was last looked at; it never recovers. */
    method Poll()
      modifies this`stop
      ensures old(stop).Some? || calm ==> stop == old(stop)
    {
      if !calm && stop.None? {
        if * {
          var business: bool := *;
          stop := Some(business);
        }
      }
    }

    // ---------- committing ----------

    /** Commits a candidate as a change set on the next revision. It fails exactly when a request got there first. */
    method SaveSnapshot(updated: RunSnapshot) returns (saved: RunSnapshot, err: Option<FileError>)
      requires Inv() && CS.Follows(snapshot, Saved(snapshot, updated))
      modifies store, this`requested
      ensures err.Some? ==> Inv() && store.files[id] != snapshot && err == Some(NotApplied(CS.RevisionConflict))
      ensures err.None? ==> saved == Saved(snapshot, updated) && saved.row.id == id && requested == old(requested)
      ensures err.None? ==> store.Valid() && id in store.files && store.files[id] == saved
      ensures old(requested).Some? ==> requested == old(requested)
      ensures old(store.files)[id] != snapshot ==> err.Some?
      ensures old(store.files)[id] == snapshot && (calm || snapshot.row.cancelRequestedAt.Some?) ==> err.None?
    {
      hide RunInv, Extends, NonNegative, CS.Follows, CS.Apply, CS.Diff, ValidCompiled, Adjacent, LocalTasks, Raced, ValidPath;
      saved := Saved(snapshot, updated);
      CS.FollowsParts(snapshot, saved);
      CS.RoundTrip(snapshot, saved);
      var change := CS.ChangeSetFromSnapshots(snapshot, saved);
      DiffKey(snapshot, saved);
      Race();
      RacedRevision(snapshot, store.files[id]);
      if store.files[id] != snapshot { CS.StaleConflicts(store.files[id], change); }
      err := store.Apply(change);
    }

    /** Ends the run as canceled: a second try on the reloaded file is enough, because only a request can interfere. */
    method FinalizeCancellation(at: Time) returns (o: ExecutionOutcome)
      requires Inv()
      modifies this, store
      ensures Ends(o) && o.Finished? && settled == old(settled) && stop == old(stop)
      ensures old(requested).Some? ==> requested == old(requested)
      ensures WorkflowTerminal(old(snapshot).row.status) ==> o.row == old(snapshot).row && store.files == old(store.files)
      ensures !WorkflowTerminal(old(snapshot).row.status) ==>
        exists f :: Raced(old(snapshot), f) && CanceledFrom(f, store.files[id])
    {
      hide RunInv, Extends, NonNegative, ValidCompiled, Adjacent, LocalTasks, ValidPath, CanceledFrom, AllTerminal,
        Steps.CancelRun;
      var attempt := 0;
      while attempt < 2
        invariant 0 <= attempt <= 2 && Inv() && settled == old(settled) && stop == old(stop)
        invariant old(requested).Some? ==> requested == old(requested)
        invariant attempt == 0 ==> snapshot == old(snapshot) && store.files == old(store.files) && requested == old(requested)
        invariant attempt > 0 ==> attempt == 1 && store.files[id] == snapshot && requested == Some(snapshot)
        invariant attempt > 0 ==> !WorkflowTerminal(old(snapshot).row.status) && Raced(old(snapshot), snapshot)
        decreases 2 - attempt
      {
        if WorkflowTerminal(snapshot.row.status) {
          TerminalRunIsDone(c, snapshot);
          RacedRevision(snapshot, store.files[id]);
          return Finished(snapshot.row);
        }
        CancelCandidate(c, snapshot, at);
        var updated := new RunState.Clone(snapshot);
        var refused := updated.CancelRun(at);
        SavedIsCommitted(c, snapshot, updated.Value());
        var saved, err := SaveSnapshot(updated.Value());
        if err.None? {
          return Finished(saved.row);
        }
        if attempt == 1 { return SaveOutcome(err); }
        RacedCommitted(c, snapshot, store.files[id]);
        RacedRevision(snapshot, store.files[id]);
        snapshot := store.files[id];
        attempt := attempt + 1;
      }
    }

    /** The context was stopped: a business cancellation is written down, a shutdown leaves the file as it is. */
    method StoppedRunResult(now: Time) returns (o: ExecutionOutcome)
      requires Inv() && stop.Some?
      modifies this, store
      ensures Ends(o) && !o.StillRunning? && settled == old(settled)
      ensures old(requested).Some? ==> requested == old(requested)
      ensures old(stop) != Some(true) ==> o == Interrupted && store.files == old(store.files) && snapshot == old(snapshot)
      ensures stop == old(stop) && Honors(stop, o)
    {
      if stop.value {
        o := FinalizeCancellation(now);
      } else {
        RacedCommitted(c, snapshot, store.files[id]);
        o := Interrupted;
      }
    }

    /** What a failed save ends in: the stop reason if there is one, the conflict otherwise. */
    method SaveRefused(err: Option<FileError>, now: Time) returns (o: ExecutionOutcome)
      requires Inv() && err.Some?
      modifies this, store
      ensures Ends(o) && !o.StillRunning? && settled == old(settled)
      ensures old(requested).Some? ==> requested == old(requested)
      ensures if stop.Some? then Honors(stop, o) else o == SaveOutcome(err)
    {
      Poll();
      if stop.Some? {
        o := StoppedRunResult(now);
      } else {
        RacedCommitted(c, snapshot, store.files[id]);
        o := SaveOutcome(err);
      }
    }

    // ---------- starting tasks ----------

    /** Fills the free slots. Each attempt is committed as running before its executor starts. */
    method StartReadyTasks(now: Time) returns (o: Option<ExecutionOutcome>)
      requires Live()
      modifies this, store
      ensures settled == old(settled) && (old(requested).Some? ==> requested == old(requested))
      ensures o.None? ==> Live() && Filled() && StartedFrom(old(snapshot), snapshot, now)
      ensures o.Some? ==> Ends(o.value) && !o.value.StillRunning? && !calm
      ensures if o.None? then stop.None? else old(stop).Some? ==> Honors(old(stop), o.value)
    {
      hide RunInv, ValidCompiled, Adjacent, ValidPath, CanceledFrom, LiveSet, ActiveExact, Past, NonNegative, Raced, LocalTasks;
      Poll();
      if stop.Some? {
        var end := StoppedRunResult(now);
        return Some(end);
      }
      var i := 0;
      while i < |snapshot.tasks| && running != c.definition.concurrency
        invariant 0 <= i <= |snapshot.tasks| && Live()
        invariant settled == old(settled) && (old(requested).Some? ==> requested == old(requested))
        invariant forall j :: 0 <= j < i ==> !snapshot.tasks[j].status.TaskReady?
        invariant StartedFrom(old(snapshot), snapshot, now) && stop.None?
        invariant forall j :: i <= j < |snapshot.tasks| ==> snapshot.tasks[j] == old(snapshot).tasks[j]
        decreases |snapshot.tasks| - i
      {
        if snapshot.tasks[i].status == TaskReady {
          o := StartTask(i, now);
          if o.Some? { return; }
        }
        i := i + 1;
      }
      return None;
    }

    method StartTask(i: nat, now: Time) returns (o: Option<ExecutionOutcome>)
      requires Live() && i < |snapshot.tasks| && snapshot.tasks[i].status.TaskReady? && running < c.definition.concurrency
      modifies this, store
      ensures settled == old(settled) && (old(requested).Some? ==> requested == old(requested))
      ensures o.None? ==>
        Live() && snapshot.tasks == old(snapshot).tasks[i := StartedTask(old(snapshot).tasks[i], now, "", "")]
      ensures o.None? ==> active == old(active) + {AttemptKey(i, |old(snapshot).tasks[i].attempts| + 1)}
      ensures o.Some? ==> Ends(o.value) && !o.value.StillRunning? && !calm
      ensures o.None? ==> stop.None?
    {
      hide RunInv, ValidCompiled, Adjacent, LocalTasks, ValidPath, CanceledFrom, LiveSet, ActiveExact, Past, Raced, NonNegative;
      o := CommitStart(i, now);
      if o.Some? { return; }
      Poll();
      if stop.Some? {
        var end := StoppedRunResult(now);
        return Some(end);
      }
      return None;
    }

    /** Commits the new attempt and enters it into the active table. */
    method CommitStart(i: nat, now: Time) returns (o: Option<ExecutionOutcome>)
      requires Live() && i < |snapshot.tasks| && snapshot.tasks[i].status.TaskReady? && running < c.definition.concurrency
      modifies this, store
      ensures settled == old(settled) && (old(requested).Some? ==> requested == old(requested))
      ensures o.None? ==>
        Live() && snapshot.tasks == old(snapshot).tasks[i := StartedTask(old(snapshot).tasks[i], now, "", "")]
      ensures o.None? ==> active == old(active) + {AttemptKey(i, |old(snapshot).tasks[i].attempts| + 1)}
      ensures o.Some? ==> Ends(o.value) && !o.value.StillRunning? && !calm
    {
      hide Committed, Extends, ValidCompiled, Adjacent, LocalTasks, ValidPath, CanceledFrom, Steps.BeginAttempt,
        LiveSet, ActiveExact, Past, Raced, CS.Follows, OpenOrCanceled, AbandonedWith, AllTerminal;
      StartedLive(c, snapshot, active, stale, settled, i, now);
      var updated := new RunState.Clone(snapshot);
      var number, refused := updated.BeginAttempt(i, now, "", "", "execution started");
      var saved, err := SaveSnapshot(updated.Value());
      if err.Some? {
        var end := SaveRefused(err, now);
        return Some(end);
      }
      RacedSelf(saved);
      snapshot := saved;
      active, running := active + {AttemptKey(i, number)}, running + 1;
      return None;
    }

    // ---------- consuming events ----------

    /** The one-time gate of an attempt: only the first completion or timeout passes. */
    method FinishActive(key: AttemptKey) returns (found: bool)
      requires running == |active|
      modifies this`active, this`running, this`settled
      ensures found <==> key in old(active)
      ensures found ==> active == old(active) - {key} && running == |active| && settled == old(settled) + {key}
      ensures !found ==> active == old(active) && running == old(running) && settled == old(settled)
    {
      if key !in active { return false; }
      active, running := active - {key}, running - 1;
      settled := settled + {key};
      return true;
    }

    /** Commits a candidate that ended attempt `number` of task `i`. */
    method CommitEnd(updated: RunSnapshot, i: nat, number: int, now: Time, ghost before: set<AttemptKey>,
        ghost past: set<AttemptKey>)
      returns (o: Option<ExecutionOutcome>)
      requires Inv() && (requested.Some? ==> store.files[id] != snapshot)
      requires RunInv(c, updated) && NonNegative(updated) && Extends(snapshot, updated) && LocalTasks(updated.tasks)
      requires LeftRunningOnly(snapshot, updated, i) && AttemptKey(i, number) in before
      requires LiveSet(snapshot, before, stale) && Past(snapshot, past)
      requires active == before - {AttemptKey(i, number)} && settled == past + {AttemptKey(i, number)}
      requires running == |active| && running <= c.definition.concurrency && (calm ==> requested.None? && stop.None?)
      modifies this, store
      ensures settled == old(settled) && (old(requested).Some? ==> requested == old(requested))
      ensures o.None? ==> Live() && snapshot == Saved(old(snapshot), updated) && active == old(active)
      ensures o.Some? ==> Ends(o.value) && !o.value.StillRunning? && !calm
    {
      hide RunInv, Extends, NonNegative, ValidCompiled, Adjacent, LocalTasks, ValidPath, CanceledFrom, LiveSet,
        ActiveExact, Past, Raced, LeftRunningOnly;
      SavedIsCommitted(c, snapshot, updated);
      var saved, err := SaveSnapshot(updated);
      if err.Some? {
        var end := SaveRefused(err, now);
        return Some(end);
      }
      EndedLive(c, snapshot, updated, before, stale, past, i, number);
      RacedSelf(saved);
      snapshot := saved;
      return None;
    }

    /** A result from an executor. The result of an active attempt is what the run is given; results of attempts that were
        settled before change nothing. */
    method HandleCompletion(i: int, attempt: int, response: ExecutionResponse, finished: Time, now: Time)
      returns (o: Option<ExecutionOutcome>)
      requires Live()
      modifies this, store
      ensures o.None? ==> Live()
      ensures o.Some? ==> Ends(o.value) && !o.value.StillRunning?
      ensures AttemptKey(i, attempt) in old(active) && o.None? ==>
        ResultCommitted(c, old(snapshot), snapshot, i, response, finished)
      ensures AttemptKey(i, attempt) in old(active) && response.kind.ResultCanceled? ==>
        o.Some? && (old(stop).None? ==> o.value.Finished?)
      ensures AttemptKey(i, attempt) in old(active) && !Protocol(response.kind) && !response.kind.ResultCanceled? ==>
        o == Some(StepFailed(UnsupportedResult)) && store.files == old(store.files)
          && RefusedFor(c, old(snapshot), i, response.kind)
      ensures AttemptKey(i, attempt) in old(active) && Protocol(response.kind) && calm && o.Some? ==>
        o.value.StepFailed? && RefusedFor(c, old(snapshot), i, response.kind) && store.files == old(store.files)
      ensures old(requested).Some? ==> requested == old(requested)
      ensures AttemptKey(i, attempt) in old(active) ==>
        AttemptKey(i, attempt) !in old(settled) && settled == old(settled) + {AttemptKey(i, attempt)}
      ensures AttemptKey(i, attempt) !in old(active) ==>
        o.None? && settled == old(settled) && snapshot == old(snapshot) && active == old(active)
          && store.files == old(store.files)
    {
      hide RunInv, Extends, NonNegative, ValidCompiled, Adjacent, LocalTasks, ValidPath, CanceledFrom, LiveSet,
        ActiveExact, Past, Raced, LeftRunningOnly, ActiveAttempt, Steps.ApplyAttemptResult, Steps.TimeoutAttempt,
        ResultCommitted, RefusedFor;
      ghost var before, past := active, settled;
      GateOnce(snapshot, active, stale, settled, AttemptKey(i, attempt));
      var found := FinishActive(AttemptKey(i, attempt));
      if !found { return None; }
      if response.kind.ResultCanceled? {
        if stop.None? { stop := Some(true); }
        var end := StoppedRunResult(now);
        return Some(end);
      }
      LiveIsCurrent(c, snapshot, before, stale, i, attempt);
      ResultOutcome(c, snapshot, i, attempt, response, finished);
      var updated := new RunState.Clone(snapshot);
      var applied, err := updated.ApplyAttemptResult(c, i, attempt, response, finished);
      if err.Some? {
        RacedCommitted(c, snapshot, store.files[id]);
        RacedRevision(snapshot, store.files[id]);
        return Some(StepOutcome(err));
      }
      ResultCandidate(c, snapshot, i, attempt, response, finished);
      o := CommitEnd(updated.Value(), i, attempt, now, before, past);
    }

    /** The timer of an attempt. */
    method HandleTimeout(i: int, attempt: int, at: Time, now: Time) returns (o: Option<ExecutionOutcome>)
      requires Live()
      modifies this, store
      ensures o.None? ==> Live()
      ensures o.Some? ==> Ends(o.value) && !o.value.StillRunning? && !calm
      ensures AttemptKey(i, attempt) in old(active) && o.None? ==> TimeoutCommitted(c, old(snapshot), snapshot, i, at)
      ensures old(requested).Some? ==> requested == old(requested)
      ensures AttemptKey(i, attempt) in old(active) ==>
        AttemptKey(i, attempt) !in old(settled) && settled == old(settled) + {AttemptKey(i, attempt)}
      ensures AttemptKey(i, attempt) !in old(active) ==>
        o.None? && settled == old(settled) && snapshot == old(snapshot) && active == old(active)
          && store.files == old(store.files)
    {
      hide RunInv, Extends, NonNegative, ValidCompiled, Adjacent, LocalTasks, ValidPath, CanceledFrom, LiveSet,
        ActiveExact, Past, Raced, LeftRunningOnly, ActiveAttempt, Steps.ApplyAttemptResult, Steps.TimeoutAttempt,
        TimeoutCommitted;
      ghost var before, past := active, settled;
      GateOnce(snapshot, active, stale, settled, AttemptKey(i, attempt));
      var found := FinishActive(AttemptKey(i, attempt));
      if !found { return None; }
      LiveIsCurrent(c, snapshot, before, stale, i, attempt);
      TimeoutCandidate(c, snapshot, i, attempt, at);
      TimeoutOutcome(c, snapshot, i, attempt, at);
      var updated := new RunState.Clone(snapshot);
      var applied, err := updated.TimeoutAttempt(c, i, attempt, at);
      o := CommitEnd(updated.Value(), i, attempt, now, before, past);
    }

    /** A retry timer; the state decides whether it still means anything. */
    method HandleRetry(i: int, attempt: int, at: Time, now: Time) returns (o: Option<ExecutionOutcome>)
      requires Live()
      modifies this, store
      ensures o.None? ==> Live()
      ensures o.Some? ==> Ends(o.value) && !o.value.StillRunning?
      ensures o.None? ==> active == old(active)
      ensures o.None? && RetryIsDueFor(old(snapshot), i, attempt, at) ==> RetryCommitted(old(snapshot), snapshot, i)
      ensures o.None? && !RetryIsDueFor(old(snapshot), i, attempt, at) ==>
        snapshot == old(snapshot) && store.files == old(store.files)
      ensures !(0 <= i < |old(snapshot).tasks|) ==> o == Some(StepFailed(IndexOutOfRange)) && store.files == old(store.files)
      ensures calm && 0 <= i < |old(snapshot).tasks| ==> o.None?
      ensures settled == old(settled) && (old(requested).Some? ==> requested == old(requested))
    {
      hide RunInv, Extends, NonNegative, ValidCompiled, Adjacent, LocalTasks, ValidPath, CanceledFrom, LiveSet,
        ActiveExact, Past, Raced, MakeRetryReady;
      RetryOutcome(c, snapshot, i, attempt, at);
      var updated := new RunState.Clone(snapshot);
      var applied, err := updated.MakeRetryReady(i, attempt, at);
      if err.Some? {
        RacedCommitted(c, snapshot, store.files[id]);
        RacedRevision(snapshot, store.files[id]);
        return Some(StepOutcome(err));
      }
      if !applied { return None; }
      RetryCandidate(c, snapshot, i, attempt, at);
      SavedIsCommitted(c, snapshot, updated.Value());
      var saved, refused := SaveSnapshot(updated.Value());
      if refused.Some? {
        var end := SaveRefused(refused, now);
        return Some(end);
      }
      IdleLive(c, snapshot, updated.Value(), active, stale, settled);
      RacedSelf(saved);
      snapshot := saved;
      return None;
    }

    // ---------- the run ----------

    method HasWaitingRetry() returns (r: bool)
      ensures r <==> exists i :: 0 <= i < |snapshot.tasks| && snapshot.tasks[i].status.TaskWaitingRetry?
    {
      var i := 0;
      while i < |snapshot.tasks|
        invariant 0 <= i <= |snapshot.tasks| && forall j :: 0 <= j < i ==> !snapshot.tasks[j].status.TaskWaitingRetry?
      {
        if snapshot.tasks[i].status == TaskWaitingRetry { return true; }
        i := i + 1;
      }
      return false;
    }

    /** A pending run is committed as running before anything else. */
    method Launch(now: Time) returns (o: Option<ExecutionOutcome>)
      requires Inv() && requested.None? && active == {} && settled == {} && running == 0 && ActiveExact(snapshot, stale)
      requires calm ==> stop.None?
      modifies this, store
      ensures o.None? ==> Live() && snapshot.tasks == old(snapshot).tasks
      ensures o.Some? ==> Ends(o.value) && !o.value.StillRunning? && !calm
      ensures settled == {}
    {
      hide RunInv, Extends, NonNegative, ValidCompiled, Adjacent, LocalTasks, ValidPath, CanceledFrom, LiveSet,
        ActiveExact, Past, Raced, Steps.MoveWorkflow;
      NothingSettled(snapshot);
      OnlyStale(snapshot, stale);
      if snapshot.row.status != WorkflowPending {
        ConcurrencyPositive(c);
        return None;
      }
      LaunchCandidate(c, snapshot, now);
      var updated := new RunState.Clone(snapshot);
      var refused := updated.MoveWorkflow(WorkflowRunning, now, "execution started");
      SavedIsCommitted(c, snapshot, updated.Value());
      var saved, err := SaveSnapshot(updated.Value());
      if err.Some? {
        var end := SaveRefused(err, now);
        return Some(end);
      }
      IdleLive(c, snapshot, updated.Value(), active, stale, settled);
      RacedSelf(saved);
      snapshot := saved;
      ConcurrencyPositive(c);
      Poll();
      if stop.Some? {
        var end := StoppedRunResult(now);
        return Some(end);
      }
      return None;
    }

    /** One event; a late result goes on without looking for tasks to start. */
    method Consume(e: EngineEvent) returns (o: Option<ExecutionOutcome>)
      requires Live() && Filled()
      modifies this, store
      ensures o.None? ==> Live() && Filled() && Round(c, old(snapshot), snapshot, stale, e)
      ensures o.Some? ==> Ends(o.value) && !o.value.StillRunning?
      ensures calm && o.Some? ==> StopsAt(c, o.value, old(snapshot), e)
      ensures old(requested).Some? ==> requested == old(requested)
    {
      hide RunInv, ValidCompiled, Adjacent, ValidPath, CanceledFrom, LiveSet, ActiveExact, Past, NonNegative, ResultCommitted,
        TimeoutCommitted, RetryCommitted, RetryIsDueFor, RefusedFor, StartedFrom, Round, Runs, EventTaken;
      ghost var before := snapshot;
      ActiveRuns(snapshot, active, stale);
      StartedSelf(snapshot, e.now);
      if running == 0 && !e.RetryFired? {
        Late(c, snapshot, active, stale, e);
        return None;
      }
      Poll();
      if stop.Some? {
        var end := StoppedRunResult(e.now);
        return Some(end);
      }
      match e {
        case Completion(i, attempt, response, finished, now) =>
          if AttemptKey(i, attempt) !in active {
            Late(c, snapshot, active, stale, e);
            return None;
          }
          o := HandleCompletion(i, attempt, response, finished, now);
        case TimeoutFired(i, attempt, at, now) =>
          if AttemptKey(i, attempt) !in active {
            Late(c, snapshot, active, stale, e);
            return None;
          }
          o := HandleTimeout(i, attempt, at, now);
        case RetryFired(i, attempt, at, now) =>
          o := HandleRetry(i, attempt, at, now);
      }
      if o.Some? { return; }
      ghost var mid := snapshot;
      Taken(c, before, mid, old(active), stale, e);
      o := StartReadyTasks(e.now);
      if o.None? { RoundOf(c, before, mid, snapshot, stale, e); }
    }

    /** The scheduling loop of one run. As long as it goes on, whatever events it has taken, the number of running attempts
        is the size of the active table, within the concurrency, and no ready task is passed over. Every event was given its
        meaning in turn. Started without running tasks, from a new run or after a resume, it never runs out of work with tasks
        left over, and an end without error leaves every task terminal. */
    method ExecuteSnapshot(events: seq<EngineEvent>, now: Time) returns (o: ExecutionOutcome, ghost trace: seq<RunSnapshot>)
      requires Inv() && requested.None? && active == {} && settled == {} && running == 0 && ActiveExact(snapshot, stale)
      requires calm ==> stop.None?
      modifies this, store
      ensures Ends(o) && (o.StillRunning? ==> Live() && Filled())
      ensures trace == [] ==> !calm
      ensures trace != [] ==> IsTrace(c, trace, stale, events) && StartedFrom(old(snapshot), trace[0], now)
      ensures o.StillRunning? ==>
        |trace| == |events| + 1 && trace[|events|] == snapshot && store.files[id].tasks == snapshot.tasks
      ensures calm ==> Explained(c, o, trace, stale, events)
    {
      hide RunInv, ValidCompiled, Adjacent, ValidPath, CanceledFrom, LiveSet, ActiveExact, Past, NonNegative, Round, StartedFrom,
        ResultCommitted, RefusedFor, Concluded, Idle, StopsAt, AllTerminal, IsTrace, Explained, Raced, AbandonedWith;
      trace := [];
      var end := Launch(now);
      if end.Some? { return end.value, []; }
      ghost var launched := snapshot;
      end := StartReadyTasks(now);
      if end.Some? { return end.value, []; }
      LaunchedFrom(old(snapshot), launched, snapshot, now);
      o, trace := TakeEvents(events, now);
    }

    /** The events in turn, until there are no more, the loop is stopped or nothing is left to wait for. */
    method TakeEvents(events: seq<EngineEvent>, now: Time) returns (o: ExecutionOutcome, ghost trace: seq<RunSnapshot>)
      requires Live() && Filled()
      modifies this, store
      ensures Ends(o) && (o.StillRunning? ==> Live() && Filled())
      ensures trace != [] && IsTrace(c, trace, stale, events) && trace[0] == old(snapshot)
      ensures o.StillRunning? ==>
        |trace| == |events| + 1 && trace[|events|] == snapshot && store.files[id].tasks == snapshot.tasks
      ensures calm ==> Explained(c, o, trace, stale, events)
      ensures old(stop).Some? ==> Honors(old(stop), o)
      ensures o.StillRunning? ==> stop.None?
    {
      hide RunInv, ValidCompiled, Adjacent, ValidPath, CanceledFrom, LiveSet, ActiveExact, Past, NonNegative, Round, StartedFrom,
        ResultCommitted, RefusedFor, Concluded, Idle, StopsAt, AllTerminal, IsTrace, Explained, Raced, AbandonedWith;
      trace := [snapshot];
      FirstOfTrace(c, snapshot, stale, events);
      var p := 0;
      while true
        invariant 0 <= p <= |events| && Live() && Filled()
        invariant old(stop).Some? ==> p == 0 && stop == old(stop)
        invariant |trace| == p + 1 && trace[p] == snapshot && trace[0] == old(snapshot) && IsTrace(c, trace, stale, events)
        decreases |events| - p
      {
        Poll();
        if stop.Some? {
          o := StoppedRunResult(now);
          return;
        }
        var waiting := HasWaitingRetry();
        if running == 0 && !waiting { break; }
        if p == |events| {
          RacedCommitted(c, snapshot, store.files[id]);
          RacedRevision(snapshot, store.files[id]);
          ExplainedBy(c, StillRunning, trace, stale, events);
          return StillRunning, trace;
        }
        var end := Consume(events[p]);
        if end.Some? {
          if calm { ExplainedBy(c, end.value, trace, stale, events); }
          return end.value, trace;
        }
        NextRound(c, trace, stale, events, snapshot);
        trace := trace + [snapshot];
        p := p + 1;
      }
      ConcurrencyPositive(c);
      IdleNow(snapshot, active, stale);
      o := Conclude(now);
      if calm { ExplainedBy(c, o, trace, stale, events); }
    }

    /** Prepares the stored run and commits that before anything is executed. */
    method TakeUp(now: Time) returns (o: Option<ExecutionOutcome>)
      requires Inv() && requested.None? && active == {} && settled == {} && running == 0 && stale == {}
        && !WorkflowTerminal(snapshot.row.status)
      modifies this, store
      ensures calm ==> o.None? && stop == old(stop)
      ensures PrepareForResume(old(snapshot), c, now).Resumed?
      ensures o.None? ==> snapshot == Saved(old(snapshot), PrepareForResume(old(snapshot), c, now).s)
      ensures o.None? ==>
        Inv() && requested.None? && active == {} && settled == {} && running == 0 && ActiveExact(snapshot, stale)
      ensures o.Some? ==> Ends(o.value)
    {
      hide RunInv, ValidCompiled, Adjacent, ValidPath, CanceledFrom, NonNegative, LocalTasks, AllTerminal, ActiveExact,
        Extends, Raced, PrepareForResume, Past;
      ResumeCandidate(c, snapshot, now);
      var updated := new RunState.Clone(snapshot);
      var refused := updated.PrepareForResume(c, now);
      if refused.Some? { return Some(ResumeOutcomeOf(refused)); }
      SavedIsCommitted(c, snapshot, updated.Value());
      var saved, err := SaveSnapshot(updated.Value());
      if err.Some? {
        var end := SaveRefused(err, now);
        return Some(end);
      }
      RacedSelf(saved);
      NothingRunsSaved(snapshot, updated.Value());
      snapshot := saved;
      return None;
    }

    /** The loop, unless the context was stopped before; a conflict at its end is looked at again. */
    method RunUnlessStopped(events: seq<EngineEvent>, now: Time) returns (o: ExecutionOutcome, ghost trace: seq<RunSnapshot>)
      requires Inv() && requested.None? && active == {} && settled == {} && running == 0 && ActiveExact(snapshot, stale)
      requires calm ==> stop.None?
      modifies this, store
      ensures Ends(o) && (old(stop).Some? ==> Honors(old(stop), o))
      ensures calm ==> trace != [] && StartedFrom(old(snapshot), trace[0], now) && Explained(c, o, trace, stale, events)
      ensures calm && o.StillRunning? ==> store.files[id].tasks == trace[|trace| - 1].tasks
    {
      hide RunInv, ValidCompiled, Adjacent, ValidPath, CanceledFrom, ActiveExact, NonNegative, LocalTasks, AllTerminal, Raced,
        Explained, StartedFrom;
      trace := [];
      Poll();
      if stop.Some? {
        o := StoppedRunResult(now);
        return;
      }
      o, trace := ExecuteSnapshot(events, now);
      NotSaved(c, o, trace, stale, events);
      o := ReconcilePersistedCancellation(o, now);
    }

    /** Everything has settled: the final status is usually stored already. */
    method Conclude(now: Time) returns (o: ExecutionOutcome)
      requires Live() && Filled() && running == 0
      requires forall i :: 0 <= i < |snapshot.tasks| ==> !snapshot.tasks[i].status.TaskWaitingRetry?
      modifies this, store
      ensures Ends(o) && !o.StillRunning?
      ensures calm ==> Concluded(o, old(snapshot))
    {
      hide RunInv, ValidCompiled, Adjacent, ValidPath, CanceledFrom, LiveSet, ActiveExact, Past, NonNegative, Extends, Raced,
        Steps.MoveWorkflow, HasFailed, AllSucceeded, AllTerminal, Runs, AbandonedWith, LocalTasks;
      FinalStatus(c, snapshot);
      RacedRevision(snapshot, store.files[id]);
      if WorkflowTerminal(snapshot.row.status) {
        TerminalRunIsDone(c, snapshot);
        return Finished(snapshot.row);
      }
      ConcurrencyPositive(c);
      OnlyStale(snapshot, stale);
      StaleRuns(snapshot, stale);
      if stale == {} {
        NothingRuns(snapshot, stale);
        IdleIsFinished(c, snapshot);
      }
      var updated := new RunState.Clone(snapshot);
      var failed := updated.HasFailedTask();
      var succeeded := updated.AllTasksSucceeded();
      if failed {
        o := Close(WorkflowFailed, now, "one or more tasks failed");
      } else if succeeded {
        o := Close(WorkflowSucceeded, now, "all tasks succeeded");
      } else {
        RacedCommitted(c, snapshot, store.files[id]);
        o := NoRunnableTasks;
      }
    }

    /** Commits the final status. */
    method Close(status: WorkflowStatus, now: Time, reason: string) returns (o: ExecutionOutcome)
      requires Inv() && (requested.Some? ==> store.files[id] != snapshot) && snapshot.row.status.WorkflowRunning?
      requires reason == (if HasFailed(snapshot.tasks) then "one or more tasks failed" else "all tasks succeeded")
      requires status == (if HasFailed(snapshot.tasks) then WorkflowFailed else WorkflowSucceeded)
      requires HasFailed(snapshot.tasks) || AllSucceeded(snapshot.tasks)
      requires (stale == {} ==> AllTerminal(snapshot.tasks)) && forall k :: k in stale ==> Runs(snapshot, k)
      requires calm ==> requested.None?
      modifies this, store
      ensures Ends(o) && !o.StillRunning?
      ensures calm ==> o.Finished? && o.row.status == status
    {
      hide RunInv, ValidCompiled, Adjacent, ValidPath, CanceledFrom, NonNegative, Extends, Raced, Steps.MoveWorkflow, CS.Follows;
      if stale == {} { FinalCandidate(c, snapshot, now); }
      AbandonCandidate(c, snapshot, stale, status, now, reason);
      var updated := new RunState.Clone(snapshot);
      var refused := updated.MoveWorkflow(status, now, reason);
      var saved, err := SaveSnapshot(updated.Value());
      if err.Some? {
        o := SaveRefused(err, now);
        return;
      }
      if stale != {} { StaleMeansFailed(snapshot, stale); }
      return Finished(saved.row);
    }

    /** A conflict caused by a recorded request becomes the canceled end; any other error stays what it is. */
    method ReconcilePersistedCancellation(failure: ExecutionOutcome, now: Time) returns (o: ExecutionOutcome)
      requires Ends(failure) && store.files[id].row.id == id && ValidCompiled(c) && Adjacent(c)
      modifies this, store
      ensures Ends(o) && (!failure.SaveFailed? ==> o == failure && store.files == old(store.files))
      ensures old(requested).Some? ==> requested == old(requested)
      ensures failure.SaveFailed? && failure.reason == NotApplied(CS.RevisionConflict)
        && old(store.files)[id].row.cancelRequestedAt.Some?
        ==> o.Finished? && (!WorkflowTerminal(old(store.files)[id].row.status) ==>
          CanceledFrom(old(store.files)[id], store.files[id]))
    {
      hide RunInv, ValidCompiled, Adjacent, ValidPath, CanceledFrom, NonNegative, LocalTasks, AllTerminal;
      if failure != SaveFailed(NotApplied(CS.RevisionConflict)) { return failure; }
      var loaded, err := store.Load(id);
      if err.Some? { return SaveOutcome(err); }
      if loaded.value.row.cancelRequestedAt.None? { return failure; }
      snapshot := loaded.value;
      RacedSelf(snapshot);
      ghost var known := requested;
      requested := Some(snapshot);
      o := FinalizeCancellation(now);
      if known.Some? {
        RequestStays(known.value, loaded.value, store.files[id]);
        requested := known;
      }
    }
  }

  /** Canceling an unfinished run gives a candidate that can be committed, and is the end of the run. */
  lemma {:induction false} CancelCandidate(c: Compiled, s: RunSnapshot, at: Time)
    requires Committed(c, s) && !WorkflowTerminal(s.row.status)
    ensures CancelRun(s, at).Applied?
    ensures var t := CancelRun(s, at).s;
      && RunInv(c, t) && NonNegative(t) && Extends(s, t) && LocalTasks(t.tasks) && AllTerminal(t.tasks)
      && t.row.status.WorkflowCanceled? && CanceledFrom(s, Saved(s, t))
  {
    hide RunInv, Extends, CancelTasks;
    CancelKeeps(c, s, at);
    CancelTasksExact(s, |s.tasks|, at);
    HistoriesOf(c, s);
    CancelRunRecorded(c, s, at, 4);
  }

  lemma DiffKey(before: RunSnapshot, after: RunSnapshot)
    requires |before.events| <= |after.events|
    ensures CS.Diff(before, after).run == after.row.id && CS.Diff(before, after).expected == before.row.revision
  {
  }

  lemma HistoriesOf(c: Compiled, s: RunSnapshot)
    requires RunInv(c, s)
    ensures Fits(s, c) && Histories(c, s)
  {
  }

  lemma RacedSelf(s: RunSnapshot)
    ensures Raced(s, s)
  {
  }

  /** What a local step leads to can be committed. */
  lemma {:induction false} StepCandidate(c: Compiled, s: RunSnapshot, step: Step)
    requires Committed(c, s) && LocalTasks(s.tasks) && Runnable(s, c) && IsLocal(step) && Perform(c, s, step).Applied?
    ensures var t := Perform(c, s, step).s; RunInv(c, t) && NonNegative(t) && Extends(s, t) && LocalTasks(t.tasks)
  {
    hide RunInv, Extends, NonNegative, Perform;
    StepKeeps(c, s, step);
    StepRecorded(c, s, step, 4);
    StepNonNegative(c, s, step);
    LocalStepStaysLocal(c, s, step);
  }

  lemma {:induction false} StartCandidate(c: Compiled, s: RunSnapshot, i: nat, now: Time)
    requires Committed(c, s) && LocalTasks(s.tasks) && i < |s.tasks| && s.tasks[i].status.TaskReady?
      && !s.row.status.WorkflowPending?
    ensures var o := BeginAttempt(s, i, now, "", "", "execution started");
      && o.Applied? && RunInv(c, o.s) && NonNegative(o.s) && Extends(s, o.s) && LocalTasks(o.s.tasks)
      && o.s.tasks == s.tasks[i := StartedTask(s.tasks[i], now, "", "")] && o.s.row.status == s.row.status
  {
    hide RunInv, Extends, NonNegative, BeginAttempt;
    InvFits(c, s);
    LiveTaskMeansRunning(c, s, i);
    BeginKeeps(c, s, i, now, "", "", "execution started");
    assert Perform(c, s, StartLocal(i, now)) == BeginAttempt(s, i, now, "", "", "execution started");
    StepCandidate(c, s, StartLocal(i, now));
  }

  /** The commit of a new attempt. */
  lemma {:induction false} StartedLive(c: Compiled, s: RunSnapshot, active: set<AttemptKey>, stale: set<AttemptKey>,
      settled: set<AttemptKey>, i: nat, now: Time)
    requires Stored(c, s) && i < |s.tasks| && s.tasks[i].status.TaskReady? && !s.row.status.WorkflowPending?
    requires LiveSet(s, active, stale) && Past(s, settled)
    ensures var o := BeginAttempt(s, i, now, "", "", "execution started");
      && o.Applied? && CS.Follows(s, Saved(s, o.s))
      && var t, key := Saved(s, o.s), AttemptKey(i, |s.tasks[i].attempts| + 1);
         && Stored(c, t) && !t.row.status.WorkflowPending? && (stale != {} ==> OpenOrCanceled(t))
         && t.tasks == s.tasks[i := StartedTask(s.tasks[i], now, "", "")]
         && key !in active && LiveSet(t, active + {key}, stale) && Past(t, settled)
  {
    hide RunInv, ActiveExact, Past, BeginAttempt, CS.Follows, LocalTasks, Extends, NonNegative;
    StartCandidate(c, s, i, now);
    var o := BeginAttempt(s, i, now, "", "", "execution started");
    SavedIsCommitted(c, s, o.s);
    var t, key := Saved(s, o.s), AttemptKey(i, |s.tasks[i].attempts| + 1);
    StartedActive(s, t, active + stale, settled, i, now);
    assert active + {key} + stale == active + stale + {key};
    StaleIsOpen(c, t, active + {key}, stale);
  }

  /** The commit of the end of an attempt. */
  lemma {:induction false} EndedLive(c: Compiled, s: RunSnapshot, t: RunSnapshot, before: set<AttemptKey>,
      stale: set<AttemptKey>, past: set<AttemptKey>, i: nat, number: int)
    requires LiveSet(s, before, stale) && Past(s, past) && AttemptKey(i, number) in before && LeftRunningOnly(s, t, i)
    requires RunInv(c, s) && RunInv(c, t) && Extends(s, t) && RunInv(c, Saved(s, t))
    ensures var u, key := Saved(s, t), AttemptKey(i, number);
      && LiveSet(u, before - {key}, stale) && Past(u, past + {key}) && !u.row.status.WorkflowPending?
      && (stale != {} ==> OpenOrCanceled(u))
  {
    hide RunInv, Extends, ActiveExact, Past, LeftRunningOnly;
    var key := AttemptKey(i, number);
    SettledActive(s, t, before + stale, past, i, number);
    assert before - {key} + stale == before + stale - {key};
    EndedNotPending(c, s, t, before + stale, i, number);
    SavedActive(s, t, before - {key} + stale, past + {key});
    StaleIsOpen(c, Saved(s, t), before - {key}, stale);
  }

  lemma {:induction false} IdleLive(c: Compiled, s: RunSnapshot, t: RunSnapshot, active: set<AttemptKey>,
      stale: set<AttemptKey>, settled: set<AttemptKey>)
    requires |t.tasks| == |s.tasks| && LiveSet(s, active, stale) && Past(s, settled) && RunInv(c, Saved(s, t))
    requires forall i :: 0 <= i < |s.tasks| ==> SameActivity(s.tasks[i], t.tasks[i])
    ensures LiveSet(Saved(s, t), active, stale) && Past(Saved(s, t), settled) && Saved(s, t).row.status == t.row.status
    ensures stale != {} ==> OpenOrCanceled(Saved(s, t))
  {
    hide RunInv, ActiveExact, Past;
    IdleActive(s, t, active + stale, settled);
    SavedActive(s, t, active + stale, settled);
    StaleIsOpen(c, Saved(s, t), active, stale);
  }

  lemma {:induction false} LiveIsCurrent(c: Compiled, s: RunSnapshot, active: set<AttemptKey>, stale: set<AttemptKey>,
      i: int, number: int)
    requires RunInv(c, s) && LiveSet(s, active, stale) && AttemptKey(i, number) in active
    ensures 0 <= i < c.Size() && i < |s.tasks| && ActiveAttempt(s, i, number) && Runnable(s, c)
  {
    ActiveIsCurrent(c, s, active + stale, i, number);
  }

  lemma OnlyStale(s: RunSnapshot, stale: set<AttemptKey>)
    ensures LiveSet(s, {}, stale) <==> ActiveExact(s, stale)
  {
    hide ActiveExact;
    assert {} + stale == stale;
  }

  lemma StaleRuns(s: RunSnapshot, stale: set<AttemptKey>)
    requires ActiveExact(s, stale)
    ensures forall k :: k in stale ==> Runs(s, k)
  {
  }

  /** An active key has not been settled before. */
  lemma GateOnce(s: RunSnapshot, active: set<AttemptKey>, stale: set<AttemptKey>, settled: set<AttemptKey>, key: AttemptKey)
    requires LiveSet(s, active, stale) && Past(s, settled)
    ensures key in active ==> key !in settled
  {
  }

  lemma SavedActive(s: RunSnapshot, t: RunSnapshot, active: set<AttemptKey>, settled: set<AttemptKey>)
    requires ActiveExact(t, active) && Past(t, settled)
    ensures ActiveExact(Saved(s, t), active) && Past(Saved(s, t), settled)
    ensures Saved(s, t).row.status == t.row.status
  {
    forall k ensures Runs(Saved(s, t), k) <==> Runs(t, k) {}
  }

  lemma {:induction false} EndedNotPending(c: Compiled, s: RunSnapshot, t: RunSnapshot, active: set<AttemptKey>, i: nat,
      number: int)
    requires RunInv(c, s) && RunInv(c, t) && Extends(s, t) && ActiveExact(s, active) && AttemptKey(i, number) in active
    ensures !t.row.status.WorkflowPending?
  {
    ActiveIsCurrent(c, s, active, i, number);
    assert TaskExtends(s.tasks[i], t.tasks[i]);
    assert |t.tasks[i].attempts| > 0;
  }

  lemma {:induction false} ResultCandidate(c: Compiled, s: RunSnapshot, i: nat, number: int,
      response: ExecutionResponse, at: Time)
    requires Committed(c, s) && LocalTasks(s.tasks) && Runnable(s, c) && i < |s.tasks| && ActiveAttempt(s, i, number)
    requires !ApplyAttemptResult(s, c, i, number, response, at).Rejected?
    ensures var o := ApplyAttemptResult(s, c, i, number, response, at);
      && o.Applied? && RunInv(c, o.s) && NonNegative(o.s) && Extends(s, o.s) && LocalTasks(o.s.tasks)
           && LeftRunningOnly(s, o.s, i)
  {
    hide RunInv, Extends, NonNegative, ApplyAttemptResult, OthersWaitOrStay;
    InvFits(c, s);
    ResultKeeps(c, s, i, number, response, at);
    ResultLeavesRunning(c, s, i, number, response, at);
    assert Perform(c, s, Result(i, number, response, at)) == ApplyAttemptResult(s, c, i, number, response, at);
    StepCandidate(c, s, Result(i, number, response, at));
    AttemptsGrow(s, ApplyAttemptResult(s, c, i, number, response, at).s, i);
  }

  /** What the kernel answers to a result of the current attempt. */
  lemma {:induction false} ResultOutcome(c: Compiled, s: RunSnapshot, i: nat, number: int, response: ExecutionResponse, at: Time)
    requires RunInv(c, s) && Runnable(s, c) && i < |s.tasks| && ActiveAttempt(s, i, number)
    ensures var o := ApplyAttemptResult(s, c, i, number, response, at);
      && !o.Ignored? && (o.Rejected? ==> RefusedFor(c, s, i, response.kind))
      && (o.Applied? ==> Protocol(response.kind) && ResultCommitted(c, s, Saved(s, o.s), i, response, at))
      && (!Protocol(response.kind) ==> o == Rejected(UnsupportedResult))
  {
    hide RunInv, ResultTaken, ValidCompiled;
    InvFits(c, s);
    if !Protocol(response.kind) { UnknownKind(s, c, i, number, response, at); }
    hide ApplyAttemptResult;
    ResultKeeps(c, s, i, number, response, at);
    var o := ApplyAttemptResult(s, c, i, number, response, at);
    if o.Applied? {
      InvFits(c, o.s);
      TakenSaved(c, s, o.s, i, response, at);
    }
  }

  lemma UnknownKind(s: RunSnapshot, c: Compiled, i: nat, number: int, response: ExecutionResponse, at: Time)
    requires Runnable(s, c) && i < |s.tasks| && ActiveAttempt(s, i, number) && !Protocol(response.kind)
    ensures ApplyAttemptResult(s, c, i, number, response, at) == Rejected(UnsupportedResult)
  {
  }

  lemma {:induction false} TimeoutOutcome(c: Compiled, s: RunSnapshot, i: nat, number: int, at: Time)
    requires RunInv(c, s) && Runnable(s, c) && i < |s.tasks| && ActiveAttempt(s, i, number)
    ensures var o := TimeoutAttempt(s, c, i, number, at); o.Applied? && TimeoutCommitted(c, s, Saved(s, o.s), i, at)
  {
    hide RunInv, RetriedOrFailed, ValidCompiled, TimeoutAttempt;
    InvFits(c, s);
    TimeoutKeeps(c, s, i, number, at);
    var t := TimeoutAttempt(s, c, i, number, at).s;
    InvFits(c, t);
    RetriedSaved(c, s, t, i, AttemptTimedOut, ExecutionResult("", "timeout", "execution timed out"), at);
  }

  lemma {:induction false} RetryOutcome(c: Compiled, s: RunSnapshot, i: int, attempt: int, at: Time)
    requires RunInv(c, s)
    ensures var o := MakeRetryReady(s, i, attempt, at);
      && (o.Applied? <==> RetryIsDueFor(s, i, attempt, at)) && (o.Applied? ==> RetryCommitted(s, Saved(s, o.s), i))
      && (o.Rejected? <==> !(0 <= i < |s.tasks|)) && (o.Rejected? ==> o.error == IndexOutOfRange)
  {
    hide RunInv;
    InvFits(c, s);
    RetryReadyKeeps(c, s, i, attempt, at);
  }

  lemma AttemptsGrow(s: RunSnapshot, t: RunSnapshot, i: nat)
    requires Extends(s, t) && i < |s.tasks|
    ensures |t.tasks| == |s.tasks| && |t.tasks[i].attempts| >= |s.tasks[i].attempts|
  {
    assert TaskExtends(s.tasks[i], t.tasks[i]);
  }

  lemma {:induction false} TimeoutCandidate(c: Compiled, s: RunSnapshot, i: nat, number: int, at: Time)
    requires Committed(c, s) && LocalTasks(s.tasks) && Runnable(s, c) && i < |s.tasks| && ActiveAttempt(s, i, number)
    ensures var o := TimeoutAttempt(s, c, i, number, at);
      && o.Applied? && RunInv(c, o.s) && NonNegative(o.s) && Extends(s, o.s) && LocalTasks(o.s.tasks)
           && LeftRunningOnly(s, o.s, i)
  {
    hide RunInv, Extends, NonNegative, TimeoutAttempt, OthersWaitOrStay;
    InvFits(c, s);
    TimeoutKeeps(c, s, i, number, at);
    assert Perform(c, s, Timeout(i, number, at)) == TimeoutAttempt(s, c, i, number, at);
    StepCandidate(c, s, Timeout(i, number, at));
    AttemptsGrow(s, TimeoutAttempt(s, c, i, number, at).s, i);
  }

  lemma {:induction false} RetryCandidate(c: Compiled, s: RunSnapshot, i: int, number: int, at: Time)
    requires Committed(c, s) && LocalTasks(s.tasks) && MakeRetryReady(s, i, number, at).Applied?
    ensures var o := MakeRetryReady(s, i, number, at);
      && RunInv(c, o.s) && NonNegative(o.s) && Extends(s, o.s) && LocalTasks(o.s.tasks)
      && o.s.row.status == s.row.status && |o.s.tasks| == |s.tasks|
      && forall j :: 0 <= j < |s.tasks| ==> SameActivity(s.tasks[j], o.s.tasks[j])
  {
    hide RunInv, Extends, NonNegative, MakeRetryReady;
    InvFits(c, s);
    RetryReadyKeeps(c, s, i, number, at);
    assert Perform(c, s, RetryReady(i, number, at)) == MakeRetryReady(s, i, number, at);
    StepCandidate(c, s, RetryReady(i, number, at));
  }

  /** Reconciling adds at most the cancellation of the version the request left. */
  lemma {:induction false} RequestStays(known: RunSnapshot, loaded: RunSnapshot, file: RunSnapshot)
    requires loaded == known || CanceledFrom(known, loaded)
    requires loaded.row.cancelRequestedAt.Some?
    requires WorkflowTerminal(loaded.row.status) ==> file == loaded
    requires !WorkflowTerminal(loaded.row.status) ==> exists f :: Raced(loaded, f) && CanceledFrom(f, file)
    ensures file == known || CanceledFrom(known, file)
  {
    hide CancelTasks;
    if !WorkflowTerminal(loaded.row.status) {
      var f :| Raced(loaded, f) && CanceledFrom(f, file);
      RacedRevision(loaded, f);
      assert f == loaded;
    }
  }

  lemma ConcurrencyPositive(c: Compiled)
    requires ValidCompiled(c)
    ensures c.definition.concurrency > 0
  {
  }

  lemma NothingSettled(s: RunSnapshot)
    ensures Past(s, {})
  {
  }

  lemma NothingRuns(s: RunSnapshot, active: set<AttemptKey>)
    requires ActiveExact(s, active) && |active| == 0
    ensures forall i :: 0 <= i < |s.tasks| ==> !s.tasks[i].status.TaskRunning?
  {
    forall i | 0 <= i < |s.tasks| ensures !s.tasks[i].status.TaskRunning? {
      assert AttemptKey(i, |s.tasks[i].attempts|) !in active;
    }
  }

  lemma {:induction false} LaunchCandidate(c: Compiled, s: RunSnapshot, now: Time)
    requires Committed(c, s) && LocalTasks(s.tasks) && s.row.status.WorkflowPending?
    ensures var o := MoveWorkflow(s, WorkflowRunning, now, "execution started");
      && o.Applied? && RunInv(c, o.s) && NonNegative(o.s) && Extends(s, o.s) && LocalTasks(o.s.tasks)
      && o.s.tasks == s.tasks && o.s.row.status.WorkflowRunning?
  {
    hide RunInv, Extends, NonNegative;
    InvFits(c, s);
    StartKeeps(c, s, now, "execution started");
    assert Perform(c, s, StartWorkflow(now)) == MoveWorkflow(s, WorkflowRunning, now, "execution started");
    StepCandidate(c, s, StartWorkflow(now));
  }

  /** Ending the run from its final task statuses is always committed, whether or not attempts are left over. */
  lemma {:induction false} AbandonCandidate(c: Compiled, s: RunSnapshot, stale: set<AttemptKey>, status: WorkflowStatus,
      at: Time, reason: string)
    requires Committed(c, s) && s.row.status.WorkflowRunning? && (status.WorkflowFailed? || status.WorkflowSucceeded?)
    requires forall k :: k in stale ==> Runs(s, k)
    ensures var o := MoveWorkflow(s, status, at, reason);
      && o.Applied? && CS.Follows(s, Saved(s, o.s)) && Saved(s, o.s).row.status == status && Saved(s, o.s).tasks == s.tasks
      && forall k :: k in stale ==> Runs(Saved(s, o.s), k)
  {
    hide RunInv, Extends, CS.Follows;
    MoveWorkflowRecorded(s, status, at, reason, 4);
    InvNumbersAttempts(c, s);
    ExtensionFollows(s, MoveWorkflow(s, status, at, reason).s);
  }

  lemma StaleMeansFailed(s: RunSnapshot, stale: set<AttemptKey>)
    requires stale != {} && (forall k :: k in stale ==> Runs(s, k)) && (HasFailed(s.tasks) || AllSucceeded(s.tasks))
    ensures HasFailed(s.tasks)
  {
    var k :| k in stale;
    assert Runs(s, k);
  }

  lemma {:induction false} FinalCandidate(c: Compiled, s: RunSnapshot, now: Time)
    requires Committed(c, s) && s.row.status.WorkflowRunning? && AllTerminal(s.tasks) && LocalTasks(s.tasks)
    requires HasFailed(s.tasks) || AllSucceeded(s.tasks)
    ensures var o := if HasFailed(s.tasks) then MoveWorkflow(s, WorkflowFailed, now, "one or more tasks failed")
                     else MoveWorkflow(s, WorkflowSucceeded, now, "all tasks succeeded");
      && o.Applied? && Committed(c, Saved(s, o.s)) && o.s.tasks == s.tasks && WorkflowTerminal(o.s.row.status)
  {
    hide RunInv, Extends, MoveWorkflow;
    SettleKeeps(c, s, now);
    SettleRecorded(s, now, 4);
    SavedIsCommitted(c, s, if HasFailed(s.tasks) then MoveWorkflow(s, WorkflowFailed, now, "one or more tasks failed").s
                           else MoveWorkflow(s, WorkflowSucceeded, now, "all tasks succeeded").s);
  }

  // ---------- entry points ----------

  /** What an execution of run `id` leaves in the store. */
  ghost predicate Left(o: ExecutionOutcome, before: RunSnapshot, after: RunSnapshot) {
    && (o.Finished? ==> WorkflowTerminal(after.row.status) && o.row == after.row)
    && (WorkflowTerminal(before.row.status) ==> after == before && o == Finished(before.row))
    && (!WorkflowTerminal(before.row.status) && before.row.cancelRequestedAt.Some? ==> o.Finished? && CanceledFrom(before, after))
    && !o.ResumeFailed?
  }

  /** An execution has something to do. */
  predicate Unstarted(f: RunSnapshot) { !WorkflowTerminal(f.row.status) && f.row.cancelRequestedAt.None? }

  /** A business cancellation ends the run, a shutdown only the execution. */
  predicate Honors(stop: Option<bool>, o: ExecutionOutcome)
    requires stop.Some?
  {
    if stop.value then o.Finished? else o == Interrupted
  }

  predicate Resumable(f: RunSnapshot) { f.version == CURRENT_SNAPSHOT_VERSION && Unstarted(f) }

  /** The attempts recorded as running. */
  ghost function RunningIn(s: RunSnapshot): set<AttemptKey> {
    set i | i in Below(|s.tasks|) && s.tasks[i].status.TaskRunning? :: AttemptKey(i, |s.tasks[i].attempts|)
  }

  lemma {:induction false} RunningExact(s: RunSnapshot)
    ensures ActiveExact(s, RunningIn(s))
  {
  }

  lemma AbandonedNotDone(f: RunSnapshot, stale: set<AttemptKey>)
    requires stale != {} && AbandonedWith(f, stale)
    ensures !AllTerminal(f.tasks)
  {
    var k :| k in stale;
    assert Runs(f, k);
  }

  /** Runs a stored run. Attempts that are already recorded as running are never executed or settled; whatever happens
      to the other tasks, an end that is not a cancellation leaves every task terminal exactly if there were none of them.
      With such attempts the run can run out of work, or be ended as failed over them. */
  method Execute(store: Store, c: Compiled, id: RunID, events: seq<EngineEvent>, now: Time, calm: bool)
    returns (o: ExecutionOutcome, ghost trace: seq<RunSnapshot>)
    requires store.Valid() && ValidCompiled(c) && Adjacent(c)
    requires id in store.files ==> Stored(c, store.files[id])
    modifies store
    ensures id !in old(store.files) ==> o.LoadFailed? && store.files == old(store.files)
    ensures id in old(store.files) ==> id in store.files && Left(o, old(store.files)[id], store.files[id])
    ensures id in old(store.files) && o.NoRunnableTasks? ==> RunningIn(old(store.files)[id]) != {}
    ensures id in old(store.files) && o.Finished? && !store.files[id].row.status.WorkflowCanceled? ==>
      (AllTerminal(store.files[id].tasks) <==> RunningIn(old(store.files)[id]) == {})
    ensures id in old(store.files) && o.Finished? && !AllTerminal(store.files[id].tasks) ==>
      AbandonedWith(store.files[id], RunningIn(old(store.files)[id]))
    ensures id in old(store.files) && calm && Unstarted(old(store.files)[id]) ==>
      && trace != [] && StartedFrom(old(store.files)[id], trace[0], now)
      && Explained(c, o, trace, RunningIn(old(store.files)[id]), events)
      && (o.StillRunning? ==> store.files[id].tasks == trace[|trace| - 1].tasks)
    ensures id in old(store.files) && (o.Finished? ==> AllTerminal(store.files[id].tasks)) ==> Stored(c, store.files[id])
  {
    hide RunInv, ValidCompiled, Adjacent, ValidPath, CanceledFrom, NonNegative, LocalTasks, AllTerminal, ActiveExact,
      RunningIn, AbandonedWith, Explained, StartedFrom;
    trace := [];
    var loaded, err := store.Load(id);
    if err.Some? { return LoadOutcome(err), []; }
    var snapshot := loaded.value;
    ghost var stale := RunningIn(snapshot);
    RunningExact(snapshot);
    if WorkflowTerminal(snapshot.row.status) {
      TerminalRunIsDone(c, snapshot);
      TerminalRunsNothing(snapshot, stale);
      return Finished(snapshot.row), [];
    }
    var engine := new Engine(store, c, snapshot, stale, calm);
    if snapshot.row.cancelRequestedAt.Some? {
      o := engine.FinalizeCancellation(now);
      RacedAlready(snapshot);
    } else {
      o, trace := engine.RunUnlessStopped(events, now);
    }
    if o.Finished? && stale != {} && AbandonedWith(store.files[id], stale) { AbandonedNotDone(store.files[id], stale); }
  }

  lemma {:induction false} TerminalRunsNothing(s: RunSnapshot, active: set<AttemptKey>)
    requires AllTerminal(s.tasks) && ActiveExact(s, active)
    ensures active == {}
  {
    forall k ensures k !in active {
      assert k in active <==> Runs(s, k);
    }
  }

  function LoadOutcome(err: Option<FileError>): ExecutionOutcome {
    match err
    case None => StillRunning
    case Some(e) => LoadFailed(e)
  }

  lemma RacedAlready(s: RunSnapshot)
    requires s.row.cancelRequestedAt.Some?
    ensures forall f :: Raced(s, f) ==> f == s
  {
  }

  /** Takes up a stored run after a restart: the prepared snapshot is committed before anything is executed. */
  method ResumeRun(store: Store, c: Compiled, id: RunID, events: seq<EngineEvent>, now: Time, calm: bool)
    returns (o: ExecutionOutcome, ghost trace: seq<RunSnapshot>)
    requires store.Valid() && ValidCompiled(c) && Adjacent(c)
    requires id in store.files ==> Stored(c, store.files[id])
    modifies store
    ensures id !in old(store.files) ==> o.LoadFailed? && store.files == old(store.files)
    ensures id in old(store.files) && old(store.files)[id].version != CURRENT_SNAPSHOT_VERSION ==>
      o == UnsupportedVersion && store.files == old(store.files)
    ensures id in old(store.files) && old(store.files)[id].version == CURRENT_SNAPSHOT_VERSION ==>
      && id in store.files && Left(o, old(store.files)[id], store.files[id]) && Stored(c, store.files[id])
      && (o.Finished? ==> AllTerminal(store.files[id].tasks)) && !o.NoRunnableTasks?
    ensures id in old(store.files) && calm && Resumable(old(store.files)[id]) ==>
      && PrepareForResume(old(store.files)[id], c, now).Resumed?
      && trace != [] && StartedFrom(PrepareForResume(old(store.files)[id], c, now).s, trace[0], now)
      && Explained(c, o, trace, {}, events)
      && (o.StillRunning? ==> store.files[id].tasks == trace[|trace| - 1].tasks)
  {
    hide RunInv, ValidCompiled, Adjacent, ValidPath, CanceledFrom, NonNegative, LocalTasks, AllTerminal, ActiveExact,
      Extends, Raced, PrepareForResume, Past, Explained, StartedFrom;
    trace := [];
    var loaded, err := store.Load(id);
    if err.Some? { return LoadOutcome(err), []; }
    var snapshot := loaded.value;
    if snapshot.version != CURRENT_SNAPSHOT_VERSION { return UnsupportedVersion, []; }
    if WorkflowTerminal(snapshot.row.status) {
      TerminalRunIsDone(c, snapshot);
      return Finished(snapshot.row), [];
    }
    var engine := new Engine(store, c, snapshot, {}, calm);
    if snapshot.row.cancelRequestedAt.Some? {
      o := engine.FinalizeCancellation(now);
      RacedAlready(snapshot);
      return;
    }
    engine.Poll();
    if engine.stop.Some? {
      o := engine.StoppedRunResult(now);
      return;
    }
    var end := engine.TakeUp(now);
    if end.Some? {
      o := engine.ReconcilePersistedCancellation(end.value, now);
    } else {
      o, trace := engine.RunUnlessStopped(events, now);
      if calm { StartedSaved(snapshot, PrepareForResume(snapshot, c, now).s, trace[0], now); }
    }
  }

  /** Cancels a run no execution of this process is working on. It fails only if a request was recorded in between,
      which the next execution turns into the canceled end. */
  method CancelIdle(store: Store, c: Compiled, id: RunID, now: Time, calm: bool) returns (err: Option<FileError>)
    requires store.Valid() && ValidCompiled(c) && Adjacent(c)
    requires id in store.files ==> Stored(c, store.files[id])
    modifies store
    ensures id !in old(store.files) ==> err.Some? && store.files == old(store.files)
    ensures id in old(store.files) && WorkflowTerminal(old(store.files)[id].row.status) ==>
      err.None? && store.files == old(store.files)
    ensures id in old(store.files) && !WorkflowTerminal(old(store.files)[id].row.status) ==>
      && id in store.files && Stored(c, store.files[id])
      && (if err.None? then CanceledFrom(old(store.files)[id], store.files[id]) && AllTerminal(store.files[id].tasks)
          else Raced(old(store.files)[id], store.files[id]) && store.files[id].row.cancelRequestedAt.Some?)
    ensures id in old(store.files) && (calm || old(store.files)[id].row.cancelRequestedAt.Some?) ==> err.None?
  {
    hide RunInv, ValidCompiled, Adjacent, ValidPath, CanceledFrom, NonNegative, LocalTasks, AllTerminal, ActiveExact,
      Extends, Raced, Steps.CancelRun;
    var loaded;
    loaded, err := store.Load(id);
    if err.Some? { return; }
    var snapshot := loaded.value;
    if WorkflowTerminal(snapshot.row.status) { return None; }
    CancelCandidate(c, snapshot, now);
    var engine := new Engine(store, c, snapshot, {}, calm);
    var updated := new RunState.Clone(snapshot);
    var refused := updated.CancelRun(now);
    var saved;
    SavedIsCommitted(c, snapshot, updated.Value());
    saved, err := engine.SaveSnapshot(updated.Value());
    if err.Some? {
      RacedCommitted(c, snapshot, store.files[id]);
      RacedRevision(snapshot, store.files[id]);
    }
  }

  function ResumeOutcomeOf(err: Option<ResumeError>): ExecutionOutcome {
    match err
    case None => StillRunning
    case Some(e) => ResumeFailed(e)
  }

  lemma {:induction false} ResumeCandidate(c: Compiled, s: RunSnapshot, now: Time)
    requires Committed(c, s) && LocalTasks(s.tasks) && !WorkflowTerminal(s.row.status) && Adjacent(c)
    ensures var o := PrepareForResume(s, c, now);
      && o.Resumed? && RunInv(c, o.s) && NonNegative(o.s) && Extends(s, o.s) && LocalTasks(o.s.tasks)
      && forall i :: 0 <= i < |o.s.tasks| ==> !o.s.tasks[i].status.TaskRunning?
  {
    hide RunInv, PrepareForResume, Extends, NonNegative;
    ResumeRestores(c, s, now);
    var t := PrepareForResume(s, c, now).s;
    InvFits(c, t);
    RestedNonNegative(c, t);
  }

  lemma NothingRunsSaved(s: RunSnapshot, t: RunSnapshot)
    requires forall i :: 0 <= i < |t.tasks| ==> !t.tasks[i].status.TaskRunning?
    ensures ActiveExact(Saved(s, t), {})
  {
  }
}
