/** The step functions of the run state machine on snapshot values. The methods of `RunState` are
    proved to compute exactly these; the invariants of the other modules are about these. */
module Steps {
  import opened Domain
  import opened Finite
  import opened Graph

  datatype StepError =
    | IndexOutOfRange
    | IllegalWorkflowMove(wfFrom: WorkflowStatus, wfTo: WorkflowStatus)
    | IllegalTaskMove(from: TaskStatus, to: TaskStatus)
    | IllegalAttemptMove(atFrom: AttemptStatus, atTo: AttemptStatus)
    | WorkflowNotRunning
    | MissingOwner
    | IdentityMismatch
    | UnsupportedResult
    | NegativeCount(task: TaskKey)
    | MixedTerminalTasks

  /** `Applied` carries the new snapshot; `Ignored` is the source's `false, nil`; `Rejected` its error. */
  datatype Outcome = Applied(s: RunSnapshot) | Ignored | Rejected(error: StepError) {
    predicate IsFailure() { !Applied? }
    function PropagateFailure(): Outcome requires IsFailure() { this }
    function Extract(): RunSnapshot requires !IsFailure() { s }
  }

  // ---------- primitive transitions ----------

  function AppendEvent(s: RunSnapshot, at: Time, move: Move, reason: string): (r: RunSnapshot)
    ensures r == s.(events := r.events, row := r.row)
    ensures r.row == s.row.(lastEventSequence := r.row.lastEventSequence)
  {
    var event := StateEvent(LastEventSequence(s) + 1, at, move, reason);
    s.(events := s.events + [event], row := s.row.(lastEventSequence := event.sequence))
  }

  function MoveWorkflow(s: RunSnapshot, to: WorkflowStatus, at: Time, reason: string): Outcome {
    var from := s.row.status;
    if !WorkflowEdge(from, to) then Rejected(IllegalWorkflowMove(from, to))
    else
      var row := s.row.(status := to,
                        startedAt := if to.WorkflowRunning? && s.row.startedAt.None? then Some(at) else s.row.startedAt,
                        finishedAt := if WorkflowTerminal(to) then Some(at) else s.row.finishedAt);
      Applied(AppendEvent(s.(row := row), at, WorkflowMove(row.id, from, to), reason))
  }

  /** The task row after a move: the retry time belongs to waiting_retry only, the finish time to terminal states. */
  function MovedTask(t: TaskRun, to: TaskStatus, at: Time): TaskRun {
    t.(status := to,
       readyAt := if to.TaskWaitingRetry? then t.readyAt else None,
       finishedAt := if Terminal(to) then Some(at) else t.finishedAt)
  }

  function MoveTask(s: RunSnapshot, i: nat, to: TaskStatus, at: Time, reason: string): Outcome
    requires i < |s.tasks|
  {
    var t := s.tasks[i];
    if !TaskEdge(t.status, to) then Rejected(IllegalTaskMove(t.status, to))
    else
      var s' := s.(tasks := s.tasks[i := MovedTask(t, to, at)]);
      Applied(AppendEvent(s', at, TaskMove(t.key, t.status, to), reason))
  }

  function SetLastAttempt(t: TaskRun, a: Attempt): TaskRun
    requires |t.attempts| > 0
  {
    t.(attempts := t.attempts[|t.attempts| - 1 := a])
  }

  /** Records a result on the last attempt of task `i` and moves that attempt. */
  function FinishAttempt(s: RunSnapshot, i: nat, to: AttemptStatus, result: ExecutionResult, at: Time, reason: string): Outcome
    requires i < |s.tasks| && |s.tasks[i].attempts| > 0
  {
    var t := s.tasks[i];
    var a := t.Last();
    if !AttemptEdge(a.status, to) then Rejected(IllegalAttemptMove(a.status, to))
    else
      var s' := s.(tasks := s.tasks[i := SetLastAttempt(t, a.(status := to, finishedAt := Some(at), result := result))]);
      Applied(AppendEvent(s', at, AttemptMove(t.key, a.number, a.status, to), reason))
  }

  function AppendAttempt(s: RunSnapshot, i: nat, at: Time, worker: WorkerID, dispatch: DispatchID): RunSnapshot
    requires i < |s.tasks|
  {
    var t := s.tasks[i];
    var a := Attempt(|t.attempts| + 1, AttemptRunning, worker, dispatch, at, None, NO_RESULT);
    s.(tasks := s.tasks[i := t.(attempts := t.attempts + [a])])
  }

  function SetReadyAt(s: RunSnapshot, i: nat, readyAt: Time): RunSnapshot
    requires i < |s.tasks|
  {
    s.(tasks := s.tasks[i := s.tasks[i].(readyAt := Some(readyAt))])
  }

  // ---------- queueing and starting ----------

  function QueueTask(s: RunSnapshot, i: int, at: Time): Outcome {
    if !(0 <= i < |s.tasks|) then Rejected(IndexOutOfRange)
    else
      var s1 :- if s.row.status.WorkflowPending?
                then MoveWorkflow(s, WorkflowRunning, at, "distributed execution started") else Applied(s);
      if !s1.row.status.WorkflowRunning? then Rejected(WorkflowNotRunning)
      else MoveTask(s1, i, TaskQueued, at, "dispatch created")
  }

  function ReturnQueuedTaskToReady(s: RunSnapshot, i: int, at: Time, reason: string): Outcome {
    if !(0 <= i < |s.tasks|) then Rejected(IndexOutOfRange) else MoveTask(s, i, TaskReady, at, reason)
  }

  /** A task enters running and gets its next attempt. */
  function BeginAttempt(s: RunSnapshot, i: nat, at: Time, worker: WorkerID, dispatch: DispatchID, reason: string): Outcome
    requires i < |s.tasks|
  {
    var s1 :- MoveTask(s, i, TaskRunning, at, reason);
    Applied(AppendAttempt(s1, i, at, worker, dispatch))
  }

  function StartQueuedAttempt(s: RunSnapshot, c: Compiled, i: int, at: Time, worker: WorkerID, dispatch: DispatchID): Outcome {
    if !(0 <= i < |s.tasks| && i < c.Size()) then Rejected(IndexOutOfRange)
    else if worker == "" || dispatch == "" then Rejected(MissingOwner)
    else if s.tasks[i].key != c.definition.tasks[i].key then Rejected(IdentityMismatch)
    else BeginAttempt(s, i, at, worker, dispatch, "lease claimed")
  }

  // ---------- failure propagation ----------

  /** The breadth-first loop: `queue` waits, `visited` was popped before. */
  function SkipLoop(s: RunSnapshot, succs: Adjacency, queue: seq<nat>, visited: set<nat>, at: Time): (o: Outcome)
    requires InRange(succs) && |s.tasks| == |succs|
    requires Bounded(queue, |succs|)
    ensures o.Applied? ==> |o.s.tasks| == |s.tasks| && o.s.remaining == s.remaining
    decreases Below(|succs|) - visited, |queue|
  {
    if queue == [] then Applied(s)
    else
      var current := queue[0];
      if current in visited then SkipLoop(s, succs, queue[1..], visited, at)
      else
        var s1 :- if Terminal(s.tasks[current].status) then Applied(s)
                  else MoveTask(s, current, TaskSkipped, at, "upstream task failed");
        SkipLoop(s1, succs, queue[1..] + succs[current], visited + {current}, at)
  }

  function AllSuccessors(succs: Adjacency, sources: seq<nat>): (r: seq<nat>)
    requires InRange(succs) && Bounded(sources, |succs|)
    ensures Bounded(r, |succs|)
  {
    if sources == [] then []
    else AllSuccessors(succs, sources[..|sources| - 1]) + succs[sources[|sources| - 1]]
  }

  function SkipDescendantsFrom(s: RunSnapshot, c: Compiled, sources: seq<nat>, at: Time): Outcome
    requires InRange(c.successors) && |s.tasks| == |c.successors| && Bounded(sources, |c.successors|)
  {
    SkipLoop(s, c.successors, AllSuccessors(c.successors, sources), {}, at)
  }

  // ---------- settling ----------

  predicate AllTerminal(tasks: seq<TaskRun>) { forall i :: 0 <= i < |tasks| ==> Terminal(tasks[i].status) }
  predicate AllSucceeded(tasks: seq<TaskRun>) { forall i :: 0 <= i < |tasks| ==> tasks[i].status.TaskSucceeded? }
  predicate HasFailed(tasks: seq<TaskRun>) { exists i :: 0 <= i < |tasks| && tasks[i].status.TaskFailed? }

  function SettleIfComplete(s: RunSnapshot, at: Time): Outcome {
    if !AllTerminal(s.tasks) then Applied(s)
    else if HasFailed(s.tasks) then MoveWorkflow(s, WorkflowFailed, at, "one or more tasks failed")
    else if !AllSucceeded(s.tasks) then Rejected(MixedTerminalTasks)
    else MoveWorkflow(s, WorkflowSucceeded, at, "all tasks succeeded")
  }

  // ---------- attempt results ----------

  predicate ActiveAttempt(s: RunSnapshot, i: nat, number: int)
    requires i < |s.tasks|
  {
    && s.tasks[i].status.TaskRunning? && |s.tasks[i].attempts| > 0
    && s.tasks[i].Last().number == number && s.tasks[i].Last().status.AttemptRunning?
  }

  function FailTask(s: RunSnapshot, c: Compiled, i: nat, at: Time, reason: string): Outcome
    requires InRange(c.successors) && |s.tasks| == |c.successors| && i < |s.tasks|
  {
    var s1 :- MoveTask(s, i, TaskFailed, at, reason);
    var s2 :- SkipDescendantsFrom(s1, c, [i], at);
    SettleIfComplete(s2, at)
  }

  function ApplyRetryDecision(s: RunSnapshot, c: Compiled, i: nat, at: Time, reason: string): Outcome
    requires InRange(c.successors) && |s.tasks| == |c.successors| == c.Size() && i < |s.tasks| && |s.tasks[i].attempts| > 0
  {
    if s.tasks[i].Last().number < c.MaxAttempts(i) then
      var s1 :- MoveTask(s, i, TaskWaitingRetry, at, reason);
      Applied(SetReadyAt(s1, i, at + c.definition.tasks[i].retry.intervalMillis * NANOS_PER_MILLI))
    else FailTask(s, c, i, at, "retry attempts exhausted")
  }

  /** One satisfied edge after the other: each successor loses a count and becomes ready at zero. */
  function ReleaseSuccessors(s: RunSnapshot, row: seq<nat>, at: Time): Outcome
    requires |s.tasks| == |s.remaining| && Bounded(row, |s.tasks|)
    decreases |row|
  {
    if row == [] then Applied(s)
    else
      var j := row[0];
      var left := s.remaining[j] - 1;
      if left < 0 then Rejected(NegativeCount(s.tasks[j].key))
      else
        var s1 := s.(remaining := s.remaining[j := left]);
        var s2 :- if left == 0 then MoveTask(s1, j, TaskReady, at, "dependencies succeeded") else Applied(s1);
        ReleaseSuccessors(s2, row[1..], at)
  }

  /** What the graph arguments of the result steps have to satisfy for the source not to index out of range. */
  predicate Runnable(s: RunSnapshot, c: Compiled) {
    Fits(s, c) && InRange(c.successors) && |c.successors| == c.Size()
  }

  function SucceedTask(s: RunSnapshot, c: Compiled, i: nat, at: Time): Outcome
    requires Runnable(s, c) && i < |s.tasks|
  {
    var s1 :- MoveTask(s, i, TaskSucceeded, at, "execution succeeded");
    var s2 :- ReleaseSuccessors(s1, c.successors[i], at);
    SettleIfComplete(s2, at)
  }

  function ApplyAttemptResult(s: RunSnapshot, c: Compiled, i: int, number: int, response: ExecutionResponse, at: Time): Outcome
    requires Runnable(s, c)
  {
    if !(0 <= i < |s.tasks|) then Rejected(IndexOutOfRange)
    else if !ActiveAttempt(s, i, number) then Ignored
    else
      var result := ExecutionResult(response.output, response.errorCode, response.errorMessage);
      match response.kind
      case ResultTemporaryFailure =>
        var s1 :- FinishAttempt(s, i, AttemptFailed, result, at, "temporary execution failure");
        ApplyRetryDecision(s1, c, i, at, "temporary execution failure")
      case ResultPermanentFailure =>
        var s1 :- FinishAttempt(s, i, AttemptFailed, result, at, "permanent execution failure");
        FailTask(s1, c, i, at, "permanent execution failure")
      case ResultSuccess =>
        var s1 :- FinishAttempt(s, i, AttemptSucceeded, result, at, "execution succeeded");
        SucceedTask(s1, c, i, at)
      case _ => Rejected(UnsupportedResult)
  }

  function InterruptAttempt(s: RunSnapshot, c: Compiled, i: int, number: int, at: Time, reason: string): Outcome
    requires Runnable(s, c)
  {
    if !(0 <= i < |s.tasks|) then Rejected(IndexOutOfRange)
    else if !ActiveAttempt(s, i, number) then Ignored
    else
      var s1 :- FinishAttempt(s, i, AttemptInterrupted, ExecutionResult("", "interrupted", reason), at, reason);
      ApplyRetryDecision(s1, c, i, at, reason)
  }

  function TimeoutAttempt(s: RunSnapshot, c: Compiled, i: int, number: int, at: Time): Outcome
    requires Runnable(s, c)
  {
    if !(0 <= i < |s.tasks|) then Rejected(IndexOutOfRange)
    else if !ActiveAttempt(s, i, number) then Ignored
    else
      var result := ExecutionResult("", "timeout", "execution timed out");
      var s1 :- FinishAttempt(s, i, AttemptTimedOut, result, at, "execution timed out");
      ApplyRetryDecision(s1, c, i, at, "execution timed out")
  }

  function MakeRetryReady(s: RunSnapshot, i: int, number: int, at: Time): Outcome {
    if !(0 <= i < |s.tasks|) then Rejected(IndexOutOfRange)
    else
      var t := s.tasks[i];
      if !t.status.TaskWaitingRetry? || t.readyAt.None? || |t.attempts| == 0 then Ignored
      else if t.Last().number != number || at < t.readyAt.value then Ignored
      else MoveTask(s, i, TaskReady, at, "retry interval elapsed")
  }

  // ---------- cancellation ----------

  const CANCELED_RESULT := ExecutionResult("", "canceled", "execution canceled")

  function CancelTask(s: RunSnapshot, i: nat, at: Time): Outcome
    requires i < |s.tasks|
  {
    var t := s.tasks[i];
    if Terminal(t.status) then Applied(s)
    else
      var s1 :- if t.status.TaskRunning? && |t.attempts| > 0 && t.Last().status.AttemptRunning?
                then FinishAttempt(s, i, AttemptCanceled, CANCELED_RESULT, at, "workflow canceled") else Applied(s);
      MoveTask(s1, i, TaskCanceled, at, "workflow canceled")
  }

  /** Tasks 0 to `n`-1 canceled in order. */
  function CancelTasks(s: RunSnapshot, n: nat, at: Time): (o: Outcome)
    requires n <= |s.tasks|
    ensures o.Applied? ==> |o.s.tasks| == |s.tasks|
  {
    if n == 0 then Applied(s)
    else
      var s1 :- CancelTasks(s, n - 1, at);
      CancelTask(s1, n - 1, at)
  }

  function CancelRun(s: RunSnapshot, at: Time): Outcome {
    var s1 :- CancelTasks(s, |s.tasks|, at);
    MoveWorkflow(s1, WorkflowCanceled, at, "cancellation requested")
  }
}
