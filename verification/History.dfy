/** What a step does to the recorded past: attempts and events are only added, event numbers are gap-free,
    and each event is paid for by a bounded budget. */
module History {
  import opened Domain
  import opened Finite
  import opened Graph
  import opened Steps
  import opened AuditLog
  import opened RunInvariant
  import opened RunSteps
  import opened RunResults
  import opened RunTheorems

  // ---------- the recorded past only grows ----------

  ghost predicate TaskExtends(a: TaskRun, b: TaskRun) {
    && b.key == a.key && |a.attempts| <= |b.attempts|
    && (forall k :: 0 <= k < |a.attempts| ==> AttemptKept(a.attempts[k], b.attempts[k]))
    && (forall k :: |a.attempts| <= k < |b.attempts| ==> b.attempts[k].number == k + 1)
  }

  /** A recorded attempt keeps its identity, and once finished it never changes. */
  predicate AttemptKept(a: Attempt, b: Attempt) {
    && b.number == a.number && b.workerID == a.workerID && b.dispatchID == a.dispatchID && b.startedAt == a.startedAt
    && (!a.status.AttemptRunning? ==> b == a)
  }

  /** `t`'s log is `s`'s log followed by events numbered on from the last one. */
  ghost predicate LogExtends(s: RunSnapshot, t: RunSnapshot) {
    && |s.events| <= |t.events|
    && (forall k :: 0 <= k < |s.events| ==> t.events[k] == s.events[k])
    && (forall k :: |s.events| <= k < |t.events| ==>
          t.events[k].sequence == LastEventSequence(s) + 1 + k - |s.events|)
    && LastEventSequence(t) == LastEventSequence(s) + |t.events| - |s.events|
    && t.row.lastEventSequence == if |t.events| == |s.events| then s.row.lastEventSequence else LastEventSequence(t)
  }

  /** The identity of the run, which no step changes, and a recorded request, which no step withdraws. */
  predicate SameIdentity(s: RunSnapshot, t: RunSnapshot) {
    && t.version == s.version && t.definition == s.definition
    && t.row.id == s.row.id && t.row.definitionID == s.row.definitionID
    && t.row.definitionVersion == s.row.definitionVersion && t.row.createdAt == s.row.createdAt
    && |t.tasks| == |s.tasks| && |t.remaining| == |s.remaining|
    && (s.row.cancelRequestedAt.Some? ==> t.row.cancelRequestedAt == s.row.cancelRequestedAt)
  }

  ghost predicate Extends(s: RunSnapshot, t: RunSnapshot) {
    && SameIdentity(s, t)
    && LogExtends(s, t)
    && (Auditable(s) ==> Replays(s, t))
    && forall i :: 0 <= i < |s.tasks| ==> TaskExtends(s.tasks[i], t.tasks[i])
  }

  lemma ExtendsSelf(s: RunSnapshot)
    ensures Extends(s, s)
  {
    ReplaysSame(s, s);
  }

  lemma LogTransitive(s: RunSnapshot, t: RunSnapshot, u: RunSnapshot)
    requires LogExtends(s, t) && LogExtends(t, u)
    ensures LogExtends(s, u)
  {
  }

  lemma TaskTransitive(a: TaskRun, b: TaskRun, d: TaskRun)
    requires TaskExtends(a, b) && TaskExtends(b, d)
    ensures TaskExtends(a, d)
  {
    forall k | |a.attempts| <= k < |d.attempts| ensures d.attempts[k].number == k + 1 {
      if k < |b.attempts| { assert AttemptKept(b.attempts[k], d.attempts[k]); }
    }
    forall k | 0 <= k < |a.attempts| ensures AttemptKept(a.attempts[k], d.attempts[k]) {
      assert AttemptKept(a.attempts[k], b.attempts[k]) && AttemptKept(b.attempts[k], d.attempts[k]);
    }
  }

  lemma {:induction false} AuditableKept(s: RunSnapshot, t: RunSnapshot)
    requires Extends(s, t) && Auditable(s)
    ensures Auditable(t)
  {
    hide LogExtends, Replays;
    forall i, n | 0 <= i < |t.tasks| && 0 <= n < |t.tasks[i].attempts| ensures t.tasks[i].attempts[n].number == n + 1 {
      assert TaskExtends(s.tasks[i], t.tasks[i]);
      if n < |s.tasks[i].attempts| { assert AttemptKept(s.tasks[i].attempts[n], t.tasks[i].attempts[n]); }
    }
    forall i, j | 0 <= i < j < |t.tasks| ensures t.tasks[i].key != t.tasks[j].key {
      assert TaskExtends(s.tasks[i], t.tasks[i]) && TaskExtends(s.tasks[j], t.tasks[j]);
    }
  }

  lemma {:induction false} ExtendsTransitive(s: RunSnapshot, t: RunSnapshot, u: RunSnapshot)
    requires Extends(s, t) && Extends(t, u)
    ensures Extends(s, u)
  {
    hide LogExtends, TaskExtends, Replays, Auditable;
    LogTransitive(s, t, u);
    if Auditable(s) {
      AuditableKept(s, t);
      ReplaysTransitive(s, t, u);
    }
    forall i | 0 <= i < |s.tasks| ensures TaskExtends(s.tasks[i], u.tasks[i]) {
      assert TaskExtends(s.tasks[i], t.tasks[i]) && TaskExtends(t.tasks[i], u.tasks[i]);
      TaskTransitive(s.tasks[i], t.tasks[i], u.tasks[i]);
    }
  }

  // ---------- the event budget ----------

  /** Events paid for so far by a task, at `w` per finished attempt: 4 locally, 5 with the dispatch boundary. */
  function Spent(t: TaskRun, w: nat): int {
    var k := |t.attempts|;
    match t.status
    case TaskWaitingDependencies => w * k
    case TaskReady => w * k + 1
    case TaskQueued => w * k + 2
    case TaskRunning => if k > 0 && !t.Last().status.AttemptRunning? then w * k - 1 else w * k - 2
    case TaskWaitingRetry => w * k
    case TaskSucceeded => w * k
    case TaskFailed => w * k
    case TaskCanceled => if k > 0 && t.Last().status.AttemptCanceled? then w * k else w * k + 3
    case TaskSkipped => w * k + 2
  }

  function TotalSpent(tasks: seq<TaskRun>, w: nat): int {
    if tasks == [] then 0 else TotalSpent(tasks[..|tasks| - 1], w) + Spent(tasks[|tasks| - 1], w)
  }

  function WorkflowSpent(status: WorkflowStatus): int {
    if status.WorkflowPending? then 0 else if status.WorkflowRunning? then 1 else 2
  }

  /** Everything `s` has paid for. */
  function Budget(s: RunSnapshot, w: nat): int {
    TotalSpent(s.tasks, w) + WorkflowSpent(s.row.status)
  }

  /** The events of the step were paid for. */
  predicate Paid(s: RunSnapshot, t: RunSnapshot, w: nat) {
    |t.events| - |s.events| <= Budget(t, w) - Budget(s, w)
  }

  lemma {:induction false} SpentUpdate(tasks: seq<TaskRun>, i: nat, t: TaskRun, w: nat)
    requires i < |tasks|
    ensures TotalSpent(tasks[i := t], w) == TotalSpent(tasks, w) - Spent(tasks[i], w) + Spent(t, w)
  {
    var n := |tasks| - 1;
    if i == n {
      assert tasks[i := t][..n] == tasks[..n];
    } else {
      SpentUpdate(tasks[..n], i, t, w);
      assert tasks[i := t][..n] == tasks[..n][i := t];
    }
  }

  /** What a step keeps of the past and pays for its events, at both prices. */
  ghost predicate Recorded(s: RunSnapshot, t: RunSnapshot, w: nat, at: Time) {
    Extends(s, t) && Paid(s, t, w) && Stamped(s, t, at)
  }

  lemma RecordedSelf(s: RunSnapshot, w: nat, at: Time)
    ensures Recorded(s, s, w, at)
  {
    ExtendsSelf(s);
  }

  lemma RecordedTransitive(s: RunSnapshot, t: RunSnapshot, u: RunSnapshot, w: nat, at: Time)
    requires Recorded(s, t, w, at) && Recorded(t, u, w, at)
    ensures Recorded(s, u, w, at)
  {
    ExtendsTransitive(s, t, u);
  }

  // ---------- the primitives ----------

  lemma MoveWorkflowRecorded(s: RunSnapshot, to: WorkflowStatus, at: Time, reason: string, w: nat)
    ensures var o := MoveWorkflow(s, to, at, reason);
      o.Applied? ==> Recorded(s, o.s, w, at) && o.s.tasks == s.tasks
  {
    hide Replays, Auditable;
    MoveWorkflowReplays(s, to, at, reason);
  }

  lemma MoveTaskExtends(s: RunSnapshot, i: nat, to: TaskStatus, at: Time, reason: string)
    requires i < |s.tasks|
    requires !to.TaskRunning?
    ensures var o := MoveTask(s, i, to, at, reason); o.Applied? ==> Extends(s, o.s) && Stamped(s, o.s, at)
  {
    hide Replays, Auditable;
    MoveTaskReplays(s, i, to, at, reason);
  }

  lemma MoveTaskPaid(s: RunSnapshot, i: nat, to: TaskStatus, at: Time, reason: string, w: nat)
    requires i < |s.tasks|
    requires Spent(MovedTask(s.tasks[i], to, at), w) >= Spent(s.tasks[i], w) + 1 && !to.TaskRunning?
    ensures var o := MoveTask(s, i, to, at, reason); o.Applied? ==> Recorded(s, o.s, w, at)
  {
    MoveTaskExtends(s, i, to, at, reason);
    SpentUpdate(s.tasks, i, MovedTask(s.tasks[i], to, at), w);
  }

  /** Moves that are paid for whatever the task's history is. */
  lemma SimpleMoveRecorded(s: RunSnapshot, i: nat, to: TaskStatus, at: Time, reason: string, w: nat)
    requires i < |s.tasks|
    requires to.TaskSkipped? || (to.TaskReady? && !s.tasks[i].status.TaskQueued?)
      || (to.TaskCanceled? && !s.tasks[i].status.TaskRunning?)
    requires to.TaskCanceled? && |s.tasks[i].attempts| > 0 ==> !s.tasks[i].Last().status.AttemptCanceled?
    ensures var o := MoveTask(s, i, to, at, reason); o.Applied? ==> Recorded(s, o.s, w, at)
  {
    if TaskEdge(s.tasks[i].status, to) {
      MoveTaskPaid(s, i, to, at, reason, w);
    }
  }

  lemma FinishAttemptRecorded(s: RunSnapshot, i: nat, to: AttemptStatus, result: ExecutionResult, at: Time,
      reason: string, w: nat)
    requires i < |s.tasks| && |s.tasks[i].attempts| > 0 && s.tasks[i].status.TaskRunning?
    ensures var o := FinishAttempt(s, i, to, result, at, reason); o.Applied? ==> Recorded(s, o.s, w, at)
  {
    hide Replays, Auditable;
    FinishAttemptReplays(s, i, to, result, at, reason);
    var o := FinishAttempt(s, i, to, result, at, reason);
    if o.Applied? {
      SpentUpdate(s.tasks, i, o.s.tasks[i], w);
      assert forall k :: 0 <= k < |s.tasks[i].attempts| ==> AttemptKept(s.tasks[i].attempts[k], o.s.tasks[i].attempts[k]);
    }
  }

  lemma BeginAttemptRecorded(s: RunSnapshot, i: nat, at: Time, worker: WorkerID, dispatch: DispatchID, reason: string, w: nat)
    requires i < |s.tasks|
    requires (s.tasks[i].status.TaskReady? && w >= 4) || (s.tasks[i].status.TaskQueued? && w >= 5)
    ensures var o := BeginAttempt(s, i, at, worker, dispatch, reason); o.Applied? ==> Recorded(s, o.s, w, at)
  {
    hide TotalSpent, Spent, Replays, Auditable;
    BeginAttemptReplays(s, i, at, worker, dispatch, reason);
    var t := BeginAttempt(s, i, at, worker, dispatch, reason).s;
    assert t.tasks == s.tasks[i := t.tasks[i]];
    assert TaskExtends(s.tasks[i], t.tasks[i]);
    SpentUpdate(s.tasks, i, t.tasks[i], w);
    StartedSpent(s.tasks[i], t.tasks[i], w);
  }

  lemma StartedSpent(a: TaskRun, b: TaskRun, w: nat)
    requires (a.status.TaskReady? && w >= 4) || (a.status.TaskQueued? && w >= 5)
    requires b.status.TaskRunning? && |b.attempts| == |a.attempts| + 1 && b.Last().status.AttemptRunning?
    ensures Spent(b, w) >= Spent(a, w) + 1
  {
    var k := |a.attempts|;
    assert w * (k + 1) == w * k + w;
  }

  // ---------- the loops ----------

  lemma {:induction false} SkipLoopRecorded(s: RunSnapshot, g: Adjacency, queue: seq<nat>, visited: set<nat>, at: Time, w: nat)
    requires InRange(g) && |s.tasks| == |g| && Bounded(queue, |g|)
    ensures var o := SkipLoop(s, g, queue, visited, at); o.Applied? ==> Recorded(s, o.s, w, at)
    decreases Below(|g|) - visited, |queue|
  {
    hide Recorded, MoveTask;
    if queue == [] {
      RecordedSelf(s, w, at);
    } else {
      var current := queue[0];
      if current in visited {
        SkipLoopRecorded(s, g, queue[1..], visited, at, w);
      } else if Terminal(s.tasks[current].status) {
        SkipLoopRecorded(s, g, queue[1..] + g[current], visited + {current}, at, w);
      } else {
        SimpleMoveRecorded(s, current, TaskSkipped, at, "upstream task failed", w);
        var o := MoveTask(s, current, TaskSkipped, at, "upstream task failed");
        if o.Applied? {
          RecordedShape(s, o.s, w, at);
          SkipLoopRecorded(o.s, g, queue[1..] + g[current], visited + {current}, at, w);
          var p := SkipLoop(s, g, queue, visited, at);
          if p.Applied? { RecordedTransitive(s, o.s, p.s, w, at); }
        }
      }
    }
  }

  lemma RecordedShape(s: RunSnapshot, t: RunSnapshot, w: nat, at: Time)
    requires Recorded(s, t, w, at)
    ensures |t.tasks| == |s.tasks| && |t.remaining| == |s.remaining|
  {
  }

  lemma {:induction false} ReleaseRecorded(s: RunSnapshot, row: seq<nat>, at: Time, w: nat)
    requires |s.tasks| == |s.remaining| && Bounded(row, |s.tasks|) && NoDuplicates(row)
    requires forall k :: 0 <= k < |row| ==> !s.tasks[row[k]].status.TaskQueued?
    ensures var o := ReleaseSuccessors(s, row, at); o.Applied? ==> Recorded(s, o.s, w, at)
    decreases |row|
  {
    hide Recorded, AppendEvent;
    if row == [] {
      RecordedSelf(s, w, at);
    } else if s.remaining[row[0]] >= 1 {
      var j := row[0];
      var s1 := s.(remaining := s.remaining[j := s.remaining[j] - 1]);
      CounterRecorded(s, s1, w, at);
      SimpleMoveRecorded(s1, j, TaskReady, at, "dependencies succeeded", w);
      var o := if s1.remaining[j] == 0 then MoveTask(s1, j, TaskReady, at, "dependencies succeeded") else Applied(s1);
      if o.Applied? {
        if s1.remaining[j] == 0 { RecordedTransitive(s, s1, o.s, w, at); }
        ReleaseRecorded(o.s, row[1..], at, w);
        var p := ReleaseSuccessors(o.s, row[1..], at);
        if p.Applied? { RecordedTransitive(s, o.s, p.s, w, at); }
      }
    }
  }

  lemma CounterRecorded(s: RunSnapshot, t: RunSnapshot, w: nat, at: Time)
    requires t == s.(remaining := t.remaining) && |t.remaining| == |s.remaining|
    ensures Recorded(s, t, w, at)
  {
    hide Replays, Auditable;
    ReplaysSame(s, t);
  }

  lemma ReadyAtRecorded(s: RunSnapshot, i: nat, readyAt: Time, w: nat, at: Time)
    requires i < |s.tasks|
    ensures Recorded(s, SetReadyAt(s, i, readyAt), w, at)
  {
    hide Replays, Auditable;
    ReadyAtReplays(s, i, readyAt);
    var t := SetReadyAt(s, i, readyAt);
    SpentUpdate(s.tasks, i, t.tasks[i], w);
  }

  lemma SettleRecorded(s: RunSnapshot, at: Time, w: nat)
    ensures var o := SettleIfComplete(s, at); o.Applied? ==> Recorded(s, o.s, w, at)
  {
    hide Recorded, MoveWorkflow;
    RecordedSelf(s, w, at);
    MoveWorkflowRecorded(s, WorkflowFailed, at, "one or more tasks failed", w);
    MoveWorkflowRecorded(s, WorkflowSucceeded, at, "all tasks succeeded", w);
  }

  // ---------- settling an attempt ----------

  /** A running task whose last attempt has ended: one event is due for the move out of running. */
  predicate AttemptEnded(t: TaskRun) {
    t.status.TaskRunning? && |t.attempts| > 0 && !t.Last().status.AttemptRunning?
  }

  lemma LeaveRunningRecorded(s: RunSnapshot, i: nat, to: TaskStatus, at: Time, reason: string, w: nat)
    requires i < |s.tasks| && AttemptEnded(s.tasks[i])
    requires to.TaskSucceeded? || to.TaskFailed? || to.TaskWaitingRetry? || to.TaskCanceled?
    ensures var o := MoveTask(s, i, to, at, reason); o.Applied? ==> Recorded(s, o.s, w, at)
  {
    MoveTaskPaid(s, i, to, at, reason, w);
  }

  lemma FailTaskRecorded(s: RunSnapshot, c: Compiled, i: nat, at: Time, reason: string, w: nat)
    requires Runnable(s, c) && i < |s.tasks| && AttemptEnded(s.tasks[i])
    ensures var o := FailTask(s, c, i, at, reason); o.Applied? ==> Recorded(s, o.s, w, at)
  {
    hide Recorded, MoveTask, SettleIfComplete, SkipLoop;
    LeaveRunningRecorded(s, i, TaskFailed, at, reason, w);
    var o1 := MoveTask(s, i, TaskFailed, at, reason);
    if o1.Applied? {
      RecordedShape(s, o1.s, w, at);
      SkipLoopRecorded(o1.s, c.successors, AllSuccessors(c.successors, [i]), {}, at, w);
      var o2 := SkipDescendantsFrom(o1.s, c, [i], at);
      if o2.Applied? {
        RecordedTransitive(s, o1.s, o2.s, w, at);
        SettleRecorded(o2.s, at, w);
        var o3 := SettleIfComplete(o2.s, at);
        if o3.Applied? { RecordedTransitive(s, o2.s, o3.s, w, at); }
      }
    }
  }

  lemma RetryDecisionRecorded(s: RunSnapshot, c: Compiled, i: nat, at: Time, reason: string, w: nat)
    requires Runnable(s, c) && i < |s.tasks| && AttemptEnded(s.tasks[i])
    ensures var o := ApplyRetryDecision(s, c, i, at, reason); o.Applied? ==> Recorded(s, o.s, w, at)
  {
    hide Recorded, MoveTask, FailTask;
    if s.tasks[i].Last().number < c.MaxAttempts(i) {
      LeaveRunningRecorded(s, i, TaskWaitingRetry, at, reason, w);
      var o1 := MoveTask(s, i, TaskWaitingRetry, at, reason);
      if o1.Applied? {
        RecordedShape(s, o1.s, w, at);
        var readyAt := at + c.definition.tasks[i].retry.intervalMillis * NANOS_PER_MILLI;
        ReadyAtRecorded(o1.s, i, readyAt, w, at);
        RecordedTransitive(s, o1.s, SetReadyAt(o1.s, i, readyAt), w, at);
      }
    } else {
      FailTaskRecorded(s, c, i, at, "retry attempts exhausted", w);
    }
  }

  lemma SucceedTaskRecorded(s: RunSnapshot, c: Compiled, i: nat, at: Time, w: nat)
    requires Runnable(s, c) && i < |s.tasks| && AttemptEnded(s.tasks[i])
    requires NoDuplicates(c.successors[i]) && i !in c.successors[i]
    requires forall k :: 0 <= k < |c.successors[i]| ==> !s.tasks[c.successors[i][k]].status.TaskQueued?
    ensures var o := SucceedTask(s, c, i, at); o.Applied? ==> Recorded(s, o.s, w, at)
  {
    hide Recorded, SettleIfComplete, ReleaseSuccessors, AppendEvent;
    LeaveRunningRecorded(s, i, TaskSucceeded, at, "execution succeeded", w);
    var o1 := MoveTask(s, i, TaskSucceeded, at, "execution succeeded");
    if o1.Applied? {
      ReleaseRecorded(o1.s, c.successors[i], at, w);
      var o2 := ReleaseSuccessors(o1.s, c.successors[i], at);
      if o2.Applied? {
        RecordedTransitive(s, o1.s, o2.s, w, at);
        SettleRecorded(o2.s, at, w);
        var o3 := SettleIfComplete(o2.s, at);
        if o3.Applied? { RecordedTransitive(s, o2.s, o3.s, w, at); }
      }
    }
  }

  /** Ending the current attempt, before the task itself moves. */
  lemma EndAttemptRecorded(s: RunSnapshot, c: Compiled, i: nat, number: int, to: AttemptStatus, result: ExecutionResult,
      at: Time, reason: string, w: nat)
    requires Runnable(s, c) && i < |s.tasks| && ActiveAttempt(s, i, number) && !to.AttemptRunning?
    ensures var o := FinishAttempt(s, i, to, result, at, reason);
      && o.Applied? && Recorded(s, o.s, w, at) && Runnable(o.s, c) && AttemptEnded(o.s.tasks[i])
      && forall j :: 0 <= j < |s.tasks| && j != i ==> o.s.tasks[j] == s.tasks[j]
  {
    FinishAttemptRecorded(s, i, to, result, at, reason, w);
  }

  lemma ResultRecorded(c: Compiled, s: RunSnapshot, i: int, number: int, response: ExecutionResponse, at: Time, w: nat)
    requires RunInv(c, s) && Runnable(s, c)
    ensures var o := ApplyAttemptResult(s, c, i, number, response, at); o.Applied? ==> Recorded(s, o.s, w, at)
  {
    hide Recorded, FinishAttempt, SucceedTask, FailTask, ApplyRetryDecision, RunInv;
    var o := ApplyAttemptResult(s, c, i, number, response, at);
    if o.Applied? {
      var result := ResultOf(response);
      match response.kind
      case ResultSuccess =>
        EndAttemptRecorded(s, c, i, number, AttemptSucceeded, result, at, "execution succeeded", w);
        SuccessorsNotQueued(c, s, i);
        var s1 := FinishAttempt(s, i, AttemptSucceeded, result, at, "execution succeeded").s;
        SucceedTaskRecorded(s1, c, i, at, w);
        RecordedTransitive(s, s1, o.s, w, at);
      case ResultPermanentFailure =>
        EndAttemptRecorded(s, c, i, number, AttemptFailed, result, at, "permanent execution failure", w);
        var s1 := FinishAttempt(s, i, AttemptFailed, result, at, "permanent execution failure").s;
        FailTaskRecorded(s1, c, i, at, "permanent execution failure", w);
        RecordedTransitive(s, s1, o.s, w, at);
      case ResultTemporaryFailure =>
        RetryRecorded(c, s, i, number, AttemptFailed, result, at, "temporary execution failure", w);
    }
  }

  lemma SuccessorsNotQueued(c: Compiled, s: RunSnapshot, i: nat)
    requires RunInv(c, s) && i < c.Size() && s.tasks[i].status.TaskRunning?
    ensures NoDuplicates(c.successors[i]) && i !in c.successors[i]
    ensures forall k :: 0 <= k < |c.successors[i]| ==>
      c.successors[i][k] < c.Size() && !s.tasks[c.successors[i][k]].status.TaskQueued?
  {
    LiveTaskMeansRunning(c, s, i);
    SuccessorsBounded(c, i);
    DependencyEdge(c, i, i);
    forall k | 0 <= k < |c.successors[i]| ensures !s.tasks[c.successors[i][k]].status.TaskQueued? {
      SuccessorWaits(c, s, i, c.successors[i][k]);
    }
  }

  lemma RetryRecorded(c: Compiled, s: RunSnapshot, i: nat, number: int, to: AttemptStatus, result: ExecutionResult,
      at: Time, reason: string, w: nat)
    requires Runnable(s, c) && i < |s.tasks| && ActiveAttempt(s, i, number) && !to.AttemptRunning?
    ensures var o1 := FinishAttempt(s, i, to, result, at, reason);
      && o1.Applied? && Runnable(o1.s, c) && |o1.s.tasks[i].attempts| > 0
      && var o := ApplyRetryDecision(o1.s, c, i, at, reason); o.Applied? ==> Recorded(s, o.s, w, at)
  {
    hide Recorded, FinishAttempt, ApplyRetryDecision;
    EndAttemptRecorded(s, c, i, number, to, result, at, reason, w);
    var s1 := FinishAttempt(s, i, to, result, at, reason).s;
    RetryDecisionRecorded(s1, c, i, at, reason, w);
    var o := ApplyRetryDecision(s1, c, i, at, reason);
    if o.Applied? { RecordedTransitive(s, s1, o.s, w, at); }
  }

  // ---------- cancellation ----------

  lemma CancelTaskRecorded(s: RunSnapshot, i: nat, at: Time, max: int, w: nat)
    requires i < |s.tasks| && TaskHistory(s.tasks[i], max)
    ensures var o := CancelTask(s, i, at); o.Applied? ==> Recorded(s, o.s, w, at)
  {
    hide Recorded, AppendEvent;
    RecordedSelf(s, w, at);
    var t := s.tasks[i];
    if t.status.TaskRunning? {
      FinishAttemptRecorded(s, i, AttemptCanceled, CANCELED_RESULT, at, "workflow canceled", w);
      var s1 := FinishAttempt(s, i, AttemptCanceled, CANCELED_RESULT, at, "workflow canceled").s;
      LeaveRunningRecorded(s1, i, TaskCanceled, at, "workflow canceled", w);
      var o := MoveTask(s1, i, TaskCanceled, at, "workflow canceled");
      if o.Applied? { RecordedTransitive(s, s1, o.s, w, at); }
    } else if !Terminal(t.status) {
      SimpleMoveRecorded(s, i, TaskCanceled, at, "workflow canceled", w);
    }
  }

  lemma {:induction false} CancelTasksRecorded(c: Compiled, s: RunSnapshot, n: nat, at: Time, w: nat)
    requires Fits(s, c) && Histories(c, s) && n <= c.Size()
    ensures var o := CancelTasks(s, n, at); o.Applied? ==> Recorded(s, o.s, w, at)
  {
    hide Recorded, CancelTask, TaskHistory;
    if n == 0 {
      RecordedSelf(s, w, at);
    } else {
      CancelTasksRecorded(c, s, n - 1, at, w);
      CancelTasksExact(s, n - 1, at);
      var s1 := CancelTasks(s, n - 1, at).s;
      CancelTaskRecorded(s1, n - 1, at, c.MaxAttempts(n - 1), w);
      var o := CancelTask(s1, n - 1, at);
      if o.Applied? { RecordedTransitive(s, s1, o.s, w, at); }
    }
  }

  lemma CancelRunRecorded(c: Compiled, s: RunSnapshot, at: Time, w: nat)
    requires Fits(s, c) && Histories(c, s)
    ensures var o := CancelRun(s, at); o.Applied? ==> Recorded(s, o.s, w, at)
  {
    hide Recorded, CancelTasks, MoveWorkflow;
    CancelTasksRecorded(c, s, c.Size(), at, w);
    var o1 := CancelTasks(s, |s.tasks|, at);
    if o1.Applied? {
      MoveWorkflowRecorded(o1.s, WorkflowCanceled, at, "cancellation requested", w);
      var o := MoveWorkflow(o1.s, WorkflowCanceled, at, "cancellation requested");
      if o.Applied? { RecordedTransitive(s, o1.s, o.s, w, at); }
    }
  }

  // ---------- every step ----------

  /** The price the step is paid at: the dispatch boundary costs one more event per attempt. */
  predicate Priced(step: Step, w: nat) {
    w >= 4 && (step.Queue? || step.StartQueued? ==> w >= 5)
  }

  function TimeOf(step: Step): Time {
    match step
    case StartWorkflow(at) => at
    case Queue(_, at) => at
    case Return(_, at, _) => at
    case StartQueued(_, at, _, _) => at
    case StartLocal(_, at) => at
    case Result(_, _, _, at) => at
    case Interrupt(_, _, at, _) => at
    case Timeout(_, _, at) => at
    case RetryReady(_, _, at) => at
    case RequestCancel(at) => at
    case Cancel(at) => at
  }

  /** Every applied step only adds to the recorded past and pays for its events; returning a queued task
      is the one step that also gives one event's worth of budget back. */
  lemma StepRecorded(c: Compiled, s: RunSnapshot, step: Step, w: nat)
    requires RunInv(c, s) && Runnable(s, c) && Priced(step, w)
    ensures var o := Perform(c, s, step);
      o.Applied? ==>
        && Extends(s, o.s) && Stamped(s, o.s, TimeOf(step))
        && |o.s.events| - |s.events| <= Budget(o.s, w) - Budget(s, w) + (if step.Return? then 2 else 0)
  {
    hide TotalSpent, ApplyAttemptResult, CancelRun, Extends, Budget, NodeAgrees, BeginAttempt, QueueTask,
      ApplyRetryDecision, MoveTask, MoveWorkflow, RequestCancelStep;
    var o := Perform(c, s, step);
    if o.Applied? {
      match step
      case StartWorkflow(at) => MoveWorkflowRecorded(s, WorkflowRunning, at, "execution started", w);
      case Queue(i, at) => QueueRecorded(s, i, at, w);
      case Return(i, at, reason) => ReturnRecorded(s, i, at, reason, w);
      case StartQueued(i, at, worker, dispatch) => BeginAttemptRecorded(s, i, at, worker, dispatch, "lease claimed", w);
      case StartLocal(i, at) => BeginAttemptRecorded(s, i, at, "", "", "execution started", w);
      case Result(i, number, response, at) => ResultRecorded(c, s, i, number, response, at, w);
      case Interrupt(i, number, at, reason) =>
        RetryRecorded(c, s, i, number, AttemptInterrupted, ExecutionResult("", "interrupted", reason), at, reason, w);
      case Timeout(i, number, at) =>
        RetryRecorded(c, s, i, number, AttemptTimedOut, ExecutionResult("", "timeout", "execution timed out"), at,
          "execution timed out", w);
      case RetryReady(i, number, at) => SimpleMoveRecorded(s, i, TaskReady, at, "retry interval elapsed", w);
      case RequestCancel(at) => RequestRecorded(s, at, w);
      case Cancel(at) => CancelRunRecorded(c, s, at, w);
    }
  }

  lemma RequestRecorded(s: RunSnapshot, at: Time, w: nat)
    ensures var o := RequestCancelStep(s, at);
      o.Applied? ==> Extends(s, o.s) && Stamped(s, o.s, at) && |o.s.events| - |s.events| <= Budget(o.s, w) - Budget(s, w)
  {
    hide Replays, Auditable;
    var o := RequestCancelStep(s, at);
    if o.Applied? { ReplaysSame(s, o.s); }
  }

  lemma QueueRecorded(s: RunSnapshot, i: int, at: Time, w: nat)
    ensures var o := QueueTask(s, i, at); o.Applied? && s.tasks[i].status.TaskReady? ==> Recorded(s, o.s, w, at)
    ensures var o := QueueTask(s, i, at); o.Applied? ==> s.tasks[i].status.TaskReady?
  {
    hide Recorded, AppendEvent;
    var o := QueueTask(s, i, at);
    if o.Applied? {
      MoveWorkflowRecorded(s, WorkflowRunning, at, "distributed execution started", w);
      RecordedSelf(s, w, at);
      var s1 := if s.row.status.WorkflowPending?
        then MoveWorkflow(s, WorkflowRunning, at, "distributed execution started").s else s;
      MoveTaskPaid(s1, i, TaskQueued, at, "dispatch created", w);
      RecordedTransitive(s, s1, o.s, w, at);
    }
  }

  lemma ReturnRecorded(s: RunSnapshot, i: nat, at: Time, reason: string, w: nat)
    requires i < |s.tasks| && s.tasks[i].status.TaskQueued?
    ensures var o := MoveTask(s, i, TaskReady, at, reason);
      o.Applied? && Extends(s, o.s) && Stamped(s, o.s, at)
      && |o.s.events| - |s.events| <= Budget(o.s, w) - Budget(s, w) + 2
  {
    MoveTaskExtends(s, i, TaskReady, at, reason);
    SpentUpdate(s.tasks, i, MovedTask(s.tasks[i], TaskReady, at), w);
  }
}
