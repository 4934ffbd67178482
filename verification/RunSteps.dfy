/** Every step keeps the run invariant, and the error branches of the result steps are reached exactly
    when a counter is stale, which needs a Resume. */
module RunSteps {
  import opened Domain
  import opened Finite
  import opened Graph
  import opened Compiler
  import opened Steps
  import opened RunInvariant

  /** Released and neither succeeded nor failed. */
  predicate Live(st: TaskStatus) {
    st.TaskReady? || st.TaskQueued? || st.TaskRunning? || st.TaskWaitingRetry?
  }

  /** `t` is `s` with task `i` replaced, as far as the invariant can see. */
  ghost predicate Replaced(s: RunSnapshot, t: RunSnapshot, i: nat) {
    && i < |s.tasks| == |t.tasks| && t.tasks == s.tasks[i := t.tasks[i]]
    && t.remaining == s.remaining
  }

  /** The step from `s` to `t` keeps the invariant, and keeps a fresh run fresh. */
  ghost predicate Kept(c: Compiled, s: RunSnapshot, t: RunSnapshot) {
    RunInv(c, t) && (FreshInv(c, s) ==> FreshInv(c, t))
  }

  // ---------- moves of one live task ----------

  /** A node's condition sees its dependencies only through these three classes. */
  lemma NodeKeeps(deps: seq<nat>, before: seq<TaskRun>, after: seq<TaskRun>, st: TaskStatus)
    requires NodeAgrees(deps, before, st) && |after| == |before|
    requires forall d :: d in deps ==> SameClass(before[d].status, after[d].status)
    ensures NodeAgrees(deps, after, st)
  {
    if st.TaskWaitingDependencies? {
      var d :| d in deps && !before[d].status.TaskSucceeded?;
      assert SameClass(before[d].status, after[d].status);
    }
    if st.TaskSkipped? {
      var d :| d in deps && (before[d].status.TaskFailed? || before[d].status.TaskSkipped?);
      assert SameClass(before[d].status, after[d].status);
    }
  }

  predicate SameClass(a: TaskStatus, b: TaskStatus) {
    (a.TaskSucceeded? <==> b.TaskSucceeded?) && (a.TaskFailed? <==> b.TaskFailed?)
    && (a.TaskSkipped? <==> b.TaskSkipped?) && (a.TaskCanceled? <==> b.TaskCanceled?)
  }

  lemma LiveMoveGraph(c: Compiled, s: RunSnapshot, t: RunSnapshot, i: nat)
    requires ValidCompiled(c) && Fits(s, c) && GraphAgrees(c, s.tasks) && Replaced(s, t, i)
    requires Live(s.tasks[i].status) && Live(t.tasks[i].status)
    ensures GraphAgrees(c, t.tasks)
  {
    forall j | 0 <= j < c.Size() ensures NodeAgrees(c.dependencies[j], t.tasks, t.tasks[j].status) {
      var deps := c.dependencies[j];
      assert NodeAgrees(deps, s.tasks, s.tasks[j].status);
      assert NodeAgrees(deps, s.tasks, t.tasks[j].status);
      forall d | d in deps ensures SameClass(s.tasks[d].status, t.tasks[d].status) {}
      NodeKeeps(deps, s.tasks, t.tasks, t.tasks[j].status);
    }
  }

  lemma LiveMove(c: Compiled, s: RunSnapshot, t: RunSnapshot, i: nat)
    requires RunInv(c, s) && Replaced(s, t, i) && t.row.status == s.row.status
    requires Live(s.tasks[i].status) && Live(t.tasks[i].status) && t.tasks[i].key == s.tasks[i].key
    requires TaskHistory(t.tasks[i], c.MaxAttempts(i))
    requires s.row.status.WorkflowRunning?
    ensures Kept(c, s, t)
  {
    hide NodeAgrees, Unsucceeded, Ranked, Transposes, IndexIsBijection;
    LiveMoveGraph(c, s, t, i);
    CountersUntouched(c, s, t);
    assert !Terminal(t.tasks[i].status);
  }

  lemma CountersUntouched(c: Compiled, s: RunSnapshot, t: RunSnapshot)
    requires ValidCompiled(c) && Fits(s, c) && Fits(t, c) && t.remaining == s.remaining
    requires forall j :: 0 <= j < c.Size() ==> (t.tasks[j].status.TaskSucceeded? <==> s.tasks[j].status.TaskSucceeded?)
    requires forall j :: 0 <= j < c.Size() && Terminal(s.tasks[j].status) ==> Terminal(t.tasks[j].status)
    ensures LiveCounters(c, s) ==> LiveCounters(c, t)
    ensures AllCounters(c, s) ==> AllCounters(c, t)
  {
    forall j | 0 <= j < c.Size() ensures Unsucceeded(c.dependencies[j], t.tasks) == Unsucceeded(c.dependencies[j], s.tasks) {
      UnsucceededSame(c.dependencies[j], s.tasks, t.tasks);
    }
  }

  /** Starting the workflow changes no task. */
  lemma StartKeeps(c: Compiled, s: RunSnapshot, at: Time, reason: string)
    requires RunInv(c, s) && s.row.status.WorkflowPending?
    ensures var o := MoveWorkflow(s, WorkflowRunning, at, reason);
            o.Applied? && Kept(c, s, o.s) && o.s.tasks == s.tasks
  {
  }

  lemma QueueKeeps(c: Compiled, s: RunSnapshot, i: int, at: Time)
    requires RunInv(c, s)
    ensures var o := QueueTask(s, i, at);
            && (o.Applied? <==> 0 <= i < c.Size() && s.tasks[i].status.TaskReady? && !WorkflowTerminal(s.row.status))
            && (o.Applied? ==> Kept(c, s, o.s))
            && (o.Applied? ==> o.s.tasks == s.tasks[i := s.tasks[i].(status := TaskQueued)] && o.s.row.status.WorkflowRunning?)
  {
    hide AppendEvent, NodeAgrees, Unsucceeded, Ranked, Transposes, IndexIsBijection;
    if s.row.status.WorkflowPending? {
      StartKeeps(c, s, at, "distributed execution started");
    }
    var o := QueueTask(s, i, at);
    if o.Applied? {
      assert TaskHistory(s.tasks[i], c.MaxAttempts(i));
      var m := if s.row.status.WorkflowPending?
        then MoveWorkflow(s, WorkflowRunning, at, "distributed execution started").s else s;
      assert TaskHistory(o.s.tasks[i], c.MaxAttempts(i));
      LiveMove(c, m, o.s, i);
    }
  }

  lemma ReturnKeeps(c: Compiled, s: RunSnapshot, i: nat, at: Time, reason: string)
    requires RunInv(c, s) && i < c.Size() && s.tasks[i].status.TaskQueued?
    ensures var o := ReturnQueuedTaskToReady(s, i, at, reason);
            && o.Applied? && Kept(c, s, o.s)
            && o.s.tasks == s.tasks[i := s.tasks[i].(status := TaskReady)] && o.s.row.status == s.row.status
  {
    hide AppendEvent, NodeAgrees, Unsucceeded, Ranked, Transposes, IndexIsBijection;
    var o := ReturnQueuedTaskToReady(s, i, at, reason);
    LiveTaskMeansRunning(c, s, i);
    assert TaskHistory(s.tasks[i], c.MaxAttempts(i));
    assert TaskHistory(o.s.tasks[i], c.MaxAttempts(i));
    LiveMove(c, s, o.s, i);
  }

  /** A queued, running or waiting-retry task, or a ready one with history, only occurs in a running workflow. */
  lemma LiveTaskMeansRunning(c: Compiled, s: RunSnapshot, i: nat)
    requires RunInv(c, s) && i < c.Size()
    ensures s.tasks[i].status.TaskQueued? || s.tasks[i].status.TaskRunning? || s.tasks[i].status.TaskWaitingRetry?
            ==> s.row.status.WorkflowRunning?
    ensures !Terminal(s.tasks[i].status) ==> !WorkflowTerminal(s.row.status)
  {
  }

  function StartedTask(t: TaskRun, at: Time, worker: WorkerID, dispatch: DispatchID): TaskRun {
    t.(status := TaskRunning, readyAt := None,
       attempts := t.attempts + [Attempt(|t.attempts| + 1, AttemptRunning, worker, dispatch, at, None, NO_RESULT)])
  }

  /** Starting an attempt: allowed from queued (distributed) and ready (local). */
  lemma BeginKeeps(c: Compiled, s: RunSnapshot, i: nat, at: Time, worker: WorkerID, dispatch: DispatchID, reason: string)
    requires RunInv(c, s) && i < c.Size() && s.row.status.WorkflowRunning?
    ensures var o := BeginAttempt(s, i, at, worker, dispatch, reason);
            && (o.Applied? <==> s.tasks[i].status.TaskReady? || s.tasks[i].status.TaskQueued?)
            && (o.Applied? ==> Kept(c, s, o.s))
            && (o.Applied? ==> o.s.row.status == s.row.status)
            && (o.Applied? ==> o.s.tasks == s.tasks[i := StartedTask(s.tasks[i], at, worker, dispatch)])
  {
    hide AppendEvent, NodeAgrees, Unsucceeded, Ranked, Transposes, IndexIsBijection;
    var o := BeginAttempt(s, i, at, worker, dispatch, reason);
    if o.Applied? {
      var t, t' := s.tasks[i], o.s.tasks[i];
      assert TaskHistory(t, c.MaxAttempts(i));
      assert t'.attempts[..|t.attempts|] == t.attempts;
      forall k | 0 <= k < |t'.attempts| - 1 ensures Retryable(t'.attempts[k].status) {
        assert t'.attempts[k] == t.attempts[k];
        if k == |t.attempts| - 1 { assert t.attempts[k] == t.Last(); }
      }
      assert TaskHistory(t', c.MaxAttempts(i));
      LiveMove(c, s, o.s, i);
    }
  }

  /** A queued start names its owner and the task it was made for; apart from that the transition table decides. */
  lemma {:induction false} StartQueuedExactly(s: RunSnapshot, c: Compiled, i: int, at: Time, worker: WorkerID,
      dispatch: DispatchID)
    ensures var o := StartQueuedAttempt(s, c, i, at, worker, dispatch);
      var known := 0 <= i < |s.tasks| && i < c.Size();
      var owned := known && |worker| > 0 && |dispatch| > 0;
      var same := owned && s.tasks[i].key == c.definition.tasks[i].key;
      && (o == Rejected(IndexOutOfRange) <==> !known) && (o == Rejected(MissingOwner) <==> known && !owned)
      && (o == Rejected(IdentityMismatch) <==> owned && !same)
      && (o.Applied? <==> same && (s.tasks[i].status.TaskReady? || s.tasks[i].status.TaskQueued?))
      && (o.Applied? ==> o.s.tasks == s.tasks[i := StartedTask(s.tasks[i], at, worker, dispatch)])
  {
    hide AppendEvent;
  }

  /** The retry timer of attempt `number` has run out for a task that still waits for it. */
  predicate RetryDue(t: TaskRun, number: int, at: Time) {
    t.status.TaskWaitingRetry? && |t.attempts| == number && t.readyAt.Some? && t.readyAt.value <= at
  }

  lemma RetryReadyKeeps(c: Compiled, s: RunSnapshot, i: int, number: int, at: Time)
    requires RunInv(c, s)
    ensures var o := MakeRetryReady(s, i, number, at);
            && (o.Applied? <==> 0 <= i < c.Size() && RetryDue(s.tasks[i], number, at))
            && (o.Rejected? <==> !(0 <= i < c.Size()))
            && (o.Applied? ==> Kept(c, s, o.s) && o.s.row.status == s.row.status)
            && (o.Applied? ==> o.s.tasks == s.tasks[i := s.tasks[i].(status := TaskReady, readyAt := None)])
  {
    hide AppendEvent, NodeAgrees, Unsucceeded, Ranked, Transposes, IndexIsBijection;
    if 0 <= i < c.Size() {
      assert TaskHistory(s.tasks[i], c.MaxAttempts(i));
      var o := MakeRetryReady(s, i, number, at);
      if o.Applied? {
        LiveTaskMeansRunning(c, s, i);
        assert TaskHistory(o.s.tasks[i], c.MaxAttempts(i));
        LiveMove(c, s, o.s, i);
      }
    }
  }

  // ---------- success ----------

  /** Every successor still has a count to lose, and can become ready if it loses its last one. */
  ghost predicate CanRelease(s: RunSnapshot, row: seq<nat>)
    requires |s.tasks| == |s.remaining| && Bounded(row, |s.tasks|)
  {
    forall j :: j in row ==> s.remaining[j] >= 1 && (s.remaining[j] == 1 ==> TaskEdge(s.tasks[j].status, TaskReady))
  }

  /** `after` is `before` with the tasks of `row` that had one count left moved to ready. */
  ghost predicate ReleasedTasks(before: seq<TaskRun>, after: seq<TaskRun>, remaining: seq<int>, row: seq<nat>, at: Time)
    requires |before| == |remaining|
  {
    && |after| == |before|
    && forall j :: 0 <= j < |before| ==>
         after[j] == if j in row && remaining[j] == 1 then MovedTask(before[j], TaskReady, at) else before[j]
  }

  ghost predicate ReleasedCounts(before: seq<int>, after: seq<int>, row: seq<nat>) {
    |after| == |before| && forall j :: 0 <= j < |before| ==> after[j] == if j in row then before[j] - 1 else before[j]
  }

  /** The head of the row handled on its own. */
  lemma ReleaseOne(s: RunSnapshot, t: RunSnapshot, j: nat, rest: seq<nat>, at: Time)
    requires |s.tasks| == |s.remaining| && j < |s.tasks| && Bounded(rest, |s.tasks|) && j !in rest
    requires s.remaining[j] >= 1 && (s.remaining[j] == 1 ==> TaskEdge(s.tasks[j].status, TaskReady))
    requires ReleasedTasks(s.tasks, t.tasks, s.remaining, [j], at) && ReleasedCounts(s.remaining, t.remaining, [j])
    ensures CanRelease(t, rest) <==> CanRelease(s, [j] + rest)
  {
    forall k | k in rest ensures t.remaining[k] == s.remaining[k] && t.tasks[k] == s.tasks[k] {}
    if CanRelease(t, rest) {
      forall k | k in [j] + rest ensures s.remaining[k] >= 1 && (s.remaining[k] == 1 ==> TaskEdge(s.tasks[k].status, TaskReady)) {
        assert k == j || k in rest;
      }
    }
    if CanRelease(s, [j] + rest) {
      forall k | k in rest ensures t.remaining[k] >= 1 && (t.remaining[k] == 1 ==> TaskEdge(t.tasks[k].status, TaskReady)) {
        assert k in [j] + rest;
      }
    }
  }

  lemma ReleaseCompose(s: RunSnapshot, t: RunSnapshot, u: RunSnapshot, j: nat, rest: seq<nat>, at: Time)
    requires |s.tasks| == |s.remaining| && j < |s.tasks| && Bounded(rest, |s.tasks|) && j !in rest
    requires ReleasedTasks(s.tasks, t.tasks, s.remaining, [j], at) && ReleasedCounts(s.remaining, t.remaining, [j])
    requires ReleasedTasks(t.tasks, u.tasks, t.remaining, rest, at) && ReleasedCounts(t.remaining, u.remaining, rest)
    ensures ReleasedTasks(s.tasks, u.tasks, s.remaining, [j] + rest, at) && ReleasedCounts(s.remaining, u.remaining, [j] + rest)
  {
    forall k: nat ensures k in [j] + rest <==> k == j || k in rest {}
  }

  /** The successor loop takes one count from each successor and readies those that reach zero, or fails. */
  lemma {:induction false} ReleaseExact(s: RunSnapshot, row: seq<nat>, at: Time)
    requires |s.tasks| == |s.remaining| && Bounded(row, |s.tasks|) && NoDuplicates(row)
    ensures var o := ReleaseSuccessors(s, row, at);
            if CanRelease(s, row)
            then o.Applied? && ReleasedTasks(s.tasks, o.s.tasks, s.remaining, row, at)
                 && ReleasedCounts(s.remaining, o.s.remaining, row) && o.s.row.status == s.row.status
            else o.Rejected?
    decreases |row|
  {
    hide AppendEvent, ReleasedTasks, ReleasedCounts, MoveTask;
    if row == [] {
      ReleaseNothing(s, at);
    } else {
      var j: nat, rest: seq<nat> := row[0], row[1..];
      assert row == [j] + rest && j !in rest;
      var left := s.remaining[j] - 1;
      if left >= 0 && (left == 0 ==> TaskEdge(s.tasks[j].status, TaskReady)) {
        ReleaseHead(s, j, at);
        var s2 := HeadReleased(s, j, at);
        ReleaseExact(s2, rest, at);
        ReleaseOne(s, s2, j, rest, at);
        if CanRelease(s, row) {
          ReleaseCompose(s, s2, ReleaseSuccessors(s2, rest, at).s, j, rest, at);
        }
      } else {
        HeadRefused(s, j, at);
        assert j in row && !CanRelease(s, row);
      }
    }
  }

  lemma ReleaseNothing(s: RunSnapshot, at: Time)
    requires |s.tasks| == |s.remaining|
    ensures CanRelease(s, []) && ReleasedTasks(s.tasks, s.tasks, s.remaining, [], at)
      && ReleasedCounts(s.remaining, s.remaining, [])
  {
  }

  /** The run after the first successor lost a count. */
  function HeadReleased(s: RunSnapshot, j: nat, at: Time): RunSnapshot
    requires |s.tasks| == |s.remaining| && j < |s.tasks|
    requires s.remaining[j] >= 1 && (s.remaining[j] == 1 ==> TaskEdge(s.tasks[j].status, TaskReady))
  {
    var s1 := s.(remaining := s.remaining[j := s.remaining[j] - 1]);
    if s.remaining[j] == 1 then MoveTask(s1, j, TaskReady, at, "dependencies succeeded").s else s1
  }

  lemma ReleaseHead(s: RunSnapshot, j: nat, at: Time)
    requires |s.tasks| == |s.remaining| && j < |s.tasks|
    requires s.remaining[j] >= 1 && (s.remaining[j] == 1 ==> TaskEdge(s.tasks[j].status, TaskReady))
    ensures var t := HeadReleased(s, j, at); var s1 := s.(remaining := s.remaining[j := s.remaining[j] - 1]);
      && |t.tasks| == |t.remaining| == |s.tasks| && t.row.status == s.row.status
      && ReleasedTasks(s.tasks, t.tasks, s.remaining, [j], at) && ReleasedCounts(s.remaining, t.remaining, [j])
      && (s.remaining[j] == 1 ==> MoveTask(s1, j, TaskReady, at, "dependencies succeeded") == Applied(t))
  {
    hide AppendEvent;
  }

  lemma HeadRefused(s: RunSnapshot, j: nat, at: Time)
    requires |s.tasks| == |s.remaining| && j < |s.tasks|
    requires !(s.remaining[j] >= 1 && (s.remaining[j] == 1 ==> TaskEdge(s.tasks[j].status, TaskReady)))
    ensures s.remaining[j] >= 1 ==>
      MoveTask(s.(remaining := s.remaining[j := s.remaining[j] - 1]), j, TaskReady, at, "dependencies succeeded").Rejected?
  {
    hide AppendEvent;
  }
}
