/** A concrete resumed run in which a correct result of the current attempt is refused: task c depends on a
    and b, a fails, c is skipped, the process restarts, and the retried b succeeds. And the same run ended as failed
    while b is recorded as running. */
module StaleCounterExample {
  import opened Domain
  import opened Graph
  import opened Compiler
  import opened Steps
  import opened Propagation
  import opened RunInvariant
  import opened RunSteps
  import opened RunResults
  import opened RunTheorems
  import opened ResumeSteps
  import opened Recovery
  import opened History
  import opened ResumedRuns

  const INPUT := Input([])
  const RETRY := RetryPolicy(2, 0)
  const DEFINITION := WorkflowDefinition("example", 2, [
    TaskDefinition("a", EXECUTOR_MOCK, "run", INPUT, [], RETRY, 1),
    TaskDefinition("b", EXECUTOR_MOCK, "run", INPUT, [], RETRY, 1),
    TaskDefinition("c", EXECUTOR_MOCK, "run", INPUT, ["a", "b"], RETRY, 1)])
  const DIAMOND := Compiled(DEFINITION, map["a" := 0, "b" := 1, "c" := 2], [[], [], [0, 1]], [[2], [2], []])

  predicate IsDiamond(c: Compiled) {
    c.dependencies == [[], [], [0, 1]] && c.successors == [[2], [2], []] && c.Size() == 3 && c.MaxAttempts(1) == 2
  }

  lemma DiamondIsValid()
    ensures ValidCompiled(DIAMOND) && IsDiamond(DIAMOND)
  {
    DiamondGraph();
    hide Transposes, Ranked;
    assert IndexIsBijection(DIAMOND);
  }

  lemma DiamondGraph()
    ensures Transposes(DIAMOND.successors, DIAMOND.dependencies) && Ranked(DIAMOND)
  {
    assert Ranks(DIAMOND.successors, [0, 0, 1]);
  }

  const FAILURE := ExecutionResponse(ResultPermanentFailure, "", "", "")
  const SUCCESS := ExecutionResponse(ResultSuccess, "", "", "")

  /** One more step at the end of a run. */
  lemma {:induction false} Extend(c: Compiled, states: seq<RunSnapshot>, steps: seq<LocalStep>, step: LocalStep, t: RunSnapshot)
    requires ValidCompiled(c) && IsLocalRun(c, states, steps)
    requires Runnable(states[|steps|], c) && PerformLocal(c, states[|steps|], step) == Some(t)
    ensures IsLocalRun(c, states + [t], steps + [step])
  {
    hide PerformLocal, ValidCompiled;
    var states', steps' := states + [t], steps + [step];
    forall k | 0 <= k < |steps'| ensures Runnable(states'[k], c)
      && PerformLocal(c, states'[k], steps'[k]) == Some(states'[k + 1]) {
      if k < |steps| { assert states'[k + 1] == states[k + 1]; }
    }
  }

  /** A run whose last snapshot has the given task statuses and numbers of attempts. */
  ghost predicate At(c: Compiled, states: seq<RunSnapshot>, steps: seq<LocalStep>, statuses: seq<TaskStatus>, attempts: seq<nat>)
    requires ValidCompiled(c)
  {
    && IsLocalRun(c, states, steps) && |statuses| == 3 == |attempts|
    && var s := states[|steps|];
    && Fits(s, c) && |s.tasks| == 3
    && forall i :: 0 <= i < 3 ==> s.tasks[i].status == statuses[i] && |s.tasks[i].attempts| == attempts[i]
  }

  lemma {:induction false} Fresh(c: Compiled) returns (states: seq<RunSnapshot>)
    requires ValidCompiled(c) && IsDiamond(c)
    ensures At(c, states, [], [TaskReady, TaskReady, TaskWaitingDependencies], [0, 0, 0]) && states[0].row.status.WorkflowPending?
    ensures states[0].row.cancelRequestedAt.None?
  {
    hide ValidCompiled;
    ValidAdjacent(c);
    states := [NewRunSnapshot("r", c, 0)];
  }

  lemma {:induction false} Launch(c: Compiled, states: seq<RunSnapshot>) returns (states': seq<RunSnapshot>)
    requires ValidCompiled(c) && IsDiamond(c)
    requires At(c, states, [], [TaskReady, TaskReady, TaskWaitingDependencies], [0, 0, 0])
      && states[0].row.status.WorkflowPending?
    ensures At(c, states', [Do(StartWorkflow(0))], [TaskReady, TaskReady, TaskWaitingDependencies], [0, 0, 0])
    ensures states'[1].row.status.WorkflowRunning? && states'[1].row.cancelRequestedAt == states[0].row.cancelRequestedAt
  {
    hide RunInv, ValidCompiled;
    LocalRunInv(c, states, [], 0);
    InvFits(c, states[0]);
    StartKeeps(c, states[0], 0, "execution started");
    var t := MoveWorkflow(states[0], WorkflowRunning, 0, "execution started").s;
    Extend(c, states, [], Do(StartWorkflow(0)), t);
    states' := states + [t];
  }

  lemma {:induction false} Begin(c: Compiled, states: seq<RunSnapshot>, steps: seq<LocalStep>,
      statuses: seq<TaskStatus>, attempts: seq<nat>, i: nat)
    returns (states': seq<RunSnapshot>)
    requires ValidCompiled(c) && IsDiamond(c) && At(c, states, steps, statuses, attempts)
    requires states[|steps|].row.status.WorkflowRunning? && i < 3 && statuses[i].TaskReady?
    ensures At(c, states', steps + [Do(StartLocal(i, 0))], statuses[i := TaskRunning], attempts[i := attempts[i] + 1])
    ensures states'[|steps| + 1].row.cancelRequestedAt == states[|steps|].row.cancelRequestedAt
    ensures states'[|steps| + 1].row.status.WorkflowRunning? && states' == states + [states'[|steps| + 1]]
    ensures states'[|steps| + 1].tasks == states[|steps|].tasks[i := states'[|steps| + 1].tasks[i]]
    ensures ActiveAttempt(states'[|steps| + 1], i, attempts[i] + 1) && states'[|steps| + 1].remaining == states[|steps|].remaining
  {
    hide RunInv, ValidCompiled, BeginAttempt;
    var s := states[|steps|];
    LocalRunInv(c, states, steps, |steps|);
    InvFits(c, s);
    BeginKeeps(c, s, i, 0, "", "", "execution started");
    BeginKeepsRow(s, i);
    var t := BeginAttempt(s, i, 0, "", "", "execution started").s;
    InvFits(c, t);
    Extend(c, states, steps, Do(StartLocal(i, 0)), t);
    states' := states + [t];
  }

  lemma BeginKeepsRow(s: RunSnapshot, i: nat)
    requires i < |s.tasks| && s.tasks[i].status.TaskReady?
    ensures var o := BeginAttempt(s, i, 0, "", "", "execution started");
      o.Applied? && o.s.row.cancelRequestedAt == s.row.cancelRequestedAt && o.s.remaining == s.remaining
  {
  }

  /** Task a fails for good: c is skipped, b goes on running. */
  lemma {:induction false} Fail(c: Compiled, states: seq<RunSnapshot>, steps: seq<LocalStep>) returns (states': seq<RunSnapshot>)
    requires ValidCompiled(c) && IsDiamond(c)
    requires At(c, states, steps, [TaskRunning, TaskRunning, TaskWaitingDependencies], [1, 1, 0])
      && ActiveAttempt(states[|steps|], 0, 1)
    ensures At(c, states', steps + [Do(Result(0, 1, FAILURE, 0))], [TaskFailed, TaskRunning, TaskSkipped], [1, 1, 0])
    ensures states'[|steps| + 1].row.cancelRequestedAt == states[|steps|].row.cancelRequestedAt
  {
    hide RunInv, ValidCompiled, ApplyAttemptResult, OthersWaitOrStay;
    var s := states[|steps|];
    LocalRunInv(c, states, steps, |steps|);
    InvFits(c, s);
    PermanentFailureKeeps(c, s, 0, 1, FAILURE, 0);
    var t := ApplyAttemptResult(s, c, 0, 1, FAILURE, 0).s;
    InvFits(c, t);
    ThirdSkipped(c, s, t);
    ResultKeepsRow(c, s, t);
    Extend(c, states, steps, Do(Result(0, 1, FAILURE, 0)), t);
    states' := states + [t];
  }

  lemma {:induction false} ThirdSkipped(c: Compiled, s: RunSnapshot, t: RunSnapshot)
    requires IsDiamond(c)
    requires |s.tasks| == 3 == |t.tasks| && s.tasks[2].status.TaskWaitingDependencies? && s.tasks[1].status.TaskRunning?
    requires OthersWaitOrStay(s, t, 0)
    requires SkippedWhere(s.tasks[0 := t.tasks[0]], t.tasks, Descendants(c.successors, [0]), 0)
    ensures t.tasks[2].status.TaskSkipped? && t.tasks[2].attempts == s.tasks[2].attempts && t.tasks[1] == s.tasks[1]
  {
    assert Edge(c.successors, 0, 2) by { assert c.successors[0] == [2]; }
    EdgeReaches(c.successors, 0, 2);
    assert ReachedFrom(c.successors, [0], 2) by { assert 0 in [0]; }
    assert 2 in Descendants(c.successors, [0]);
  }

  lemma {:induction false} ResultKeepsRow(c: Compiled, s: RunSnapshot, t: RunSnapshot)
    requires Runnable(s, c) && 0 < |s.tasks| && ActiveAttempt(s, 0, 1)
    requires ApplyAttemptResult(s, c, 0, 1, FAILURE, 0) == Applied(t)
    ensures t.row.cancelRequestedAt == s.row.cancelRequestedAt
  {
    hide SkipLoop;
    var s1 := FinishAttempt(s, 0, AttemptFailed, ResultOf(FAILURE), 0, "permanent execution failure").s;
    var s2 := MoveTask(s1, 0, TaskFailed, 0, "permanent execution failure").s;
    SkipDescendantsExact(s2, c, [0], 0);
  }

  /** The process restarts: b waits for its retry, the count of c is gone. */
  lemma {:induction false} Restart(c: Compiled, states: seq<RunSnapshot>, steps: seq<LocalStep>)
    returns (states': seq<RunSnapshot>)
    requires ValidCompiled(c) && IsDiamond(c)
    requires At(c, states, steps, [TaskFailed, TaskRunning, TaskSkipped], [1, 1, 0])
      && states[|steps|].row.cancelRequestedAt.None?
    ensures At(c, states', steps + [Resume(0)], [TaskFailed, TaskWaitingRetry, TaskSkipped], [1, 1, 0])
    ensures var t := states'[|steps| + 1]; RetryDue(t.tasks[1], 1, 0) && t.remaining[2] == 0
  {
    hide RunInv, ValidCompiled, PrepareForResume, Recorded, Propagated, IsDiamond, RestedTask;
    var s := states[|steps|];
    LocalRunInv(c, states, steps, |steps|);
    InvFits(c, s);
    ValidAdjacent(c);
    LiveTaskMeansRunning(c, s, 1);
    ResumeRestores(c, s, 0);
    var t := PrepareForResume(s, c, 0).s;
    InvFits(c, t);
    var mid :| Propagated(c, s, mid, t.tasks, 0);
    RestartedTasks(c, s, mid, t.tasks);
    Extend(c, states, steps, Resume(0), t);
    states' := states + [t];
  }

  lemma {:induction false} RestartedTasks(c: Compiled, s: RunSnapshot, mid: seq<TaskRun>, after: seq<TaskRun>)
    requires RunInv(c, s) && IsDiamond(c) && s.row.status.WorkflowRunning? && Propagated(c, s, mid, after, 0)
    requires s.tasks[0].status.TaskFailed? && s.tasks[1].status.TaskRunning? && s.tasks[2].status.TaskSkipped?
      && |s.tasks[1].attempts| == 1
    ensures |after| == 3 && after[0] == s.tasks[0] && after[2] == s.tasks[2]
    ensures RetryDue(after[1], 1, 0) && |after[1].attempts| == 1
  {
    hide RunInv, ValidCompiled, Descendants, BlockedSources;
    InvFits(c, s);
    RunningUncanceled(c, s);
    if 1 in Descendants(c.successors, BlockedSources(mid, |mid|)) {
      BlockedDescendantWaits(c, s, mid, 1, 0);
    }
    assert mid[1] == RestedTask(s.tasks[1], 2, 0);
  }

  /** The retry timer is due at once, and b becomes ready again. */
  lemma {:induction false} Retry(c: Compiled, states: seq<RunSnapshot>, steps: seq<LocalStep>) returns (states': seq<RunSnapshot>)
    requires ValidCompiled(c) && IsDiamond(c)
    requires At(c, states, steps, [TaskFailed, TaskWaitingRetry, TaskSkipped], [1, 1, 0])
    requires RetryDue(states[|steps|].tasks[1], 1, 0) && states[|steps|].remaining[2] == 0
    ensures At(c, states', steps + [Do(RetryReady(1, 1, 0))], [TaskFailed, TaskReady, TaskSkipped], [1, 1, 0])
    ensures states'[|steps| + 1].remaining[2] == 0 && states'[|steps| + 1].row.status.WorkflowRunning?
  {
    hide RunInv, ValidCompiled;
    var s := states[|steps|];
    LocalRunInv(c, states, steps, |steps|);
    InvFits(c, s);
    LiveTaskMeansRunning(c, s, 1);
    RetryReadyKeeps(c, s, 1, 1, 0);
    var t := MakeRetryReady(s, 1, 1, 0).s;
    InvFits(c, t);
    Extend(c, states, steps, Do(RetryReady(1, 1, 0)), t);
    states' := states + [t];
  }

  lemma {:induction false} Refused(c: Compiled, states: seq<RunSnapshot>, steps: seq<LocalStep>)
    requires ValidCompiled(c) && IsDiamond(c)
    requires At(c, states, steps, [TaskFailed, TaskRunning, TaskSkipped], [1, 2, 0])
    requires ActiveAttempt(states[|steps|], 1, 2) && states[|steps|].remaining[2] == 0
    ensures Runnable(states[|steps|], c) && ApplyAttemptResult(states[|steps|], c, 1, 2, SUCCESS, 0).Rejected?
  {
    hide RunInv, ValidCompiled, ApplyAttemptResult, SuccessReleased, OthersWaitOrStay;
    var s := states[|steps|];
    LocalRunInv(c, states, steps, |steps|);
    InvFits(c, s);
    SuccessKeeps(c, s, 1, 2, SUCCESS, 0);
    assert c.successors[1] == [2] && 2 in c.successors[1];
  }

  /** a has failed, b is running: the moment the process stops. */
  lemma {:induction false} FailedRun(c: Compiled) returns (states: seq<RunSnapshot>, steps: seq<LocalStep>)
    requires ValidCompiled(c) && IsDiamond(c)
    ensures At(c, states, steps, [TaskFailed, TaskRunning, TaskSkipped], [1, 1, 0]) && states[|steps|].row.cancelRequestedAt.None?
  {
    hide ValidCompiled, IsDiamond, ApplyAttemptResult, PerformLocal;
    states := Fresh(c);
    states := Launch(c, states);
    steps := [Do(StartWorkflow(0))];
    states := Begin(c, states, steps, [TaskReady, TaskReady, TaskWaitingDependencies], [0, 0, 0], 0);
    steps := steps + [Do(StartLocal(0, 0))];
    states := Begin(c, states, steps, [TaskRunning, TaskReady, TaskWaitingDependencies], [1, 0, 0], 1);
    steps := steps + [Do(StartLocal(1, 0))];
    states := Fail(c, states, steps);
    steps := steps + [Do(Result(0, 1, FAILURE, 0))];
  }

  lemma {:induction false} RefusedRun(c: Compiled) returns (states: seq<RunSnapshot>, steps: seq<LocalStep>)
    requires ValidCompiled(c) && IsDiamond(c)
    ensures IsLocalRun(c, states, steps)
    ensures var s := states[|steps|];
      && Runnable(s, c) && 1 < |s.tasks| && ActiveAttempt(s, 1, 2) && ApplyAttemptResult(s, c, 1, 2, SUCCESS, 0).Rejected?
  {
    hide ValidCompiled, IsDiamond, ApplyAttemptResult, PerformLocal;
    states, steps := FailedRun(c);
    states := Restart(c, states, steps);
    steps := steps + [Resume(0)];
    states := Retry(c, states, steps);
    steps := steps + [Do(RetryReady(1, 1, 0))];
    states := Begin(c, states, steps, [TaskFailed, TaskReady, TaskSkipped], [1, 1, 0], 1);
    steps := steps + [Do(StartLocal(1, 0))];
    Refused(c, states, steps);
  }

  /** The second attempt of b succeeds in the executor, and the engine refuses to record it: not every current
      result is accepted once a run was resumed. */
  lemma {:induction false} ResumedSuccessRefused() returns (c: Compiled, states: seq<RunSnapshot>, steps: seq<LocalStep>)
    ensures ValidCompiled(c) && IsLocalRun(c, states, steps)
    ensures var s := states[|steps|];
      && Runnable(s, c) && 1 < |s.tasks| && ActiveAttempt(s, 1, 2) && ApplyAttemptResult(s, c, 1, 2, SUCCESS, 0).Rejected?
  {
    hide ValidCompiled, IsLocalRun, IsDiamond, ApplyAttemptResult;
    DiamondIsValid();
    c := DIAMOND;
    states, steps := RefusedRun(c);
  }

  /** The same run, taken up by `Execute` instead of `Resume` after the process stopped: nothing is ready, due for a
      retry or executed here, a task has failed, and so the run is ended as failed while b is still recorded as running. */
  lemma {:induction false} RunEndedOverRunningTask() returns (c: Compiled, states: seq<RunSnapshot>, steps: seq<LocalStep>)
    ensures ValidCompiled(c) && IsLocalRun(c, states, steps)
    ensures var s := states[|steps|];
      && (forall i :: 0 <= i < |s.tasks| ==> !s.tasks[i].status.TaskReady? && !s.tasks[i].status.TaskWaitingRetry?)
      && HasFailed(s.tasks)
      && var o := MoveWorkflow(s, WorkflowFailed, 0, "one or more tasks failed");
         o.Applied? && o.s.row.status.WorkflowFailed? && 1 < |o.s.tasks| && o.s.tasks[1].status.TaskRunning?
  {
    hide ValidCompiled, IsDiamond, RunInv;
    DiamondIsValid();
    c := DIAMOND;
    states, steps := FailedRun(c);
    LocalRunInv(c, states, steps, |steps|);
    var s := states[|steps|];
    InvFits(c, s);
    LiveTaskMeansRunning(c, s, 1);
    assert s.tasks[0].status.TaskFailed?;
  }

  /** On the first snapshot of the same definition the step functions themselves accept what no caller asks for: c is
      returned to ready although it waits for a and b, and a is started in a run that has not begun. Both break the
      invariant. */
  lemma {:induction false} CallsWithoutGuards() returns (c: Compiled, s: RunSnapshot)
    ensures RunInv(c, s) && Runnable(s, c)
    ensures var early := Return(2, 0, "returned");
      && !Supplied(s, early) && Call(c, s, early).Applied? && !RunInv(c, Call(c, s, early).s)
      && Call(c, s, early).s.tasks[2].status.TaskReady? && !s.tasks[0].status.TaskSucceeded?
    ensures var start := StartQueued(0, 0, "w", "d");
      !Supplied(s, start) && Call(c, s, start).Applied? && !RunInv(c, Call(c, s, start).s)
  {
    hide RunInv, ValidCompiled;
    DiamondIsValid();
    c := DIAMOND;
    ValidAdjacent(c);
    var states := Fresh(c);
    s := states[0];
    LocalRunInv(c, states, [], 0);
    InvFits(c, s);
    KeyOf(c, s);
    CallKeepsExactly(c, s, Return(2, 0, "returned"));
    CallKeepsExactly(c, s, StartQueued(0, 0, "w", "d"));
  }

  lemma KeyOf(c: Compiled, s: RunSnapshot)
    requires RunInv(c, s) && 0 < c.Size()
    ensures s.tasks[0].key == c.definition.tasks[0].key
  {
  }
}
