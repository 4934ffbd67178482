/** Runs as sequences of steps: what holds of every reachable snapshot, and why no run gets stuck. */
module RunTheorems {
  import opened Domain
  import opened Finite
  import opened Graph
  import opened Compiler
  import opened Steps
  import opened RunInvariant
  import opened RunSteps
  import opened RunResults

  // ---------- the initial snapshot ----------

  /** The snapshot a run starts from: tasks without dependencies are ready, the others wait. */
  function NewRunSnapshot(id: RunID, c: Compiled, now: Time): RunSnapshot
    requires |c.dependencies| == c.Size()
  {
    var n := c.Size();
    RunSnapshot(
      1, c.definition,
      RunRow(id, c.definition.id, 0, WorkflowPending, 0, 0, None, now, None, None),
      seq(n, i requires 0 <= i < n => InitialTask(c, i)),
      seq(n, i requires 0 <= i < n => |c.dependencies[i]|),
      [])
  }

  function InitialTask(c: Compiled, i: nat): TaskRun
    requires i < c.Size() == |c.dependencies|
  {
    TaskRun(c.definition.tasks[i].key, if |c.dependencies[i]| == 0 then TaskReady else TaskWaitingDependencies, [], None, None)
  }

  lemma {:induction false} NothingSucceeded(deps: seq<nat>, tasks: seq<TaskRun>)
    requires Bounded(deps, |tasks|) && forall i :: 0 <= i < |tasks| ==> !tasks[i].status.TaskSucceeded?
    ensures Unsucceeded(deps, tasks) == |deps|
  {
    if deps != [] { NothingSucceeded(deps[..|deps| - 1], tasks); }
  }

  lemma InitialNode(c: Compiled, s: RunSnapshot, i: nat)
    requires ValidCompiled(c) && Fits(s, c) && i < c.Size()
    requires forall j :: 0 <= j < c.Size() ==> s.tasks[j] == InitialTask(c, j) && s.remaining[j] == |c.dependencies[j]|
    ensures NodeAgrees(c.dependencies[i], s.tasks, s.tasks[i].status)
    ensures s.remaining[i] == Unsucceeded(c.dependencies[i], s.tasks)
    ensures TaskHistory(s.tasks[i], c.MaxAttempts(i))
  {
    hide Ranked, IndexIsBijection;
    SuccessorsBounded(c, i);
    NothingSucceeded(c.dependencies[i], s.tasks);
    if c.dependencies[i] != [] { assert c.dependencies[i][0] in c.dependencies[i]; }
  }

  lemma InitialInv(id: RunID, c: Compiled, now: Time)
    requires ValidCompiled(c)
    ensures FreshInv(c, NewRunSnapshot(id, c, now))
    ensures var s := NewRunSnapshot(id, c, now);
      && s.row.id == id && s.row.status.WorkflowPending? && s.row.createdAt == now && s.row.revision == 0 && s.events == []
      && s.row.cancelRequestedAt.None? && NothingStarted(s.tasks)
  {
    hide NodeAgrees, Unsucceeded, TaskHistory, Ranked, IndexIsBijection, Transposes;
    var s := NewRunSnapshot(id, c, now);
    forall i | 0 <= i < c.Size()
      ensures NodeAgrees(c.dependencies[i], s.tasks, s.tasks[i].status)
      ensures Bounded(c.dependencies[i], |s.tasks|) && s.remaining[i] == Unsucceeded(c.dependencies[i], s.tasks)
      ensures TaskHistory(s.tasks[i], c.MaxAttempts(i))
    {
      SuccessorsBounded(c, i);
      InitialNode(c, s, i);
    }
    assert !Terminal(s.tasks[0].status);
  }

  // ---------- steps and runs ----------

  /** One committed step of a run that is never resumed: the local engine's and the dispatch protocol's. */
  datatype Step =
    | StartWorkflow(at: Time)
    | Queue(i: int, at: Time)
    | Return(i: int, at: Time, reason: string)
    | StartQueued(i: int, at: Time, worker: WorkerID, dispatch: DispatchID)
    | StartLocal(i: int, at: Time)
    | Result(i: int, number: int, response: ExecutionResponse, at: Time)
    | Interrupt(i: int, number: int, at: Time, reason: string)
    | Timeout(i: int, number: int, at: Time)
    | RetryReady(i: int, number: int, at: Time)
    | RequestCancel(at: Time)
    | Cancel(at: Time)

  function RequestCancelStep(s: RunSnapshot, at: Time): Outcome {
    if WorkflowTerminal(s.row.status) || s.row.cancelRequestedAt.Some? then Ignored
    else Applied(s.(row := s.row.(cancelRequestedAt := Some(at), revision := s.row.revision + 1)))
  }

  /** The snapshot after a cancellation request: only the first one on an unfinished run changes anything. */
  function RequestedSnapshot(s: RunSnapshot, at: Time): RunSnapshot {
    match RequestCancelStep(s, at)
    case Applied(t) => t
    case _ => s
  }

  /** The outcome of a step; local starts and queued returns are only made on tasks in the right state. */
  function Perform(c: Compiled, s: RunSnapshot, step: Step): Outcome
    requires Runnable(s, c)
  {
    match step
    case StartWorkflow(at) => MoveWorkflow(s, WorkflowRunning, at, "execution started")
    case Queue(i, at) => QueueTask(s, i, at)
    case Return(i, at, reason) =>
      if 0 <= i < |s.tasks| && s.tasks[i].status.TaskQueued? then ReturnQueuedTaskToReady(s, i, at, reason) else Ignored
    case StartQueued(i, at, worker, dispatch) =>
      if 0 <= i < |s.tasks| && s.tasks[i].status.TaskQueued? then StartQueuedAttempt(s, c, i, at, worker, dispatch) else Ignored
    case StartLocal(i, at) =>
      if 0 <= i < |s.tasks| && s.tasks[i].status.TaskReady? && s.row.status.WorkflowRunning?
      then BeginAttempt(s, i, at, "", "", "execution started") else Ignored
    case Result(i, number, response, at) => ApplyAttemptResult(s, c, i, number, response, at)
    case Interrupt(i, number, at, reason) => InterruptAttempt(s, c, i, number, at, reason)
    case Timeout(i, number, at) => TimeoutAttempt(s, c, i, number, at)
    case RetryReady(i, number, at) => MakeRetryReady(s, i, number, at)
    case RequestCancel(at) => RequestCancelStep(s, at)
    case Cancel(at) => CancelRun(s, at)
  }

  lemma StepKeeps(c: Compiled, s: RunSnapshot, step: Step)
    requires RunInv(c, s) && Runnable(s, c)
    ensures Perform(c, s, step).Applied? ==> Kept(c, s, Perform(c, s, step).s)
  {
    var o := Perform(c, s, step);
    if o.Applied? {
      match step
      case StartWorkflow(at) => StartKeeps(c, s, at, "execution started");
      case Queue(i, at) => QueueKeeps(c, s, i, at);
      case Return(i, at, reason) => ReturnKeeps(c, s, i, at, reason);
      case StartQueued(i, at, worker, dispatch) =>
        LiveTaskMeansRunning(c, s, i);
        BeginKeeps(c, s, i, at, worker, dispatch, "lease claimed");
      case StartLocal(i, at) => BeginKeeps(c, s, i, at, "", "", "execution started");
      case Result(i, number, response, at) => ResultKeeps(c, s, i, number, response, at);
      case Interrupt(i, number, at, reason) => InterruptKeeps(c, s, i, number, at, reason);
      case Timeout(i, number, at) => TimeoutKeeps(c, s, i, number, at);
      case RetryReady(i, number, at) => RetryReadyKeeps(c, s, i, number, at);
      case RequestCancel(at) => RowChangeKeeps(c, s, o.s);
      case Cancel(at) => CancelKeeps(c, s, at);
    }
  }

  lemma RowChangeKeeps(c: Compiled, s: RunSnapshot, t: RunSnapshot)
    requires RunInv(c, s) && t.tasks == s.tasks && t.remaining == s.remaining && t.row.status == s.row.status
    ensures Kept(c, s, t)
  {
  }

  /** A run: the initial snapshot and the snapshots its applied steps commit. */
  ghost predicate IsRun(c: Compiled, states: seq<RunSnapshot>, steps: seq<Step>)
    requires ValidCompiled(c)
  {
    && |states| == |steps| + 1
    && (exists id, now :: states[0] == NewRunSnapshot(id, c, now))
    && forall k :: 0 <= k < |steps| ==>
         Runnable(states[k], c) && Perform(c, states[k], steps[k]) == Applied(states[k + 1])
  }

  /** Every snapshot of every run satisfies the invariant with all counters right. */
  lemma {:induction false} ReachableInv(c: Compiled, states: seq<RunSnapshot>, steps: seq<Step>, k: nat)
    requires ValidCompiled(c) && IsRun(c, states, steps) && k < |states|
    ensures FreshInv(c, states[k])
  {
    if k == 0 {
      var id, now :| states[0] == NewRunSnapshot(id, c, now);
      InitialInv(id, c, now);
    } else {
      ReachableInv(c, states, steps, k - 1);
      StepKeeps(c, states[k - 1], steps[k - 1]);
    }
  }

  // ---------- without the callers' guards ----------

  /** The step functions as such: returning and starting look at the transition table only. The callers look at the task
      and the run first. */
  function Call(c: Compiled, s: RunSnapshot, step: Step): Outcome
    requires Runnable(s, c)
  {
    match step
    case Return(i, at, reason) => ReturnQueuedTaskToReady(s, i, at, reason)
    case StartQueued(i, at, worker, dispatch) => StartQueuedAttempt(s, c, i, at, worker, dispatch)
    case StartLocal(i, at) =>
      if 0 <= i < |s.tasks| then BeginAttempt(s, i, at, "", "", "execution started") else Rejected(IndexOutOfRange)
    case _ => Perform(c, s, step)
  }

  /** The guard of the callers. */
  predicate Supplied(s: RunSnapshot, step: Step) {
    match step
    case Return(i, _, _) => 0 <= i < |s.tasks| && s.tasks[i].status.TaskQueued?
    case StartQueued(i, _, _, _) => 0 <= i < |s.tasks| && s.tasks[i].status.TaskQueued?
    case StartLocal(i, _) => 0 <= i < |s.tasks| && s.tasks[i].status.TaskReady? && s.row.status.WorkflowRunning?
    case _ => true
  }

  /** What the invariant needs of the arguments: no task is returned that waits for its dependencies, and none is started
      in a run that is not running. */
  predicate Proper(s: RunSnapshot, step: Step) {
    match step
    case Return(i, _, _) => 0 <= i < |s.tasks| ==> !s.tasks[i].status.TaskWaitingDependencies?
    case StartQueued(_, _, _, _) => s.row.status.WorkflowRunning?
    case StartLocal(_, _) => s.row.status.WorkflowRunning?
    case _ => true
  }

  lemma GuardedIsPerformed(c: Compiled, s: RunSnapshot, step: Step)
    requires Runnable(s, c)
    ensures Perform(c, s, step) == if Supplied(s, step) then Call(c, s, step) else Ignored
    ensures RunInv(c, s) && Supplied(s, step) ==> Proper(s, step)
  {
    if RunInv(c, s) && step.StartQueued? && Supplied(s, step) { LiveTaskMeansRunning(c, s, step.i); }
  }

  lemma {:induction false} ReturnExactly(c: Compiled, s: RunSnapshot, i: nat, at: Time, reason: string)
    requires RunInv(c, s) && i < c.Size() && ReturnQueuedTaskToReady(s, i, at, reason).Applied?
    ensures var t := ReturnQueuedTaskToReady(s, i, at, reason).s;
      if s.tasks[i].status.TaskWaitingDependencies? then !RunInv(c, t) else Kept(c, s, t)
  {
    hide AppendEvent, Unsucceeded, Ranked, Transposes, IndexIsBijection;
    var t := ReturnQueuedTaskToReady(s, i, at, reason).s;
    assert NodeAgrees(c.dependencies[i], s.tasks, s.tasks[i].status);
    assert TaskHistory(s.tasks[i], c.MaxAttempts(i));
    if s.tasks[i].status.TaskWaitingDependencies? {
      var d :| d in c.dependencies[i] && !s.tasks[d].status.TaskSucceeded?;
      assert !t.tasks[d].status.TaskSucceeded?;
      assert !NodeAgrees(c.dependencies[i], t.tasks, t.tasks[i].status);
    } else {
      hide NodeAgrees;
      LiveTaskMeansRunning(c, s, i);
      assert TaskHistory(t.tasks[i], c.MaxAttempts(i));
      LiveMove(c, s, t, i);
    }
  }

  lemma {:induction false} BeginExactly(c: Compiled, s: RunSnapshot, i: nat, at: Time, worker: WorkerID,
      dispatch: DispatchID, reason: string)
    requires RunInv(c, s) && i < c.Size() && BeginAttempt(s, i, at, worker, dispatch, reason).Applied?
    ensures var t := BeginAttempt(s, i, at, worker, dispatch, reason).s;
      if s.row.status.WorkflowRunning? then Kept(c, s, t) else !RunInv(c, t)
  {
    if s.row.status.WorkflowRunning? {
      BeginKeeps(c, s, i, at, worker, dispatch, reason);
    } else {
      LiveTaskMeansRunning(c, s, i);
      hide NodeAgrees, TaskHistory;
      var t := BeginAttempt(s, i, at, worker, dispatch, reason).s;
      assert t.row.status.WorkflowPending? && t.tasks[i].status.TaskRunning?;
    }
  }

  /** Whatever its arguments, a step that is applied keeps the invariant if and only if they are proper. */
  lemma {:induction false} CallKeepsExactly(c: Compiled, s: RunSnapshot, step: Step)
    requires RunInv(c, s) && Runnable(s, c) && Call(c, s, step).Applied?
    ensures RunInv(c, Call(c, s, step).s) <==> Proper(s, step)
    ensures Proper(s, step) ==> Kept(c, s, Call(c, s, step).s)
  {
    hide RunInv, Perform, ReturnQueuedTaskToReady, BeginAttempt;
    InvFits(c, s);
    match step
    case Return(i, at, reason) =>
      ReturnInRange(s, i, at, reason);
      ReturnExactly(c, s, i, at, reason);
    case StartQueued(i, at, worker, dispatch) => BeginExactly(c, s, i, at, worker, dispatch, "lease claimed");
    case StartLocal(i, at) => BeginExactly(c, s, i, at, "", "", "execution started");
    case _ => StepKeeps(c, s, step);
  }

  lemma ReturnInRange(s: RunSnapshot, i: int, at: Time, reason: string)
    ensures ReturnQueuedTaskToReady(s, i, at, reason).Applied? ==> 0 <= i < |s.tasks|
  {
  }

  /** Snapshots along calls of the step functions with any arguments. */
  ghost predicate IsCalledRun(c: Compiled, states: seq<RunSnapshot>, steps: seq<Step>)
    requires ValidCompiled(c)
  {
    && |states| == |steps| + 1
    && (exists id, now :: states[0] == NewRunSnapshot(id, c, now))
    && forall k :: 0 <= k < |steps| ==> Runnable(states[k], c) && Call(c, states[k], steps[k]) == Applied(states[k + 1])
  }

  /** Over any sequence of calls every snapshot satisfies the invariant, with all counters right, if and only if every
      call was proper. */
  lemma {:induction false} CalledRunExactly(c: Compiled, states: seq<RunSnapshot>, steps: seq<Step>, k: nat)
    requires ValidCompiled(c) && IsCalledRun(c, states, steps) && k < |states|
    ensures (forall j :: 0 <= j <= k ==> RunInv(c, states[j])) <==> (forall j :: 0 <= j < k ==> Proper(states[j], steps[j]))
    ensures (forall j :: 0 <= j < k ==> Proper(states[j], steps[j])) ==> FreshInv(c, states[k])
  {
    hide RunInv, FreshInv, Call, Proper, Runnable;
    var id, now :| states[0] == NewRunSnapshot(id, c, now);
    if k == 0 {
      InitialInv(id, c, now);
      FreshIsInv(c, states[0]);
    } else {
      CalledRunExactly(c, states, steps, k - 1);
      assert Call(c, states[k - 1], steps[k - 1]) == Applied(states[k]);
      if RunInv(c, states[k - 1]) {
        CallKeepsExactly(c, states[k - 1], steps[k - 1]);
      }
    }
  }

  lemma FreshIsInv(c: Compiled, s: RunSnapshot)
    requires FreshInv(c, s)
    ensures RunInv(c, s)
  {
  }

  // ---------- no stuck run ----------

  /** In an unfinished run some task can be worked on, unless everything is terminal already. */
  lemma NoStuckRun(c: Compiled, s: RunSnapshot)
    requires RunInv(c, s) && !WorkflowTerminal(s.row.status)
    ensures AllTerminal(s.tasks) || exists i :: 0 <= i < c.Size() && Live(s.tasks[i].status)
  {
    if !AllTerminal(s.tasks) {
      var i :| 0 <= i < |s.tasks| && !Terminal(s.tasks[i].status);
      var rank :| Ranks(c.successors, rank);
      var j := LiveUpstream(c, s, rank, i);
    }
  }

  /** Walking upstream from an unfinished task through unfinished dependencies ends at a live one. */
  lemma LiveUpstream(c: Compiled, s: RunSnapshot, rank: seq<nat>, i: nat) returns (j: nat)
    requires RunInv(c, s) && !WorkflowTerminal(s.row.status) && Ranks(c.successors, rank)
    requires i < c.Size() && !Terminal(s.tasks[i].status)
    ensures j < c.Size() && Live(s.tasks[j].status)
    decreases rank[i]
  {
    if Live(s.tasks[i].status) {
      j := i;
    } else {
      assert NodeAgrees(c.dependencies[i], s.tasks, s.tasks[i].status);
      var d :| d in c.dependencies[i] && !s.tasks[d].status.TaskSucceeded?;
      DependencyEdge(c, d, i);
      assert Edge(c.successors, d, i);
      j := LiveUpstream(c, s, rank, d);
    }
  }

  /** What the final statuses mean, for a run that was never resumed. */
  lemma OutcomeMeaning(c: Compiled, s: RunSnapshot)
    requires FreshInv(c, s)
    ensures s.row.status.WorkflowSucceeded? <==> AllSucceeded(s.tasks)
    ensures s.row.status.WorkflowFailed? <==> AllTerminal(s.tasks) && HasFailed(s.tasks) && NoneCanceled(s.tasks)
    ensures s.row.status.WorkflowCanceled? <==> !NoneCanceled(s.tasks)
    ensures !WorkflowTerminal(s.row.status) <==> exists i :: 0 <= i < c.Size() && Live(s.tasks[i].status)
  {
    if !WorkflowTerminal(s.row.status) { NoStuckRun(c, s); }
  }
}
