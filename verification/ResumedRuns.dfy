/** Whole runs of the local engine, with any number of resumes: what they keep, how long they can get, and
    exactly when a success is refused. */
module ResumedRuns {
  import opened Domain
  import opened Finite
  import opened Graph
  import opened Compiler
  import opened Steps
  import opened ResumeSteps
  import opened Propagation
  import opened RunInvariant
  import opened RunSteps
  import opened RunResults
  import opened RunTheorems
  import opened History
  import opened Recovery

  // ---------- counters after a resume ----------

  /** Every counter is right, except that the tasks of `stale`, all finished, have a count of zero. */
  ghost predicate CountersSince(c: Compiled, s: RunSnapshot, stale: set<nat>)
    requires ValidCompiled(c) && Fits(s, c)
  {
    forall i :: 0 <= i < c.Size() ==>
      if i in stale then Terminal(s.tasks[i].status) && s.remaining[i] == 0
      else s.remaining[i] == Unsucceeded(c.dependencies[i], s.tasks)
  }

  ghost function TerminalTasks(tasks: seq<TaskRun>): set<nat> {
    set v | v in Below(|tasks|) && Terminal(tasks[v].status)
  }

  /** `t` differs from `s` in no counter, and no task succeeded or left a terminal status. */
  ghost predicate NoSuccess(s: RunSnapshot, t: RunSnapshot) {
    && t.remaining == s.remaining && |t.tasks| == |s.tasks|
    && forall j :: 0 <= j < |s.tasks| ==> SuccessAndEndKept(s.tasks[j].status, t.tasks[j].status)
  }

  predicate SuccessAndEndKept(a: TaskStatus, b: TaskStatus) {
    (b.TaskSucceeded? <==> a.TaskSucceeded?) && (Terminal(a) ==> Terminal(b))
  }

  lemma {:induction false} NoSuccessKeepsCounters(c: Compiled, s: RunSnapshot, t: RunSnapshot, stale: set<nat>)
    requires ValidCompiled(c) && Fits(s, c) && Fits(t, c) && NoSuccess(s, t) && CountersSince(c, s, stale)
    ensures CountersSince(c, t, stale)
  {
    forall i | 0 <= i < c.Size() && i !in stale ensures t.remaining[i] == Unsucceeded(c.dependencies[i], t.tasks) {
      SuccessorsBounded(c, i);
      UnsucceededSame(c.dependencies[i], s.tasks, t.tasks);
    }
  }

  /** Ending the current attempt without success. */
  lemma {:induction false} FailureNoSuccess(s: RunSnapshot, t: RunSnapshot, i: nat)
    requires OthersWaitOrStay(s, t, i) && i < |s.tasks| && s.tasks[i].status.TaskRunning?
    requires !t.tasks[i].status.TaskSucceeded? && t.remaining == s.remaining
    ensures NoSuccess(s, t)
  {
  }

  lemma FailTaskRemaining(s: RunSnapshot, c: Compiled, i: nat, at: Time, reason: string)
    requires InRange(c.successors) && |s.tasks| == |c.successors| && i < |s.tasks|
    ensures var o := FailTask(s, c, i, at, reason); o.Applied? ==> o.s.remaining == s.remaining
  {
  }

  lemma {:induction false} RetriedNoSuccess(c: Compiled, s: RunSnapshot, i: nat, number: int, to: AttemptStatus,
      result: ExecutionResult, at: Time, reason: string)
    requires RunInv(c, s) && i < c.Size() && ActiveAttempt(s, i, number) && Retryable(to) && Runnable(s, c)
    ensures var o1 := FinishAttempt(s, i, to, result, at, reason);
      && o1.Applied? && Runnable(o1.s, c) && |o1.s.tasks[i].attempts| > 0
      && var o := ApplyRetryDecision(o1.s, c, i, at, reason); o.Applied? && NoSuccess(s, o.s)
  {
    hide RunInv, FailTask, OthersWaitOrStay, SkippedWhere, Descendants;
    RetryDecisionKeeps(c, s, i, number, to, result, at, reason);
    var s1 := FinishAttempt(s, i, to, result, at, reason).s;
    FailTaskRemaining(s1, c, i, at, "retry attempts exhausted");
    FailureNoSuccess(s, ApplyRetryDecision(s1, c, i, at, reason).s, i);
  }

  lemma {:induction false} PermanentNoSuccess(c: Compiled, s: RunSnapshot, i: nat, number: int,
      response: ExecutionResponse, at: Time)
    requires RunInv(c, s) && i < c.Size() && ActiveAttempt(s, i, number) && response.kind.ResultPermanentFailure?
      && Runnable(s, c)
    ensures var o := ApplyAttemptResult(s, c, i, number, response, at); o.Applied? && NoSuccess(s, o.s)
  {
    hide RunInv, FailTask, OthersWaitOrStay, SkippedWhere, Descendants;
    PermanentFailureKeeps(c, s, i, number, response, at);
    var s1 := FinishAttempt(s, i, AttemptFailed, ResultOf(response), at, "permanent execution failure").s;
    FailTaskRemaining(s1, c, i, at, "permanent execution failure");
    FailureNoSuccess(s, ApplyAttemptResult(s, c, i, number, response, at).s, i);
  }

  lemma {:induction false} ResultNoSuccess(c: Compiled, s: RunSnapshot, i: int, number: int,
      response: ExecutionResponse, at: Time)
    requires RunInv(c, s) && Runnable(s, c) && !response.kind.ResultSuccess?
    ensures var o := ApplyAttemptResult(s, c, i, number, response, at); o.Applied? ==> NoSuccess(s, o.s)
  {
    hide RunInv, ApplyRetryDecision, FailTask, NoSuccess;
    if ApplyAttemptResult(s, c, i, number, response, at).Applied? {
      if response.kind.ResultPermanentFailure? {
        PermanentNoSuccess(c, s, i, number, response, at);
      } else {
        RetriedNoSuccess(c, s, i, number, AttemptFailed, ResultOf(response), at, "temporary execution failure");
      }
    }
  }

  predicate IsSuccess(step: Step) { step.Result? && step.response.kind.ResultSuccess? }

  lemma {:induction false} StepNoSuccess(c: Compiled, s: RunSnapshot, step: Step)
    requires RunInv(c, s) && Runnable(s, c) && !IsSuccess(step)
    ensures Perform(c, s, step).Applied? ==> NoSuccess(s, Perform(c, s, step).s)
  {
    hide RunInv, ApplyRetryDecision, FailTask, ApplyAttemptResult, AppendEvent;
    var o := Perform(c, s, step);
    if o.Applied? {
      match step
      case StartWorkflow(at) =>
      case Queue(i, at) => QueueKeeps(c, s, i, at);
      case Return(i, at, reason) =>
      case StartQueued(i, at, worker, dispatch) =>
      case StartLocal(i, at) =>
      case Result(i, number, response, at) =>
        ResultNoSuccess(c, s, i, number, response, at);
      case Interrupt(i, number, at, reason) =>
        RetriedNoSuccess(c, s, i, number, AttemptInterrupted, ExecutionResult("", "interrupted", reason), at, reason);
      case Timeout(i, number, at) =>
        RetriedNoSuccess(c, s, i, number, AttemptTimedOut, ExecutionResult("", "timeout", "execution timed out"), at,
          "execution timed out");
      case RetryReady(i, number, at) =>
      case RequestCancel(at) =>
      case Cancel(at) =>
        CancelKeeps(c, s, at);
        CancelTasksExact(s, |s.tasks|, at);
    }
  }

  /** The successor was skipped before the counters were rebuilt. */
  ghost predicate StaleSuccessor(c: Compiled, s: RunSnapshot, stale: set<nat>, i: nat, j: nat)
    requires ValidCompiled(c) && Fits(s, c) && i < c.Size()
  {
    j in c.successors[i] && j < c.Size() && j in stale && s.tasks[j].status.TaskSkipped?
  }

  lemma {:induction false} StaleCounts(c: Compiled, s: RunSnapshot, stale: set<nat>, i: nat)
    requires RunInv(c, s) && CountersSince(c, s, stale) && i < c.Size() && s.tasks[i].status.TaskRunning?
    ensures SkippedCountsHold(c, s, i) <==> !exists j :: StaleSuccessor(c, s, stale, i, j)
  {
    hide RunInv, Unsucceeded, ValidCompiled;
    InvFits(c, s);
    if exists j: nat :: StaleSuccessor(c, s, stale, i, j) {
      var j: nat :| StaleSuccessor(c, s, stale, i, j);
      assert s.remaining[j] == 0;
    } else {
      forall j | j in c.successors[i] && j < c.Size() && s.tasks[j].status.TaskSkipped? ensures s.remaining[j] >= 2 {
        assert !StaleSuccessor(c, s, stale, i, j);
        SkippedSuccessorCounts(c, s, i, j);
      }
    }
  }

  /** The exact condition of the "dependency count became negative" branch: a current success is refused
      if and only if a successor was skipped before the last resume; otherwise the counters stay as described. */
  lemma {:induction false} SuccessAfterResume(c: Compiled, s: RunSnapshot, stale: set<nat>, i: nat, number: int,
      response: ExecutionResponse, at: Time)
    requires RunInv(c, s) && Runnable(s, c) && CountersSince(c, s, stale)
    requires i < c.Size() && ActiveAttempt(s, i, number) && response.kind.ResultSuccess?
    ensures var o := ApplyAttemptResult(s, c, i, number, response, at);
      && (o.Rejected? <==> exists j :: StaleSuccessor(c, s, stale, i, j))
      && (o.Applied? ==> RunInv(c, o.s) && CountersSince(c, o.s, stale))
  {
    hide RunInv, ApplyAttemptResult, CountersSince, StaleSuccessor, SkippedCountsHold;
    InvFits(c, s);
    StaleCounts(c, s, stale, i);
    SuccessKeeps(c, s, i, number, response, at);
    var o := ApplyAttemptResult(s, c, i, number, response, at);
    if o.Applied? {
      forall j | j in c.successors[i] && j < c.Size() && s.tasks[j].status.TaskSkipped? ensures j !in stale {
        StaleIs(c, s, stale, i, j);
      }
      SuccessKeepsCounters(c, s, o.s, stale, i, at);
    }
  }

  lemma {:induction false} StaleIs(c: Compiled, s: RunSnapshot, stale: set<nat>, i: nat, j: nat)
    requires ValidCompiled(c) && Fits(s, c) && i < c.Size()
    requires j in c.successors[i] && j < c.Size() && s.tasks[j].status.TaskSkipped? && !StaleSuccessor(c, s, stale, i, j)
    ensures j !in stale
  {
  }

  lemma {:induction false} SuccessKeepsCounters(c: Compiled, s: RunSnapshot, t: RunSnapshot, stale: set<nat>, i: nat, at: Time)
    requires RunInv(c, s) && RunInv(c, t) && CountersSince(c, s, stale) && i < c.Size() && s.tasks[i].status.TaskRunning?
    requires t.tasks[i].status.TaskSucceeded? && SuccessReleased(c, s, t, i, at)
    requires forall j :: j in c.successors[i] && j < c.Size() && s.tasks[j].status.TaskSkipped? ==> j !in stale
    ensures CountersSince(c, t, stale)
  {
    hide RunInv, Unsucceeded, ValidCompiled;
    InvFits(c, s);
    InvFits(c, t);
    LiveTaskMeansRunning(c, s, i);
    var u := t.(row := s.row);
    SuccessCounters(c, s, u, i, at);
    RunningUncanceled(c, s);
    forall j | 0 <= j < c.Size() && j in c.successors[i]
      ensures j !in stale
    {
      SuccessorWaits(c, s, i, j);
    }
    forall j | 0 <= j < c.Size() && j in stale ensures Terminal(t.tasks[j].status) && t.remaining[j] == 0 {}
  }

  lemma RunningUncanceled(c: Compiled, s: RunSnapshot)
    requires RunInv(c, s) && s.row.status.WorkflowRunning?
    ensures NoneCanceled(s.tasks)
  {
  }

  // ---------- local runs ----------

  datatype LocalStep = Do(step: Step) | Resume(now: Time)

  /** The steps the local engine takes: everything but the dispatch boundary. */
  predicate IsLocal(step: Step) { !step.Queue? && !step.Return? && !step.StartQueued? }

  function PerformLocal(c: Compiled, s: RunSnapshot, step: LocalStep): Option<RunSnapshot>
    requires Runnable(s, c) && Adjacent(c)
  {
    match step
    case Do(d) => if IsLocal(d) && Perform(c, s, d).Applied? then Some(Perform(c, s, d).s) else None
    case Resume(now) =>
      if WorkflowTerminal(s.row.status) || s.row.cancelRequestedAt.Some? then None
      else
        match PrepareForResume(s, c, now)
        case Resumed(t) => Some(t)
        case Refused(_) => None
  }

  ghost predicate IsLocalRun(c: Compiled, states: seq<RunSnapshot>, steps: seq<LocalStep>)
    requires ValidCompiled(c)
  {
    && |states| == |steps| + 1 && Adjacent(c)
    && (exists id, now :: states[0] == NewRunSnapshot(id, c, now))
    && forall k :: 0 <= k < |steps| ==>
         Runnable(states[k], c) && PerformLocal(c, states[k], steps[k]) == Some(states[k + 1])
  }

  lemma {:induction false} LocalStepStaysLocal(c: Compiled, s: RunSnapshot, step: Step)
    requires RunInv(c, s) && Runnable(s, c) && LocalTasks(s.tasks) && IsLocal(step) && Perform(c, s, step).Applied?
    ensures LocalTasks(Perform(c, s, step).s.tasks)
  {
    hide RunInv, ApplyRetryDecision, FailTask, ApplyAttemptResult, InterruptAttempt, TimeoutAttempt;
    match step
    case StartWorkflow(at) =>
    case StartLocal(i, at) =>
    case Result(i, number, response, at) =>
      ResultKeeps(c, s, i, number, response, at); ResultLeavesRunning(c, s, i, number, response, at);
    case Interrupt(i, number, at, reason) => InterruptKeeps(c, s, i, number, at, reason);
    case Timeout(i, number, at) => TimeoutKeeps(c, s, i, number, at);
    case RetryReady(i, number, at) =>
    case RequestCancel(at) =>
    case Cancel(at) => CancelKeeps(c, s, at);
  }

  predicate LeftRunning(st: TaskStatus) { st.TaskSucceeded? || st.TaskFailed? || st.TaskWaitingRetry? }

  lemma {:induction false} ResultLeavesRunning(c: Compiled, s: RunSnapshot, i: nat, number: int,
      response: ExecutionResponse, at: Time)
    requires RunInv(c, s) && Runnable(s, c) && i < c.Size() && ActiveAttempt(s, i, number)
    ensures var o := ApplyAttemptResult(s, c, i, number, response, at);
      o.Applied? ==> |o.s.tasks| == c.Size() && LeftRunning(o.s.tasks[i].status)
  {
    hide RunInv;
    match response.kind
    case ResultSuccess => SuccessKeeps(c, s, i, number, response, at);
    case ResultPermanentFailure => PermanentFailureKeeps(c, s, i, number, response, at);
    case ResultTemporaryFailure =>
      RetryDecisionKeeps(c, s, i, number, AttemptFailed, ResultOf(response), at, "temporary execution failure");
    case _ =>
  }

  function LocalTimeOf(step: LocalStep): Time {
    match step
    case Do(d) => TimeOf(d)
    case Resume(now) => now
  }

  /** One step of a local run keeps the invariant and the recorded past. */
  lemma {:induction false} LocalStepKeeps(c: Compiled, s: RunSnapshot, step: LocalStep)
    requires RunInv(c, s) && Runnable(s, c) && Adjacent(c) && LocalTasks(s.tasks) && PerformLocal(c, s, step).Some?
    ensures var t := PerformLocal(c, s, step).value; RunInv(c, t) && LocalTasks(t.tasks) && Recorded(s, t, 4, LocalTimeOf(step))
  {
    hide RunInv, Perform, PrepareForResume;
    match step
    case Do(d) =>
      StepKeeps(c, s, d);
      LocalStepStaysLocal(c, s, d);
      StepRecorded(c, s, d, 4);
    case Resume(now) => ResumeRestores(c, s, now);
  }

  lemma {:induction false} LocalRunInv(c: Compiled, states: seq<RunSnapshot>, steps: seq<LocalStep>, k: nat)
    requires ValidCompiled(c) && IsLocalRun(c, states, steps) && k < |states|
    ensures RunInv(c, states[k]) && LocalTasks(states[k].tasks)
  {
    hide RunInv, ValidCompiled, PerformLocal;
    if k == 0 {
      var id, now :| states[0] == NewRunSnapshot(id, c, now);
      InitialInv(id, c, now);
      InitialParts(id, c, now);
    } else {
      LocalRunInv(c, states, steps, k - 1);
      assert PerformLocal(c, states[k - 1], steps[k - 1]) == Some(states[k - 1 + 1]);
      LocalStepKeeps(c, states[k - 1], steps[k - 1]);
    }
  }

  lemma InitialParts(id: RunID, c: Compiled, now: Time)
    requires ValidCompiled(c)
    ensures RunInv(c, NewRunSnapshot(id, c, now)) && LocalTasks(NewRunSnapshot(id, c, now).tasks)
  {
    InitialInv(id, c, now);
  }

  /** Between any two snapshots of a local run, resumed or not: finished attempts are unchanged, attempts and
      events are only added, and the events in between are paid for. */
  lemma {:induction false} LocalRunRecorded(c: Compiled, states: seq<RunSnapshot>, steps: seq<LocalStep>, j: nat, k: nat)
    requires ValidCompiled(c) && IsLocalRun(c, states, steps) && j <= k < |states|
    ensures Extends(states[j], states[k]) && Paid(states[j], states[k], 4)
    decreases k
  {
    hide RunInv, ValidCompiled, PerformLocal, Extends, Budget;
    if j == k {
      ExtendsSelf(states[k]);
    } else {
      LocalRunRecorded(c, states, steps, j, k - 1);
      LocalRunInv(c, states, steps, k - 1);
      assert PerformLocal(c, states[k - 1], steps[k - 1]) == Some(states[k - 1 + 1]);
      LocalStepKeeps(c, states[k - 1], steps[k - 1]);
      ExtendsTransitive(states[j], states[k - 1], states[k]);
    }
  }

  // ---------- bounded runs ----------

  function TotalAttempts(tasks: seq<TaskDefinition>): int {
    if tasks == [] then 0 else TotalAttempts(tasks[..|tasks| - 1]) + tasks[|tasks| - 1].retry.maxAttempts
  }

  lemma {:induction false} SpentAtMost(t: TaskRun, max: int, w: nat)
    requires TaskHistory(t, max) && w >= 4 && max >= 1
    ensures Spent(t, w) <= w * max
  {
    var k := |t.attempts|;
    assert w * (k + 1) == w * k + w;
    MulMonotone(w, k, max);
    if k < max { MulMonotone(w, k + 1, max); }
  }

  lemma MulMonotone(w: nat, a: int, b: int)
    requires a <= b
    ensures w * a <= w * b
  {
  }

  lemma Distributes(w: nat, a: int, b: int)
    ensures w * (a + b) == w * a + w * b
  {
  }

  lemma {:induction false} TotalSpentAtMost(defs: seq<TaskDefinition>, tasks: seq<TaskRun>, w: nat)
    requires |defs| == |tasks| && w >= 4
    requires forall i :: 0 <= i < |tasks| ==> TaskHistory(tasks[i], defs[i].retry.maxAttempts) && defs[i].retry.maxAttempts >= 1
    ensures TotalSpent(tasks, w) <= w * TotalAttempts(defs)
  {
    hide Spent, TaskHistory;
    if tasks != [] {
      var n := |tasks| - 1;
      TotalSpentAtMost(defs[..n], tasks[..n], w);
      SpentAtMost(tasks[n], defs[n].retry.maxAttempts, w);
      Distributes(w, TotalAttempts(defs[..n]), defs[n].retry.maxAttempts);
    }
  }

  lemma {:induction false} TotalSpentAtLeast(tasks: seq<TaskRun>, w: nat)
    requires forall i :: 0 <= i < |tasks| ==>
      tasks[i].attempts == [] && (tasks[i].status.TaskReady? || tasks[i].status.TaskWaitingDependencies?)
    ensures TotalSpent(tasks, w) >= 0
  {
    if tasks != [] { TotalSpentAtLeast(tasks[..|tasks| - 1], w); }
  }

  /** Event numbers are 1, 2, 3, ... without a gap, and the run row carries the last one. */
  ghost predicate Numbered(s: RunSnapshot) {
    && (forall k :: 0 <= k < |s.events| ==> s.events[k].sequence == k + 1)
    && s.row.lastEventSequence == |s.events|
  }

  /** `first` is the snapshot a run starts from. */
  lemma {:induction false} NumberedFromStart(id: RunID, c: Compiled, now: Time, s: RunSnapshot)
    requires ValidCompiled(c) && Extends(NewRunSnapshot(id, c, now), s)
    ensures Numbered(s)
  {
  }

  lemma {:induction false} BudgetBounds(c: Compiled, s: RunSnapshot, w: nat)
    requires RunInv(c, s) && w >= 4
    ensures Budget(s, w) <= 2 + w * TotalAttempts(c.definition.tasks)
  {
    hide NodeAgrees, Unsucceeded, TaskHistory;
    TotalSpentAtMost(c.definition.tasks, s.tasks, w);
  }

  lemma {:induction false} InitialBudget(id: RunID, c: Compiled, now: Time, w: nat)
    requires ValidCompiled(c)
    ensures Budget(NewRunSnapshot(id, c, now), w) >= 0
  {
    TotalSpentAtLeast(NewRunSnapshot(id, c, now).tasks, w);
  }

  /** Every local run, with any number of resumes and a cancellation, stays bounded: at most the allowed attempts
      per task, numbered 1 to k, and at most two events plus four per allowed attempt, numbered without gaps. */
  lemma {:induction false} BoundedRun(c: Compiled, states: seq<RunSnapshot>, steps: seq<LocalStep>, k: nat)
    requires ValidCompiled(c) && IsLocalRun(c, states, steps) && k < |states|
    ensures |states[k].tasks| == c.Size() && Numbered(states[k])
    ensures |states[k].events| <= 2 + 4 * TotalAttempts(c.definition.tasks)
    ensures forall i :: 0 <= i < c.Size() ==> |states[k].tasks[i].attempts| <= c.MaxAttempts(i)
    ensures forall i, n :: 0 <= i < c.Size() && 0 <= n < |states[k].tasks[i].attempts| ==>
      states[k].tasks[i].attempts[n].number == n + 1
  {
    hide RunInv, PerformLocal, TotalSpent, ValidCompiled, TotalAttempts;
    var id, now :| states[0] == NewRunSnapshot(id, c, now);
    LocalRunInv(c, states, steps, k);
    LocalRunRecorded(c, states, steps, 0, k);
    NumberedFromStart(id, c, now, states[k]);
    BudgetBounds(c, states[k], 4);
    InitialBudget(id, c, now, 4);
    InvFits(c, states[k]);
    forall i | 0 <= i < c.Size() ensures TaskHistory(states[k].tasks[i], c.MaxAttempts(i)) { TaskOf(c, states[k], i); }
  }

  // ---------- successes in resumed runs ----------

  /** The tasks that were finished when the run was last resumed. */
  ghost function StaleTasks(states: seq<RunSnapshot>, steps: seq<LocalStep>, k: nat): set<nat>
    requires |states| == |steps| + 1 && k < |states|
  {
    if k == 0 then {}
    else if steps[k - 1].Resume? then TerminalTasks(states[k].tasks)
    else StaleTasks(states, steps, k - 1)
  }

  lemma {:induction false} InitialCounters(id: RunID, c: Compiled, now: Time)
    requires ValidCompiled(c)
    ensures var s := NewRunSnapshot(id, c, now); Fits(s, c) && CountersSince(c, s, {})
  {
    hide Unsucceeded, NodeAgrees, TaskHistory;
    InitialInv(id, c, now);
  }

  lemma {:induction false} RestedCounters(c: Compiled, s: RunSnapshot)
    requires RunInv(c, s) && |s.remaining| == |s.tasks| && Rested(s)
    ensures CountersSince(c, s, TerminalTasks(s.tasks))
  {
    hide Unsucceeded, NodeAgrees, TaskHistory;
  }

  /** After any history of steps and resumes the counters are right except for the stale tasks. */
  lemma {:induction false} LocalRunCounters(c: Compiled, states: seq<RunSnapshot>, steps: seq<LocalStep>, k: nat)
    requires ValidCompiled(c) && IsLocalRun(c, states, steps) && k < |states|
    ensures RunInv(c, states[k]) && CountersSince(c, states[k], StaleTasks(states, steps, k))
  {
    hide RunInv, ValidCompiled, Perform, PrepareForResume, CountersSince;
    if k == 0 {
      var id, now :| states[0] == NewRunSnapshot(id, c, now);
      InitialCounters(id, c, now);
      LocalRunInv(c, states, steps, 0);
    } else {
      LocalRunCounters(c, states, steps, k - 1);
      LocalRunInv(c, states, steps, k - 1);
      LocalRunInv(c, states, steps, k);
      var s, t := states[k - 1], states[k];
      InvFits(c, s);
      InvFits(c, t);
      match steps[k - 1]
      case Resume(now) =>
        ResumeRestores(c, s, now);
        RestedCounters(c, t);
      case Do(step) => StepCounters(c, s, step, StaleTasks(states, steps, k - 1));
    }
  }

  lemma {:induction false} StepCounters(c: Compiled, s: RunSnapshot, step: Step, stale: set<nat>)
    requires RunInv(c, s) && Runnable(s, c) && CountersSince(c, s, stale)
    ensures Perform(c, s, step).Applied? ==> RunInv(c, Perform(c, s, step).s) && CountersSince(c, Perform(c, s, step).s, stale)
  {
    hide RunInv, ApplyAttemptResult, CountersSince;
    var o := Perform(c, s, step);
    if o.Applied? {
      StepKeeps(c, s, step);
      InvFits(c, s);
      InvFits(c, o.s);
      if IsSuccess(step) {
        ResultKeeps(c, s, step.i, step.number, step.response, step.at);
        SuccessAfterResume(c, s, stale, step.i, step.number, step.response, step.at);
      } else {
        hide Perform;
        StepNoSuccess(c, s, step);
        NoSuccessKeepsCounters(c, s, o.s, stale);
      }
    }
  }

  /** In any local run a current success is refused if and only if it has a successor that was already
      skipped at the last resume. */
  lemma {:induction false} SuccessRefusedExactly(c: Compiled, states: seq<RunSnapshot>, steps: seq<LocalStep>, k: nat,
      i: nat, number: int, response: ExecutionResponse, at: Time)
    requires ValidCompiled(c) && IsLocalRun(c, states, steps) && k < |states| && Runnable(states[k], c)
    requires i < c.Size() && ActiveAttempt(states[k], i, number) && response.kind.ResultSuccess?
    ensures ApplyAttemptResult(states[k], c, i, number, response, at).Rejected?
      <==> exists j :: StaleSuccessor(c, states[k], StaleTasks(states, steps, k), i, j)
  {
    hide RunInv, ApplyAttemptResult, CountersSince, StaleSuccessor, ValidCompiled, PerformLocal;
    LocalRunCounters(c, states, steps, k);
    SuccessAfterResume(c, states[k], StaleTasks(states, steps, k), i, number, response, at);
  }

  // ---------- distributed runs ----------

  function Returns(steps: seq<Step>, k: nat): nat
    requires k <= |steps|
  {
    if k == 0 then 0 else Returns(steps, k - 1) + if steps[k - 1].Return? then 1 else 0
  }

  lemma {:induction false} DistributedRunRecorded(c: Compiled, states: seq<RunSnapshot>, steps: seq<Step>, k: nat)
    requires ValidCompiled(c) && IsRun(c, states, steps) && k < |states|
    ensures Extends(states[0], states[k])
    ensures |states[k].events| - |states[0].events| <= Budget(states[k], 5) - Budget(states[0], 5) + 2 * Returns(steps, k)
  {
    hide FreshInv, ValidCompiled, Perform, Extends, Budget;
    if k == 0 {
      ExtendsSelf(states[0]);
    } else {
      DistributedRunRecorded(c, states, steps, k - 1);
      ReachableInv(c, states, steps, k - 1);
      FreshIsInv(c, states[k - 1]);
      StepRecorded(c, states[k - 1], steps[k - 1], 5);
      ExtendsTransitive(states[0], states[k - 1], states[k]);
    }
  }

  /** Distributed runs are bounded too, up to the queue and return-to-ready pair: each return buys two more events,
      and nothing else can repeat. */
  lemma {:induction false} BoundedDistributedRun(c: Compiled, states: seq<RunSnapshot>, steps: seq<Step>, k: nat)
    requires ValidCompiled(c) && IsRun(c, states, steps) && k < |states|
    ensures Numbered(states[k])
    ensures |states[k].events| <= 2 + 5 * TotalAttempts(c.definition.tasks) + 2 * Returns(steps, k)
  {
    hide RunInv, FreshInv, ValidCompiled, Perform, TotalSpent, TotalAttempts;
    ValidAdjacent(c);
    var id, now :| states[0] == NewRunSnapshot(id, c, now);
    ReachableInv(c, states, steps, k);
    FreshIsInv(c, states[k]);
    DistributedRunRecorded(c, states, steps, k);
    NumberedFromStart(id, c, now, states[k]);
    BudgetBounds(c, states[k], 5);
    InitialBudget(id, c, now, 5);
  }
}
