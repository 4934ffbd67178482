/** The steps that settle an attempt: success, failure, interruption and timeout. */
module RunResults {
  import opened Domain
  import opened Finite
  import opened Graph
  import opened Compiler
  import opened Steps
  import opened Propagation
  import opened RunInvariant
  import opened RunSteps

  // ---------- consequences of the graph condition ----------

  lemma DependencyEdge(c: Compiled, u: nat, v: nat)
    requires ValidCompiled(c) && u < c.Size() && v < c.Size()
    ensures u in c.dependencies[v] <==> v in c.successors[u]
    ensures u in c.dependencies[v] ==> u != v
  {
    assert Edge(c.successors, u, v) <==> Edge(c.dependencies, v, u);
    if u in c.dependencies[v] {
      var rank :| Ranks(c.successors, rank);
      assert Edge(c.successors, u, v);
    }
  }

  /** A successor of a task that has not succeeded waits or was skipped. */
  lemma SuccessorWaits(c: Compiled, s: RunSnapshot, u: nat, v: nat)
    requires RunInv(c, s) && NoneCanceled(s.tasks) && u < c.Size() && v in c.successors[u]
    requires !s.tasks[u].status.TaskSucceeded?
    ensures v < c.Size() && (s.tasks[v].status.TaskWaitingDependencies? || s.tasks[v].status.TaskSkipped?)
  {
    EdgeReaches(c.successors, u, v);
    ReachesInRange(c.successors, u, v);
    DependencyEdge(c, u, v);
    assert NodeAgrees(c.dependencies[v], s.tasks, s.tasks[v].status);
  }

  /** So does everything further downstream. */
  lemma DescendantWaits(c: Compiled, s: RunSnapshot, u: nat, v: nat)
    requires RunInv(c, s) && NoneCanceled(s.tasks) && u < c.Size() && Reaches(c.successors, u, v)
    requires !s.tasks[u].status.TaskSucceeded?
    ensures v < c.Size() && (s.tasks[v].status.TaskWaitingDependencies? || s.tasks[v].status.TaskSkipped?)
  {
    var p :| PathFromTo(c.successors, p, u, v);
    var k := 0;
    while k < |p| - 1
      invariant 0 <= k < |p| && p[k] < c.Size() && !s.tasks[p[k]].status.TaskSucceeded?
      invariant k > 0 ==> s.tasks[p[k]].status.TaskWaitingDependencies? || s.tasks[p[k]].status.TaskSkipped?
    {
      assert Edge(c.successors, p[k], p[k + 1]);
      SuccessorWaits(c, s, p[k], p[k + 1]);
      k := k + 1;
    }
  }

  /** A skipped task has a failed ancestor. */
  lemma SkippedHasFailure(c: Compiled, tasks: seq<TaskRun>, rank: seq<nat>, i: nat)
    requires ValidCompiled(c) && |tasks| == c.Size() && GraphAgrees(c, tasks) && Ranks(c.successors, rank)
    requires i < c.Size() && tasks[i].status.TaskSkipped?
    ensures HasFailed(tasks)
    decreases rank[i]
  {
    assert NodeAgrees(c.dependencies[i], tasks, tasks[i].status);
    var d :| d in c.dependencies[i] && (tasks[d].status.TaskFailed? || tasks[d].status.TaskSkipped?);
    if tasks[d].status.TaskSkipped? {
      DependencyEdge(c, d, i);
      assert Edge(c.successors, d, i);
      SkippedHasFailure(c, tasks, rank, d);
    }
  }

  /** The settled statuses are never mixed: without a failed task everything succeeded. */
  lemma NoMixedTerminal(c: Compiled, tasks: seq<TaskRun>)
    requires ValidCompiled(c) && |tasks| == c.Size() && GraphAgrees(c, tasks) && NoneCanceled(tasks) && AllTerminal(tasks)
    ensures HasFailed(tasks) || AllSucceeded(tasks)
  {
    if !HasFailed(tasks) {
      var rank :| Ranks(c.successors, rank);
      forall i | 0 <= i < |tasks| ensures tasks[i].status.TaskSucceeded? {
        if tasks[i].status.TaskSkipped? { SkippedHasFailure(c, tasks, rank, i); }
      }
    }
  }

  /** Settling succeeds and keeps the invariant, whenever the parts of the invariant below it hold. */
  lemma SettleKeeps(c: Compiled, s: RunSnapshot, at: Time)
    requires RunInv(c, s) && s.row.status.WorkflowRunning?
    ensures var o := SettleIfComplete(s, at);
            && o.Applied? && o.s.tasks == s.tasks && o.s.remaining == s.remaining && RunInv(c, o.s)
            && (WorkflowTerminal(o.s.row.status) <==> AllTerminal(s.tasks))
            && !o.s.row.status.WorkflowPending? && !o.s.row.status.WorkflowCanceled?
  {
    if AllTerminal(s.tasks) { NoMixedTerminal(c, s.tasks); }
  }

  /** Apart from task `i`, a step only readies or skips waiting tasks. */
  ghost predicate OthersWaitOrStay(s: RunSnapshot, t: RunSnapshot, i: nat) {
    && |t.tasks| == |s.tasks|
    && forall j :: 0 <= j < |s.tasks| && j != i ==> t.tasks[j] == s.tasks[j] || LeftWaiting(s.tasks[j], t.tasks[j])
  }

  predicate LeftWaiting(a: TaskRun, b: TaskRun) {
    a.status.TaskWaitingDependencies? && (b.status.TaskReady? || b.status.TaskSkipped?)
    && b.key == a.key && b.attempts == a.attempts
  }

  // ---------- success ----------

  /** The state between the release loop and settling. */
  ghost predicate Succeeded(c: Compiled, s: RunSnapshot, u: RunSnapshot, i: nat, at: Time)
    requires ValidCompiled(c) && Fits(s, c) && i < c.Size()
  {
    && |u.tasks| == |s.tasks|
    && u.tasks[i].status.TaskSucceeded?
    && ReleasedTasks(s.tasks[i := u.tasks[i]], u.tasks, s.remaining, c.successors[i], at)
    && ReleasedCounts(s.remaining, u.remaining, c.successors[i])
    && u.row.status == s.row.status
  }

  /** What the release needs from the counters: a skipped successor still has two counts to lose.
      Runs that were never resumed always satisfy it. */
  ghost predicate SkippedCountsHold(c: Compiled, s: RunSnapshot, i: nat)
    requires ValidCompiled(c) && Fits(s, c) && i < c.Size()
  {
    forall j :: j in c.successors[i] && j < c.Size() && s.tasks[j].status.TaskSkipped? ==> s.remaining[j] >= 2
  }

  /** A skipped successor of a running task has two unsucceeded dependencies: that task and a blocked one. */
  lemma SkippedSuccessorCounts(c: Compiled, s: RunSnapshot, i: nat, j: nat)
    requires RunInv(c, s) && i < c.Size() && s.tasks[i].status.TaskRunning?
    requires j in c.successors[i] && j < c.Size() && s.tasks[j].status.TaskSkipped?
    ensures Unsucceeded(c.dependencies[j], s.tasks) >= 2
  {
    hide TaskHistory, Ranked, IndexIsBijection;
    DependencyEdge(c, i, j);
    var deps := c.dependencies[j];
    assert NodeAgrees(deps, s.tasks, s.tasks[j].status);
    var d :| d in deps && (s.tasks[d].status.TaskFailed? || s.tasks[d].status.TaskSkipped?);
    var after := s.tasks[i := s.tasks[i].(status := TaskSucceeded)];
    UnsucceededDrops(deps, s.tasks, after, i);
    UnsucceededZero(deps, after);
    assert !after[d].status.TaskSucceeded?;
  }

  lemma FreshCountsHold(c: Compiled, s: RunSnapshot, i: nat)
    requires FreshInv(c, s) && i < c.Size() && s.tasks[i].status.TaskRunning?
    ensures SkippedCountsHold(c, s, i)
  {
    forall j | j in c.successors[i] && j < c.Size() && s.tasks[j].status.TaskSkipped? ensures s.remaining[j] >= 2 {
      SkippedSuccessorCounts(c, s, i, j);
    }
  }

  lemma ReleaseAllowed(c: Compiled, s: RunSnapshot, i: nat, t: TaskRun)
    requires RunInv(c, s) && i < c.Size() && s.tasks[i].status.TaskRunning?
    requires Bounded(c.successors[i], c.Size())
    ensures CanRelease(s.(tasks := s.tasks[i := t]), c.successors[i]) <==> SkippedCountsHold(c, s, i)
  {
    forall j | j in c.successors[i]
      ensures j != i && j < c.Size()
      ensures s.tasks[j].status.TaskWaitingDependencies? || s.tasks[j].status.TaskSkipped?
      ensures s.tasks[j].status.TaskWaitingDependencies? ==> s.remaining[j] >= 1
    {
      SuccessorWaits(c, s, i, j);
      DependencyEdge(c, i, j);
      if s.tasks[j].status.TaskWaitingDependencies? {
        UnsucceededZero(c.dependencies[j], s.tasks);
      }
    }
  }

  lemma SuccessorsBounded(c: Compiled, i: nat)
    requires ValidCompiled(c) && i < c.Size()
    ensures Bounded(c.successors[i], c.Size()) && NoDuplicates(c.successors[i])
    ensures Bounded(c.dependencies[i], c.Size()) && NoDuplicates(c.dependencies[i])
    ensures InRange(c.successors) && InRange(c.dependencies)
  {
  }

  lemma SuccessCount(deps: seq<nat>, s: RunSnapshot, u: RunSnapshot, row: seq<nat>, i: nat, at: Time)
    requires |s.tasks| == |s.remaining| == |u.tasks| && i < |s.tasks| && Bounded(deps, |s.tasks|) && NoDuplicates(deps)
    requires ReleasedTasks(s.tasks[i := u.tasks[i]], u.tasks, s.remaining, row, at)
    requires s.tasks[i].status.TaskRunning? && u.tasks[i].status.TaskSucceeded?
    requires forall d :: 0 <= d < |s.tasks| && d in row ==> !s.tasks[d].status.TaskSucceeded?
    ensures Unsucceeded(deps, u.tasks) == Unsucceeded(deps, s.tasks) - if i in deps then 1 else 0
  {
    UnsucceededDrops(deps, s.tasks, u.tasks, i);
  }

  lemma SuccessCounters(c: Compiled, s: RunSnapshot, u: RunSnapshot, i: nat, at: Time)
    requires RunInv(c, s) && i < c.Size() && s.tasks[i].status.TaskRunning? && Succeeded(c, s, u, i, at)
    ensures forall j :: 0 <= j < c.Size() ==>
      Unsucceeded(c.dependencies[j], u.tasks) == Unsucceeded(c.dependencies[j], s.tasks) - if j in c.successors[i] then 1 else 0
  {
    forall d | 0 <= d < c.Size() && d in c.successors[i] ensures !s.tasks[d].status.TaskSucceeded? {
      SuccessorWaits(c, s, i, d);
    }
    forall j | 0 <= j < c.Size()
      ensures Unsucceeded(c.dependencies[j], u.tasks) ==
        Unsucceeded(c.dependencies[j], s.tasks) - if j in c.successors[i] then 1 else 0
    {
      SuccessorsBounded(c, j);
      DependencyEdge(c, i, j);
      SuccessCount(c.dependencies[j], s, u, c.successors[i], i, at);
    }
  }

  /** The counters stay right as numbers; `left` is what each node counts after the step. */
  lemma SuccessLiveCounters(c: Compiled, s: RunSnapshot, u: RunSnapshot, i: nat, at: Time)
    requires ValidCompiled(c) && Fits(s, c) && Fits(u, c) && i < c.Size() && Succeeded(c, s, u, i, at)
    requires forall j :: 0 <= j < c.Size() ==>
      Unsucceeded(c.dependencies[j], u.tasks) == Unsucceeded(c.dependencies[j], s.tasks) - if j in c.successors[i] then 1 else 0
    requires forall j :: 0 <= j < c.Size() && Terminal(s.tasks[j].status) ==> Terminal(u.tasks[j].status)
    ensures LiveCounters(c, s) ==> LiveCounters(c, u)
    ensures AllCounters(c, s) ==> AllCounters(c, u)
  {
  }

  lemma ReadiedWasWaiting(c: Compiled, s: RunSnapshot, i: nat, j: nat)
    requires RunInv(c, s) && i < c.Size() && s.tasks[i].status.TaskRunning? && SkippedCountsHold(c, s, i)
    requires j in c.successors[i] && j < c.Size() && s.remaining[j] == 1
    ensures s.tasks[j].status.TaskWaitingDependencies? && j != i
  {
    SuccessorWaits(c, s, i, j);
    DependencyEdge(c, i, j);
  }

  /** One node of the graph when its dependency `i` succeeds, `left` unsucceeded dependencies remaining. */
  lemma SuccessNode(deps: seq<nat>, before: seq<TaskRun>, after: seq<TaskRun>, i: nat, st: TaskStatus, st': TaskStatus, left: int)
    requires |before| == |after| && Bounded(deps, |before|) && i < |before|
    requires NodeAgrees(deps, before, st) && !Blocking(before[i].status) && after[i].status.TaskSucceeded?
    requires forall d :: d in deps && d != i ==> SameClass(before[d].status, after[d].status)
    requires Unsucceeded(deps, after) == left
    requires st' == st || (st.TaskWaitingDependencies? && st'.TaskReady? && left == 0)
    requires st'.TaskWaitingDependencies? ==> left > 0
    ensures NodeAgrees(deps, after, st')
  {
    UnsucceededZero(deps, after);
    if st'.TaskSkipped? {
      var d :| d in deps && (before[d].status.TaskFailed? || before[d].status.TaskSkipped?);
      assert SameClass(before[d].status, after[d].status);
    }
  }

  lemma SuccessGraph(c: Compiled, s: RunSnapshot, u: RunSnapshot, i: nat, at: Time)
    requires RunInv(c, s) && i < c.Size() && s.tasks[i].status.TaskRunning? && Succeeded(c, s, u, i, at)
    requires SkippedCountsHold(c, s, i)
    ensures GraphAgrees(c, u.tasks)
  {
    hide Unsucceeded, TaskHistory, Ranked, IndexIsBijection;
    SuccessCounters(c, s, u, i, at);
    forall d | 0 <= d < c.Size() && d != i ensures SameClass(s.tasks[d].status, u.tasks[d].status) {
      if d in c.successors[i] && s.remaining[d] == 1 { ReadiedWasWaiting(c, s, i, d); }
    }
    forall j | 0 <= j < c.Size() ensures NodeAgrees(c.dependencies[j], u.tasks, u.tasks[j].status) {
      var deps := c.dependencies[j];
      assert NodeAgrees(deps, s.tasks, s.tasks[j].status);
      SuccessorsBounded(c, j);
      DependencyEdge(c, i, j);
      if j == i {
        NodeKeeps(deps, s.tasks, u.tasks, s.tasks[j].status);
      } else {
        SuccessStatus(c, s, u, i, j, at);
        SuccessNode(deps, s.tasks, u.tasks, i, s.tasks[j].status, u.tasks[j].status, Unsucceeded(deps, u.tasks));
      }
    }
  }

  lemma SuccessStatus(c: Compiled, s: RunSnapshot, u: RunSnapshot, i: nat, j: nat, at: Time)
    requires RunInv(c, s) && i < c.Size() && s.tasks[i].status.TaskRunning? && Succeeded(c, s, u, i, at)
    requires SkippedCountsHold(c, s, i) && j < c.Size() && j != i
    requires Unsucceeded(c.dependencies[j], u.tasks) ==
      Unsucceeded(c.dependencies[j], s.tasks) - if j in c.successors[i] then 1 else 0
    ensures u.tasks[j].status == s.tasks[j].status
      || (s.tasks[j].status.TaskWaitingDependencies? && u.tasks[j].status.TaskReady?
           && Unsucceeded(c.dependencies[j], u.tasks) == 0)
    ensures u.tasks[j].status.TaskWaitingDependencies? ==> Unsucceeded(c.dependencies[j], u.tasks) > 0
  {
    if j in c.successors[i] {
      SuccessorWaits(c, s, i, j);
      if s.remaining[j] == 1 { ReadiedWasWaiting(c, s, i, j); }
    } else {
      assert NodeAgrees(c.dependencies[j], s.tasks, s.tasks[j].status);
      UnsucceededZero(c.dependencies[j], s.tasks);
    }
  }

  /** The task row of a current attempt that ended in `to`, the task itself moved to `st`. */
  function Settled(t: TaskRun, to: AttemptStatus, result: ExecutionResult, st: TaskStatus, at: Time): TaskRun
    requires |t.attempts| > 0
  {
    MovedTask(SetLastAttempt(t, t.Last().(status := to, finishedAt := Some(at), result := result)), st, at)
  }

  function ResultOf(response: ExecutionResponse): ExecutionResult {
    ExecutionResult(response.output, response.errorCode, response.errorMessage)
  }

  lemma SettledHistory(t: TaskRun, max: int, to: AttemptStatus, result: ExecutionResult, st: TaskStatus, at: Time)
    requires TaskHistory(t, max) && t.status.TaskRunning?
    requires (st.TaskSucceeded? && to.AttemptSucceeded?)
      || (st.TaskFailed? && Retryable(to) && (!to.AttemptFailed? ==> |t.attempts| == max))
    ensures TaskHistory(Settled(t, to, result, st, at), max)
  {
  }

  /** The first two moves of settling the current attempt always succeed. */
  lemma SettlePrefix(s: RunSnapshot, i: nat, number: int, to: AttemptStatus, result: ExecutionResult, st: TaskStatus,
      at: Time, r1: string, r2: string)
    requires i < |s.tasks| && ActiveAttempt(s, i, number) && !to.AttemptRunning?
    requires st.TaskSucceeded? || st.TaskFailed?
    ensures var o1 := FinishAttempt(s, i, to, result, at, r1);
            && o1.Applied? && |o1.s.tasks| == |s.tasks| && o1.s.tasks[i].status.TaskRunning?
                 && |o1.s.tasks[i].attempts| == |s.tasks[i].attempts|
            && o1.s.tasks[i].Last().number == number && o1.s.remaining == s.remaining
            && var o2 := MoveTask(o1.s, i, st, at, r2);
            && o2.Applied? && o2.s.tasks == s.tasks[i := Settled(s.tasks[i], to, result, st, at)]
            && o2.s.remaining == s.remaining && o2.s.row.status == s.row.status
  {
  }

  /** A successful result of the current attempt is accepted exactly when no skipped successor runs out of counts,
      and then the invariant is kept; on a run that was never resumed it is always accepted. */
  lemma SuccessKeeps(c: Compiled, s: RunSnapshot, i: nat, number: int, response: ExecutionResponse, at: Time)
    requires RunInv(c, s) && i < c.Size() && ActiveAttempt(s, i, number) && response.kind.ResultSuccess?
    requires Runnable(s, c)
    ensures var o := ApplyAttemptResult(s, c, i, number, response, at);
            && (o.Applied? <==> SkippedCountsHold(c, s, i)) && !o.Ignored?
            && (o.Applied? ==> Kept(c, s, o.s) && OthersWaitOrStay(s, o.s, i))
            && (o.Applied? ==> o.s.tasks[i] == Settled(s.tasks[i], AttemptSucceeded, ResultOf(response), TaskSucceeded, at))
            && (o.Applied? ==> SuccessReleased(c, s, o.s, i, at))
    ensures FreshInv(c, s) ==> ApplyAttemptResult(s, c, i, number, response, at).Applied?
  {
    var result := ResultOf(response);
    SettlePrefix(s, i, number, AttemptSucceeded, result, TaskSucceeded, at, "execution succeeded", "execution succeeded");
    var s1 := FinishAttempt(s, i, AttemptSucceeded, result, at, "execution succeeded").s;
    SettledHistory(s.tasks[i], c.MaxAttempts(i), AttemptSucceeded, result, TaskSucceeded, at);
    SucceedTaskKeeps(c, s, s1, i, at);
  }

  /** Each successor lost one count, and those without any left became ready. */
  ghost predicate SuccessReleased(c: Compiled, s: RunSnapshot, t: RunSnapshot, i: nat, at: Time)
    requires ValidCompiled(c) && Fits(s, c) && i < c.Size()
  {
    && |t.tasks| == |s.tasks|
    && ReleasedTasks(s.tasks[i := t.tasks[i]], t.tasks, s.remaining, c.successors[i], at)
    && ReleasedCounts(s.remaining, t.remaining, c.successors[i])
  }

  lemma SucceedTaskKeeps(c: Compiled, s: RunSnapshot, s1: RunSnapshot, i: nat, at: Time)
    requires RunInv(c, s) && i < c.Size() && s.tasks[i].status.TaskRunning? && Runnable(s1, c)
    requires MoveTask(s1, i, TaskSucceeded, at, "execution succeeded").Applied?
    requires var s2 := MoveTask(s1, i, TaskSucceeded, at, "execution succeeded").s;
      && s2.tasks == s.tasks[i := s2.tasks[i]] && s2.remaining == s.remaining && s2.row.status == s.row.status
      && s2.tasks[i].status.TaskSucceeded? && s2.tasks[i].key == s.tasks[i].key && TaskHistory(s2.tasks[i], c.MaxAttempts(i))
    ensures var o := SucceedTask(s1, c, i, at);
            && (o.Applied? <==> SkippedCountsHold(c, s, i)) && !o.Ignored?
            && (o.Applied? ==> Kept(c, s, o.s) && OthersWaitOrStay(s, o.s, i))
            && (o.Applied? ==> o.s.tasks[i] == MoveTask(s1, i, TaskSucceeded, at, "execution succeeded").s.tasks[i])
            && (o.Applied? ==> SuccessReleased(c, s, o.s, i, at))
    ensures FreshInv(c, s) ==> SucceedTask(s1, c, i, at).Applied?
  {
    var s2 := MoveTask(s1, i, TaskSucceeded, at, "execution succeeded").s;
    SuccessorsBounded(c, i);
    LiveTaskMeansRunning(c, s, i);
    ReleaseAllowed(c, s, i, s2.tasks[i]);
    assert CanRelease(s2, c.successors[i]) <==> CanRelease(s.(tasks := s.tasks[i := s2.tasks[i]]), c.successors[i]);
    ReleaseExact(s2, c.successors[i], at);
    if FreshInv(c, s) { FreshCountsHold(c, s, i); }
    if SkippedCountsHold(c, s, i) {
      var u := ReleaseSuccessors(s2, c.successors[i], at).s;
      SuccessState(c, s, s2, u, i, at);
      SettleKeeps(c, u, at);
    }
  }

  lemma SuccessState(c: Compiled, s: RunSnapshot, s2: RunSnapshot, u: RunSnapshot, i: nat, at: Time)
    requires RunInv(c, s) && i < c.Size() && s.tasks[i].status.TaskRunning? && SkippedCountsHold(c, s, i)
    requires s.row.status.WorkflowRunning?
    requires |s2.tasks| == |s.tasks| && s2.tasks == s.tasks[i := s2.tasks[i]] && s2.remaining == s.remaining
    requires s2.tasks[i].status.TaskSucceeded? && s2.tasks[i].key == s.tasks[i].key && TaskHistory(s2.tasks[i], c.MaxAttempts(i))
    requires ReleasedTasks(s2.tasks, u.tasks, s2.remaining, c.successors[i], at)
    requires ReleasedCounts(s2.remaining, u.remaining, c.successors[i]) && u.row.status == s.row.status
    ensures RunInv(c, u) && (AllCounters(c, s) ==> AllCounters(c, u)) && u.tasks[i] == s2.tasks[i]
    ensures OthersWaitOrStay(s, u, i)
  {
    hide NodeAgrees, Unsucceeded, Ranked, IndexIsBijection;
    forall j | 0 <= j < c.Size() && j in c.successors[i]
      && s.remaining[j] == 1 ensures s.tasks[j].status.TaskWaitingDependencies? && j != i {
      ReadiedWasWaiting(c, s, i, j);
    }
    if i in c.successors[i] {
      SuccessorWaits(c, s, i, i);
    }
    assert u.tasks[i] == s2.tasks[i];
    assert Succeeded(c, s, u, i, at);
    SuccessCounters(c, s, u, i, at);
    SuccessLiveCounters(c, s, u, i, at);
    SuccessGraph(c, s, u, i, at);
    assert Histories(c, u) by {
      forall j | 0 <= j < c.Size() ensures TaskHistory(u.tasks[j], c.MaxAttempts(j))
        && u.tasks[j].key == c.definition.tasks[j].key {
        assert TaskHistory(s.tasks[j], c.MaxAttempts(j));
      }
    }
    assert NoneCanceled(u.tasks);
  }

  // ---------- failure ----------

  /** The graph after task `i` failed and its unfinished descendants were skipped. */
  lemma FailureGraph(c: Compiled, s: RunSnapshot, u: RunSnapshot, i: nat, at: Time)
    requires RunInv(c, s) && NoneCanceled(s.tasks) && i < c.Size() && s.tasks[i].status.TaskRunning? && Fits(u, c)
    requires u.tasks[i].status.TaskFailed?
    requires SkippedWhere(s.tasks[i := u.tasks[i]], u.tasks, Descendants(c.successors, [i]), at)
    ensures GraphAgrees(c, u.tasks)
  {
    var hit := Descendants(c.successors, [i]);
    forall j | 0 <= j < c.Size() ensures NodeAgrees(c.dependencies[j], u.tasks, u.tasks[j].status) {
      var deps := c.dependencies[j];
      SuccessorsBounded(c, j);
      assert NodeAgrees(deps, s.tasks, s.tasks[j].status);
      if j in hit {
        FailureDescendant(c, s, u, i, j, at);
      } else {
        forall d | d in deps ensures d !in hit && d != i {
          DependencyEdge(c, d, j);
          if d == i { EdgeReaches(c.successors, i, j); }
          if d in hit { EdgeExtends(c.successors, [i], d, j); }
        }
        forall d | d in deps ensures SameClass(s.tasks[d].status, u.tasks[d].status) {}
        if j == i {
          NodeKeeps(deps, s.tasks, u.tasks, s.tasks[i].status);
        } else {
          NodeKeeps(deps, s.tasks, u.tasks, s.tasks[j].status);
        }
      }
    }
  }

  lemma FailureDescendant(c: Compiled, s: RunSnapshot, u: RunSnapshot, i: nat, j: nat, at: Time)
    requires RunInv(c, s) && NoneCanceled(s.tasks) && i < c.Size() && s.tasks[i].status.TaskRunning? && Fits(u, c)
    requires u.tasks[i].status.TaskFailed? && j < c.Size() && j in Descendants(c.successors, [i])
    requires SkippedWhere(s.tasks[i := u.tasks[i]], u.tasks, Descendants(c.successors, [i]), at)
    ensures u.tasks[j].status.TaskSkipped? && NodeAgrees(c.dependencies[j], u.tasks, u.tasks[j].status)
  {
    hide Unsucceeded, TaskHistory, Ranked, IndexIsBijection, AllCounters;
    assert Reaches(c.successors, i, j);
    DescendantWaits(c, s, i, j);
    var w := ReachesSplit(c.successors, i, j);
    SuccessorsBounded(c, j);
    DependencyEdge(c, w, j);
    if w != i {
      DescendantWaits(c, s, i, w);
      assert w in Descendants(c.successors, [i]);
    }
    assert w in c.dependencies[j] && (u.tasks[w].status.TaskFailed? || u.tasks[w].status.TaskSkipped?);
  }

  /** Failing a running task never meets an illegal move, skips exactly its unfinished descendants,
      settles the workflow when nothing is left, and keeps the invariant. */
  lemma FailTaskKeeps(c: Compiled, s: RunSnapshot, s1: RunSnapshot, i: nat, at: Time, reason: string)
    requires RunInv(c, s) && i < c.Size() && s.tasks[i].status.TaskRunning? && Runnable(s1, c)
    requires MoveTask(s1, i, TaskFailed, at, reason).Applied?
    requires var s2 := MoveTask(s1, i, TaskFailed, at, reason).s;
      && s2.tasks == s.tasks[i := s2.tasks[i]] && s2.remaining == s.remaining && s2.row.status == s.row.status
      && s2.tasks[i].status.TaskFailed? && s2.tasks[i].key == s.tasks[i].key && TaskHistory(s2.tasks[i], c.MaxAttempts(i))
    ensures var o := FailTask(s1, c, i, at, reason);
            && o.Applied? && Kept(c, s, o.s) && OthersWaitOrStay(s, o.s, i)
            && SkippedWhere(s.tasks[i := o.s.tasks[i]], o.s.tasks, Descendants(c.successors, [i]), at)
            && o.s.tasks[i] == MoveTask(s1, i, TaskFailed, at, reason).s.tasks[i]
  {
    var s2 := MoveTask(s1, i, TaskFailed, at, reason).s;
    LiveTaskMeansRunning(c, s, i);
    SkipDescendantsExact(s2, c, [i], at);
    var hit := Descendants(c.successors, [i]);
    forall v | v in hit ensures v < c.Size() && v != i
      && (s.tasks[v].status.TaskWaitingDependencies? || s.tasks[v].status.TaskSkipped?)
    {
      assert Reaches(c.successors, i, v);
      DescendantWaits(c, s, i, v);
    }
    assert MaySkip(s2.tasks, hit);
    var u := SkipDescendantsFrom(s2, c, [i], at).s;
    FailureState(c, s, u, i, at);
    SettleKeeps(c, u, at);
  }

  lemma FailureState(c: Compiled, s: RunSnapshot, u: RunSnapshot, i: nat, at: Time)
    requires RunInv(c, s) && s.row.status.WorkflowRunning? && i < c.Size() && s.tasks[i].status.TaskRunning? && Fits(u, c)
    requires u.tasks[i].status.TaskFailed? && u.tasks[i].key == s.tasks[i].key && TaskHistory(u.tasks[i], c.MaxAttempts(i))
    requires SkippedWhere(s.tasks[i := u.tasks[i]], u.tasks, Descendants(c.successors, [i]), at)
    requires forall v :: v in Descendants(c.successors, [i]) && v < c.Size() ==>
      s.tasks[v].status.TaskWaitingDependencies? || s.tasks[v].status.TaskSkipped?
    requires u.remaining == s.remaining && u.row.status == s.row.status
    ensures RunInv(c, u) && (AllCounters(c, s) ==> AllCounters(c, u)) && OthersWaitOrStay(s, u, i)
  {
    hide Transposes, Ranked, IndexIsBijection, NodeAgrees, Unsucceeded, Descendants;
    FailureGraph(c, s, u, i, at);
    CountersUntouched(c, s, u);
    forall j | 0 <= j < c.Size() ensures TaskHistory(u.tasks[j], c.MaxAttempts(j))
      && u.tasks[j].key == c.definition.tasks[j].key {
      assert TaskHistory(s.tasks[j], c.MaxAttempts(j));
    }
  }

  lemma InvFits(c: Compiled, s: RunSnapshot)
    requires RunInv(c, s)
    ensures ValidCompiled(c) && Fits(s, c) && Runnable(s, c)
  {
  }

  lemma TaskOf(c: Compiled, s: RunSnapshot, i: nat)
    requires RunInv(c, s) && i < c.Size()
    ensures ValidCompiled(c) && Fits(s, c) && Runnable(s, c)
    ensures TaskHistory(s.tasks[i], c.MaxAttempts(i)) && s.tasks[i].key == c.definition.tasks[i].key
  {
  }

  /** A permanent failure of the current attempt is always accepted. */
  lemma PermanentFailureKeeps(c: Compiled, s: RunSnapshot, i: nat, number: int, response: ExecutionResponse, at: Time)
    requires RunInv(c, s) && i < c.Size() && ActiveAttempt(s, i, number) && response.kind.ResultPermanentFailure?
    requires Runnable(s, c)
    ensures var o := ApplyAttemptResult(s, c, i, number, response, at);
            && o.Applied? && Kept(c, s, o.s) && OthersWaitOrStay(s, o.s, i)
            && o.s.tasks[i] == Settled(s.tasks[i], AttemptFailed, ResultOf(response), TaskFailed, at)
            && SkippedWhere(s.tasks[i := o.s.tasks[i]], o.s.tasks, Descendants(c.successors, [i]), at)
  {
    hide RunInv, FreshInv, SkippedWhere, OthersWaitOrStay;
    TaskOf(c, s, i);
    var result := ResultOf(response);
    SettlePrefix(s, i, number, AttemptFailed, result, TaskFailed, at, "permanent execution failure",
      "permanent execution failure");
    var s1 := FinishAttempt(s, i, AttemptFailed, result, at, "permanent execution failure").s;
    SettledHistory(s.tasks[i], c.MaxAttempts(i), AttemptFailed, result, TaskFailed, at);
    FailTaskKeeps(c, s, s1, i, at, "permanent execution failure");
  }

  // ---------- retry or give up ----------

  /** What a retryable end of the current attempt leads to. */
  ghost predicate RetriedOrFailed(c: Compiled, s: RunSnapshot, t: RunSnapshot, i: nat, to: AttemptStatus,
      result: ExecutionResult, at: Time)
    requires i < c.Size() && Fits(s, c) && Fits(t, c) && |s.tasks[i].attempts| > 0
  {
    if |s.tasks[i].attempts| < c.MaxAttempts(i) then
      && t.tasks == s.tasks[i := t.tasks[i]] && t.row.status == s.row.status
      && t.tasks[i] == Settled(s.tasks[i], to, result, TaskWaitingRetry, at).(
           readyAt := Some(at + c.definition.tasks[i].retry.intervalMillis * NANOS_PER_MILLI))
    else
      && t.tasks[i] == Settled(s.tasks[i], to, result, TaskFailed, at)
      && SkippedWhere(s.tasks[i := t.tasks[i]], t.tasks, Descendants(c.successors, [i]), at)
  }

  lemma RetryDecisionKeeps(c: Compiled, s: RunSnapshot, i: nat, number: int, to: AttemptStatus, result: ExecutionResult,
      at: Time, reason: string)
    requires RunInv(c, s) && i < c.Size() && ActiveAttempt(s, i, number) && Retryable(to) && Runnable(s, c)
    ensures var o1 := FinishAttempt(s, i, to, result, at, reason);
            && o1.Applied? && Runnable(o1.s, c) && |o1.s.tasks[i].attempts| > 0
            && var o := ApplyRetryDecision(o1.s, c, i, at, reason);
            && o.Applied? && Kept(c, s, o.s) && OthersWaitOrStay(s, o.s, i) && RetriedOrFailed(c, s, o.s, i, to, result, at)
  {
    hide AppendEvent, NodeAgrees, Unsucceeded, Ranked, Transposes, IndexIsBijection;
    SettlePrefix(s, i, number, to, result, TaskFailed, at, reason, "retry attempts exhausted");
    var s1 := FinishAttempt(s, i, to, result, at, reason).s;
    var max := c.MaxAttempts(i);
    assert TaskHistory(s.tasks[i], max) && number == |s.tasks[i].attempts|;
    if number < max {
      var o := ApplyRetryDecision(s1, c, i, at, reason);
      RetryHistory(s.tasks[i], o.s.tasks[i], max);
      LiveTaskMeansRunning(c, s, i);
      LiveMove(c, s, o.s, i);
    } else {
      SettledHistory(s.tasks[i], max, to, result, TaskFailed, at);
      FailTaskKeeps(c, s, s1, i, at, "retry attempts exhausted");
    }
  }

  lemma RetryHistory(t: TaskRun, u: TaskRun, max: int)
    requires TaskHistory(t, max) && t.status.TaskRunning? && |t.attempts| < max
    requires u.status.TaskWaitingRetry? && u.readyAt.Some? && |u.attempts| == |t.attempts|
    requires forall k :: 0 <= k < |t.attempts| - 1 ==> u.attempts[k] == t.attempts[k]
    requires u.Last().number == t.Last().number && Retryable(u.Last().status)
    ensures TaskHistory(u, max)
  {
  }

  /** A temporary failure is retried or exhausts the attempts. */
  lemma TemporaryFailureKeeps(c: Compiled, s: RunSnapshot, i: nat, number: int, response: ExecutionResponse, at: Time)
    requires RunInv(c, s) && i < c.Size() && ActiveAttempt(s, i, number) && response.kind.ResultTemporaryFailure?
      && Runnable(s, c)
    ensures var o := ApplyAttemptResult(s, c, i, number, response, at);
            && o.Applied? && Kept(c, s, o.s) && OthersWaitOrStay(s, o.s, i)
            && RetriedOrFailed(c, s, o.s, i, AttemptFailed, ResultOf(response), at)
  {
    hide RunInv, FreshInv, SkippedWhere, OthersWaitOrStay, FinishAttempt, ApplyRetryDecision, RetriedOrFailed;
    TaskOf(c, s, i);
    RetryDecisionKeeps(c, s, i, number, AttemptFailed, ResultOf(response), at, "temporary execution failure");
  }

  // ---------- the result steps as a whole ----------

  /** What the result of the current attempt of task `i` leads to, by its kind. */
  ghost predicate ResultTaken(c: Compiled, s: RunSnapshot, t: RunSnapshot, i: nat, response: ExecutionResponse, at: Time)
    requires ValidCompiled(c) && Fits(s, c) && Fits(t, c) && i < c.Size() && |s.tasks[i].attempts| > 0
  {
    match response.kind
    case ResultSuccess =>
      && t.tasks[i] == Settled(s.tasks[i], AttemptSucceeded, ResultOf(response), TaskSucceeded, at)
      && SuccessReleased(c, s, t, i, at)
    case ResultPermanentFailure =>
      && t.tasks[i] == Settled(s.tasks[i], AttemptFailed, ResultOf(response), TaskFailed, at)
      && SkippedWhere(s.tasks[i := t.tasks[i]], t.tasks, Descendants(c.successors, [i]), at)
    case ResultTemporaryFailure => RetriedOrFailed(c, s, t, i, AttemptFailed, ResultOf(response), at)
    case _ => false
  }

  /** The current attempt of a task is the last one, while the task is running. */
  lemma CurrentAttempt(c: Compiled, s: RunSnapshot, i: nat, number: int)
    requires RunInv(c, s) && i < c.Size()
    ensures Fits(s, c)
    ensures ActiveAttempt(s, i, number) <==> s.tasks[i].status.TaskRunning? && number == |s.tasks[i].attempts|
  {
    assert TaskHistory(s.tasks[i], c.MaxAttempts(i));
  }

  predicate Protocol(kind: ResultKind) {
    kind.ResultSuccess? || kind.ResultTemporaryFailure? || kind.ResultPermanentFailure?
  }

  /** The two reasons for refusing a current result: an unknown kind, or a success that meets a stale counter. */
  ghost predicate ResultRefused(c: Compiled, s: RunSnapshot, i: nat, kind: ResultKind)
    requires ValidCompiled(c) && Fits(s, c) && i < c.Size()
  {
    !Protocol(kind) || (kind.ResultSuccess? && !SkippedCountsHold(c, s, i))
  }

  /** Results of the protocol: a stale one is ignored, a current one is applied, and the only error is a
      success that meets a stale counter. */
  lemma ResultKeeps(c: Compiled, s: RunSnapshot, i: int, number: int, response: ExecutionResponse, at: Time)
    requires RunInv(c, s) && Runnable(s, c)
    ensures var o := ApplyAttemptResult(s, c, i, number, response, at);
            && (o.Ignored? <==> 0 <= i < c.Size() && !ActiveAttempt(s, i, number))
            && (o.Rejected? <==> !(0 <= i < c.Size()) || (ActiveAttempt(s, i, number) && ResultRefused(c, s, i, response.kind)))
            && (o.Applied? ==> Kept(c, s, o.s) && OthersWaitOrStay(s, o.s, i))
            && (o.Applied? ==> 0 <= i < c.Size() && |s.tasks[i].attempts| > 0 && ResultTaken(c, s, o.s, i, response, at))
  {
    if 0 <= i < c.Size() && ActiveAttempt(s, i, number) {
      match response.kind
      case ResultSuccess => SuccessKeeps(c, s, i, number, response, at);
      case ResultPermanentFailure => PermanentFailureKeeps(c, s, i, number, response, at);
      case ResultTemporaryFailure => TemporaryFailureKeeps(c, s, i, number, response, at);
      case _ =>
    }
  }

  /** On a run that was never resumed no current result of the protocol is ever refused. */
  lemma FreshResultAccepted(c: Compiled, s: RunSnapshot, i: nat, number: int, response: ExecutionResponse, at: Time)
    requires FreshInv(c, s) && Runnable(s, c) && i < c.Size() && ActiveAttempt(s, i, number) && Protocol(response.kind)
    ensures var o := ApplyAttemptResult(s, c, i, number, response, at); o.Applied? && FreshInv(c, o.s)
  {
    ResultKeeps(c, s, i, number, response, at);
    FreshCountsHold(c, s, i);
  }

  lemma InterruptKeeps(c: Compiled, s: RunSnapshot, i: int, number: int, at: Time, reason: string)
    requires RunInv(c, s) && Runnable(s, c)
    ensures var o := InterruptAttempt(s, c, i, number, at, reason);
            && (o.Rejected? <==> !(0 <= i < c.Size()))
            && (o.Applied? <==> 0 <= i < c.Size() && ActiveAttempt(s, i, number))
            && (o.Applied? ==> Kept(c, s, o.s) && OthersWaitOrStay(s, o.s, i))
            && (o.Applied? ==> RetriedOrFailed(c, s, o.s, i, AttemptInterrupted, ExecutionResult("", "interrupted", reason), at))
  {
    if 0 <= i < c.Size() && ActiveAttempt(s, i, number) {
      RetryDecisionKeeps(c, s, i, number, AttemptInterrupted, ExecutionResult("", "interrupted", reason), at, reason);
    }
  }

  lemma TimeoutKeeps(c: Compiled, s: RunSnapshot, i: int, number: int, at: Time)
    requires RunInv(c, s) && Runnable(s, c)
    ensures var o := TimeoutAttempt(s, c, i, number, at);
            && (o.Rejected? <==> !(0 <= i < c.Size()))
            && (o.Applied? <==> 0 <= i < c.Size() && ActiveAttempt(s, i, number))
            && (o.Applied? ==> Kept(c, s, o.s) && OthersWaitOrStay(s, o.s, i))
            && (o.Applied? ==> RetriedOrFailed(c, s, o.s, i, AttemptTimedOut,
                 ExecutionResult("", "timeout", "execution timed out"), at))
  {
    if 0 <= i < c.Size() && ActiveAttempt(s, i, number) {
      RetryDecisionKeeps(c, s, i, number, AttemptTimedOut, ExecutionResult("", "timeout", "execution timed out"), at,
        "execution timed out");
    }
  }

  // ---------- cancellation ----------

  function CanceledTask(t: TaskRun, at: Time): TaskRun {
    if Terminal(t.status) then t
    else if t.status.TaskRunning? && |t.attempts| > 0 && t.Last().status.AttemptRunning?
    then Settled(t, AttemptCanceled, CANCELED_RESULT, TaskCanceled, at)
    else MovedTask(t, TaskCanceled, at)
  }

  lemma {:induction false} CancelTasksExact(s: RunSnapshot, n: nat, at: Time)
    requires n <= |s.tasks|
    ensures var o := CancelTasks(s, n, at);
            && o.Applied? && |o.s.tasks| == |s.tasks| && o.s.remaining == s.remaining && o.s.row.status == s.row.status
            && forall j :: 0 <= j < |s.tasks| ==> o.s.tasks[j] == if j < n then CanceledTask(s.tasks[j], at) else s.tasks[j]
  {
    hide AppendEvent;
    if n > 0 {
      CancelTasksExact(s, n - 1, at);
    }
  }

  /** Canceling an unfinished run always succeeds: it ends every unfinished task and attempt and touches no finished one. */
  lemma CancelKeeps(c: Compiled, s: RunSnapshot, at: Time)
    requires RunInv(c, s)
    ensures |s.tasks| == c.Size()
    ensures var o := CancelRun(s, at);
            && (o.Applied? <==> !WorkflowTerminal(s.row.status)) && !o.Ignored?
            && (o.Applied? ==> Kept(c, s, o.s) && o.s.row.status.WorkflowCanceled? && AllTerminal(o.s.tasks))
            && (o.Applied? ==> forall j :: 0 <= j < c.Size() ==> o.s.tasks[j] == CanceledTask(s.tasks[j], at))
  {
    hide RunInv, FreshInv, CancelTasks;
    InvFits(c, s);
    CancelTasksExact(s, |s.tasks|, at);
    var o := CancelRun(s, at);
    if o.Applied? {
      CanceledState(c, s, o.s, at);
    }
  }

  lemma CanceledState(c: Compiled, s: RunSnapshot, t: RunSnapshot, at: Time)
    requires RunInv(c, s) && !WorkflowTerminal(s.row.status)
    requires |t.tasks| == |s.tasks| && t.remaining == s.remaining && t.row.status.WorkflowCanceled?
    requires forall j :: 0 <= j < c.Size() ==> t.tasks[j] == CanceledTask(s.tasks[j], at)
    ensures Kept(c, s, t) && AllTerminal(t.tasks)
  {
    hide Transposes, Ranked, IndexIsBijection, NodeAgrees, Unsucceeded;
    CanceledGraph(c, s, t, at);
    CountersUntouched(c, s, t);
    forall j | 0 <= j < c.Size() ensures TaskHistory(t.tasks[j], c.MaxAttempts(j))
      && t.tasks[j].key == c.definition.tasks[j].key {
      assert TaskHistory(s.tasks[j], c.MaxAttempts(j));
    }
  }

  lemma CanceledGraph(c: Compiled, s: RunSnapshot, t: RunSnapshot, at: Time)
    requires ValidCompiled(c) && Fits(s, c) && Fits(t, c) && GraphAgrees(c, s.tasks)
    requires forall j :: 0 <= j < c.Size() ==> t.tasks[j] == CanceledTask(s.tasks[j], at)
    ensures GraphAgrees(c, t.tasks)
  {
    forall j | 0 <= j < c.Size() ensures NodeAgrees(c.dependencies[j], t.tasks, t.tasks[j].status) {
      var deps := c.dependencies[j];
      assert NodeAgrees(deps, s.tasks, s.tasks[j].status);
      if s.tasks[j].status.TaskSkipped? {
        var d :| d in deps && (s.tasks[d].status.TaskFailed? || s.tasks[d].status.TaskSkipped?);
        assert t.tasks[d] == s.tasks[d];
      }
    }
  }
}
