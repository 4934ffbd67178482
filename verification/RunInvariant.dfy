/** What every step of a run keeps: task histories agree with task statuses, statuses agree with the
    dependency graph, and the dependency counters are right. */
module RunInvariant {
  import opened Domain
  import opened Finite
  import opened Compiler
  import opened Steps

  // ---------- one task ----------

  /** The attempt history of a task fits its status and the retry limit `max`. */
  predicate TaskHistory(t: TaskRun, max: int) {
    && |t.attempts| <= max
    && (forall k :: 0 <= k < |t.attempts| ==> t.attempts[k].number == k + 1)
    && (forall k :: 0 <= k < |t.attempts| - 1 ==> Retryable(t.attempts[k].status))
    && (t.readyAt.Some? <==> t.status.TaskWaitingRetry?)
    && match t.status
       case TaskWaitingDependencies => |t.attempts| == 0
       case TaskSkipped => |t.attempts| == 0
       case TaskReady => |t.attempts| < max && (|t.attempts| > 0 ==> Retryable(t.Last().status))
       case TaskQueued => |t.attempts| < max && (|t.attempts| > 0 ==> Retryable(t.Last().status))
       case TaskRunning => |t.attempts| > 0 && t.Last().status.AttemptRunning?
       case TaskWaitingRetry => 0 < |t.attempts| < max && Retryable(t.Last().status)
       case TaskSucceeded => |t.attempts| > 0 && t.Last().status.AttemptSucceeded?
       case TaskFailed => |t.attempts| > 0 && Retryable(t.Last().status)
                          && (!t.Last().status.AttemptFailed? ==> |t.attempts| == max)
       case TaskCanceled => |t.attempts| > 0 ==>
         t.Last().status.AttemptCanceled? || (Retryable(t.Last().status) && |t.attempts| < max)
  }

  ghost predicate Histories(c: Compiled, s: RunSnapshot)
    requires Fits(s, c)
  {
    forall i :: 0 <= i < c.Size() ==> TaskHistory(s.tasks[i], c.MaxAttempts(i)) && s.tasks[i].key == c.definition.tasks[i].key
  }

  // ---------- the graph ----------

  /** Statuses a task can only have once all its dependencies succeeded. */
  predicate Released(st: TaskStatus) {
    st.TaskReady? || st.TaskQueued? || st.TaskRunning? || st.TaskWaitingRetry? || st.TaskSucceeded? || st.TaskFailed?
  }

  predicate Blocking(st: TaskStatus) { st.TaskFailed? || st.TaskSkipped? || st.TaskCanceled? }

  /** Each task's status agrees with the statuses of its direct dependencies. */
  ghost predicate GraphAgrees(c: Compiled, tasks: seq<TaskRun>)
    requires ValidCompiled(c) && |tasks| == c.Size()
  {
    forall i :: 0 <= i < c.Size() ==> NodeAgrees(c.dependencies[i], tasks, tasks[i].status)
  }

  ghost predicate NodeAgrees(deps: seq<nat>, tasks: seq<TaskRun>, st: TaskStatus)
  {
    && (forall d :: d in deps ==> d < |tasks|)
    && (Released(st) ==> forall d :: d in deps ==> tasks[d].status.TaskSucceeded?)
    && (st.TaskWaitingDependencies? ==> forall d :: d in deps ==> !Blocking(tasks[d].status))
    && (st.TaskWaitingDependencies? ==> exists d :: d in deps && !tasks[d].status.TaskSucceeded?)
    && (st.TaskSkipped? ==> exists d :: d in deps && (tasks[d].status.TaskFailed? || tasks[d].status.TaskSkipped?))
  }

  // ---------- counters ----------

  /** How many entries of `deps` name a task that has not succeeded. */
  function Unsucceeded(deps: seq<nat>, tasks: seq<TaskRun>): nat
    requires Bounded(deps, |tasks|)
  {
    if deps == [] then 0
    else Unsucceeded(deps[..|deps| - 1], tasks) + (if tasks[deps[|deps| - 1]].status.TaskSucceeded? then 0 else 1)
  }

  /** The counters of unfinished tasks are right: what survives a Resume. */
  ghost predicate LiveCounters(c: Compiled, s: RunSnapshot)
    requires ValidCompiled(c) && Fits(s, c)
  {
    forall i :: 0 <= i < c.Size() && !Terminal(s.tasks[i].status) ==>
      s.remaining[i] == Unsucceeded(c.dependencies[i], s.tasks)
  }

  /** Every counter is right: what holds of runs that were never resumed. */
  ghost predicate AllCounters(c: Compiled, s: RunSnapshot)
    requires ValidCompiled(c) && Fits(s, c)
  {
    forall i :: 0 <= i < c.Size() ==> s.remaining[i] == Unsucceeded(c.dependencies[i], s.tasks)
  }

  // ---------- the workflow status ----------

  ghost predicate NoneCanceled(tasks: seq<TaskRun>) {
    forall i :: 0 <= i < |tasks| ==> !tasks[i].status.TaskCanceled?
  }

  ghost predicate NothingStarted(tasks: seq<TaskRun>) {
    forall i :: 0 <= i < |tasks| ==>
      (tasks[i].status.TaskReady? || tasks[i].status.TaskWaitingDependencies?) && tasks[i].attempts == []
  }

  ghost predicate StatusAgrees(s: RunSnapshot) {
    match s.row.status
    case WorkflowPending => NothingStarted(s.tasks)
    case WorkflowRunning => NoneCanceled(s.tasks)
    case WorkflowSucceeded => AllSucceeded(s.tasks)
    case WorkflowFailed => AllTerminal(s.tasks) && HasFailed(s.tasks) && NoneCanceled(s.tasks)
    case WorkflowCanceled => AllTerminal(s.tasks)
  }

  /** The invariant of every run, resumed or not. */
  ghost predicate RunInv(c: Compiled, s: RunSnapshot) {
    && ValidCompiled(c) && Fits(s, c)
    && Histories(c, s)
    && GraphAgrees(c, s.tasks)
    && LiveCounters(c, s)
    && StatusAgrees(s)
  }

  /** A run that was never resumed: all counters are right, an unfinished run has an unfinished task,
      and a canceled one a canceled task. */
  ghost predicate FreshInv(c: Compiled, s: RunSnapshot) {
    && RunInv(c, s) && AllCounters(c, s)
    && (!WorkflowTerminal(s.row.status) ==> !AllTerminal(s.tasks))
    && (s.row.status.WorkflowCanceled? ==> !NoneCanceled(s.tasks))
  }

  // ---------- counting lemmas ----------

  lemma {:induction false} UnsucceededZero(deps: seq<nat>, tasks: seq<TaskRun>)
    requires Bounded(deps, |tasks|)
    ensures Unsucceeded(deps, tasks) == 0 <==> forall d :: d in deps ==> tasks[d].status.TaskSucceeded?
  {
    if deps != [] {
      UnsucceededZero(deps[..|deps| - 1], tasks);
      assert deps == deps[..|deps| - 1] + [deps[|deps| - 1]];
    }
  }

  lemma {:induction false} UnsucceededSame(deps: seq<nat>, before: seq<TaskRun>, after: seq<TaskRun>)
    requires |before| == |after| && Bounded(deps, |before|)
    requires forall d :: d in deps ==> (before[d].status.TaskSucceeded? <==> after[d].status.TaskSucceeded?)
    ensures Unsucceeded(deps, before) == Unsucceeded(deps, after)
  {
    if deps != [] {
      assert deps[|deps| - 1] in deps;
      UnsucceededSame(deps[..|deps| - 1], before, after);
    }
  }

  /** When exactly task `i` turns succeeded, the count drops by one where `i` is a dependency. */
  lemma {:induction false} UnsucceededDrops(deps: seq<nat>, before: seq<TaskRun>, after: seq<TaskRun>, i: nat)
    requires |before| == |after| && Bounded(deps, |before|) && NoDuplicates(deps) && i < |before|
    requires !before[i].status.TaskSucceeded? && after[i].status.TaskSucceeded?
    requires forall d :: 0 <= d < |before| && d != i ==> (before[d].status.TaskSucceeded? <==> after[d].status.TaskSucceeded?)
    ensures Unsucceeded(deps, before) == Unsucceeded(deps, after) + if i in deps then 1 else 0
  {
    if deps != [] {
      UnsucceededDrops(deps[..|deps| - 1], before, after, i);
      assert deps == deps[..|deps| - 1] + [deps[|deps| - 1]];
    }
  }
}
