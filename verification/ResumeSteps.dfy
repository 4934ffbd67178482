/** Preparing a stored snapshot for another local execution, on snapshot values. */
module ResumeSteps {
  import opened Domain
  import opened Finite
  import opened Graph
  import opened Steps

  datatype ResumeError =
    | TaskCountMismatch
    | KeyMismatch(key: nat)
    | BadHistory(task: nat)
    | RefusedMove(error: StepError)
    | ReadyTooEarly(early: nat)

  datatype ResumeOutcome = Resumed(s: RunSnapshot) | Refused(error: ResumeError) {
    predicate IsFailure() { Refused? }
    function PropagateFailure(): ResumeOutcome requires IsFailure() { this }
    function Extract(): RunSnapshot requires !IsFailure() { s }
  }

  function Lift(o: Outcome): ResumeOutcome {
    match o
    case Applied(s) => Resumed(s)
    case Rejected(e) => Refused(RefusedMove(e))
    case Ignored => Refused(RefusedMove(IndexOutOfRange))
  }

  /** The stored histories a resume accepts: they fit the task status and the retry limit `max`. */
  predicate StoredHistory(t: TaskRun, max: int) {
    && (t.readyAt.Some? ==> t.status.TaskWaitingRetry?)
    && |t.attempts| <= max
    && StoredStatus(t, max)
    && (forall k :: 0 <= k < |t.attempts| ==> t.attempts[k].number == k + 1)
    && (forall k :: 0 <= k < |t.attempts| && t.attempts[k].status.AttemptRunning? ==>
         k == |t.attempts| - 1 && t.status.TaskRunning?)
    && (forall k :: 0 <= k < |t.attempts| - 1 ==> Retryable(t.attempts[k].status))
  }

  predicate StoredStatus(t: TaskRun, max: int) {
    var some := |t.attempts| > 0;
    match t.status
    case TaskWaitingDependencies => !some
    case TaskReady => |t.attempts| < max && (some ==> Retryable(t.Last().status))
    case TaskRunning => some && t.Last().status.AttemptRunning?
    case TaskWaitingRetry => some && t.readyAt.Some? && |t.attempts| < max && Retryable(t.Last().status)
    case TaskSucceeded => some && t.Last().status.AttemptSucceeded?
    case TaskFailed => some && Retryable(t.Last().status) && (!t.Last().status.AttemptFailed? ==> |t.attempts| >= max)
    case TaskCanceled => some ==> t.Last().status.AttemptCanceled? || Retryable(t.Last().status)
    case TaskSkipped => !some
    case TaskQueued => false
  }

  /** First pass over one task: check its history, and end an attempt the crash interrupted. */
  function ResumeTask(s: RunSnapshot, c: Compiled, i: nat, now: Time): ResumeOutcome
    requires i < |s.tasks| == c.Size()
  {
    var t := s.tasks[i];
    if t.key != c.definition.tasks[i].key then Refused(KeyMismatch(i))
    else if !StoredHistory(t, c.MaxAttempts(i)) then Refused(BadHistory(i))
    else if !t.status.TaskRunning? then Resumed(s)
    else
      var s1 :- Lift(FinishAttempt(s, i, AttemptInterrupted, t.Last().result, now, "process restarted"));
      if |t.attempts| >= c.MaxAttempts(i) then Lift(MoveTask(s1, i, TaskFailed, now, "attempts exhausted after restart"))
      else
        var s2 :- Lift(MoveTask(s1, i, TaskWaitingRetry, now, "retry interrupted attempt"));
        Resumed(SetReadyAt(s2, i, now))
  }

  function ResumeTasks(s: RunSnapshot, c: Compiled, n: nat, now: Time): (o: ResumeOutcome)
    requires |s.tasks| == c.Size() && n <= c.Size()
    ensures o.Resumed? ==> |o.s.tasks| == |s.tasks| && |o.s.remaining| == |s.remaining|
  {
    if n == 0 then Resumed(s)
    else
      var s1 :- ResumeTasks(s, c, n - 1, now);
      ResumeTask(s1, c, n - 1, now)
  }

  predicate Blocked(st: TaskStatus) { st.TaskFailed? || st.TaskCanceled? || st.TaskSkipped? }

  function BlockedSources(tasks: seq<TaskRun>, n: nat): (r: seq<nat>)
    requires n <= |tasks|
    ensures Bounded(r, n)
  {
    if n == 0 then []
    else BlockedSources(tasks, n - 1) + (if Blocked(tasks[n - 1].status) then [n - 1] else [])
  }

  /** Dependencies that are still unfinished, counted one by one. */
  function Unfinished(deps: seq<nat>, tasks: seq<TaskRun>): nat
    requires Bounded(deps, |tasks|)
  {
    if deps == [] then 0
    else Unfinished(deps[..|deps| - 1], tasks) + (if Terminal(tasks[deps[|deps| - 1]].status) then 0 else 1)
  }

  predicate AnyBlocked(deps: seq<nat>, tasks: seq<TaskRun>)
    requires Bounded(deps, |tasks|)
  {
    exists k :: 0 <= k < |deps| && Blocked(tasks[deps[k]].status)
  }

  /** Last pass over one task: recount its unfinished dependencies and correct its status. */
  function RefillTask(s: RunSnapshot, c: Compiled, i: nat, now: Time): ResumeOutcome
    requires Fits(s, c) && |c.dependencies| == c.Size() && InRange(c.dependencies) && i < c.Size()
  {
    if Terminal(s.tasks[i].status) then Resumed(s)
    else
      var deps := c.dependencies[i];
      var s1 := s.(remaining := s.remaining[i := Unfinished(deps, s.tasks)]);
      if AnyBlocked(deps, s.tasks) then Lift(MoveTask(s1, i, TaskSkipped, now, "upstream terminal failure"))
      else
        var s2 :- if s1.remaining[i] == 0 && s.tasks[i].status.TaskWaitingDependencies?
                  then Lift(MoveTask(s1, i, TaskReady, now, "dependencies restored")) else Resumed(s1);
        if s1.remaining[i] > 0 && (s2.tasks[i].status.TaskReady? || s2.tasks[i].status.TaskWaitingRetry?)
        then Refused(ReadyTooEarly(i)) else Resumed(s2)
  }

  function RefillTasks(s: RunSnapshot, c: Compiled, n: nat, now: Time): (o: ResumeOutcome)
    requires Fits(s, c) && |c.dependencies| == c.Size() && InRange(c.dependencies) && n <= c.Size()
    ensures o.Resumed? ==> Fits(o.s, c)
  {
    if n == 0 then Resumed(s)
    else
      var s1 :- RefillTasks(s, c, n - 1, now);
      RefillTask(s1, c, n - 1, now)
  }

  function ZeroCounts(n: nat): (r: seq<int>)
    ensures |r| == n && forall k :: 0 <= k < n ==> r[k] == 0
  {
    if n == 0 then [] else ZeroCounts(n - 1) + [0]
  }

  predicate Adjacent(c: Compiled) {
    |c.dependencies| == |c.successors| == c.Size() && InRange(c.dependencies) && InRange(c.successors)
  }

  function PrepareForResume(s: RunSnapshot, c: Compiled, now: Time): ResumeOutcome
    requires Adjacent(c)
  {
    if |s.tasks| != c.Size() then Refused(TaskCountMismatch)
    else
      var s1 :- ResumeTasks(s.(remaining := ZeroCounts(|s.tasks|)), c, c.Size(), now);
      var s2 :- Lift(SkipDescendantsFrom(s1, c, BlockedSources(s1.tasks, |s1.tasks|), now));
      RefillTasks(s2, c, c.Size(), now)
  }
}
