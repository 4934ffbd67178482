/** The step functions as they are executed: a run snapshot mutated in place, with the loops the source runs.
    Every method is proved to compute the value-level function of `Steps` with the same name. */
module RunStates {
  import opened Domain
  import opened Finite
  import opened Graph
  import opened Steps
  import opened RunResults
  import opened RunTheorems
  import opened ResumeSteps

  type Failure = Option<StepError>

  /** The mutable state after a call agrees with the value-level outcome `o`. After an error the source
      throws the state away, so nothing is said about it. */
  predicate Agrees(applied: bool, err: Failure, o: Outcome, before: RunSnapshot, after: RunSnapshot) {
    match o
    case Applied(s) => applied && err.None? && after == s
    case Ignored => !applied && err.None? && after == before
    case Rejected(e) => !applied && err == Some(e)
  }

  predicate AgreesResume(err: Option<ResumeError>, o: ResumeOutcome, after: RunSnapshot) {
    match o
    case Resumed(s) => err.None? && after == s
    case Refused(e) => err == Some(e)
  }

  function ResumeFailure(f: Failure): Option<ResumeError> {
    match f
    case None => None
    case Some(e) => Some(RefusedMove(e))
  }

  /** The check of one stored history: the branches by status, then one pass over the attempts. */
  method ValidateAttemptHistory(t: TaskRun, max: int) returns (ok: bool)
    ensures ok <==> StoredHistory(t, max)
  {
    var attempts := t.attempts;
    if t.status != TaskWaitingRetry && t.readyAt.Some? { return false; }
    if |attempts| > max { return false; }
    match t.status {
      case TaskWaitingDependencies =>
        if |attempts| != 0 { return false; }
      case TaskReady =>
        if |attempts| >= max { return false; }
        if |attempts| > 0 && !Retryable(t.Last().status) { return false; }
      case TaskRunning =>
        if |attempts| == 0 || t.Last().status != AttemptRunning { return false; }
      case TaskWaitingRetry =>
        if |attempts| == 0 || t.readyAt.None? { return false; }
        if |attempts| >= max { return false; }
        if !Retryable(t.Last().status) { return false; }
      case TaskSucceeded =>
        if |attempts| == 0 || t.Last().status != AttemptSucceeded { return false; }
      case TaskFailed =>
        if |attempts| == 0 || !Retryable(t.Last().status) { return false; }
        if (t.Last().status == AttemptTimedOut || t.Last().status == AttemptInterrupted) && |attempts| < max { return false; }
      case TaskCanceled =>
        if |attempts| > 0 && t.Last().status != AttemptCanceled && !Retryable(t.Last().status) { return false; }
      case TaskSkipped =>
        if |attempts| != 0 { return false; }
      case TaskQueued => return false;
    }
    var i := 0;
    while i < |attempts|
      invariant 0 <= i <= |attempts|
      invariant forall k :: 0 <= k < i ==> attempts[k].number == k + 1
      invariant forall k :: 0 <= k < i && attempts[k].status.AttemptRunning? ==> k == |attempts| - 1 && t.status.TaskRunning?
      invariant forall k :: 0 <= k < i && k < |attempts| - 1 ==> Retryable(attempts[k].status)
    {
      if attempts[i].number != i + 1 { return false; }
      if attempts[i].status == AttemptRunning && (i != |attempts| - 1 || t.status != TaskRunning) { return false; }
      if i < |attempts| - 1 && !Retryable(attempts[i].status) { return false; }
      i := i + 1;
    }
    return true;
  }

  class RunState {
    var version: int
    var definition: WorkflowDefinition
    var row: RunRow
    var tasks: seq<TaskRun>
    var remaining: seq<int>
    var events: seq<StateEvent>

    function Value(): RunSnapshot reads this {
      RunSnapshot(version, definition, row, tasks, remaining, events)
    }

    /** A private copy of a snapshot. */
    constructor Clone(s: RunSnapshot)
      ensures Value() == s
    {
      version, definition, row, tasks, remaining, events := s.version, s.definition, s.row, s.tasks, s.remaining, s.events;
    }

    /** The first snapshot of a run: one pass over the definition fills tasks and counters. */
    constructor New(id: RunID, c: Compiled, now: Time)
      requires |c.dependencies| == c.Size()
      ensures Value() == NewRunSnapshot(id, c, now)
    {
      version, definition := 1, c.definition;
      row := RunRow(id, c.definition.id, 0, WorkflowPending, 0, 0, None, now, None, None);
      events := [];
      var newTasks: seq<TaskRun>, counts: seq<int> := [], [];
      var i := 0;
      while i < |c.definition.tasks|
        invariant 0 <= i <= c.Size() && |newTasks| == |counts| == i
        invariant forall j :: 0 <= j < i ==> newTasks[j] == InitialTask(c, j) && counts[j] == |c.dependencies[j]|
      {
        var status := TaskWaitingDependencies;
        counts := counts + [|c.dependencies[i]|];
        if counts[i] == 0 { status := TaskReady; }
        newTasks := newTasks + [TaskRun(c.definition.tasks[i].key, status, [], None, None)];
        i := i + 1;
      }
      tasks, remaining := newTasks, counts;
    }

    method AppendEvent(at: Time, move: Move, reason: string)
      modifies this`events, this`row
      ensures Value() == Steps.AppendEvent(old(Value()), at, move, reason)
    {
      var last := row.lastEventSequence;
      if |events| > 0 && events[|events| - 1].sequence > last {
        last := events[|events| - 1].sequence;
      }
      var event := StateEvent(last + 1, at, move, reason);
      events := events + [event];
      row := row.(lastEventSequence := event.sequence);
    }

    method MoveWorkflow(to: WorkflowStatus, at: Time, reason: string) returns (err: Failure)
      modifies this
      ensures Agrees(err.None?, err, Steps.MoveWorkflow(old(Value()), to, at, reason), old(Value()), Value())
    {
      var from := row.status;
      if !WorkflowEdge(from, to) { return Some(IllegalWorkflowMove(from, to)); }
      row := row.(status := to);
      if to == WorkflowRunning && row.startedAt.None? { row := row.(startedAt := Some(at)); }
      if WorkflowTerminal(to) { row := row.(finishedAt := Some(at)); }
      AppendEvent(at, WorkflowMove(row.id, from, to), reason);
      return None;
    }

    method MoveTask(i: nat, to: TaskStatus, at: Time, reason: string) returns (err: Failure)
      requires i < |tasks|
      modifies this
      ensures Agrees(err.None?, err, Steps.MoveTask(old(Value()), i, to, at, reason), old(Value()), Value())
    {
      var task := tasks[i];
      var from := task.status;
      if !TaskEdge(from, to) { return Some(IllegalTaskMove(from, to)); }
      task := task.(status := to);
      if to != TaskWaitingRetry { task := task.(readyAt := None); }
      if to == TaskSucceeded || to == TaskFailed || to == TaskCanceled || to == TaskSkipped {
        task := task.(finishedAt := Some(at));
      }
      tasks := tasks[i := task];
      AppendEvent(at, TaskMove(task.key, from, to), reason);
      return None;
    }

    /** Records `result` on the last attempt of task `i` and moves that attempt. */
    method FinishAttempt(i: nat, to: AttemptStatus, result: ExecutionResult, at: Time, reason: string) returns (err: Failure)
      requires i < |tasks| && |tasks[i].attempts| > 0
      modifies this
      ensures Agrees(err.None?, err, Steps.FinishAttempt(old(Value()), i, to, result, at, reason), old(Value()), Value())
    {
      var attempt := tasks[i].Last().(result := result);
      var from := attempt.status;
      if !AttemptEdge(from, to) { return Some(IllegalAttemptMove(from, to)); }
      attempt := attempt.(status := to, finishedAt := Some(at));
      tasks := tasks[i := SetLastAttempt(tasks[i], attempt)];
      AppendEvent(at, AttemptMove(tasks[i].key, attempt.number, from, to), reason);
      return None;
    }

    method QueueTask(i: int, at: Time) returns (err: Failure)
      modifies this
      ensures Agrees(err.None?, err, Steps.QueueTask(old(Value()), i, at), old(Value()), Value())
    {
      if i < 0 || i >= |tasks| { return Some(IndexOutOfRange); }
      if row.status == WorkflowPending {
        err := MoveWorkflow(WorkflowRunning, at, "distributed execution started");
        if err.Some? { return; }
      }
      if row.status != WorkflowRunning { return Some(WorkflowNotRunning); }
      err := MoveTask(i, TaskQueued, at, "dispatch created");
    }

    method ReturnQueuedTaskToReady(i: int, at: Time, reason: string) returns (err: Failure)
      modifies this
      ensures Agrees(err.None?, err, Steps.ReturnQueuedTaskToReady(old(Value()), i, at, reason), old(Value()), Value())
    {
      if i < 0 || i >= |tasks| { return Some(IndexOutOfRange); }
      err := MoveTask(i, TaskReady, at, reason);
    }

    /** The local start of an attempt. */
    method BeginAttempt(i: nat, at: Time, worker: WorkerID, dispatch: DispatchID, reason: string)
      returns (number: nat, err: Failure)
      requires i < |tasks|
      modifies this
      ensures Agrees(err.None?, err, Steps.BeginAttempt(old(Value()), i, at, worker, dispatch, reason), old(Value()), Value())
      ensures err.None? ==> number == |old(tasks)[i].attempts| + 1
    {
      number := 0;
      err := MoveTask(i, TaskRunning, at, reason);
      if err.Some? { return; }
      var attempt := Attempt(|tasks[i].attempts| + 1, AttemptRunning, worker, dispatch, at, None, NO_RESULT);
      tasks := tasks[i := tasks[i].(attempts := tasks[i].attempts + [attempt])];
      number := attempt.number;
    }

    method StartQueuedAttempt(c: Compiled, i: int, at: Time, worker: WorkerID, dispatch: DispatchID)
      returns (request: Option<ExecutionRequest>, err: Failure)
      modifies this
      ensures Agrees(err.None?, err, Steps.StartQueuedAttempt(old(Value()), c, i, at, worker, dispatch), old(Value()), Value())
      ensures request.Some? <==> err.None?
      ensures err.None? ==>
        var d := c.definition.tasks[i];
        request.value == ExecutionRequest(row.definitionID, row.id, d.key, d.action, d.input, |old(tasks)[i].attempts| + 1)
    {
      request := None;
      if i < 0 || i >= |tasks| || i >= |c.definition.tasks| { return None, Some(IndexOutOfRange); }
      if worker == "" || dispatch == "" { return None, Some(MissingOwner); }
      if tasks[i].key != c.definition.tasks[i].key { return None, Some(IdentityMismatch); }
      var number;
      number, err := BeginAttempt(i, at, worker, dispatch, "lease claimed");
      if err.Some? { return; }
      var d := c.definition.tasks[i];
      request := Some(ExecutionRequest(row.definitionID, row.id, d.key, d.action, d.input, number));
    }

    /** The breadth-first propagation, with its queue and its visited array. */
    method SkipDescendantsFrom(c: Compiled, sources: seq<nat>, at: Time) returns (err: Failure)
      requires InRange(c.successors) && |tasks| == |c.successors| && Bounded(sources, |tasks|)
      modifies this
      ensures Agrees(err.None?, err, Steps.SkipDescendantsFrom(old(Value()), c, sources, at), old(Value()), Value())
    {
      var queue: seq<nat> := [];
      var k := 0;
      while k < |sources|
        invariant 0 <= k <= |sources| && queue == AllSuccessors(c.successors, sources[..k])
      {
        assert sources[..k + 1][..k] == sources[..k];
        queue := queue + c.successors[sources[k]];
        k := k + 1;
      }
      assert sources[..k] == sources;
      var visited := new bool[|tasks|](_ => false);
      ghost var seen: set<nat> := {};
      err := None;
      while |queue| > 0
        invariant err.None? && |tasks| == |c.successors| == visited.Length && Bounded(queue, |c.successors|)
        invariant forall v: nat :: v < visited.Length ==> (visited[v] <==> v in seen)
        invariant fresh(visited)
        invariant SkipLoop(Value(), c.successors, queue, seen, at) == Steps.SkipDescendantsFrom(old(Value()), c, sources, at)
        decreases Below(|c.successors|) - seen, |queue|
      {
        var current := queue[0];
        if visited[current] {
          queue := queue[1..];
          continue;
        }
        queue := queue[1..] + c.successors[current];
        visited[current] := true;
        seen := seen + {current};
        if !Terminal(tasks[current].status) {
          err := MoveTask(current, TaskSkipped, at, "upstream task failed");
          if err.Some? { return; }
        }
      }
    }

    method SettleIfComplete(at: Time) returns (err: Failure)
      modifies this
      ensures Agrees(err.None?, err, Steps.SettleIfComplete(old(Value()), at), old(Value()), Value())
    {
      var k := 0;
      while k < |tasks|
        invariant 0 <= k <= |tasks| && Value() == old(Value())
        invariant forall j :: 0 <= j < k ==> Terminal(tasks[j].status)
      {
        if !Terminal(tasks[k].status) { return None; }
        k := k + 1;
      }
      var status, reason := WorkflowSucceeded, "all tasks succeeded";
      var failed := HasFailedTask();
      if failed {
        status, reason := WorkflowFailed, "one or more tasks failed";
      } else {
        var succeeded := AllTasksSucceeded();
        if !succeeded { return Some(MixedTerminalTasks); }
      }
      err := MoveWorkflow(status, at, reason);
    }

    method HasFailedTask() returns (r: bool)
      ensures r <==> HasFailed(tasks)
    {
      var k := 0;
      while k < |tasks|
        invariant 0 <= k <= |tasks| && forall j :: 0 <= j < k ==> !tasks[j].status.TaskFailed?
      {
        if tasks[k].status.TaskFailed? { return true; }
        k := k + 1;
      }
      return false;
    }

    method AllTasksSucceeded() returns (r: bool)
      ensures r <==> AllSucceeded(tasks)
    {
      var k := 0;
      while k < |tasks|
        invariant 0 <= k <= |tasks| && forall j :: 0 <= j < k ==> tasks[j].status.TaskSucceeded?
      {
        if !tasks[k].status.TaskSucceeded? { return false; }
        k := k + 1;
      }
      return true;
    }

    method FailTask(c: Compiled, i: nat, at: Time, reason: string) returns (err: Failure)
      requires InRange(c.successors) && |tasks| == |c.successors| && i < |tasks|
      modifies this
      ensures Agrees(err.None?, err, Steps.FailTask(old(Value()), c, i, at, reason), old(Value()), Value())
    {
      err := MoveTask(i, TaskFailed, at, reason);
      if err.Some? { return; }
      err := SkipDescendantsFrom(c, [i], at);
      if err.Some? { return; }
      err := SettleIfComplete(at);
    }

    method ApplyRetryDecision(c: Compiled, i: nat, at: Time, reason: string) returns (err: Failure)
      requires InRange(c.successors) && |tasks| == |c.successors| == c.Size() && i < |tasks| && |tasks[i].attempts| > 0
      modifies this
      ensures Agrees(err.None?, err, Steps.ApplyRetryDecision(old(Value()), c, i, at, reason), old(Value()), Value())
    {
      var d := c.definition.tasks[i];
      if tasks[i].Last().number < d.retry.maxAttempts {
        err := MoveTask(i, TaskWaitingRetry, at, reason);
        if err.Some? { return; }
        tasks := tasks[i := tasks[i].(readyAt := Some(at + d.retry.intervalMillis * NANOS_PER_MILLI))];
        return None;
      }
      err := FailTask(c, i, at, "retry attempts exhausted");
    }

    /** The loop over the satisfied edges. */
    method ReleaseSuccessors(successors: seq<nat>, at: Time) returns (err: Failure)
      requires |tasks| == |remaining| && Bounded(successors, |tasks|)
      modifies this
      ensures Agrees(err.None?, err, Steps.ReleaseSuccessors(old(Value()), successors, at), old(Value()), Value())
    {
      assert successors[0..] == successors;
      err := None;
      var k := 0;
      while k < |successors|
        invariant 0 <= k <= |successors| && err.None? && |tasks| == |remaining| && Bounded(successors, |tasks|)
        invariant Steps.ReleaseSuccessors(Value(), successors[k..], at) == Steps.ReleaseSuccessors(old(Value()), successors, at)
      {
        var j := successors[k];
        assert successors[k..][1..] == successors[k + 1..];
        remaining := remaining[j := remaining[j] - 1];
        if remaining[j] < 0 { return Some(NegativeCount(tasks[j].key)); }
        if remaining[j] == 0 {
          err := MoveTask(j, TaskReady, at, "dependencies succeeded");
          if err.Some? { return; }
        }
        k := k + 1;
      }
      assert successors[k..] == [];
    }

    predicate CurrentAttempt(i: nat, number: int)
      requires i < |tasks|
      reads this
    {
      ActiveAttempt(Value(), i, number)
    }

    method ApplyAttemptResult(c: Compiled, i: int, number: int, response: ExecutionResponse, at: Time)
      returns (applied: bool, err: Failure)
      requires Runnable(Value(), c)
      modifies this
      ensures Agrees(applied, err, Steps.ApplyAttemptResult(old(Value()), c, i, number, response, at), old(Value()), Value())
    {
      if i < 0 || i >= |tasks| { return false, Some(IndexOutOfRange); }
      if !CurrentAttempt(i, number) { return false, None; }
      if !response.kind.ResultSuccess? && !response.kind.ResultTemporaryFailure? && !response.kind.ResultPermanentFailure? {
        return false, Some(UnsupportedResult);
      }
      var result := ExecutionResult(response.output, response.errorCode, response.errorMessage);
      if response.kind.ResultTemporaryFailure? {
        err := FinishAttempt(i, AttemptFailed, result, at, "temporary execution failure");
        if err.Some? { return false, err; }
        err := ApplyRetryDecision(c, i, at, "temporary execution failure");
        return err.None?, err;
      }
      if response.kind.ResultPermanentFailure? {
        err := FinishAttempt(i, AttemptFailed, result, at, "permanent execution failure");
        if err.Some? { return false, err; }
        err := FailTask(c, i, at, "permanent execution failure");
        return err.None?, err;
      }
      err := FinishAttempt(i, AttemptSucceeded, result, at, "execution succeeded");
      if err.Some? { return false, err; }
      err := MoveTask(i, TaskSucceeded, at, "execution succeeded");
      if err.Some? { return false, err; }
      err := ReleaseSuccessors(c.successors[i], at);
      if err.Some? { return false, err; }
      err := SettleIfComplete(at);
      return err.None?, err;
    }

    method InterruptAttempt(c: Compiled, i: int, number: int, at: Time, reason: string) returns (applied: bool, err: Failure)
      requires Runnable(Value(), c)
      modifies this
      ensures Agrees(applied, err, Steps.InterruptAttempt(old(Value()), c, i, number, at, reason), old(Value()), Value())
    {
      if i < 0 || i >= |tasks| { return false, Some(IndexOutOfRange); }
      if !CurrentAttempt(i, number) { return false, None; }
      err := FinishAttempt(i, AttemptInterrupted, ExecutionResult("", "interrupted", reason), at, reason);
      if err.Some? { return false, err; }
      err := ApplyRetryDecision(c, i, at, reason);
      return err.None?, err;
    }

    method TimeoutAttempt(c: Compiled, i: int, number: int, at: Time) returns (applied: bool, err: Failure)
      requires Runnable(Value(), c)
      modifies this
      ensures Agrees(applied, err, Steps.TimeoutAttempt(old(Value()), c, i, number, at), old(Value()), Value())
    {
      if i < 0 || i >= |tasks| { return false, Some(IndexOutOfRange); }
      if !CurrentAttempt(i, number) { return false, None; }
      err := FinishAttempt(i, AttemptTimedOut, ExecutionResult("", "timeout", "execution timed out"), at, "execution timed out");
      if err.Some? { return false, err; }
      err := ApplyRetryDecision(c, i, at, "execution timed out");
      return err.None?, err;
    }

    method MakeRetryReady(i: int, number: int, at: Time) returns (applied: bool, err: Failure)
      modifies this
      ensures Agrees(applied, err, Steps.MakeRetryReady(old(Value()), i, number, at), old(Value()), Value())
    {
      if i < 0 || i >= |tasks| { return false, Some(IndexOutOfRange); }
      var task := tasks[i];
      if task.status != TaskWaitingRetry || task.readyAt.None? || |task.attempts| == 0 { return false, None; }
      if task.Last().number != number || at < task.readyAt.value { return false, None; }
      err := MoveTask(i, TaskReady, at, "retry interval elapsed");
      return err.None?, err;
    }

    /** The loop over all tasks; the source runs it on a copy, so after an error the copy is dropped. */
    method CancelRun(at: Time) returns (err: Failure)
      modifies this
      ensures Agrees(err.None?, err, Steps.CancelRun(old(Value()), at), old(Value()), Value())
    {
      err := None;
      var k := 0;
      while k < |tasks|
        invariant 0 <= k <= |tasks| == |old(tasks)| && err.None?
        invariant CancelTasks(old(Value()), k, at) == Applied(Value())
      {
        CancelTasksExact(old(Value()), k + 1, at);
        if !Terminal(tasks[k].status) {
          if tasks[k].status.TaskRunning? && |tasks[k].attempts| > 0 && tasks[k].Last().status.AttemptRunning? {
            err := FinishAttempt(k, AttemptCanceled, CANCELED_RESULT, at, "workflow canceled");
            if err.Some? { return; }
          }
          err := MoveTask(k, TaskCanceled, at, "workflow canceled");
          if err.Some? { return; }
        }
        k := k + 1;
      }
      err := MoveWorkflow(WorkflowCanceled, at, "cancellation requested");
    }

    // ---------- preparing for another execution ----------

    /** First pass over one task: its history is checked, and an attempt the crash interrupted is ended. */
    method ResumeTask(c: Compiled, i: nat, now: Time) returns (err: Option<ResumeError>)
      requires i < |tasks| == c.Size()
      modifies this
      ensures AgreesResume(err, ResumeSteps.ResumeTask(old(Value()), c, i, now), Value())
    {
      hide Steps.AppendEvent;
      var max := c.definition.tasks[i].retry.maxAttempts;
      if tasks[i].key != c.definition.tasks[i].key { return Some(KeyMismatch(i)); }
      var ok := ValidateAttemptHistory(tasks[i], max);
      if !ok { return Some(BadHistory(i)); }
      if tasks[i].status == TaskRunning {
        var refused := FinishAttempt(i, AttemptInterrupted, tasks[i].Last().result, now, "process restarted");
        if refused.Some? { return ResumeFailure(refused); }
        if |tasks[i].attempts| >= max {
          refused := MoveTask(i, TaskFailed, now, "attempts exhausted after restart");
          if refused.Some? { return ResumeFailure(refused); }
        } else {
          refused := MoveTask(i, TaskWaitingRetry, now, "retry interrupted attempt");
          if refused.Some? { return ResumeFailure(refused); }
          tasks := tasks[i := tasks[i].(readyAt := Some(now))];
        }
      }
      return None;
    }

    method ResumeTasks(c: Compiled, now: Time) returns (err: Option<ResumeError>)
      requires |tasks| == c.Size()
      modifies this
      ensures AgreesResume(err, ResumeSteps.ResumeTasks(old(Value()), c, c.Size(), now), Value())
    {
      hide ResumeSteps.ResumeTask;
      err := None;
      var i := 0;
      while i < |tasks|
        invariant 0 <= i <= |tasks| == c.Size() && err.None?
        invariant ResumeSteps.ResumeTasks(old(Value()), c, i, now) == Resumed(Value())
      {
        ResumeStop(old(Value()), c, i + 1, c.Size(), now);
        err := ResumeTask(c, i, now);
        if err.Some? { return; }
        i := i + 1;
      }
    }

    /** Last pass over one task: an unfinished one gets its count back, and its status is corrected. */
    method RefillTask(c: Compiled, i: nat, now: Time) returns (err: Option<ResumeError>)
      requires Fits(Value(), c) && |c.dependencies| == c.Size() && InRange(c.dependencies) && i < c.Size()
      modifies this
      ensures AgreesResume(err, ResumeSteps.RefillTask(old(Value()), c, i, now), Value())
    {
      hide Steps.AppendEvent, Unfinished, AnyBlocked;
      if Terminal(tasks[i].status) { return None; }
      var left, blocked := CountUnfinished(c.dependencies[i]);
      remaining := remaining[i := left];
      if blocked {
        var refused := MoveTask(i, TaskSkipped, now, "upstream terminal failure");
        if refused.Some? { return ResumeFailure(refused); }
        return None;
      }
      if left == 0 && tasks[i].status == TaskWaitingDependencies {
        var refused := MoveTask(i, TaskReady, now, "dependencies restored");
        if refused.Some? { return ResumeFailure(refused); }
      }
      if left > 0 && (tasks[i].status == TaskReady || tasks[i].status == TaskWaitingRetry) { return Some(ReadyTooEarly(i)); }
      return None;
    }

    method RefillTasks(c: Compiled, now: Time) returns (err: Option<ResumeError>)
      requires Fits(Value(), c) && |c.dependencies| == c.Size() && InRange(c.dependencies)
      modifies this
      ensures AgreesResume(err, ResumeSteps.RefillTasks(old(Value()), c, c.Size(), now), Value())
    {
      hide ResumeSteps.RefillTask;
      err := None;
      var i := 0;
      while i < |tasks|
        invariant 0 <= i <= |tasks| == c.Size() == |remaining| && err.None?
        invariant ResumeSteps.RefillTasks(old(Value()), c, i, now) == Resumed(Value())
      {
        RefillStop(old(Value()), c, i + 1, c.Size(), now);
        err := RefillTask(c, i, now);
        if err.Some? { return; }
        i := i + 1;
      }
    }

    /** The inner loop over the dependencies of one task. */
    method CountUnfinished(deps: seq<nat>) returns (left: nat, blocked: bool)
      requires Bounded(deps, |tasks|)
      ensures left == Unfinished(deps, tasks) && (blocked <==> AnyBlocked(deps, tasks))
    {
      left, blocked := 0, false;
      var k := 0;
      while k < |deps|
        invariant 0 <= k <= |deps| && left == Unfinished(deps[..k], tasks)
        invariant blocked <==> exists j :: 0 <= j < k && Blocked(tasks[deps[j]].status)
      {
        assert deps[..k + 1][..k] == deps[..k];
        match tasks[deps[k]].status {
          case TaskSucceeded =>
          case TaskFailed => blocked := true;
          case TaskCanceled => blocked := true;
          case TaskSkipped => blocked := true;
          case _ => left := left + 1;
        }
        k := k + 1;
      }
      assert deps[..k] == deps;
    }

    method CollectBlocked() returns (sources: seq<nat>)
      ensures sources == BlockedSources(tasks, |tasks|)
    {
      sources := [];
      var i := 0;
      while i < |tasks|
        invariant 0 <= i <= |tasks| && sources == BlockedSources(tasks, i)
      {
        if tasks[i].status == TaskFailed || tasks[i].status == TaskCanceled || tasks[i].status == TaskSkipped {
          sources := sources + [i];
        }
        i := i + 1;
      }
    }

    method PrepareForResume(c: Compiled, now: Time) returns (err: Option<ResumeError>)
      requires Adjacent(c)
      modifies this
      ensures AgreesResume(err, ResumeSteps.PrepareForResume(old(Value()), c, now), Value())
    {
      if |tasks| != c.Size() { return Some(TaskCountMismatch); }
      remaining := ZeroCounts(|tasks|);
      err := ResumeTasks(c, now);
      if err.Some? { return; }
      var sources := CollectBlocked();
      var refused := SkipDescendantsFrom(c, sources, now);
      if refused.Some? { return ResumeFailure(refused); }
      err := RefillTasks(c, now);
    }
  }

  /** An error in the first `n` tasks is the error of the whole pass. */
  lemma {:induction false} ResumeStop(s: RunSnapshot, c: Compiled, n: nat, m: nat, now: Time)
    requires |s.tasks| == c.Size() && n <= m <= c.Size()
    ensures var o := ResumeSteps.ResumeTasks(s, c, n, now); o.Refused? ==> ResumeSteps.ResumeTasks(s, c, m, now) == o
  {
    if n < m { ResumeStop(s, c, n, m - 1, now); }
  }

  lemma {:induction false} RefillStop(s: RunSnapshot, c: Compiled, n: nat, m: nat, now: Time)
    requires Fits(s, c) && |c.dependencies| == c.Size() && InRange(c.dependencies) && n <= m <= c.Size()
    ensures var o := ResumeSteps.RefillTasks(s, c, n, now); o.Refused? ==> ResumeSteps.RefillTasks(s, c, m, now) == o
  {
    if n < m { RefillStop(s, c, n, m - 1, now); }
  }
}
