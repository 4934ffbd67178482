/** The audit log as a second account of a run: replaying its events rebuilds every status and every time that the run
    row, the task rows and the attempt rows record. */
module AuditLog {
  import opened Domain
  import opened Steps

  /** What the log tells of an attempt, a task and a run. */
  datatype AttemptStanding = AttemptStanding(status: AttemptStatus, startedAt: Time, finishedAt: Option<Time>)

  datatype TaskStanding = TaskStanding(key: TaskKey, status: TaskStatus, finishedAt: Option<Time>, attempts: seq<AttemptStanding>)

  datatype Standing = Standing(run: RunID, status: WorkflowStatus, startedAt: Option<Time>, finishedAt: Option<Time>,
    tasks: seq<TaskStanding>)

  function AttemptStandingOf(a: Attempt): AttemptStanding { AttemptStanding(a.status, a.startedAt, a.finishedAt) }

  function TaskStandingOf(t: TaskRun): TaskStanding {
    TaskStanding(t.key, t.status, t.finishedAt,
      seq(|t.attempts|, n requires 0 <= n < |t.attempts| => AttemptStandingOf(t.attempts[n])))
  }

  function TasksStandingOf(tasks: seq<TaskRun>): (r: seq<TaskStanding>)
    ensures |r| == |tasks| && forall i :: 0 <= i < |tasks| ==> r[i] == TaskStandingOf(tasks[i])
  {
    seq(|tasks|, i requires 0 <= i < |tasks| => TaskStandingOf(tasks[i]))
  }

  function StandingOf(s: RunSnapshot): Standing {
    Standing(s.row.id, s.row.status, s.row.startedAt, s.row.finishedAt, TasksStandingOf(s.tasks))
  }

  // ---------- replaying ----------

  function PositionOf(tasks: seq<TaskStanding>, key: TaskKey): (i: nat)
    ensures i <= |tasks| && (i < |tasks| ==> tasks[i].key == key)
  {
    if tasks == [] then 0 else if tasks[0].key == key then 0 else 1 + PositionOf(tasks[1..], key)
  }

  /** A task that enters running starts its next attempt. */
  function TaskMoved(t: TaskStanding, to: TaskStatus, at: Time): TaskStanding {
    t.(status := to, finishedAt := if Terminal(to) then Some(at) else t.finishedAt,
       attempts := if to.TaskRunning? then t.attempts + [AttemptStanding(AttemptRunning, at, None)] else t.attempts)
  }

  /** One event: it has to name an entity of the run in the status it moves from, and the move has to be legal. */
  function ReplayOne(v: Standing, e: StateEvent): Option<Standing> {
    match e.move
    case WorkflowMove(run, from, to) =>
      if run == v.run && from == v.status && WorkflowEdge(from, to)
      then Some(v.(status := to,
                   startedAt := if to.WorkflowRunning? && v.startedAt.None? then Some(e.at) else v.startedAt,
                   finishedAt := if WorkflowTerminal(to) then Some(e.at) else v.finishedAt))
      else None
    case TaskMove(key, from, to) =>
      var i := PositionOf(v.tasks, key);
      if i < |v.tasks| && from == v.tasks[i].status && TaskEdge(from, to)
      then Some(v.(tasks := v.tasks[i := TaskMoved(v.tasks[i], to, e.at)])) else None
    case AttemptMove(key, number, from, to) =>
      var i := PositionOf(v.tasks, key);
      if i < |v.tasks| && 0 < number <= |v.tasks[i].attempts| && from == v.tasks[i].attempts[number - 1].status
        && AttemptEdge(from, to)
      then
        var t := v.tasks[i];
        var a := t.attempts[number - 1].(status := to, finishedAt := Some(e.at));
        Some(v.(tasks := v.tasks[i := t.(attempts := t.attempts[number - 1 := a])]))
      else None
  }

  /** The events in order; nothing is left of a log that does not fit. */
  function Replay(v: Standing, events: seq<StateEvent>): Option<Standing> {
    if events == [] then Some(v)
    else
      match Replay(v, events[..|events| - 1])
      case Some(u) => ReplayOne(u, events[|events| - 1])
      case None => None
  }

  lemma {:induction false} ReplayConcat(v: Standing, a: seq<StateEvent>, b: seq<StateEvent>)
    requires Replay(v, a).Some?
    ensures Replay(v, a + b) == Replay(Replay(v, a).value, b)
    decreases |b|
  {
    hide ReplayOne;
    if b == [] {
      assert a + b == a;
    } else {
      assert (a + b)[..|a + b| - 1] == a + b[..|b| - 1];
      ReplayConcat(v, a, b[..|b| - 1]);
    }
  }

  // ---------- one snapshot after the other ----------

  /** Task keys are distinct and attempts numbered from 1, so that an event names one entity. */
  ghost predicate Auditable(s: RunSnapshot) {
    && (forall i, j :: 0 <= i < j < |s.tasks| ==> s.tasks[i].key != s.tasks[j].key)
    && (forall i, n :: 0 <= i < |s.tasks| && 0 <= n < |s.tasks[i].attempts| ==> s.tasks[i].attempts[n].number == n + 1)
  }

  /** The log of `t` goes on from that of `s`, and its new events lead from what `s` records to what `t` records. */
  ghost predicate Replays(s: RunSnapshot, t: RunSnapshot) {
    && |s.events| <= |t.events| && t.events[..|s.events|] == s.events
    && Replay(StandingOf(s), t.events[|s.events|..]) == Some(StandingOf(t))
  }

  /** All new events carry the time `at`. */
  ghost predicate Stamped(s: RunSnapshot, t: RunSnapshot, at: Time) {
    forall k :: |s.events| <= k < |t.events| ==> t.events[k].at == at
  }

  lemma {:induction false} ReplaysSame(s: RunSnapshot, t: RunSnapshot)
    requires t.events == s.events && StandingOf(t) == StandingOf(s)
    ensures Replays(s, t)
  {
    hide StandingOf;
    assert t.events[..|s.events|] == s.events && t.events[|s.events|..] == [];
  }

  lemma {:induction false} ReplaysTransitive(s: RunSnapshot, t: RunSnapshot, u: RunSnapshot)
    requires Replays(s, t) && Replays(t, u)
    ensures Replays(s, u)
  {
    hide StandingOf, ReplayOne, Replay;
    assert u.events[..|s.events|] == u.events[..|t.events|][..|s.events|];
    assert u.events[|s.events|..] == t.events[|s.events|..] + u.events[|t.events|..];
    ReplayConcat(StandingOf(s), t.events[|s.events|..], u.events[|t.events|..]);
  }

  lemma {:induction false} ReplaysOne(s: RunSnapshot, t: RunSnapshot, e: StateEvent)
    requires t.events == s.events + [e] && ReplayOne(StandingOf(s), e) == Some(StandingOf(t))
    ensures Replays(s, t)
  {
    hide StandingOf, ReplayOne;
    assert t.events[..|s.events|] == s.events;
    assert t.events[|s.events|..] == [e];
    assert [e][..0] == [];
    assert Replay(StandingOf(s), []) == Some(StandingOf(s));
  }

  // ---------- the primitive transitions ----------

  lemma {:induction false} PositionHere(tasks: seq<TaskStanding>, i: nat)
    requires i < |tasks| && forall j, k :: 0 <= j < k < |tasks| ==> tasks[j].key != tasks[k].key
    ensures PositionOf(tasks, tasks[i].key) == i
  {
    if i > 0 { PositionHere(tasks[1..], i - 1); }
  }

  lemma {:induction false} TaskHere(s: RunSnapshot, i: nat)
    requires Auditable(s) && i < |s.tasks|
    ensures PositionOf(StandingOf(s).tasks, s.tasks[i].key) == i
  {
    hide TaskStandingOf;
    var tasks := TasksStandingOf(s.tasks);
    forall j | 0 <= j < |tasks| ensures tasks[j].key == s.tasks[j].key { KeyStands(s.tasks[j]); }
    PositionHere(tasks, i);
  }

  lemma KeyStands(t: TaskRun)
    ensures TaskStandingOf(t).key == t.key && TaskStandingOf(t).status == t.status && TaskStandingOf(t).finishedAt == t.finishedAt
    ensures |TaskStandingOf(t).attempts| == |t.attempts|
    ensures forall n :: 0 <= n < |t.attempts| ==> TaskStandingOf(t).attempts[n] == AttemptStandingOf(t.attempts[n])
  {
  }

  lemma {:induction false} TaskReplaced(tasks: seq<TaskRun>, i: nat, t: TaskRun)
    requires i < |tasks|
    ensures TasksStandingOf(tasks[i := t]) == TasksStandingOf(tasks)[i := TaskStandingOf(t)]
  {
    hide TaskStandingOf;
  }

  lemma {:induction false} MoveWorkflowReplays(s: RunSnapshot, to: WorkflowStatus, at: Time, reason: string)
    ensures var o := MoveWorkflow(s, to, at, reason); o.Applied? ==> Replays(s, o.s) && Stamped(s, o.s, at)
  {
    hide TasksStandingOf, Replays;
    var o := MoveWorkflow(s, to, at, reason);
    if o.Applied? {
      ReplaysOne(s, o.s, o.s.events[|s.events|]);
    }
  }

  lemma {:induction false} MoveTaskReplays(s: RunSnapshot, i: nat, to: TaskStatus, at: Time, reason: string)
    requires i < |s.tasks|
    ensures var o := MoveTask(s, i, to, at, reason);
      o.Applied? ==> Stamped(s, o.s, at) && (Auditable(s) && !to.TaskRunning? ==> Replays(s, o.s))
  {
    hide Replays, TasksStandingOf, TaskStandingOf, Auditable;
    var o := MoveTask(s, i, to, at, reason);
    if o.Applied? && Auditable(s) && !to.TaskRunning? {
      TaskHere(s, i);
      TaskReplaced(s.tasks, i, o.s.tasks[i]);
      KeyStands(s.tasks[i]);
      TaskMoveStands(s.tasks[i], to, at);
      ReplaysOne(s, o.s, o.s.events[|s.events|]);
    }
  }

  lemma {:induction false} TaskMoveStands(t: TaskRun, to: TaskStatus, at: Time)
    requires !to.TaskRunning?
    ensures TaskStandingOf(MovedTask(t, to, at)) == TaskMoved(TaskStandingOf(t), to, at)
  {
  }

  /** Starting an attempt logs the task's move only; the new attempt is the one it means. */
  lemma {:induction false} BeginAttemptReplays(s: RunSnapshot, i: nat, at: Time, worker: WorkerID, dispatch: DispatchID,
      reason: string)
    requires i < |s.tasks|
    ensures var o := BeginAttempt(s, i, at, worker, dispatch, reason);
      o.Applied? ==> Stamped(s, o.s, at) && (Auditable(s) ==> Replays(s, o.s))
  {
    hide Replays, TasksStandingOf, TaskStandingOf, Auditable;
    var o := BeginAttempt(s, i, at, worker, dispatch, reason);
    if o.Applied? && Auditable(s) {
      TaskHere(s, i);
      assert o.s.tasks == s.tasks[i := o.s.tasks[i]];
      TaskReplaced(s.tasks, i, o.s.tasks[i]);
      KeyStands(s.tasks[i]);
      BeginStands(s.tasks[i], o.s.tasks[i], worker, dispatch, at);
      ReplaysOne(s, o.s, o.s.events[|s.events|]);
    }
  }

  lemma {:induction false} BeginStands(a: TaskRun, b: TaskRun, worker: WorkerID, dispatch: DispatchID, at: Time)
    requires b == MovedTask(a, TaskRunning, at).(
      attempts := a.attempts + [Attempt(|a.attempts| + 1, AttemptRunning, worker, dispatch, at, None, NO_RESULT)])
    ensures TaskStandingOf(b) == TaskMoved(TaskStandingOf(a), TaskRunning, at)
  {
  }

  lemma {:induction false} FinishAttemptReplays(s: RunSnapshot, i: nat, to: AttemptStatus, result: ExecutionResult,
      at: Time, reason: string)
    requires i < |s.tasks| && |s.tasks[i].attempts| > 0
    ensures var o := FinishAttempt(s, i, to, result, at, reason);
      o.Applied? ==> Stamped(s, o.s, at) && (Auditable(s) ==> Replays(s, o.s))
  {
    hide Replays, TasksStandingOf, TaskStandingOf;
    var o := FinishAttempt(s, i, to, result, at, reason);
    if o.Applied? && Auditable(s) {
      TaskHere(s, i);
      TaskReplaced(s.tasks, i, o.s.tasks[i]);
      FinishStands(s.tasks[i], to, result, at);
      ReplaysOne(s, o.s, o.s.events[|s.events|]);
    }
  }

  lemma {:induction false} FinishStands(t: TaskRun, to: AttemptStatus, result: ExecutionResult, at: Time)
    requires |t.attempts| > 0
    ensures var v, n := TaskStandingOf(t), |t.attempts| - 1;
      && v.key == t.key && |v.attempts| == |t.attempts| && v.attempts[n].status == t.Last().status
      && TaskStandingOf(SetLastAttempt(t, t.Last().(status := to, finishedAt := Some(at), result := result)))
         == v.(attempts := v.attempts[n := v.attempts[n].(status := to, finishedAt := Some(at))])
  {
  }

  /** The retry time is not part of the log. */
  lemma {:induction false} ReadyAtReplays(s: RunSnapshot, i: nat, readyAt: Time)
    requires i < |s.tasks|
    ensures Replays(s, SetReadyAt(s, i, readyAt))
  {
    hide Replays, TasksStandingOf;
    var t := SetReadyAt(s, i, readyAt);
    TaskReplaced(s.tasks, i, t.tasks[i]);
    var v := TasksStandingOf(s.tasks);
    assert v[i := v[i]] == v;
    ReplaysSame(s, t);
  }
}
