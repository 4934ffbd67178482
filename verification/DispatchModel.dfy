/** The lease-based dispatch protocol on values: the tables of runs, dispatches and workers, and what each
    transaction does to one row of its work list. */
module DispatchModel {
  import opened Domain
  import opened Steps
  import opened RunTheorems
  import opened SavedRuns

  // ---------- the tables ----------

  type Token = string

  datatype WorkerStatus = WorkerActive | WorkerDraining | WorkerOffline | WorkerStopped

  datatype Worker = Worker(
    kinds: seq<ExecutorKind>, maxConcurrency: nat, status: WorkerStatus,
    registeredAt: Time, lastHeartbeatAt: Time, stoppedAt: Option<Time>)

  datatype DispatchStatus = DispatchPending | DispatchLeased | DispatchCompleted | DispatchExpired | DispatchCanceled

  /** What a claim writes; it stays on the row when the lease ends. */
  datatype LeaseTerms = LeaseTerms(worker: WorkerID, number: int, token: Token, expiresAt: Time, deadline: Time, leasedAt: Time)

  /** `result` is the digest of the accepted result; digests are injective, so it is taken to be the result itself. */
  datatype Dispatch = Dispatch(
    run: RunID, task: TaskKey, kind: ExecutorKind, status: DispatchStatus,
    lease: Option<LeaseTerms>, result: Option<ExecutionResponse>, createdAt: Time, completedAt: Option<Time>)
  {
    predicate Active() { status.DispatchPending? || status.DispatchLeased? }
  }

  /** A run with its compiled definition. */
  datatype Entry = Entry(c: Compiled, s: RunSnapshot)

  datatype World = World(
    runs: map<RunID, Entry>, dispatches: map<DispatchID, Dispatch>, workers: map<WorkerID, Worker>)

  datatype DispatchError =
    | RunNotFound | NotQueued | NoMatchingTask | RetryGone | NotOwner | NotRequested
    | StepRefused(error: StepError)
    | SessionInvalid | WorkerIsDraining | CapacityExceeded
    | InvalidResult | LeaseLost | ResultConflict
    | NullColumn
    | BadLimit

  /** `Moved` commits, `Same` finds nothing to do, `Refused` rolls back. */
  datatype Moved = Moved(w: World) | Same | Refused(error: DispatchError)

  // ---------- searches ----------

  /** The first task with the key, or -1. */
  function TaskIndexByKey(tasks: seq<TaskRun>, key: TaskKey): (r: int)
    ensures -1 <= r < |tasks|
    ensures r >= 0 ==> tasks[r].key == key && forall j :: 0 <= j < r ==> tasks[j].key != key
    ensures r < 0 ==> forall j :: 0 <= j < |tasks| ==> tasks[j].key != key
  {
    IndexFrom(tasks, key, 0)
  }

  function IndexFrom(tasks: seq<TaskRun>, key: TaskKey, i: nat): (r: int)
    requires i <= |tasks| && forall j :: 0 <= j < i ==> tasks[j].key != key
    ensures -1 <= r < |tasks|
    ensures r >= 0 ==> tasks[r].key == key && forall j :: 0 <= j < r ==> tasks[j].key != key
    ensures r < 0 ==> forall j :: 0 <= j < |tasks| ==> tasks[j].key != key
    decreases |tasks| - i
  {
    if i == |tasks| then -1 else if tasks[i].key == key then i else IndexFrom(tasks, key, i + 1)
  }

  predicate DueRetry(t: TaskRun, at: Time) {
    t.status.TaskWaitingRetry? && t.readyAt.Some? && t.readyAt.value <= at
  }

  /** The first ready task, or -1. */
  function FirstReady(tasks: seq<TaskRun>, i: nat): (r: int)
    requires i <= |tasks|
    ensures -1 <= r < |tasks|
    ensures r >= 0 ==> i <= r && tasks[r].status.TaskReady? && forall j :: i <= j < r ==> !tasks[j].status.TaskReady?
    ensures r < 0 ==> forall j :: i <= j < |tasks| ==> !tasks[j].status.TaskReady?
    decreases |tasks| - i
  {
    if i == |tasks| then -1 else if tasks[i].status.TaskReady? then i else FirstReady(tasks, i + 1)
  }

  /** The first task whose retry is due, or -1. */
  function FirstDueRetry(tasks: seq<TaskRun>, at: Time, i: nat): (r: int)
    requires i <= |tasks|
    ensures -1 <= r < |tasks|
    ensures r >= 0 ==> i <= r && DueRetry(tasks[r], at) && forall j :: i <= j < r ==> !DueRetry(tasks[j], at)
    ensures r < 0 ==> forall j :: i <= j < |tasks| ==> !DueRetry(tasks[j], at)
    decreases |tasks| - i
  {
    if i == |tasks| then -1 else if DueRetry(tasks[i], at) then i else FirstDueRetry(tasks, at, i + 1)
  }

  // ---------- writing ----------

  /** The run row and its children after a committed step. */
  function PutRun(w: World, r: RunID, t: RunSnapshot): (v: World)
    requires r in w.runs
    ensures v.dispatches == w.dispatches && v.workers == w.workers && v.runs.Keys == w.runs.Keys
  {
    w.(runs := w.runs[r := w.runs[r].(s := Saved(w.runs[r].s, t))])
  }

  function PutDispatch(w: World, id: DispatchID, d: Dispatch): World {
    w.(dispatches := w.dispatches[id := d])
  }

  function StepOf(o: Outcome): DispatchError {
    match o
    case Rejected(e) => StepRefused(e)
    case _ => NotOwner
  }

  function Ended(d: Dispatch, status: DispatchStatus, at: Time): Dispatch {
    d.(status := status, completedAt := Some(at))
  }

  // ---------- runs ----------

  /** A new run of a compiled definition. */
  function CreateOne(w: World, r: RunID, c: Compiled, now: Time): Moved
    requires |c.dependencies| == c.Size()
  {
    if r == "" || r in w.runs then Same else Moved(w.(runs := w.runs[r := Entry(c, NewRunSnapshot(r, c, now))]))
  }

  function RequestOne(w: World, r: RunID, at: Time): Moved {
    if r !in w.runs then Refused(RunNotFound)
    else
      match RequestCancelStep(w.runs[r].s, at)
      case Applied(t) => Moved(w.(runs := w.runs[r := w.runs[r].(s := t)]))
      case _ => Same
  }

  // ---------- scheduling ----------

  /** A pending dispatch nobody can claim goes back: its task is ready again and the row is canceled. */
  function ReturnOrphan(w: World, id: DispatchID, now: Time): Moved {
    if id !in w.dispatches then Same
    else
      var d := w.dispatches[id];
      if d.run !in w.runs then Refused(RunNotFound)
      else if !d.status.DispatchPending? then Same
      else
        var s := w.runs[d.run].s;
        var i := TaskIndexByKey(s.tasks, d.task);
        if i < 0 || !s.tasks[i].status.TaskQueued? then Refused(NotQueued)
        else
          match ReturnQueuedTaskToReady(s, i, now, "no compatible active Worker")
          case Applied(t) => Moved(PutDispatch(PutRun(w, d.run, t), id, Ended(d, DispatchCanceled, now)))
          case o => Refused(StepOf(o))
  }

  /** The first due retry of a run becomes ready. */
  function PromoteRetry(w: World, r: RunID, now: Time): Moved {
    if r !in w.runs then Refused(RunNotFound)
    else
      var s := w.runs[r].s;
      var i := FirstDueRetry(s.tasks, now, 0);
      if i < 0 then Same
      else if |s.tasks[i].attempts| == 0 then Refused(RetryGone)
      else
        match MakeRetryReady(s, i, s.tasks[i].Last().number, now)
        case Applied(t) => Moved(PutRun(w, r, t))
        case Ignored => Refused(RetryGone)
        case Rejected(e) => Refused(StepRefused(e))
  }

  /** The executor kind of the task a run would queue next. */
  function NextKind(e: Entry): Option<ExecutorKind> {
    var i := FirstReady(e.s.tasks, 0);
    if 0 <= i < |e.s.definition.tasks| then Some(e.s.definition.tasks[i].executor) else None
  }

  /** The first ready task of a run is queued with a new pending dispatch `id`. */
  function QueueNext(w: World, r: RunID, id: DispatchID, now: Time): Moved {
    if r !in w.runs then Refused(RunNotFound)
    else
      var e := w.runs[r];
      var i := FirstReady(e.s.tasks, 0);
      var kind := NextKind(e);
      if i < 0 || kind.None? then Same
      else
        match QueueTask(e.s, i, now)
        case Applied(t) =>
          Moved(PutDispatch(PutRun(w, r, t), id,
            Dispatch(r, e.s.tasks[i].key, kind.value, DispatchPending, None, None, now, None)))
        case o => Refused(StepOf(o))
  }

  // ---------- leases ----------

  function Min(a: Time, b: Time): Time { if b < a then b else a }

  /** What a claim at `now` grants: the lease never outlives the attempt's deadline. */
  function Granted(worker: WorkerID, number: int, token: Token, timeoutMillis: int, now: Time, duration: int): LeaseTerms {
    var deadline := now + timeoutMillis * NANOS_PER_MILLI;
    LeaseTerms(worker, number, token, Min(now + duration, deadline), deadline, now)
  }

  /** A pending dispatch becomes the lease of `worker`, and its task starts its next attempt. */
  function ClaimOne(w: World, worker: WorkerID, id: DispatchID, token: Token, now: Time, duration: int): Moved {
    if id !in w.dispatches || w.dispatches[id].run !in w.runs then Same
    else
      var d := w.dispatches[id];
      var e := w.runs[d.run];
      var i := TaskIndexByKey(e.s.tasks, d.task);
      if i < 0 || !e.s.tasks[i].status.TaskQueued? then Refused(NotQueued)
      else
        match StartQueuedAttempt(e.s, e.c, i, now, worker, id)
        case Applied(t) =>
          if !d.status.DispatchPending? then Refused(LeaseLost)
          else
            var terms := Granted(worker, |e.s.tasks[i].attempts|
              + 1, token, e.c.definition.tasks[i].timeoutMillis, now, duration);
            Moved(PutDispatch(PutRun(w, d.run, t), id, d.(status := DispatchLeased, lease := Some(terms))))
        case o => Refused(StepOf(o))
  }

  datatype LeaseAnswer = LeaseRenewed(remainingMillis: int) | LeaseRevoked | LeaseUnknown

  /** The worker and the secret token of the stored lease. */
  predicate Holds(d: Dispatch, worker: WorkerID, token: Token) {
    d.lease.Some? && d.lease.value.worker == worker && d.lease.value.token == token
  }

  /** A lease that is running and has not passed its expiry or its deadline. */
  predicate Unexpired(d: Dispatch, now: Time) {
    d.status.DispatchLeased? && d.lease.Some? && d.lease.value.expiresAt > now && d.lease.value.deadline > now
  }

  function Renewed(d: Dispatch, now: Time, duration: int): Dispatch
    requires d.lease.Some?
  {
    d.(lease := Some(d.lease.value.(expiresAt := Min(now + duration, d.lease.value.deadline))))
  }

  /** One reference of a heartbeat. A row that was never leased has no worker to read. */
  function RenewOne(w: World, worker: WorkerID, id: DispatchID, token: Token, now: Time, duration: int): (Moved, LeaseAnswer) {
    if id !in w.dispatches then (Same, LeaseUnknown)
    else
      var d := w.dispatches[id];
      if d.lease.None? then (Refused(NullColumn), LeaseUnknown)
      else if !Holds(d, worker, token) then (Same, LeaseUnknown)
      else if !Unexpired(d, now) then (Same, LeaseRevoked)
      else
        var d' := Renewed(d, now, duration);
        (Moved(PutDispatch(w, id, d')), LeaseRenewed((d'.lease.value.expiresAt - now) / NANOS_PER_MILLI))
  }

  // ---------- results ----------

  const MAX_RESULT_OUTPUT_BYTES := 65536
  const MAX_RESULT_ERROR_CODE_BYTES := 128
  const MAX_RESULT_ERROR_MESSAGE_BYTES := 8192

  /** Results that can be digested at all. */
  predicate AcceptableResult(r: ExecutionResponse) {
    && (r.kind.ResultSuccess? || r.kind.ResultTemporaryFailure? || r.kind.ResultPermanentFailure?)
    && |r.output| <= MAX_RESULT_OUTPUT_BYTES && |r.errorCode| <= MAX_RESULT_ERROR_CODE_BYTES
    && |r.errorMessage| <= MAX_RESULT_ERROR_MESSAGE_BYTES
  }

  /** The last attempt of the task is the one this lease started. */
  predicate OwnsAttempt(t: TaskRun, terms: LeaseTerms, id: DispatchID) {
    t.status.TaskRunning? && |t.attempts| > 0
    && t.Last().number == terms.number && t.Last().workerID == terms.worker && t.Last().dispatchID == id
  }

  /** A worker reports a result. `Same` is the replay of an accepted one. */
  function CompleteOne(w: World, worker: WorkerID, id: DispatchID, token: Token, result: ExecutionResponse, now: Time): Moved {
    if !AcceptableResult(result) then Refused(InvalidResult)
    else if id !in w.dispatches || w.dispatches[id].run !in w.runs then Refused(LeaseLost)
    else
      var d := w.dispatches[id];
      if !Holds(d, worker, token) then Refused(LeaseLost)
      else if d.status.DispatchCompleted? then if d.result == Some(result) then Same else Refused(ResultConflict)
      else if !Unexpired(d, now) then Refused(LeaseLost)
      else
        var e := w.runs[d.run];
        if e.s.row.cancelRequestedAt.Some? || !e.s.row.status.WorkflowRunning? then Refused(LeaseLost)
        else
          var i := TaskIndexByKey(e.s.tasks, d.task);
          if i < 0 || !OwnsAttempt(e.s.tasks[i], d.lease.value, id) then Refused(LeaseLost)
          else if !Runnable(e.s, e.c) then Refused(LeaseLost)
          else
            match ApplyAttemptResult(e.s, e.c, i, d.lease.value.number, result, now)
            case Applied(t) =>
              Moved(PutDispatch(PutRun(w, d.run, t), id, Ended(d, DispatchCompleted, now).(result := Some(result))))
            case Ignored => Refused(LeaseLost)
            case Rejected(e) => Refused(StepRefused(e))
  }

  // ---------- expiry ----------

  /** An expired lease is settled as a timeout or an interruption of its attempt. */
  function ExpireOne(w: World, id: DispatchID, now: Time): Moved {
    if id !in w.dispatches then Same
    else
      var d := w.dispatches[id];
      if !d.status.DispatchLeased? || d.lease.None? then Same
      else if d.lease.value.expiresAt > now && d.lease.value.deadline > now then Same
      else if d.run !in w.runs then Refused(RunNotFound)
      else
        var e := w.runs[d.run];
        var i := TaskIndexByKey(e.s.tasks, d.task);
        if i < 0 || !Runnable(e.s, e.c) then Refused(NoMatchingTask)
        else
          var o := if d.lease.value.deadline <= now then TimeoutAttempt(e.s, e.c, i, d.lease.value.number, now)
                   else InterruptAttempt(e.s, e.c, i, d.lease.value.number, now, "Worker lease expired");
          match o
          case Applied(t) => Moved(PutDispatch(PutRun(w, d.run, t), id, Ended(d, DispatchExpired, now)))
          case _ => Refused(StepOf(o))
  }

  // ---------- cancellation ----------

  /** Every active dispatch of run `r` is revoked. */
  function Revoked(dispatches: map<DispatchID, Dispatch>, r: RunID, now: Time): map<DispatchID, Dispatch> {
    map id | id in dispatches ::
      if dispatches[id].run == r && dispatches[id].Active() then Ended(dispatches[id], DispatchCanceled, now) else dispatches[id]
  }

  /** A requested cancellation is carried out for the run and all its dispatches at once. */
  function CancelOne(w: World, r: RunID, now: Time): Moved {
    if r !in w.runs then Refused(RunNotFound)
    else
      var s := w.runs[r].s;
      if WorkflowTerminal(s.row.status) then Same
      else if s.row.cancelRequestedAt.None? then Refused(NotRequested)
      else
        match CancelRun(s, now)
        case Applied(t) => Moved(PutRun(w, r, t).(dispatches := Revoked(w.dispatches, r, now)))
        case o => Refused(StepOf(o))
  }

  // ---------- workers ----------

  function Register(w: World, id: WorkerID, kinds: seq<ExecutorKind>, maxConcurrency: nat, now: Time): Moved {
    if id == "" || id in w.workers then Same
    else Moved(w.(workers := w.workers[id := Worker(kinds, maxConcurrency, WorkerActive, now, now, None)]))
  }

  /** The leases `worker` holds. */
  ghost function LeasesOf(dispatches: map<DispatchID, Dispatch>, worker: WorkerID): set<DispatchID> {
    set id | id in dispatches && dispatches[id].status.DispatchLeased? && dispatches[id].lease.Some?
      && dispatches[id].lease.value.worker == worker
  }

  predicate LeasedBy(d: Dispatch, worker: WorkerID) {
    d.status.DispatchLeased? && d.lease.Some? && d.lease.value.worker == worker
  }

  ghost function ActiveDispatches(dispatches: map<DispatchID, Dispatch>): set<DispatchID> {
    set id | id in dispatches && dispatches[id].Active()
  }

  /** Stops new claims; a session without leases is stopped. */
  ghost function Drained(w: World, id: WorkerID, now: Time): Moved {
    if id !in w.workers || !(w.workers[id].status.WorkerActive? || w.workers[id].status.WorkerDraining?)
      then Refused(SessionInvalid)
    else
      var worker := w.workers[id];
      Moved(w.(workers := w.workers[id :=
        if LeasesOf(w.dispatches, id) == {} then worker.(status := WorkerStopped, stoppedAt := Some(now))
        else worker.(status := WorkerDraining, stoppedAt := None)]))
  }

  predicate Silent(worker: Worker, before: Time) {
    (worker.status.WorkerActive? || worker.status.WorkerDraining?) && worker.lastHeartbeatAt < before
  }

  /** Silent workers are marked offline. */
  function MarkedOffline(workers: map<WorkerID, Worker>, before: Time): map<WorkerID, Worker> {
    map id | id in workers :: if Silent(workers[id], before) then workers[id].(status := WorkerOffline) else workers[id]
  }

  function Beat(w: World, id: WorkerID, now: Time): Moved {
    if id !in w.workers || !(w.workers[id].status.WorkerActive? || w.workers[id].status.WorkerDraining?)
      then Refused(SessionInvalid)
    else Moved(w.(workers := w.workers[id := w.workers[id].(lastHeartbeatAt := now)]))
  }

  // ---------- what the scans are to find ----------

  ghost predicate Uncanceled(s: RunSnapshot) {
    (s.row.status.WorkflowPending? || s.row.status.WorkflowRunning?) && s.row.cancelRequestedAt.None?
  }

  predicate RetryIsDue(t: TaskRun, now: Time) { t.status.TaskWaitingRetry? && t.readyAt.Some? && t.readyAt.value <= now }

  /** A pending dispatch that no active session can execute, of a run nobody asked to cancel. */
  ghost predicate IsStranded(w: World, id: DispatchID) {
    && id in w.dispatches && w.dispatches[id].status.DispatchPending? && w.dispatches[id].run in w.runs
    && w.runs[w.dispatches[id].run].s.row.cancelRequestedAt.None?
    && forall k :: k in w.workers && w.workers[k].status.WorkerActive? ==> w.dispatches[id].kind !in w.workers[k].kinds
  }

  /** An unfinished run nobody asked to cancel, with a retry that is due. */
  ghost predicate RetryCanGo(w: World, r: RunID, now: Time) {
    r in w.runs && Uncanceled(w.runs[r].s) && exists i :: 0 <= i < |w.runs[r].s.tasks| && RetryIsDue(w.runs[r].s.tasks[i], now)
  }

  /** An unfinished run nobody asked to cancel, with a ready task. */
  ghost predicate TaskCanGo(w: World, r: RunID) {
    r in w.runs && Uncanceled(w.runs[r].s) && exists i :: 0 <= i < |w.runs[r].s.tasks| && w.runs[r].s.tasks[i].status.TaskReady?
  }

  /** A pending dispatch of one of the kinds, of a run nobody asked to cancel. That its run is running and its task queued
      follows from ownership. */
  ghost predicate CanBeLeased(w: World, id: DispatchID, kinds: seq<ExecutorKind>) {
    && id in w.dispatches && w.dispatches[id].status.DispatchPending? && w.dispatches[id].kind in kinds
    && w.dispatches[id].run in w.runs && w.runs[w.dispatches[id].run].s.row.cancelRequestedAt.None?
  }

  /** A lease that has passed its expiry or the deadline of its attempt. */
  ghost predicate RanOut(w: World, id: DispatchID, now: Time) {
    && id in w.dispatches && w.dispatches[id].status.DispatchLeased? && w.dispatches[id].lease.Some?
    && (w.dispatches[id].lease.value.expiresAt <= now || w.dispatches[id].lease.value.deadline <= now)
  }

  /** An unfinished run that somebody asked to cancel. */
  ghost predicate CancelWaits(w: World, r: RunID) {
    && r in w.runs && w.runs[r].s.row.cancelRequestedAt.Some?
    && (w.runs[r].s.row.status.WorkflowPending? || w.runs[r].s.row.status.WorkflowRunning?)
  }

  /** A session that is silent since before the time is offline. */
  ghost function IfSilent(worker: Worker, before: Time): Worker {
    if (worker.status.WorkerActive? || worker.status.WorkerDraining?) && worker.lastHeartbeatAt < before
    then worker.(status := WorkerOffline) else worker
  }

  // ---------- the scans ----------

  predicate Serves(worker: Worker, kind: ExecutorKind) { worker.status.WorkerActive? && kind in worker.kinds }

  /** Some active session can execute the kind. */
  predicate Served(workers: map<WorkerID, Worker>, kind: ExecutorKind) {
    exists k :: k in workers && Serves(workers[k], kind)
  }

  predicate IsOrphan(w: World, id: DispatchID) {
    && id in w.dispatches && w.dispatches[id].status.DispatchPending? && w.dispatches[id].run in w.runs
    && w.runs[w.dispatches[id].run].s.row.cancelRequestedAt.None? && !Served(w.workers, w.dispatches[id].kind)
  }

  predicate Open(s: RunSnapshot) { !WorkflowTerminal(s.row.status) && s.row.cancelRequestedAt.None? }

  predicate HasDueRetry(w: World, r: RunID, now: Time) {
    r in w.runs && Open(w.runs[r].s) && exists i :: 0 <= i < |w.runs[r].s.tasks| && DueRetry(w.runs[r].s.tasks[i], now)
  }

  predicate Offered(w: World, id: DispatchID, kinds: seq<ExecutorKind>) {
    && id in w.dispatches && w.dispatches[id].status.DispatchPending? && w.dispatches[id].kind in kinds
    && w.dispatches[id].run in w.runs && w.runs[w.dispatches[id].run].s.row.status.WorkflowRunning?
    && w.runs[w.dispatches[id].run].s.row.cancelRequestedAt.None?
    && var s := w.runs[w.dispatches[id].run].s;
       exists i :: 0 <= i < |s.tasks| && s.tasks[i].key == w.dispatches[id].task && s.tasks[i].status.TaskQueued?
  }

  predicate IsExpired(w: World, id: DispatchID, now: Time) {
    && id in w.dispatches && w.dispatches[id].status.DispatchLeased? && w.dispatches[id].lease.Some?
    && (w.dispatches[id].lease.value.expiresAt <= now || w.dispatches[id].lease.value.deadline <= now)
  }

  /** A heartbeat's references in order; a row that cannot be read fails the whole heartbeat. */
  function RenewMany(w: World, worker: WorkerID, refs: seq<(DispatchID, Token)>, now: Time, duration: int)
    : (Moved, seq<LeaseAnswer>)
  {
    if refs == [] then (Moved(w), [])
    else
      var n := |refs| - 1;
      var (o, answers) := RenewMany(w, worker, refs[..n], now, duration);
      if !o.Moved? then (o, answers)
      else
        var (o', answer) := RenewOne(o.w, worker, refs[n].0, refs[n].1, now, duration);
        match o'
        case Refused(e) => (Refused(e), answers)
        case Moved(v) => (Moved(v), answers + [answer])
        case Same => (o, answers + [answer])
  }

  /** A run the scheduler may advance: open, with a ready task. The caller also checks for a free slot. */
  predicate Advanceable(w: World, r: RunID) {
    r in w.runs && Open(w.runs[r].s) && exists i :: 0 <= i < |w.runs[r].s.tasks| && w.runs[r].s.tasks[i].status.TaskReady?
  }

  // ---------- executor capacity ----------

  function CapacityFor(capacity: map<ExecutorKind, int>, kind: ExecutorKind): int {
    if kind in capacity then capacity[kind] else 0
  }

  function NonNegativePart(n: int): int { if n < 0 then 0 else n }

  /** What one session with `free` slots adds for `kind`. */
  function KindShare(kinds: seq<ExecutorKind>, kind: ExecutorKind, free: int): int {
    if kinds == [] then 0 else KindShare(kinds[..|kinds| - 1], kind, free) + if kinds[|kinds| - 1] == kind then free else 0
  }

  /** The free slots of the listed sessions for `kind`. */
  ghost function FreeSlots(w: World, sessions: seq<WorkerID>, kind: ExecutorKind): int
    requires forall k :: 0 <= k < |sessions| ==> sessions[k] in w.workers
  {
    if sessions == [] then 0
    else
      var id := sessions[|sessions| - 1];
      FreeSlots(w, sessions[..|sessions| - 1], kind)
      + KindShare(w.workers[id].kinds, kind, NonNegativePart(w.workers[id].maxConcurrency - |LeasesOf(w.dispatches, id)|))
  }

  function PendingCount(dispatches: map<DispatchID, Dispatch>, ids: seq<DispatchID>, kind: ExecutorKind): nat
    requires forall k :: 0 <= k < |ids| ==> ids[k] in dispatches
  {
    if ids == [] then 0
    else PendingCount(dispatches, ids[..|ids| - 1], kind) + if dispatches[ids[|ids| - 1]].kind == kind then 1 else 0
  }

  lemma {:induction false} ShareBounds(kinds: seq<ExecutorKind>, kind: ExecutorKind, free: int)
    requires free >= 0
    ensures KindShare(kinds, kind, free) >= 0
    ensures KindShare(kinds, kind, free) > 0 ==> kind in kinds
  {
    if kinds != [] { ShareBounds(kinds[..|kinds| - 1], kind, free); }
  }

  /** Free slots for a kind come from a session that serves it. */
  lemma {:induction false} FreeSlotsServe(w: World, sessions: seq<WorkerID>, kind: ExecutorKind)
    requires forall k :: 0 <= k < |sessions| ==> sessions[k] in w.workers && w.workers[sessions[k]].status.WorkerActive?
    ensures FreeSlots(w, sessions, kind) >= 0
    ensures FreeSlots(w, sessions, kind) > 0 ==> Served(w.workers, kind)
  {
    if sessions != [] {
      var id := sessions[|sessions| - 1];
      FreeSlotsServe(w, sessions[..|sessions| - 1], kind);
      ShareBounds(w.workers[id].kinds, kind, NonNegativePart(w.workers[id].maxConcurrency - |LeasesOf(w.dispatches, id)|));
      assert kind in w.workers[id].kinds ==> Serves(w.workers[id], kind);
    }
  }
}
