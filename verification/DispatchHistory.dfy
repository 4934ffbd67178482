/** What histories of the dispatch protocol never do: reuse a fence, change a finished dispatch, accept a second
    result, revive or shorten a lease, or let two attempts of a task overlap. */
module DispatchHistory {
  import opened Domain
  import opened Compiler
  import opened Steps
  import opened RunInvariant
  import opened RunResults
  import opened RunTheorems
  import opened DispatchModel
  import opened DispatchInvariant
  import opened DispatchSteps
  import opened DispatchRuns

  // ---------- ownership ----------

  /** `id` is the one active dispatch of the task. */
  ghost predicate OnlyActive(ds: map<DispatchID, Dispatch>, id: DispatchID, r: RunID, key: TaskKey) {
    && IsActiveFor(ds, id, r, key) && forall x :: IsActiveFor(ds, x, r, key) ==> x == id
  }

  ghost predicate IsActiveFor(ds: map<DispatchID, Dispatch>, id: DispatchID, r: RunID, key: TaskKey) {
    id in ds && ds[id].run == r && ds[id].task == key && ds[id].Active()
  }

  /** The lease is that of the last attempt: same dispatch, worker and number. */
  predicate LeasesLast(t: TaskRun, id: DispatchID, d: Dispatch) {
    && d.status.DispatchLeased? && d.lease.Some? && |t.attempts| > 0
    && t.Last().dispatchID == id && t.Last().workerID == d.lease.value.worker && t.Last().number == d.lease.value.number
  }

  /** Ownership: a task is queued iff it has exactly one active dispatch and that is pending, running iff it has exactly one
      and that leased its last attempt, and otherwise it has none. */
  lemma {:induction false} OwnershipExact(w: World, r: RunID, i: nat)
    requires WorldInv(w) && r in w.runs && i < |w.runs[r].s.tasks|
    ensures var t, ds := w.runs[r].s.tasks[i], w.dispatches;
      && (t.status.TaskQueued? <==> exists id :: OnlyActive(ds, id, r, t.key) && ds[id].status.DispatchPending?)
      && (t.status.TaskRunning? <==> exists id :: OnlyActive(ds, id, r, t.key) && LeasesLast(t, id, ds[id]))
      && (!t.status.TaskQueued? && !t.status.TaskRunning? <==> forall id :: !IsActiveFor(ds, id, r, t.key))
  {
    hide WorldInv, EntryInv, RunInv, TaskHistory;
    var t, ds := w.runs[r].s.tasks[i], w.dispatches;
    EntryOf(w, r);
    EntryRunnable(r, w.runs[r]);
    TaskOf(w.runs[r].c, w.runs[r].s, i);
    forall x | IsActiveFor(ds, x, r, t.key)
      ensures TaskOwns(t, x, ds[x]) && Shape(ds[x])
      ensures ds[x].status.DispatchPending? ==>
        forall y :: IsActiveFor(ds, y, r, t.key) && ds[y].status.DispatchPending? ==> x == y
    {
      OwnsHere(w, r, i, x);
      PendingOnce(w, x);
    }
    assert TaskDispatched(ds, r, t);
    if t.status.TaskQueued? {
      var id :| id in ds && PendingFor(ds[id], r, t.key);
      assert IsActiveFor(ds, id, r, t.key);
      assert OnlyActive(ds, id, r, t.key);
    } else if t.status.TaskRunning? {
      RunningLast(t, w.runs[r].c.MaxAttempts(i));
      assert AttemptFenced(ds, r, t.key, t.Last());
      assert OnlyActive(ds, t.Last().dispatchID, r, t.key);
    }
  }

  lemma {:induction false} PendingOnce(w: World, x: DispatchID)
    requires WorldInv(w) && x in w.dispatches && w.dispatches[x].Active()
    ensures w.dispatches[x].status.DispatchPending? ==>
      forall y :: y in w.dispatches && PendingFor(w.dispatches[y], w.dispatches[x].run, w.dispatches[x].task) ==> x == y
  {
    assert PendingUnique(w.dispatches);
  }

  lemma RunningLast(t: TaskRun, max: int)
    requires TaskHistory(t, max) && t.status.TaskRunning?
    ensures |t.attempts| > 0 && t.Last().status.AttemptRunning?
  {
  }

  // ---------- fencing ----------

  /** Attempt `n` of task `i` of run `r` exists. */
  ghost predicate HasAttempt(w: World, r: RunID, i: nat, n: nat) {
    r in w.runs && i < |w.runs[r].s.tasks| && n < |w.runs[r].s.tasks[i].attempts|
  }

  /** Fencing: every attempt was started by exactly one dispatch, whose outcome matches; no dispatch started two. */
  lemma {:induction false} AttemptsHaveTheirOwnDispatch(w: World, r: RunID, i: nat, n: nat, q: RunID, j: nat, m: nat)
    requires WorldInv(w) && HasAttempt(w, r, i, n) && HasAttempt(w, q, j, m)
    ensures AttemptFenced(w.dispatches, r, w.runs[r].s.tasks[i].key, w.runs[r].s.tasks[i].attempts[n])
    ensures w.runs[r].s.tasks[i].attempts[n].dispatchID == w.runs[q].s.tasks[j].attempts[m].dispatchID ==>
      r == q && i == j && n == m
  {
    hide EntryInv, OutcomeMatches;
    assert RunDispatched(w.dispatches, r, w.runs[r]) && RunDispatched(w.dispatches, q, w.runs[q]);
    assert TaskDispatched(w.dispatches, r, w.runs[r].s.tasks[i]) && TaskDispatched(w.dispatches, q, w.runs[q].s.tasks[j]);
    KeyPosition(r, w.runs[r], i);
    NumbersOf(r, w.runs[r], i);
    NumbersOf(q, w.runs[q], j);
  }

  /** And every dispatch that was ever leased started an attempt that still carries its id. */
  lemma {:induction false} LeasesHaveTheirAttempt(w: World, id: DispatchID) returns (i: nat, n: nat)
    requires WorldInv(w) && id in w.dispatches && w.dispatches[id].lease.Some?
    ensures var d := w.dispatches[id];
      && HasAttempt(w, d.run, i, n) && w.runs[d.run].s.tasks[i].key == d.task
      && w.runs[d.run].s.tasks[i].attempts[n].dispatchID == id
      && OutcomeMatches(w.runs[d.run].s.tasks[i].attempts[n], d)
  {
    hide EntryInv, OutcomeMatches;
    var d := w.dispatches[id];
    DispatchPosition(w, id);
    i := TaskIndexByKey(w.runs[d.run].s.tasks, d.task);
    n := d.lease.value.number - 1;
    assert TaskDispatched(w.dispatches, d.run, w.runs[d.run].s.tasks[i]);
    assert AttemptFenced(w.dispatches, d.run, d.task, w.runs[d.run].s.tasks[i].attempts[n]);
  }

  // ---------- rows ----------

  /** A row keeps its identity; a lease keeps its terms apart from the expiry; a finished row never changes. */
  predicate RowFollows(a: Dispatch, b: Dispatch) {
    && b.run == a.run && b.task == a.task && b.kind == a.kind && b.createdAt == a.createdAt
    && (a.lease.Some? ==> b.lease.Some? && b.lease.value == a.lease.value.(expiresAt := b.lease.value.expiresAt))
    && (!a.Active() ==> b == a)
  }

  ghost predicate RowsFollow(v: World, w: World) {
    forall id :: id in v.dispatches ==> id in w.dispatches && RowFollows(v.dispatches[id], w.dispatches[id])
  }

  /** All a step can do to an existing row. */
  predicate RowChange(id: DispatchID, a: Dispatch, b: Dispatch, step: DispatchStep) {
    || b == a
    || (a.status.DispatchPending? && step.DoReturn? && id == step.id && b == Ended(a, DispatchCanceled, step.now))
    || (a.Active() && step.DoCancel? && b == Ended(a, DispatchCanceled, step.now))
    || (a.status.DispatchPending? && step.DoClaim? && id == step.id && Leased(a, b, step))
    || (step.DoRenew? && id == step.id && Unexpired(a, step.now) && b == Renewed(a, step.now, step.duration))
    || (step.DoComplete? && id == step.id && Unexpired(a, step.now)
         && b == Ended(a, DispatchCompleted, step.now).(result := Some(step.result)))
    || (step.DoExpire? && id == step.id && a.status.DispatchLeased? && !Unexpired(a, step.now)
         && b == Ended(a, DispatchExpired, step.now))
  }

  predicate Leased(a: Dispatch, b: Dispatch, step: DispatchStep)
    requires step.DoClaim?
  {
    && b == a.(status := DispatchLeased, lease := b.lease) && b.lease.Some?
    && b.lease.value.leasedAt == step.now && b.lease.value.expiresAt == Min(step.now + step.duration, b.lease.value.deadline)
    && b.lease.value.token == step.token && b.lease.value.worker == step.worker
  }

  /** What a step does to the table: rows change as described, and at most a pending row is added. */
  ghost predicate TableChange(w: World, v: World, step: DispatchStep) {
    && (forall id :: id in w.dispatches ==> id in v.dispatches && RowChange(id, w.dispatches[id], v.dispatches[id], step))
    && (forall id :: id in v.dispatches && id !in w.dispatches ==> NewRow(v.dispatches[id]))
  }

  predicate NewRow(d: Dispatch) { d.status.DispatchPending? && d.lease.None? && d.completedAt.None? }

  lemma {:induction false} ClaimTable(w: World, step: DispatchStep, limit: nat)
    requires step.DoClaim? && Take(w, step, limit).Moved?
    ensures TableChange(w, Take(w, step, limit).w, step)
  {
    hide StartQueuedAttempt, LeasesOf, PutRun;
  }

  lemma {:induction false} EndTable(w: World, step: DispatchStep, limit: nat)
    requires WorldInv(w) && (step.DoComplete? || step.DoExpire?) && Take(w, step, limit).Moved?
    ensures TableChange(w, Take(w, step, limit).w, step)
  {
    hide WorldInv, ApplyAttemptResult, TimeoutAttempt, InterruptAttempt, PutRun, Runnable, OwnsAttempt;
    PresentID(w, step.id);
  }

  lemma {:induction false} TakeTable(w: World, step: DispatchStep, limit: nat)
    requires WorldInv(w) && Take(w, step, limit).Moved?
    ensures TableChange(w, Take(w, step, limit).w, step)
  {
    hide WorldInv, PutRun, QueueTask, ReturnQueuedTaskToReady, MakeRetryReady, CancelRun, Busy, ActiveDispatches,
      LeasesOf, Revoked, ValidCompiled, NewRunSnapshot, RequestCancelStep, MarkedOffline;
    match step
    case DoClaim(_, _, _, _, _) => ClaimTable(w, step, limit);
    case DoComplete(_, _, _, _, _) => EndTable(w, step, limit);
    case DoExpire(_, _) => EndTable(w, step, limit);
    case DoCancel(r, now) => RevokedRows(w.dispatches, r, now);
    case DoQueue(_, _, _) => QueueTable(w, step, limit);
    case DoReturn(_, _) => ReturnTable(w, step, limit);
    case _ =>
  }

  lemma {:induction false} QueueTable(w: World, step: DispatchStep, limit: nat)
    requires step.DoQueue? && Take(w, step, limit).Moved?
    ensures TableChange(w, Take(w, step, limit).w, step)
  {
    hide PutRun, QueueTask, Busy, ActiveDispatches;
  }

  lemma {:induction false} ReturnTable(w: World, step: DispatchStep, limit: nat)
    requires step.DoReturn? && Take(w, step, limit).Moved?
    ensures TableChange(w, Take(w, step, limit).w, step)
  {
    hide PutRun, ReturnQueuedTaskToReady;
  }

  lemma ChangeFollows(id: DispatchID, a: Dispatch, b: Dispatch, step: DispatchStep)
    requires RowChange(id, a, b, step) && Shape(a)
    ensures RowFollows(a, b)
  {
  }

  lemma {:induction false} TakeRows(w: World, step: DispatchStep, limit: nat)
    requires WorldInv(w) && Take(w, step, limit).Moved?
    ensures RowsFollow(w, Take(w, step, limit).w)
  {
    hide WorldInv, Take, RowChange, RowFollows, Shape;
    TakeTable(w, step, limit);
    var v := Take(w, step, limit).w;
    forall id | id in w.dispatches ensures id in v.dispatches && RowFollows(w.dispatches[id], v.dispatches[id]) {
      PresentID(w, id);
      ChangeFollows(id, w.dispatches[id], v.dispatches[id], step);
    }
  }

  /** The world between two moments of a history. */
  lemma {:induction false} RowsForward(steps: seq<DispatchStep>, j: nat, k: nat, limit: nat)
    requires j <= k <= |steps|
    ensures RowsFollow(WorldAt(steps, j, limit), WorldAt(steps, k, limit))
    decreases k
  {
    hide WorldInv, Limits, Take;
    if j < k {
      RowsForward(steps, j, k - 1, limit);
      EveryHistory(steps, k - 1, limit);
      var w := WorldAt(steps, k - 1, limit);
      if Take(w, steps[k - 1], limit).Moved? { TakeRows(w, steps[k - 1], limit); }
      RowsCompose(WorldAt(steps, j, limit), w, WorldAt(steps, k, limit));
    }
  }

  lemma RowsCompose(u: World, v: World, w: World)
    requires RowsFollow(u, v) && (RowsFollow(v, w) || w == v)
    ensures RowsFollow(u, w)
  {
  }

  /** A result is accepted once: after a completion was applied, at any later moment the same report changes nothing,
      and a different one under the same lease is a conflict. */
  lemma {:induction false} AcceptedOnce(steps: seq<DispatchStep>, j: nat, k: nat, limit: nat, result: ExecutionResponse,
      now: Time)
    requires j < k <= |steps| && steps[j].DoComplete? && Take(WorldAt(steps, j, limit), steps[j], limit).Moved?
    requires AcceptableResult(result)
    ensures var c := steps[j];
      CompleteOne(WorldAt(steps, k, limit), c.worker, c.id, c.token, result, now)
        == (if result == c.result then Same else Moved.Refused(ResultConflict))
  {
    hide WorldInv, Limits, ApplyAttemptResult, PutRun, Runnable, OwnsAttempt;
    var c := steps[j];
    var w := WorldAt(steps, j, limit);
    EveryHistory(steps, j, limit);
    CompleteExact(w, c.worker, c.id, c.token, c.result, c.now);
    var v := WorldAt(steps, j + 1, limit);
    assert v == CompleteOne(w, c.worker, c.id, c.token, c.result, c.now).w;
    assert v.dispatches[c.id].status.DispatchCompleted? && v.dispatches[c.id].result == Some(c.result)
      && Holds(v.dispatches[c.id], c.worker, c.token);
    RowsForward(steps, j + 1, k, limit);
    EveryHistory(steps, k, limit);
    CompleteExact(WorldAt(steps, k, limit), c.worker, c.id, c.token, result, now);
  }

  // ---------- time ----------

  /** The transaction's reading of the clock; an offline sweep only compares. */
  function ReadsClock(step: DispatchStep): Option<Time> {
    match step
    case DoOffline(_) => None
    case DoCreate(_, _, now) => Some(now)
    case DoRequest(_, now) => Some(now)
    case DoReturn(_, now) => Some(now)
    case DoPromote(_, now) => Some(now)
    case DoQueue(_, _, now) => Some(now)
    case DoClaim(_, _, _, now, _) => Some(now)
    case DoRenew(_, _, _, now, _) => Some(now)
    case DoComplete(_, _, _, _, now) => Some(now)
    case DoExpire(_, now) => Some(now)
    case DoCancel(_, now) => Some(now)
    case DoRegister(_, _, _, now) => Some(now)
    case DoBeat(_, now) => Some(now)
    case DoDrain(_, now) => Some(now)
  }

  predicate Grants(step: DispatchStep, duration: int) {
    (step.DoClaim? ==> step.duration == duration) && (step.DoRenew? ==> step.duration == duration)
  }

  /** Transactions read a clock that does not run backwards, and grant one lease duration. */
  predicate Clocked(steps: seq<DispatchStep>, clock: seq<Time>, duration: int) {
    && |clock| == |steps| + 1 && duration >= 0
    && (forall j, k :: 0 <= j <= k < |clock| ==> clock[j] <= clock[k])
    && forall k :: 0 <= k < |steps| ==>
         Grants(steps[k], duration) && (ReadsClock(steps[k]).Some? ==> ReadsClock(steps[k]) == Some(clock[k + 1]))
  }

  /** Leases and their ends in the order of time. */
  ghost predicate TimeInv(w: World, clock: Time, duration: int) {
    && (forall id :: id in w.dispatches ==> RowTimes(w.dispatches[id], clock, duration))
    && (forall a, b :: a in w.dispatches && b in w.dispatches ==> AttemptOrder(w.dispatches[a], w.dispatches[b]))
  }

  predicate RowTimes(d: Dispatch, clock: Time, duration: int) {
    && (d.lease.Some? ==> d.lease.value.leasedAt <= clock && d.lease.value.expiresAt <= clock + duration)
    && (d.completedAt.Some? ==> d.completedAt.value <= clock)
    && (d.status.DispatchExpired? && d.lease.Some? && d.completedAt.Some? ==> d.lease.value.expiresAt <= d.completedAt.value)
  }

  /** An earlier attempt of the same task had ended when the later one was leased. */
  predicate AttemptOrder(a: Dispatch, b: Dispatch) {
    EarlierAttempt(a, b) ==> a.completedAt.Some? && a.completedAt.value <= b.lease.value.leasedAt
  }

  predicate EarlierAttempt(a: Dispatch, b: Dispatch) {
    a.run == b.run && a.task == b.task && a.lease.Some? && b.lease.Some? && a.lease.value.number < b.lease.value.number
  }

  lemma {:induction false} ChangeTimes(id: DispatchID, a: Dispatch, b: Dispatch, step: DispatchStep, before: Time,
      after: Time, duration: int)
    requires RowChange(id, a, b, step) && RowTimes(a, before, duration) && Shape(a) && before <= after && duration >= 0
    requires Grants(step, duration) && (ReadsClock(step).Some? ==> ReadsClock(step).value <= after)
    ensures RowTimes(b, after, duration)
  {
  }

  /** Where both rows are owned, a dispatch that is leased now starts a later attempt than any other of its task, and that
      other has ended. */
  lemma {:induction false} ClaimIsLater(w: World, v: World, a: DispatchID, b: DispatchID, step: DispatchStep)
    requires WorldInv(w) && WorldInv(v) && step.DoClaim?
    requires a in w.dispatches && b in w.dispatches && a != b && a in v.dispatches && b in v.dispatches
    requires v.dispatches[a] == w.dispatches[a] && w.dispatches[b].status.DispatchPending?
      && Leased(w.dispatches[b], v.dispatches[b], step)
    ensures EarlierAttempt(v.dispatches[a], v.dispatches[b]) ==> !w.dispatches[a].Active() && w.dispatches[a].completedAt.Some?
    ensures !EarlierAttempt(v.dispatches[b], v.dispatches[a])
  {
    hide WorldInv;
    DispatchPosition(w, a);
    DispatchPosition(w, b);
    DispatchPosition(v, a);
    DispatchPosition(v, b);
    PresentID(w, a);
  }

  /** In time order the other has ended before. */
  lemma {:induction false} ClaimOrder(w: World, v: World, a: DispatchID, b: DispatchID, step: DispatchStep, clock: Time,
      duration: int)
    requires WorldInv(w) && WorldInv(v) && TimeInv(w, clock, duration) && step.DoClaim? && clock <= step.now
    requires a in w.dispatches && b in w.dispatches && a != b && a in v.dispatches && b in v.dispatches
    requires v.dispatches[a] == w.dispatches[a] && w.dispatches[b].status.DispatchPending?
      && Leased(w.dispatches[b], v.dispatches[b], step)
    ensures AttemptOrder(v.dispatches[a], v.dispatches[b]) && !EarlierAttempt(v.dispatches[b], v.dispatches[a])
  {
    hide WorldInv;
    ClaimIsLater(w, v, a, b, step);
    assert RowTimes(w.dispatches[a], clock, duration);
  }

  /** A step in time order keeps the order of leases and their ends. */
  lemma {:induction false} TakeTimes(w: World, step: DispatchStep, limit: nat, before: Time, after: Time, duration: int)
    requires WorldInv(w) && TimeInv(w, before, duration) && Take(w, step, limit).Moved? && before <= after && duration >= 0
    requires Grants(step, duration) && (ReadsClock(step).Some? ==> ReadsClock(step) == Some(after))
    ensures TimeInv(Take(w, step, limit).w, after, duration)
  {
    hide WorldInv, Take, RowChange, RowTimes, AttemptOrder, Shape;
    TakeTable(w, step, limit);
    TakeKeepsWorld(w, step, limit);
    var v := Take(w, step, limit).w;
    forall id | id in v.dispatches ensures RowTimes(v.dispatches[id], after, duration) {
      if id in w.dispatches {
        PresentID(w, id);
        ChangeTimes(id, w.dispatches[id], v.dispatches[id], step, before, after, duration);
      } else {
        NewRowTimes(v.dispatches[id], after, duration);
      }
    }
    forall a, b | a in v.dispatches && b in v.dispatches ensures AttemptOrder(v.dispatches[a], v.dispatches[b]) {
      OrderKept(w, v, a, b, step, before, after, duration);
    }
  }

  lemma NewRowTimes(d: Dispatch, clock: Time, duration: int)
    requires NewRow(d)
    ensures RowTimes(d, clock, duration)
  {
  }

  /** The step claimed row `b`. */
  predicate Claims(w: World, v: World, b: DispatchID, step: DispatchStep) {
    && b in w.dispatches && b in v.dispatches && step.DoClaim? && w.dispatches[b].status.DispatchPending?
    && Leased(w.dispatches[b], v.dispatches[b], step)
  }

  lemma {:induction false} UnclaimedOrder(x: DispatchID, a: Dispatch, a': Dispatch, y: DispatchID, b: Dispatch,
      b': Dispatch, step: DispatchStep)
    requires RowChange(x, a, a', step) && RowChange(y, b, b', step) && Shape(a) && Shape(b) && AttemptOrder(a, b)
    requires a.lease.Some? <==> a'.lease.Some?
    requires b.lease.Some? <==> b'.lease.Some?
    ensures AttemptOrder(a', b')
  {
  }

  lemma OthersUnclaimed(w: World, v: World, a: DispatchID, b: DispatchID, step: DispatchStep)
    requires a in w.dispatches && a in v.dispatches && RowChange(a, w.dispatches[a], v.dispatches[a], step)
    requires Claims(w, v, b, step) && RowChange(b, w.dispatches[b], v.dispatches[b], step) && a != b
    ensures v.dispatches[a] == w.dispatches[a]
  {
  }

  lemma UnclaimedLease(w: World, v: World, id: DispatchID, step: DispatchStep)
    requires id in w.dispatches && id in v.dispatches && RowChange(id, w.dispatches[id], v.dispatches[id], step)
      && Shape(w.dispatches[id])
    requires !Claims(w, v, id, step)
    ensures w.dispatches[id].lease.Some? <==> v.dispatches[id].lease.Some?
  {
  }

  lemma {:induction false} OrderKept(w: World, v: World, a: DispatchID, b: DispatchID, step: DispatchStep, before: Time,
      after: Time, duration: int)
    requires WorldInv(w) && WorldInv(v) && TimeInv(w, before, duration) && TableChange(w, v, step)
    requires before <= after && (ReadsClock(step).Some? ==> ReadsClock(step) == Some(after))
    requires a in v.dispatches && b in v.dispatches
    ensures AttemptOrder(v.dispatches[a], v.dispatches[b])
  {
    hide WorldInv, RowChange, Leased, Shape, RowTimes;
    if a in w.dispatches && b in w.dispatches && a != b {
      PresentID(w, a);
      PresentID(w, b);
      assert AttemptOrder(w.dispatches[a], w.dispatches[b]);
      assert RowChange(a, w.dispatches[a], v.dispatches[a], step) && RowChange(b, w.dispatches[b], v.dispatches[b], step);
      if Claims(w, v, b, step) {
        OthersUnclaimed(w, v, a, b, step);
        ClaimOrder(w, v, a, b, step, before, duration);
      } else if Claims(w, v, a, step) {
        OthersUnclaimed(w, v, b, a, step);
        ClaimOrder(w, v, b, a, step, before, duration);
      } else {
        UnclaimedLease(w, v, a, step);
        UnclaimedLease(w, v, b, step);
        UnclaimedOrder(a, w.dispatches[a], v.dispatches[a], b, w.dispatches[b], v.dispatches[b], step);
      }
    }
  }

  /** In a history in time order the leases and their ends are in order. */
  lemma {:induction false} HistoryTimes(steps: seq<DispatchStep>, clock: seq<Time>, duration: int, k: nat, limit: nat)
    requires Clocked(steps, clock, duration) && k <= |steps|
    ensures TimeInv(WorldAt(steps, k, limit), clock[k], duration)
  {
    hide WorldInv, Limits, Take, RowTimes, AttemptOrder;
    if k > 0 {
      HistoryTimes(steps, clock, duration, k - 1, limit);
      EveryHistory(steps, k - 1, limit);
      var w := WorldAt(steps, k - 1, limit);
      if Take(w, steps[k - 1], limit).Moved? {
        TakeTimes(w, steps[k - 1], limit, clock[k - 1], clock[k], duration);
      } else {
        TimesPass(w, clock[k - 1], clock[k], duration);
      }
    }
  }

  lemma TimesPass(w: World, before: Time, after: Time, duration: int)
    requires TimeInv(w, before, duration) && before <= after
    ensures TimeInv(w, after, duration)
  {
    forall id | id in w.dispatches ensures RowTimes(w.dispatches[id], after, duration) {
      assert RowTimes(w.dispatches[id], before, duration);
    }
  }

  // ---------- the laws of a lease ----------

  /** The lease of `b` does not end before that of `a`, and not after their common deadline. */
  predicate ExpiryFollows(a: Dispatch, b: Dispatch) {
    a.lease.Some? ==>
      && b.lease.Some? && a.lease.value.expiresAt <= b.lease.value.expiresAt <= b.lease.value.deadline
      && b.lease.value.deadline == a.lease.value.deadline
  }

  lemma {:induction false} ExpiryStep(id: DispatchID, a: Dispatch, b: Dispatch, step: DispatchStep, before: Time,
      after: Time, duration: int)
    requires RowChange(id, a, b, step) && RowTimes(a, before, duration) && Shape(a) && before <= after && duration >= 0
    requires Grants(step, duration) && (ReadsClock(step).Some? ==> ReadsClock(step) == Some(after))
    ensures ExpiryFollows(a, b)
    ensures a.lease.Some? && a.lease.value.expiresAt <= after ==> b.lease == a.lease
  {
  }

  /** In time order a lease's expiry never moves back and never passes its deadline, and once it has passed it is
      never moved again: an expired lease is not revived. */
  lemma {:induction false} ExpiryLaws(steps: seq<DispatchStep>, clock: seq<Time>, duration: int, j: nat, k: nat,
      limit: nat, id: DispatchID)
    requires Clocked(steps, clock, duration) && j <= k <= |steps| && id in WorldAt(steps, j, limit).dispatches
    ensures id in WorldAt(steps, k, limit).dispatches
    ensures var a, b := WorldAt(steps, j, limit).dispatches[id], WorldAt(steps, k, limit).dispatches[id];
      && ExpiryFollows(a, b)
      && (a.lease.Some? && j < k && a.lease.value.expiresAt <= clock[j + 1] ==> b.lease == a.lease)
    decreases k
  {
    hide WorldInv, Limits, Take, RowTimes, AttemptOrder, RowChange;
    EveryHistory(steps, j, limit);
    PresentID(WorldAt(steps, j, limit), id);
    if j < k {
      ExpiryLaws(steps, clock, duration, j, k - 1, limit, id);
      EveryHistory(steps, k - 1, limit);
      HistoryTimes(steps, clock, duration, k - 1, limit);
      var w := WorldAt(steps, k - 1, limit);
      PresentID(w, id);
      if Take(w, steps[k - 1], limit).Moved? {
        TakeTable(w, steps[k - 1], limit);
        ExpiryStep(id, w.dispatches[id], WorldAt(steps, k, limit).dispatches[id], steps[k - 1], clock[k - 1], clock[k], duration);
        assert clock[j + 1] <= clock[k];
      }
    }
  }

  // ---------- no two executions of a task at once ----------

  /** When the execution of a leased dispatch stops at the latest, for a worker that keeps to its safety deadline: before
      it reports a result, and otherwise before the stored lease runs out. */
  predicate StopsBy(d: Dispatch, stop: Time) {
    d.lease.Some? && (if d.status.DispatchCompleted? && d.completedAt.Some? then stop <= d.completedAt.value
      else stop <= d.lease.value.expiresAt)
  }

  /** The later attempt of a task starts after the execution of every earlier one has stopped. */
  lemma {:induction false} ExecutionsNeverOverlap(steps: seq<DispatchStep>, clock: seq<Time>, duration: int, k: nat, limit: nat,
      a: DispatchID, b: DispatchID, stop: Time)
    requires Clocked(steps, clock, duration) && k <= |steps|
    requires var w := WorldAt(steps, k, limit);
      a in w.dispatches && b in w.dispatches && EarlierAttempt(w.dispatches[a], w.dispatches[b])
    requires StopsBy(WorldAt(steps, k, limit).dispatches[a], stop)
    ensures stop <= WorldAt(steps, k, limit).dispatches[b].lease.value.leasedAt
  {
    hide WorldInv, Limits;
    var w := WorldAt(steps, k, limit);
    EveryHistory(steps, k, limit);
    HistoryTimes(steps, clock, duration, k, limit);
    assert RowTimes(w.dispatches[a], clock[k], duration) && AttemptOrder(w.dispatches[a], w.dispatches[b]);
    EarlierWasNotCanceled(w, a, b);
  }

  /** Only the last attempt of a task can be canceled, so an earlier one was completed or expired. */
  lemma {:induction false} EarlierWasNotCanceled(w: World, a: DispatchID, b: DispatchID)
    requires WorldInv(w) && a in w.dispatches && b in w.dispatches && EarlierAttempt(w.dispatches[a], w.dispatches[b])
    ensures w.dispatches[a].status.DispatchCompleted? || w.dispatches[a].status.DispatchExpired?
    ensures w.dispatches[a].completedAt.Some?
  {
    hide WorldInv, EntryInv, RunInv, TaskHistory;
    PresentID(w, a);
    var i, n := LeasesHaveTheirAttempt(w, a);
    DispatchPosition(w, a);
    DispatchPosition(w, b);
    var r := w.dispatches[a].run;
    EntryOf(w, r);
    var e := w.runs[r];
    EntryRunnable(r, e);
    KeyPosition(r, e, i);
    TaskOf(e.c, e.s, i);
    NumbersOf(r, e, i);
    AttemptNumberOf(w, r, i, n);
    EarlierRetryable(e.s.tasks[i], e.c.MaxAttempts(i), n);
  }

  lemma {:induction false} AttemptNumberOf(w: World, r: RunID, i: nat, n: nat)
    requires WorldInv(w) && HasAttempt(w, r, i, n)
    ensures AttemptFenced(w.dispatches, r, w.runs[r].s.tasks[i].key, w.runs[r].s.tasks[i].attempts[n])
  {
    AttemptsHaveTheirOwnDispatch(w, r, i, n, r, i, n);
  }

  lemma EarlierRetryable(t: TaskRun, max: int, n: nat)
    requires TaskHistory(t, max) && n < |t.attempts| - 1
    ensures Retryable(t.attempts[n].status)
  {
  }
}
