/** Whole histories of the dispatch protocol, in any interleaving of its transactions: ownership, fencing and the
    three capacity limits hold at every moment. */
module DispatchRuns {
  import opened Domain
  import opened Finite
  import opened Compiler
  import opened Steps
  import opened RunInvariant
  import opened RunResults
  import opened RunTheorems
  import opened SavedRuns
  import opened DispatchModel
  import opened DispatchInvariant
  import opened DispatchSteps
  import CS = ChangeSets

  // ---------- the limits ----------

  predicate Occupies(st: TaskStatus) { st.TaskQueued? || st.TaskRunning? }

  /** The tasks of a run that take one of its slots. */
  ghost function Busy(tasks: seq<TaskRun>): set<nat> {
    set i | i in Below(|tasks|) && Occupies(tasks[i].status)
  }

  ghost predicate WorkerLimits(w: World) {
    && (forall k :: k in w.workers ==> |LeasesOf(w.dispatches, k)| <= w.workers[k].maxConcurrency)
    && (forall k :: k in w.workers && w.workers[k].status.WorkerStopped? ==> LeasesOf(w.dispatches, k) == {})
    && (forall id :: id in w.dispatches && w.dispatches[id].lease.Some? ==> w.dispatches[id].lease.value.worker in w.workers)
  }

  ghost predicate RunLimits(w: World) {
    forall r :: r in w.runs ==> |Busy(w.runs[r].s.tasks)| <= w.runs[r].c.definition.concurrency
  }

  ghost predicate Limits(w: World, limit: nat) {
    WorkerLimits(w) && RunLimits(w) && |ActiveDispatches(w.dispatches)| <= limit
  }

  // ---------- counting ----------

  lemma LeasesChange(ds: map<DispatchID, Dispatch>, id: DispatchID, d: Dispatch, k: WorkerID)
    ensures LeasesOf(ds[id := d], k) == if LeasedBy(d, k) then LeasesOf(ds, k) + {id} else LeasesOf(ds, k) - {id}
  {
  }

  lemma ActiveChange(ds: map<DispatchID, Dispatch>, id: DispatchID, d: Dispatch)
    ensures ActiveDispatches(ds[id := d]) == if d.Active() then ActiveDispatches(ds) + {id} else ActiveDispatches(ds) - {id}
  {
  }

  /** A dispatch row that gains no lease and no activity keeps the worker limits and the dispatch limit. */
  lemma {:induction false} RowKeepsLimits(w: World, v: World, id: DispatchID, d: Dispatch, limit: nat)
    requires WorkerLimits(w) && |ActiveDispatches(w.dispatches)| <= limit
    requires v.dispatches == w.dispatches[id := d] && v.workers == w.workers && id in w.dispatches
    requires d.Active() ==> w.dispatches[id].Active()
    requires d.lease.Some? ==> w.dispatches[id].lease.Some? && w.dispatches[id].lease.value.worker == d.lease.value.worker
    requires d.status.DispatchLeased? ==> w.dispatches[id].status.DispatchLeased?
    ensures WorkerLimits(v) && |ActiveDispatches(v.dispatches)| <= limit
  {
    forall k | k in v.workers ensures LeasesOf(v.dispatches, k) <= LeasesOf(w.dispatches, k) {
      LeasesChange(w.dispatches, id, d, k);
      SubsetSize(LeasesOf(v.dispatches, k), LeasesOf(w.dispatches, k));
    }
    forall k | k in v.workers ensures |LeasesOf(v.dispatches, k)| <= v.workers[k].maxConcurrency {
      SubsetSize(LeasesOf(v.dispatches, k), LeasesOf(w.dispatches, k));
    }
    ActiveChange(w.dispatches, id, d);
    SubsetSize(ActiveDispatches(v.dispatches), ActiveDispatches(w.dispatches));
  }

  lemma {:induction false} RunKeepsLimits(w: World, v: World, r: RunID, t: RunSnapshot)
    requires RunLimits(w) && r in w.runs && v.runs == w.runs[r := w.runs[r].(s := t)]
    requires Busy(t.tasks) <= Busy(w.runs[r].s.tasks)
    ensures RunLimits(v)
  {
    SubsetSize(Busy(t.tasks), Busy(w.runs[r].s.tasks));
  }

  // ---------- steps ----------

  /** One transaction, or one item of its work list, with what it checked beforehand. */
  datatype DispatchStep =
    | DoCreate(r: RunID, c: Compiled, now: Time)
    | DoRequest(r: RunID, now: Time)
    | DoReturn(id: DispatchID, now: Time)
    | DoPromote(r: RunID, now: Time)
    | DoQueue(r: RunID, id: DispatchID, now: Time)
    | DoClaim(worker: WorkerID, id: DispatchID, token: Token, now: Time, duration: int)
    | DoRenew(worker: WorkerID, id: DispatchID, token: Token, now: Time, duration: int)
    | DoComplete(worker: WorkerID, id: DispatchID, token: Token, result: ExecutionResponse, now: Time)
    | DoExpire(id: DispatchID, now: Time)
    | DoCancel(r: RunID, now: Time)
    | DoRegister(worker: WorkerID, kinds: seq<ExecutorKind>, maxConcurrency: nat, now: Time)
    | DoBeat(worker: WorkerID, now: Time)
    | DoDrain(worker: WorkerID, now: Time)
    | DoOffline(before: Time)

  /** The scan that proposes a run: unfinished, not canceled, with a free slot, below the dispatch limit; the new
      dispatch id is fresh. */
  ghost predicate Schedulable(w: World, r: RunID, id: DispatchID, limit: nat) {
    && r in w.runs && !WorkflowTerminal(w.runs[r].s.row.status) && w.runs[r].s.row.cancelRequestedAt.None?
    && |Busy(w.runs[r].s.tasks)| < w.runs[r].c.definition.concurrency
    && |ActiveDispatches(w.dispatches)| < limit && id != "" && id !in w.dispatches
  }

  /** The scan that proposes a dispatch to an active worker with a free slot. */
  ghost predicate Claimable(w: World, worker: WorkerID, id: DispatchID) {
    && worker in w.workers && w.workers[worker].status.WorkerActive? && worker != ""
    && |LeasesOf(w.dispatches, worker)| < w.workers[worker].maxConcurrency
    && Offered(w, id, w.workers[worker].kinds)
  }

  ghost function Take(w: World, step: DispatchStep, limit: nat): Moved {
    match step
    case DoCreate(r, c, now) => if ValidCompiled(c) then CreateOne(w, r, c, now) else Same
    case DoRequest(r, now) => RequestOne(w, r, now)
    case DoReturn(id, now) => ReturnOrphan(w, id, now)
    case DoPromote(r, now) => if HasDueRetry(w, r, now) then PromoteRetry(w, r, now) else Same
    case DoQueue(r, id, now) => if Schedulable(w, r, id, limit) then QueueNext(w, r, id, now) else Same
    case DoClaim(worker, id, token, now, duration) =>
      if Claimable(w, worker, id) then ClaimOne(w, worker, id, token, now, duration) else Same
    case DoRenew(worker, id, token, now, duration) => RenewOne(w, worker, id, token, now, duration).0
    case DoComplete(worker, id, token, result, now) => CompleteOne(w, worker, id, token, result, now)
    case DoExpire(id, now) => ExpireOne(w, id, now)
    case DoCancel(r, now) => CancelOne(w, r, now)
    case DoRegister(worker, kinds, maxConcurrency, now) => Register(w, worker, kinds, maxConcurrency, now)
    case DoBeat(worker, now) => Beat(w, worker, now)
    case DoDrain(worker, now) => Drained(w, worker, now)
    case DoOffline(before) => Moved(w.(workers := MarkedOffline(w.workers, before)))
  }

  /** Every step keeps the ownership invariant. */
  lemma {:induction false} TakeKeepsWorld(w: World, step: DispatchStep, limit: nat)
    requires WorldInv(w)
    ensures Take(w, step, limit).Moved? ==> WorldInv(Take(w, step, limit).w)
  {
    hide WorldInv, CreateOne, RequestOne, ReturnOrphan, PromoteRetry, QueueNext, ClaimOne, RenewOne, CompleteOne,
      ExpireOne, CancelOne;
    match step
    case DoCreate(r, c, now) => if ValidCompiled(c) { CreateKeepsWorld(w, r, c, now); }
    case DoRequest(r, now) => RequestKeepsWorld(w, r, now);
    case DoReturn(id, now) => ReturnKeepsWorld(w, id, now);
    case DoPromote(r, now) => PromoteKeepsWorld(w, r, now);
    case DoQueue(r, id, now) => if Schedulable(w, r, id, limit) { QueueKeepsWorld(w, r, id, now); }
    case DoClaim(worker, id, token, now, duration) =>
      if Claimable(w, worker, id) { ClaimKeepsWorld(w, worker, id, token, now, duration); }
    case DoRenew(worker, id, token, now, duration) => RenewKeepsWorld(w, worker, id, token, now, duration);
    case DoComplete(worker, id, token, result, now) => CompleteExact(w, worker, id, token, result, now);
    case DoExpire(id, now) => ExpireExact(w, id, now);
    case DoCancel(r, now) => CancelExact(w, r, now);
    case DoRegister(worker, kinds, maxConcurrency, now) =>
      if Register(w, worker, kinds, maxConcurrency, now).Moved? {
        WorkersKeepWorld(w, Register(w, worker, kinds, maxConcurrency, now).w.workers);
      }
    case DoBeat(worker, now) => if Beat(w, worker, now).Moved? { WorkersKeepWorld(w, Beat(w, worker, now).w.workers); }
    case DoDrain(worker, now) => if Drained(w, worker, now).Moved? { WorkersKeepWorld(w, Drained(w, worker, now).w.workers); }
    case DoOffline(before) => WorkersKeepWorld(w, MarkedOffline(w.workers, before));
  }

  // ---------- limits, step by step ----------

  lemma {:induction false} CreateLimits(w: World, r: RunID, c: Compiled, now: Time, limit: nat)
    requires Limits(w, limit) && ValidCompiled(c) && CreateOne(w, r, c, now).Moved?
    ensures Limits(CreateOne(w, r, c, now).w, limit)
  {
    ValidAdjacentHere(c);
    hide ValidCompiled;
    var v := CreateOne(w, r, c, now).w;
    NewIsIdle(r, c, now);
  }

  lemma NewIsIdle(r: RunID, c: Compiled, now: Time)
    requires ValidCompiled(c)
    ensures Busy(NewRunSnapshot(r, c, now).tasks) == {} && c.definition.concurrency > 0
  {
  }

  lemma {:induction false} QueueLimits(w: World, r: RunID, id: DispatchID, now: Time, limit: nat)
    requires WorldInv(w) && Limits(w, limit) && Schedulable(w, r, id, limit) && QueueNext(w, r, id, now).Moved?
    ensures Limits(QueueNext(w, r, id, now).w, limit)
  {
    hide CS.Follows, WorldInv, EntryInv, RunDispatched, QueueTask, Saved, LeasesOf, ActiveDispatches, WorkerLimits,
      Busy, Runnable;
    EntryOf(w, r);
    var e := w.runs[r];
    var i := FirstReady(e.s.tasks, 0);
    QueueEntry(r, e, i, now);
    var t := QueueTask(e.s, i, now).s;
    SavedTasks(e.s, t);
    var v := QueueNext(w, r, id, now).w;
    NewRowLimits(w, v, id, v.dispatches[id]);
    OneMoreBusy(e.s.tasks, v.runs[r].s.tasks, i);
  }

  lemma {:induction false} NewRowLimits(w: World, v: World, id: DispatchID, d: Dispatch)
    requires WorkerLimits(w) && id !in w.dispatches && d.status.DispatchPending? && d.lease.None?
    requires v.dispatches == w.dispatches[id := d] && v.workers == w.workers
    ensures WorkerLimits(v) && |ActiveDispatches(v.dispatches)| <= |ActiveDispatches(w.dispatches)| + 1
  {
    ActiveChange(w.dispatches, id, d);
    assert |ActiveDispatches(w.dispatches) + {id}| <= |ActiveDispatches(w.dispatches)| + 1;
    forall k | k in v.workers ensures LeasesOf(v.dispatches, k) <= LeasesOf(w.dispatches, k)
      && |LeasesOf(v.dispatches, k)| <= |LeasesOf(w.dispatches, k)| {
      LeasesChange(w.dispatches, id, d, k);
      SubsetSize(LeasesOf(v.dispatches, k), LeasesOf(w.dispatches, k));
    }
  }

  lemma {:induction false} OneMoreBusy(before: seq<TaskRun>, after: seq<TaskRun>, i: nat)
    requires i < |before| == |after| && after == before[i := after[i]] && Occupies(after[i].status)
    ensures |Busy(after)| <= |Busy(before)| + 1
    ensures Occupies(before[i].status) ==> Busy(after) == Busy(before)
  {
    assert Busy(after) == Busy(before) + {i};
    assert |Busy(before) + {i}| <= |Busy(before)| + 1;
  }

  lemma {:induction false} ReturnLimits(w: World, id: DispatchID, now: Time, limit: nat)
    requires WorldInv(w) && Limits(w, limit) && ReturnOrphan(w, id, now).Moved?
    ensures Limits(ReturnOrphan(w, id, now).w, limit)
  {
    hide CS.Follows, WorldInv, EntryInv, RunInv, Saved, WorkerLimits, RunLimits, ActiveDispatches, TaskHistory;
    var d := w.dispatches[id];
    DispatchPosition(w, id);
    PresentID(w, id);
    EntryOf(w, d.run);
    var e := w.runs[d.run];
    var i := TaskIndexByKey(e.s.tasks, d.task);
    ReturnEntry(d.run, e, i, now);
    var t := ReturnQueuedTaskToReady(e.s, i, now, "no compatible active Worker").s;
    SavedTasks(e.s, t);
    var v := ReturnOrphan(w, id, now).w;
    RunKeepsLimits(w, v, d.run, Saved(e.s, t));
    RowKeepsLimits(w, v, id, Ended(d, DispatchCanceled, now), limit);
  }

  lemma {:induction false} PromoteLimits(w: World, r: RunID, now: Time, limit: nat)
    requires WorldInv(w) && Limits(w, limit) && PromoteRetry(w, r, now).Moved?
    ensures Limits(PromoteRetry(w, r, now).w, limit)
  {
    hide CS.Follows, WorldInv, EntryInv, MakeRetryReady, Saved, RunLimits, ActiveDispatches;
    EntryOf(w, r);
    var e := w.runs[r];
    var i := FirstDueRetry(e.s.tasks, now, 0);
    PromoteEntry(r, e, i, now);
    var t := MakeRetryReady(e.s, i, e.s.tasks[i].Last().number, now).s;
    SavedTasks(e.s, t);
    RunKeepsLimits(w, PromoteRetry(w, r, now).w, r, Saved(e.s, t));
  }

  lemma {:induction false} ClaimLimits(w: World, worker: WorkerID, id: DispatchID, token: Token, now: Time,
      duration: int, limit: nat)
    requires WorldInv(w) && Limits(w, limit) && Claimable(w, worker, id) && ClaimOne(w, worker, id, token, now, duration).Moved?
    ensures Limits(ClaimOne(w, worker, id, token, now, duration).w, limit)
  {
    hide CS.Follows, WorldInv, EntryInv, RunDispatched, StartQueuedAttempt, Saved, LeasesOf, ActiveDispatches, Granted,
      WorkerLimits, RunLimits, Busy, Runnable;
    var d := w.dispatches[id];
    DispatchPosition(w, id);
    PresentID(w, id);
    EntryOf(w, d.run);
    var e := w.runs[d.run];
    var i := TaskIndexByKey(e.s.tasks, d.task);
    ClaimEntry(d.run, e, i, now, worker, id);
    var t := StartQueuedAttempt(e.s, e.c, i, now, worker, id).s;
    SavedTasks(e.s, t);
    var v := ClaimOne(w, worker, id, token, now, duration).w;
    GrantedTerms(worker, |e.s.tasks[i].attempts| + 1, token, e.c.definition.tasks[i].timeoutMillis, now, duration);
    OneMoreBusy(e.s.tasks, v.runs[d.run].s.tasks, i);
    RunKeepsLimits(w, v, d.run, Saved(e.s, t));
    LeasedRowLimits(w, v, worker, id, v.dispatches[id]);
  }

  lemma {:induction false} LeasedRowLimits(w: World, v: World, worker: WorkerID, id: DispatchID, d: Dispatch)
    requires WorkerLimits(w) && Claimable(w, worker, id) && LeasedBy(d, worker)
    requires v.dispatches == w.dispatches[id := d] && v.workers == w.workers
    ensures WorkerLimits(v) && ActiveDispatches(v.dispatches) == ActiveDispatches(w.dispatches)
  {
    ActiveChange(w.dispatches, id, d);
    ActiveHas(w.dispatches, id);
    forall k | k in v.workers
      ensures |LeasesOf(v.dispatches, k)| <= v.workers[k].maxConcurrency
      ensures k != worker ==> LeasesOf(v.dispatches, k) <= LeasesOf(w.dispatches, k)
    {
      LeasesChange(w.dispatches, id, d, k);
      if k == worker {
        assert |LeasesOf(w.dispatches, k) + {id}| <= |LeasesOf(w.dispatches, k)| + 1;
      } else {
        SubsetSize(LeasesOf(v.dispatches, k), LeasesOf(w.dispatches, k));
      }
    }
  }

  lemma ActiveHas(ds: map<DispatchID, Dispatch>, id: DispatchID)
    requires id in ds && ds[id].Active()
    ensures id in ActiveDispatches(ds)
  {
  }

  lemma {:induction false} RenewLimits(w: World, worker: WorkerID, id: DispatchID, token: Token, now: Time,
      duration: int, limit: nat)
    requires Limits(w, limit) && RenewOne(w, worker, id, token, now, duration).0.Moved?
    ensures Limits(RenewOne(w, worker, id, token, now, duration).0.w, limit)
  {
    hide WorkerLimits, ActiveDispatches;
    RowKeepsLimits(w, RenewOne(w, worker, id, token, now, duration).0.w, id, Renewed(w.dispatches[id], now, duration), limit);
  }

  lemma {:induction false} EndedBusy(s: RunSnapshot, t: RunSnapshot, i: nat)
    requires OthersWaitOrStay(s, t, i) && i < |s.tasks| && !Occupies(t.tasks[i].status)
    ensures Busy(t.tasks) <= Busy(s.tasks)
  {
  }

  lemma {:induction false} CompleteLimits(w: World, worker: WorkerID, id: DispatchID, token: Token,
      result: ExecutionResponse, now: Time, limit: nat)
    requires WorldInv(w) && Limits(w, limit) && CompleteOne(w, worker, id, token, result, now).Moved?
    ensures Limits(CompleteOne(w, worker, id, token, result, now).w, limit)
  {
    hide CS.Follows, WorldInv, EntryInv, ApplyAttemptResult, Saved, WorkerLimits, RunLimits, ActiveDispatches,
      OthersWaitOrStay, OwnsAttempt, Runnable, ActiveAttempt;
    var d := w.dispatches[id];
    LeasedOwns(w, id);
    EntryOf(w, d.run);
    var e := w.runs[d.run];
    var i := TaskIndexByKey(e.s.tasks, d.task);
    CompleteEntry(d.run, e, i, d.lease.value.number, result, now);
    var t := ApplyAttemptResult(e.s, e.c, i, d.lease.value.number, result, now).s;
    SavedTasks(e.s, t);
    EndedBusy(e.s, t, i);
    var v := CompleteOne(w, worker, id, token, result, now).w;
    RunKeepsLimits(w, v, d.run, Saved(e.s, t));
    RowKeepsLimits(w, v, id, Ended(d, DispatchCompleted, now).(result := Some(result)), limit);
  }

  lemma {:induction false} ExpireLimits(w: World, id: DispatchID, now: Time, limit: nat)
    requires WorldInv(w) && Limits(w, limit) && ExpireOne(w, id, now).Moved?
    ensures Limits(ExpireOne(w, id, now).w, limit)
  {
    hide CS.Follows, WorldInv, EntryInv, TimeoutAttempt, InterruptAttempt, Saved, WorkerLimits, RunLimits,
      ActiveDispatches, OthersWaitOrStay, OwnsAttempt, Runnable, ActiveAttempt;
    var d := w.dispatches[id];
    LeasedOwns(w, id);
    EntryOf(w, d.run);
    var e := w.runs[d.run];
    var i := TaskIndexByKey(e.s.tasks, d.task);
    var timeout := d.lease.value.deadline <= now;
    ExpireEntry(d.run, e, i, d.lease.value.number, timeout, now);
    var t := if timeout then TimeoutAttempt(e.s, e.c, i, d.lease.value.number, now).s
             else InterruptAttempt(e.s, e.c, i, d.lease.value.number, now, "Worker lease expired").s;
    SavedTasks(e.s, t);
    EndedBusy(e.s, t, i);
    var v := ExpireOne(w, id, now).w;
    RunKeepsLimits(w, v, d.run, Saved(e.s, t));
    RowKeepsLimits(w, v, id, Ended(d, DispatchExpired, now), limit);
  }

  lemma {:induction false} CancelLimits(w: World, r: RunID, now: Time, limit: nat)
    requires WorldInv(w) && Limits(w, limit) && CancelOne(w, r, now).Moved?
    ensures Limits(CancelOne(w, r, now).w, limit)
  {
    hide CS.Follows, WorldInv, EntryInv, RunDispatched, CancelRun, Saved, Revoked, RunLimits, WorkerLimits,
      ActiveDispatches, Runnable;
    EntryOf(w, r);
    var e := w.runs[r];
    CancelEntry(r, e, now);
    var t := CancelRun(e.s, now).s;
    SavedTasks(e.s, t);
    CanceledIdle(e.s.tasks, t.tasks, now);
    var v := CancelOne(w, r, now).w;
    RunKeepsLimits(w, v, r, Saved(e.s, t));
    RevokedLimits(w, v, r, now);
  }

  lemma CanceledIdle(before: seq<TaskRun>, after: seq<TaskRun>, now: Time)
    requires |after| == |before| && forall j :: 0 <= j < |before| ==> after[j] == CanceledTask(before[j], now)
    ensures Busy(after) <= Busy(before)
  {
  }

  lemma {:induction false} RevokedLimits(w: World, v: World, r: RunID, now: Time)
    requires WorkerLimits(w) && v.dispatches == Revoked(w.dispatches, r, now) && v.workers == w.workers
    ensures WorkerLimits(v) && |ActiveDispatches(v.dispatches)| <= |ActiveDispatches(w.dispatches)|
  {
    hide Revoked;
    RevokedRows(w.dispatches, r, now);
    forall k | k in v.workers ensures LeasesOf(v.dispatches, k) <= LeasesOf(w.dispatches, k)
      && |LeasesOf(v.dispatches, k)| <= |LeasesOf(w.dispatches, k)| {
      SubsetSize(LeasesOf(v.dispatches, k), LeasesOf(w.dispatches, k));
    }
    SubsetSize(ActiveDispatches(v.dispatches), ActiveDispatches(w.dispatches));
  }

  lemma {:induction false} RequestLimits(w: World, r: RunID, now: Time, limit: nat)
    requires Limits(w, limit) && RequestOne(w, r, now).Moved?
    ensures Limits(RequestOne(w, r, now).w, limit)
  {
  }

  lemma {:induction false} WorkerStepLimits(w: World, v: World, limit: nat)
    requires Limits(w, limit) && v == w.(workers := v.workers)
    requires forall k :: k in w.workers ==> k in v.workers
    requires forall k :: k in v.workers ==> WorkerChange(w, v, k)
    ensures Limits(v, limit)
  {
  }

  /** A session is new, or keeps its capacity and is stopped only without leases. */
  ghost predicate WorkerChange(w: World, v: World, k: WorkerID)
    requires k in v.workers
  {
    && (k in w.workers ==> v.workers[k].maxConcurrency == w.workers[k].maxConcurrency)
    && (k !in w.workers ==> LeasesOf(w.dispatches, k) == {})
    && (v.workers[k].status.WorkerStopped? ==> LeasesOf(w.dispatches, k) == {})
  }

  lemma UnknownWorkerHasNoLease(w: World, k: WorkerID)
    requires WorkerLimits(w) && k !in w.workers
    ensures LeasesOf(w.dispatches, k) == {}
  {
  }

  lemma {:induction false} WorkerSteps(w: World, step: DispatchStep, limit: nat)
    requires Limits(w, limit) && (step.DoRegister? || step.DoBeat? || step.DoDrain? || step.DoOffline?)
    ensures Take(w, step, limit).Moved? ==> Limits(Take(w, step, limit).w, limit)
  {
    hide RunLimits, ActiveDispatches;
    var o := Take(w, step, limit);
    if o.Moved? {
      if step.DoRegister? { UnknownWorkerHasNoLease(w, step.worker); }
      WorkerStepLimits(w, o.w, limit);
    }
  }

  /** Every step keeps the three limits. */
  lemma {:induction false} TakeKeepsLimits(w: World, step: DispatchStep, limit: nat)
    requires WorldInv(w) && Limits(w, limit)
    ensures Take(w, step, limit).Moved? ==> Limits(Take(w, step, limit).w, limit)
  {
    hide WorldInv, Limits, CreateOne, RequestOne, ReturnOrphan, PromoteRetry, QueueNext, ClaimOne, RenewOne,
      CompleteOne, ExpireOne, CancelOne;
    if Take(w, step, limit).Moved? {
      match step
      case DoCreate(r, c, now) => CreateLimits(w, r, c, now, limit);
      case DoRequest(r, now) => RequestLimits(w, r, now, limit);
      case DoReturn(id, now) => ReturnLimits(w, id, now, limit);
      case DoPromote(r, now) => PromoteLimits(w, r, now, limit);
      case DoQueue(r, id, now) => QueueLimits(w, r, id, now, limit);
      case DoClaim(worker, id, token, now, duration) => ClaimLimits(w, worker, id, token, now, duration, limit);
      case DoRenew(worker, id, token, now, duration) => RenewLimits(w, worker, id, token, now, duration, limit);
      case DoComplete(worker, id, token, result, now) => CompleteLimits(w, worker, id, token, result, now, limit);
      case DoExpire(id, now) => ExpireLimits(w, id, now, limit);
      case DoCancel(r, now) => CancelLimits(w, r, now, limit);
      case _ => WorkerSteps(w, step, limit);
    }
  }

  // ---------- histories ----------

  const EMPTY := World(map[], map[], map[])

  /** The world after the first `k` steps; refused steps and steps with nothing to do change nothing. */
  ghost function WorldAt(steps: seq<DispatchStep>, k: nat, limit: nat): World
    requires k <= |steps|
  {
    if k == 0 then EMPTY
    else
      var w := WorldAt(steps, k - 1, limit);
      match Take(w, steps[k - 1], limit)
      case Moved(v) => v
      case _ => w
  }

  lemma {:induction false} WorldPrefix(steps: seq<DispatchStep>, more: seq<DispatchStep>, k: nat, limit: nat)
    requires k <= |steps|
    ensures WorldAt(steps + more, k, limit) == WorldAt(steps, k, limit)
  {
    hide Take;
    if k > 0 { WorldPrefix(steps, more, k - 1, limit); }
  }

  /** One more step at the end of a history. */
  lemma {:induction false} WorldNext(steps: seq<DispatchStep>, step: DispatchStep, limit: nat)
    ensures WorldAt(steps + [step], |steps| + 1, limit) ==
      (match Take(WorldAt(steps, |steps|, limit), step, limit) case Moved(v) => v case _ => WorldAt(steps, |steps|, limit))
  {
    hide Take;
    WorldPrefix(steps, [step], |steps|, limit);
  }

  lemma EmptyWorld(limit: nat)
    ensures WorldInv(EMPTY) && Limits(EMPTY, limit)
  {
  }

  /** Ownership, fencing and capacity hold after any interleaving of transactions. */
  lemma {:induction false} EveryHistory(steps: seq<DispatchStep>, k: nat, limit: nat)
    requires k <= |steps|
    ensures WorldInv(WorldAt(steps, k, limit)) && Limits(WorldAt(steps, k, limit), limit)
  {
    hide Take, WorldInv, Limits;
    if k == 0 {
      EmptyWorld(limit);
    } else {
      EveryHistory(steps, k - 1, limit);
      var w := WorldAt(steps, k - 1, limit);
      TakeKeepsWorld(w, steps[k - 1], limit);
      TakeKeepsLimits(w, steps[k - 1], limit);
    }
  }
}
