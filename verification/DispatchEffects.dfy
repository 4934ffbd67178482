/** The dispatch protocol as a table: when each step takes effect, and what it then makes of runs, dispatches and workers. */
module DispatchEffects {
  import opened Domain
  import opened Compiler
  import opened Steps
  import opened RunSteps
  import opened RunTheorems
  import opened DispatchModel
  import opened DispatchInvariant
  import opened DispatchSteps
  import opened DispatchRuns
  import opened WorkerSessions

  /** Fewer tasks of the run are queued or running than it may have at once. */
  ghost predicate HasSlot(w: World, r: RunID)
    requires r in w.runs
  {
    var tasks := w.runs[r].s.tasks;
    var busy := set i: nat | i < |tasks| && (tasks[i].status.TaskQueued? || tasks[i].status.TaskRunning?);
    |busy| < w.runs[r].c.definition.concurrency
  }

  /** When a step takes effect. */
  ghost predicate Enabled(w: World, step: DispatchStep, limit: nat) {
    match step
    case DoCreate(r, c, _) => ValidCompiled(c) && r != "" && r !in w.runs
    case DoRequest(r, _) => r in w.runs && Uncanceled(w.runs[r].s)
    case DoReturn(id, _) => id in w.dispatches && w.dispatches[id].status.DispatchPending?
    case DoPromote(r, now) => RetryCanGo(w, r, now)
    case DoQueue(r, id, _) =>
      TaskCanGo(w, r) && HasSlot(w, r) && |ActiveDispatches(w.dispatches)| < limit && id != "" && id !in w.dispatches
    case DoClaim(worker, id, _, _, _) =>
      && worker in w.workers && w.workers[worker].status.WorkerActive? && worker != ""
      && |LeasesOf(w.dispatches, worker)| < w.workers[worker].maxConcurrency && CanBeLeased(w, id, w.workers[worker].kinds)
    case DoRenew(worker, id, token, now, _) => HeldBy(w, id, worker, token) && StillLeased(w.dispatches[id], now)
    case DoComplete(worker, id, token, result, now) => Presented(w, worker, id, token, result) && StillCurrent(w, id, now)
    case DoExpire(id, now) => RanOut(w, id, now)
    case DoCancel(r, _) => CancelWaits(w, r)
    case DoRegister(worker, _, _, _) => worker != "" && worker !in w.workers
    case DoBeat(worker, _) => worker in w.workers && Online(w.workers[worker])
    case DoDrain(worker, _) => worker in w.workers && Online(w.workers[worker])
    case DoOffline(_) => true
  }

  ghost predicate HeldBy(w: World, id: DispatchID, worker: WorkerID, token: Token) {
    && id in w.dispatches && w.dispatches[id].lease.Some?
    && w.dispatches[id].lease.value.worker == worker && w.dispatches[id].lease.value.token == token
  }

  /** What it does. */
  ghost predicate Effect(w: World, v: World, step: DispatchStep) {
    match step
    case DoCreate(r, c, now) =>
      && ValidCompiled(c) && |c.dependencies| == c.Size()
      && v == World(w.runs[r := Entry(c, NewRunSnapshot(r, c, now))], w.dispatches, w.workers)
    case DoRequest(r, now) => RecordsRequest(w, v, r, now)
    case DoReturn(id, now) => ReturnsTask(w, v, id, now)
    case DoPromote(r, now) => PromotesFirst(w, v, r, now)
    case DoQueue(r, id, now) => QueuesFirst(w, v, r, id, now)
    case DoClaim(worker, id, token, now, duration) => ClaimsTask(w, v, worker, id, token, now, duration)
    case DoRenew(_, id, _, now, duration) => RenewsLease(w, v, id, now, duration)
    case DoComplete(_, id, _, result, now) => CompletionSettles(w, v, id, result, now)
    case DoExpire(id, now) => ExpirySettles(w, v, id, now)
    case DoCancel(r, now) => RunRevoked(w, v, r, now)
    case DoRegister(worker, kinds, maxConcurrency, now) =>
      v == World(w.runs, w.dispatches, w.workers[worker := Worker(kinds, maxConcurrency, WorkerActive, now, now, None)])
    case _ => SessionsChange(w, v, step)
  }

  /** Heartbeats, drains and sweeps touch sessions only. */
  ghost predicate SessionsChange(w: World, v: World, step: DispatchStep) {
    && v.runs == w.runs && v.dispatches == w.dispatches && v.workers.Keys == w.workers.Keys
    && forall k :: k in w.workers ==> v.workers[k] == SessionAfter(w, step, k)
  }

  // ---------- the guards of the scans ----------

  /** A pending dispatch belongs to a queued task of a running run. */
  lemma {:induction false} PendingWaits(w: World, id: DispatchID)
    requires WorldInv(w) && id in w.dispatches && w.dispatches[id].status.DispatchPending? && w.dispatches[id].run in w.runs
    ensures var s := w.runs[w.dispatches[id].run].s;
      && s.row.status.WorkflowRunning?
      && exists i :: 0 <= i < |s.tasks| && s.tasks[i].key == w.dispatches[id].task && s.tasks[i].status.TaskQueued?
  {
    hide WorldInv, EntryInv;
    DispatchPosition(w, id);
    var r := w.dispatches[id].run;
    EntryOf(w, r);
    EntryRunnable(r, w.runs[r]);
    LiveTaskMeansRunning(w.runs[r].c, w.runs[r].s, TaskIndexByKey(w.runs[r].s.tasks, w.dispatches[id].task));
  }

  lemma {:induction false} OfferedExactly(w: World, id: DispatchID, kinds: seq<ExecutorKind>)
    requires WorldInv(w)
    ensures Offered(w, id, kinds) <==> CanBeLeased(w, id, kinds)
  {
    hide WorldInv;
    if CanBeLeased(w, id, kinds) { PendingWaits(w, id); }
  }

  lemma DueExactly(w: World, r: RunID, now: Time)
    ensures HasDueRetry(w, r, now) <==> RetryCanGo(w, r, now)
  {
    if r in w.runs {
      forall i | 0 <= i < |w.runs[r].s.tasks|
        ensures DueRetry(w.runs[r].s.tasks[i], now) <==> RetryIsDue(w.runs[r].s.tasks[i], now) {}
    }
  }

  lemma SlotExactly(w: World, r: RunID)
    requires r in w.runs
    ensures HasSlot(w, r) <==> |Busy(w.runs[r].s.tasks)| < w.runs[r].c.definition.concurrency
  {
    var tasks := w.runs[r].s.tasks;
    assert Busy(tasks) == set i: nat | i < |tasks| && (tasks[i].status.TaskQueued? || tasks[i].status.TaskRunning?);
  }

  // ---------- the table ----------

  lemma {:induction false} SessionsExactly(w: World, step: DispatchStep, limit: nat)
    requires step.DoBeat? || step.DoDrain? || step.DoOffline?
    ensures Take(w, step, limit).Moved? <==> Enabled(w, step, limit)
    ensures Take(w, step, limit).Moved? ==> SessionsChange(w, Take(w, step, limit).w, step)
  {
    if Take(w, step, limit).Moved? {
      forall k | k in w.workers ensures Take(w, step, limit).w.workers[k] == SessionAfter(w, step, k) {
        SessionStep(w, step, limit, k);
      }
    }
  }

  /** Every step of the protocol takes effect exactly when the table says, and does exactly what it says. */
  lemma {:induction false} TakeExactly(w: World, step: DispatchStep, limit: nat)
    requires WorldInv(w)
    ensures Take(w, step, limit).Moved? <==> Enabled(w, step, limit)
    ensures Take(w, step, limit).Moved? ==> Effect(w, Take(w, step, limit).w, step)
  {
    hide WorldInv, RequestOne, ReturnOrphan, PromoteRetry, QueueNext, ClaimOne, RenewOne, CompleteOne, ExpireOne, CancelOne,
      SessionsChange, CompletionSettles, ExpirySettles, RunRevoked, ClaimsTask, QueuesFirst, PromotesFirst, ReturnsTask, Offered,
      HasDueRetry, HasSlot, Busy, ActiveDispatches, LeasesOf, NewRunSnapshot, Presented, Drained, Beat, MarkedOffline;
    match step
    case DoCreate(r, c, now) => if ValidCompiled(c) { CreateKeepsWorld(w, r, c, now); ValidAdjacentHere(c); }
    case DoRequest(r, now) => RequestKeepsWorld(w, r, now);
    case DoReturn(id, now) => ReturnKeepsWorld(w, id, now);
    case DoPromote(r, now) => DueExactly(w, r, now); PromoteKeepsWorld(w, r, now);
    case DoQueue(r, id, now) =>
      if r in w.runs { SlotExactly(w, r); }
      if id != "" && id !in w.dispatches { QueueKeepsWorld(w, r, id, now); }
    case DoClaim(worker, id, token, now, duration) =>
      if worker in w.workers { OfferedExactly(w, id, w.workers[worker].kinds); }
      if worker != "" && id in w.dispatches && w.dispatches[id].status.DispatchPending? {
        ClaimKeepsWorld(w, worker, id, token, now, duration);
      }
    case DoRenew(worker, id, token, now, duration) => RenewKeepsWorld(w, worker, id, token, now, duration);
    case DoComplete(worker, id, token, result, now) => CompleteExact(w, worker, id, token, result, now);
    case DoExpire(id, now) =>
      ExpireExact(w, id, now);
      if id in w.dispatches { PresentID(w, id); }
    case DoCancel(r, now) => CancelExact(w, r, now);
    case DoRegister(_, _, _, _) =>
    case _ => SessionsExactly(w, step, limit);
  }
}
