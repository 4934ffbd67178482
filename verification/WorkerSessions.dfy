/** The life of a worker session in any history: a sweep takes it offline exactly when it has been silent, draining stops
    its claims for good, and nothing brings a session back. */
module WorkerSessions {
  import opened Domain
  import opened Compiler
  import opened Steps
  import opened RunTheorems
  import opened DispatchModel
  import opened DispatchRuns

  predicate Online(worker: Worker) { worker.status.WorkerActive? || worker.status.WorkerDraining? }

  ghost predicate HoldsNothing(w: World, k: WorkerID) {
    forall id :: id in w.dispatches && w.dispatches[id].status.DispatchLeased? && w.dispatches[id].lease.Some? ==>
      w.dispatches[id].lease.value.worker != k
  }

  /** What an accepted step makes of a session. */
  ghost function SessionAfter(w: World, step: DispatchStep, k: WorkerID): Worker
    requires k in w.workers
  {
    var worker := w.workers[k];
    match step
    case DoBeat(id, now) => if id == k then worker.(lastHeartbeatAt := now) else worker
    case DoDrain(id, now) =>
      if id != k then worker
      else if HoldsNothing(w, k) then worker.(status := WorkerStopped, stoppedAt := Some(now))
      else worker.(status := WorkerDraining, stoppedAt := None)
    case DoOffline(before) => IfSilent(worker, before)
    case _ => worker
  }

  /** Heartbeats and drains count only while the session is online, and only an active session claims. */
  ghost predicate SessionAllows(worker: Worker, step: DispatchStep, k: WorkerID) {
    && (step.DoBeat? && step.worker == k ==> Online(worker))
    && (step.DoDrain? && step.worker == k ==> Online(worker))
    && (step.DoClaim? && step.worker == k ==> worker.status.WorkerActive?)
    && (step.DoRegister? ==> step.worker != k)
  }

  lemma {:induction false} SessionStep(w: World, step: DispatchStep, limit: nat, k: WorkerID)
    requires k in w.workers && Take(w, step, limit).Moved?
    ensures k in Take(w, step, limit).w.workers && Take(w, step, limit).w.workers[k] == SessionAfter(w, step, k)
    ensures SessionAllows(w.workers[k], step, k)
  {
    hide PutRun, QueueTask, ReturnQueuedTaskToReady, MakeRetryReady, StartQueuedAttempt, ApplyAttemptResult, TimeoutAttempt,
      InterruptAttempt, CancelRun, NewRunSnapshot, RequestCancelStep, ValidCompiled, Busy, ActiveDispatches, Revoked, Offered,
      Runnable, OwnsAttempt, HasDueRetry;
    if step.DoDrain? && step.worker == k { LeasesEmpty(w, k); }
  }

  lemma LeasesEmpty(w: World, k: WorkerID)
    ensures LeasesOf(w.dispatches, k) == {} <==> HoldsNothing(w, k)
  {
    if LeasesOf(w.dispatches, k) == {} {
      forall id | id in w.dispatches && w.dispatches[id].status.DispatchLeased? && w.dispatches[id].lease.Some?
        ensures w.dispatches[id].lease.value.worker != k
      {
        assert id !in LeasesOf(w.dispatches, k);
      }
    }
  }

  /** At step `m` a sweep found the session online and silent. */
  ghost predicate SweptAt(steps: seq<DispatchStep>, m: nat, limit: nat, k: WorkerID) {
    && m < |steps| && steps[m].DoOffline? && k in WorldAt(steps, m, limit).workers
    && Online(WorldAt(steps, m, limit).workers[k]) && WorldAt(steps, m, limit).workers[k].lastHeartbeatAt < steps[m].before
  }

  /** Over any history a session is offline exactly if a sweep found it silent. */
  lemma {:induction false} OfflineExactly(steps: seq<DispatchStep>, j: nat, n: nat, limit: nat, k: WorkerID)
    requires j <= n <= |steps| && k in WorldAt(steps, j, limit).workers
      && !WorldAt(steps, j, limit).workers[k].status.WorkerOffline?
    ensures k in WorldAt(steps, n, limit).workers
    ensures WorldAt(steps, n, limit).workers[k].status.WorkerOffline?
      <==> exists m: nat :: j <= m < n && SweptAt(steps, m, limit, k)
    decreases n
  {
    hide Take;
    if j < n {
      var p := n - 1;
      OfflineExactly(steps, j, p, limit, k);
      var w := WorldAt(steps, p, limit);
      if Take(w, steps[p], limit).Moved? { SessionStep(w, steps[p], limit, k); }
      SweepMoves(w, steps[p], limit);
      if SweptAt(steps, p, limit, k) { assert j <= p < n; }
    }
  }

  lemma SweepMoves(w: World, step: DispatchStep, limit: nat)
    ensures step.DoOffline? ==> Take(w, step, limit).Moved?
  {
  }

  /** The time of the last sign of life: no step but a heartbeat moves it. */
  lemma {:induction false} LastSign(steps: seq<DispatchStep>, j: nat, n: nat, limit: nat, k: WorkerID)
    requires j <= n <= |steps| && k in WorldAt(steps, j, limit).workers
    ensures k in WorldAt(steps, n, limit).workers
    ensures var t := WorldAt(steps, n, limit).workers[k].lastHeartbeatAt;
      || t == WorldAt(steps, j, limit).workers[k].lastHeartbeatAt
      || exists m: nat :: j <= m < n && BeatAt(steps, m, limit, k) && steps[m].now == t
    decreases n
  {
    hide Take;
    if j < n {
      var p := n - 1;
      LastSign(steps, j, p, limit, k);
      var w := WorldAt(steps, p, limit);
      if Take(w, steps[p], limit).Moved? {
        SessionStep(w, steps[p], limit, k);
        if steps[p].DoBeat? && steps[p].worker == k { assert BeatAt(steps, p, limit, k); }
      }
    }
  }

  ghost predicate BeatAt(steps: seq<DispatchStep>, m: nat, limit: nat, k: WorkerID) {
    m < |steps| && steps[m].DoBeat? && steps[m].worker == k && Take(WorldAt(steps, m, limit), steps[m], limit).Moved?
  }

  /** A heartbeat keeps a session online as long as no sweep looks for signs after it. */
  lemma {:induction false} HeartbeatKeepsOnline(steps: seq<DispatchStep>, j: nat, n: nat, limit: nat, k: WorkerID)
    requires BeatAt(steps, j, limit, k) && j < n <= |steps| && k in WorldAt(steps, j, limit).workers
    requires forall m :: j < m < n && steps[m].DoOffline? ==> steps[m].before <= steps[j].now
    requires forall m :: j < m < n && steps[m].DoBeat? && steps[m].worker == k ==> steps[j].now <= steps[m].now
    ensures k in WorldAt(steps, n, limit).workers && !WorldAt(steps, n, limit).workers[k].status.WorkerOffline?
  {
    hide Take;
    SessionStep(WorldAt(steps, j, limit), steps[j], limit, k);
    OfflineExactly(steps, j + 1, n, limit, k);
    forall m: nat | j + 1 <= m < n ensures !SweptAt(steps, m, limit, k) {
      LastSign(steps, j + 1, m, limit, k);
    }
  }

  /** A session that is not active never is again, and claims nothing any more. */
  lemma {:induction false} DrainedStays(steps: seq<DispatchStep>, j: nat, n: nat, limit: nat, k: WorkerID)
    requires j <= n <= |steps| && k in WorldAt(steps, j, limit).workers
      && !WorldAt(steps, j, limit).workers[k].status.WorkerActive?
    ensures k in WorldAt(steps, n, limit).workers && !WorldAt(steps, n, limit).workers[k].status.WorkerActive?
    ensures forall m: nat :: j <= m < n && steps[m].DoClaim? && steps[m].worker == k ==>
      !Take(WorldAt(steps, m, limit), steps[m], limit).Moved?
    decreases n
  {
    hide Take;
    if j < n {
      DrainedStays(steps, j, n - 1, limit, k);
      var w := WorldAt(steps, n - 1, limit);
      if Take(w, steps[n - 1], limit).Moved? { SessionStep(w, steps[n - 1], limit, k); }
    }
  }
}
