/** What becomes of a distributed run once its cancellation was requested: it makes no progress any more, and ends canceled,
    unless an expired lease used up the last attempt of its last open task first. */
module RequestedRuns {
  import opened Domain
  import opened Compiler
  import opened Steps
  import opened Propagation
  import opened RunInvariant
  import opened RunResults
  import opened RunTheorems
  import opened History
  import opened DispatchModel
  import opened DispatchInvariant
  import opened DispatchSteps
  import opened DispatchRuns

  ghost predicate Requested(w: World, r: RunID) {
    r in w.runs && w.runs[r].s.row.cancelRequestedAt.Some?
  }

  ghost predicate Unfinished(w: World, r: RunID) {
    r in w.runs && !WorkflowTerminal(w.runs[r].s.row.status)
  }

  // ---------- no progress ----------

  /** The attempt is as it was, or it was running and has been cut off without a result. */
  predicate CutOff(a: Attempt, b: Attempt) {
    b == a || (a.status.AttemptRunning? && (b.status.AttemptTimedOut? || b.status.AttemptInterrupted?
      || b.status.AttemptCanceled?))
  }

  /** No attempt was added and no result taken. */
  ghost predicate NoProgressOf(a: TaskRun, b: TaskRun) {
    && b.key == a.key && |b.attempts| == |a.attempts| && (b.status.TaskSucceeded? <==> a.status.TaskSucceeded?)
    && forall n :: 0 <= n < |a.attempts| ==> CutOff(a.attempts[n], b.attempts[n])
  }

  ghost predicate NoProgress(a: RunSnapshot, b: RunSnapshot) {
    && |b.tasks| == |a.tasks| && b.row.cancelRequestedAt == a.row.cancelRequestedAt
    && forall i :: 0 <= i < |a.tasks| ==> NoProgressOf(a.tasks[i], b.tasks[i])
  }

  lemma {:induction false} NoProgressTransitive(a: RunSnapshot, b: RunSnapshot, d: RunSnapshot)
    requires NoProgress(a, b) && NoProgress(b, d)
    ensures NoProgress(a, d)
  {
    forall i | 0 <= i < |a.tasks| ensures NoProgressOf(a.tasks[i], d.tasks[i]) {
      assert NoProgressOf(a.tasks[i], b.tasks[i]) && NoProgressOf(b.tasks[i], d.tasks[i]);
      forall n | 0 <= n < |a.tasks[i].attempts| ensures CutOff(a.tasks[i].attempts[n], d.tasks[i].attempts[n]) {
        assert CutOff(a.tasks[i].attempts[n], b.tasks[i].attempts[n]) && CutOff(b.tasks[i].attempts[n], d.tasks[i].attempts[n]);
      }
    }
  }

  lemma NoProgressSelf(a: RunSnapshot)
    ensures NoProgress(a, a)
  {
  }

  // ---------- which steps touch a run ----------

  predicate Touches(w: World, step: DispatchStep, r: RunID) {
    match step
    case DoRequest(q, _) => q == r
    case DoReturn(id, _) => id in w.dispatches && w.dispatches[id].run == r
    case DoPromote(q, _) => q == r
    case DoQueue(q, _, _) => q == r
    case DoClaim(_, id, _, _, _) => id in w.dispatches && w.dispatches[id].run == r
    case DoComplete(_, id, _, _, _) => id in w.dispatches && w.dispatches[id].run == r
    case DoExpire(id, _) => id in w.dispatches && w.dispatches[id].run == r
    case DoCancel(q, _) => q == r
    case _ => false
  }

  lemma {:induction false} UntouchedStays(w: World, step: DispatchStep, limit: nat, r: RunID)
    requires r in w.runs && Take(w, step, limit).Moved? && !Touches(w, step, r)
    ensures r in Take(w, step, limit).w.runs && Take(w, step, limit).w.runs[r] == w.runs[r]
  {
    hide QueueTask, ReturnQueuedTaskToReady, MakeRetryReady, StartQueuedAttempt, ApplyAttemptResult, TimeoutAttempt,
      InterruptAttempt, CancelRun, NewRunSnapshot, RequestCancelStep, ValidCompiled, Busy, ActiveDispatches, LeasesOf,
      Revoked, MarkedOffline, Runnable, OwnsAttempt;
  }

  // ---------- a finished run ----------

  lemma {:induction false} FinishedTasks(w: World, r: RunID)
    requires WorldInv(w) && r in w.runs && !Unfinished(w, r)
    ensures AllTerminal(w.runs[r].s.tasks)
  {
    hide WorldInv, EntryInv;
    EntryOf(w, r);
    EntryRunnable(r, w.runs[r]);
    assert StatusAgrees(w.runs[r].s);
  }

  lemma {:induction false} FinishedHasNoDispatch(w: World, r: RunID, id: DispatchID)
    requires WorldInv(w) && r in w.runs && !Unfinished(w, r) && id in w.dispatches && w.dispatches[id].run == r
    ensures !w.dispatches[id].Active()
  {
    hide WorldInv, Unfinished;
    FinishedTasks(w, r);
    DispatchPosition(w, id);
  }

  /** A finished run never changes again. */
  lemma {:induction false} FinishedStays(w: World, step: DispatchStep, limit: nat, r: RunID)
    requires WorldInv(w) && r in w.runs && !Unfinished(w, r) && Take(w, step, limit).Moved?
    ensures r in Take(w, step, limit).w.runs && Take(w, step, limit).w.runs[r] == w.runs[r]
  {
    hide WorldInv, Take, AllTerminal;
    if !Touches(w, step, r) {
      UntouchedStays(w, step, limit, r);
    } else {
      FinishedTasks(w, r);
      if step.DoReturn? || step.DoClaim? || step.DoComplete? || step.DoExpire? { FinishedHasNoDispatch(w, r, step.id); }
      FinishedRefuses(w, step, limit, r);
      assert false;
    }
  }

  predicate NotActive(w: World, id: DispatchID) { id in w.dispatches ==> !w.dispatches[id].Active() }

  lemma {:induction false} FinishedRefuses(w: World, step: DispatchStep, limit: nat, r: RunID)
    requires WorldInv(w) && r in w.runs && !Unfinished(w, r) && Touches(w, step, r)
    requires step.DoReturn? || step.DoClaim? || step.DoComplete? || step.DoExpire? ==> NotActive(w, step.id)
    ensures !Take(w, step, limit).Moved?
  {
    hide WorldInv, QueueTask, MakeRetryReady, StartQueuedAttempt, ApplyAttemptResult, TimeoutAttempt, InterruptAttempt,
      CancelRun, Busy, ActiveDispatches, LeasesOf, Revoked, Runnable;
  }

  // ---------- a requested run ----------

  /** Only returning, expiring and canceling can still happen to it. */
  lemma {:induction false} RequestedRefuses(w: World, step: DispatchStep, limit: nat, r: RunID)
    requires Requested(w, r) && Touches(w, step, r) && Take(w, step, limit).Moved?
    ensures step.DoReturn? || step.DoExpire? || step.DoCancel?
  {
    hide QueueTask, MakeRetryReady, StartQueuedAttempt, ApplyAttemptResult, TimeoutAttempt, InterruptAttempt, CancelRun,
      Busy, ActiveDispatches, LeasesOf, Revoked, Runnable, ReturnQueuedTaskToReady, OwnsAttempt;
  }

  /** The attempt of task `i` was its last one, and every other task has ended or comes after it. */
  ghost predicate LastChance(e: Entry, i: nat)
    requires i < e.c.Size() && Fits(e.s, e.c)
  {
    && |e.s.tasks[i].attempts| >= e.c.MaxAttempts(i)
    && forall j :: 0 <= j < |e.s.tasks| && j != i ==> Terminal(e.s.tasks[j].status) || j in Descendants(e.c.successors, [i])
  }

  /** Settling dispatch `id` of run `r` uses up the last chance of the run. */
  ghost predicate ExpiryFails(w: World, id: DispatchID, r: RunID) {
    && id in w.dispatches && w.dispatches[id].run == r && r in w.runs
    && var e := w.runs[r];
       var i := TaskIndexByKey(e.s.tasks, w.dispatches[id].task);
       0 <= i < e.c.Size() && Fits(e.s, e.c) && LastChance(e, i)
  }

  lemma {:induction false} ExpiryTasks(e: Entry, t: RunSnapshot, i: nat, to: AttemptStatus, result: ExecutionResult, now: Time)
    requires i < e.c.Size() && Fits(e.s, e.c) && Fits(t, e.c) && |e.s.tasks[i].attempts| > 0
    requires RetriedOrFailed(e.c, e.s, t, i, to, result, now) && (to.AttemptTimedOut? || to.AttemptInterrupted?)
    requires e.s.tasks[i].status.TaskRunning? && e.s.tasks[i].Last().status.AttemptRunning?
    ensures forall j :: 0 <= j < |e.s.tasks| ==> NoProgressOf(e.s.tasks[j], t.tasks[j])
    ensures AllTerminal(t.tasks) <==> LastChance(e, i)
    ensures AllTerminal(t.tasks) ==> HasFailed(t.tasks)
    ensures NoneCanceled(e.s.tasks) ==> NoneCanceled(t.tasks)
  {
    hide Descendants;
    if |e.s.tasks[i].attempts| < e.c.MaxAttempts(i) {
      assert t.tasks[i].status.TaskWaitingRetry?;
    } else {
      assert t.tasks[i].status.TaskFailed?;
      forall j | 0 <= j < |e.s.tasks| && j != i
        ensures Terminal(t.tasks[j].status) <==> Terminal(e.s.tasks[j].status) || j in Descendants(e.c.successors, [i])
      {
      }
    }
  }

  lemma {:induction false} FreshEntry(w: World, r: RunID)
    requires WorldInv(w) && r in w.runs
    ensures FreshInv(w.runs[r].c, w.runs[r].s) && RunInv(w.runs[r].c, w.runs[r].s)
    ensures w.runs[r].s.row.status.WorkflowRunning? ==> NoneCanceled(w.runs[r].s.tasks)
  {
    hide WorldInv, AllCounters, GraphAgrees, LiveCounters, Histories;
    EntryOf(w, r);
  }

  /** What an expiry does to a run whose cancellation was requested. */
  lemma {:induction false} RequestedExpiry(w: World, id: DispatchID, now: Time, r: RunID)
    requires WorldInv(w) && Requested(w, r) && Unfinished(w, r) && id in w.dispatches && w.dispatches[id].run == r
      && ExpireOne(w, id, now).Moved?
    ensures var v := ExpireOne(w, id, now).w;
      && r in v.runs && NoProgress(w.runs[r].s, v.runs[r].s)
      && (if ExpiryFails(w, id, r) then v.runs[r].s.row.status.WorkflowFailed? else Unfinished(v, r))
  {
    hide WorldInv, ExpireOne, RetriedOrFailed, EntryInv, RunInv, FreshInv, AllTerminal, LastChance, NoneCanceled;
    ExpireExact(w, id, now);
    LeasedOwns(w, id);
    var v := ExpireOne(w, id, now).w;
    var e, t := w.runs[r], v.runs[r].s;
    var i := TaskIndexByKey(e.s.tasks, w.dispatches[id].task);
    var timeout := w.dispatches[id].lease.value.deadline <= now;
    ExpiryTasks(e, t, i, ExpiryStatus(timeout), ExpiryResult(timeout), now);
    FreshEntry(w, r);
    FreshEntry(v, r);
    OutcomeMeaning(e.c, t);
    FailedOrOpen(e.c, t);
  }

  lemma FailedOrOpen(c: Compiled, t: RunSnapshot)
    requires FreshInv(c, t) && NoneCanceled(t.tasks) && (AllTerminal(t.tasks) ==> HasFailed(t.tasks))
    ensures if AllTerminal(t.tasks) then t.row.status.WorkflowFailed? else !WorkflowTerminal(t.row.status)
  {
    hide RunInv;
    OutcomeMeaning(c, t);
  }

  lemma {:induction false} RequestedReturn(w: World, id: DispatchID, now: Time, r: RunID)
    requires WorldInv(w) && Requested(w, r) && Unfinished(w, r) && id in w.dispatches && w.dispatches[id].run == r
      && ReturnOrphan(w, id, now).Moved?
    ensures var v := ReturnOrphan(w, id, now).w; r in v.runs && NoProgress(w.runs[r].s, v.runs[r].s) && Unfinished(v, r)
  {
    hide WorldInv, EntryInv, ReturnQueuedTaskToReady, Extends;
    EntryOf(w, r);
    var e := w.runs[r];
    var i := TaskIndexByKey(e.s.tasks, w.dispatches[id].task);
    ReturnEntry(r, e, i, now);
    RequestStands(e.s, ReturnQueuedTaskToReady(e.s, i, now, "no compatible active Worker").s);
  }

  lemma {:induction false} CanceledNoProgress(a: TaskRun, now: Time)
    ensures NoProgressOf(a, CanceledTask(a, now))
  {
  }

  lemma {:induction false} RequestedCancel(w: World, now: Time, r: RunID)
    requires WorldInv(w) && Requested(w, r) && Unfinished(w, r) && CancelOne(w, r, now).Moved?
    ensures var v := CancelOne(w, r, now).w;
      r in v.runs && NoProgress(w.runs[r].s, v.runs[r].s) && v.runs[r].s.row.status.WorkflowCanceled?
  {
    hide WorldInv, EntryInv, CancelRun, Extends, Revoked, CanceledTask, NoProgressOf;
    EntryOf(w, r);
    CancelExact(w, r, now);
    var e := w.runs[r];
    CancelEntry(r, e, now);
    RequestStands(e.s, CancelRun(e.s, now).s);
    forall j | 0 <= j < |e.s.tasks| ensures NoProgressOf(e.s.tasks[j], CanceledTask(e.s.tasks[j], now)) {
      CanceledNoProgress(e.s.tasks[j], now);
    }
  }

  /** One step of any history: a requested run makes no progress, is canceled exactly by its cancellation, and fails exactly
      by an expiry that uses up its last chance. */
  lemma {:induction false} RequestedStep(w: World, step: DispatchStep, limit: nat, r: RunID)
    requires WorldInv(w) && Requested(w, r) && Unfinished(w, r) && Take(w, step, limit).Moved?
    ensures var v := Take(w, step, limit).w;
      && r in v.runs && NoProgress(w.runs[r].s, v.runs[r].s) && !v.runs[r].s.row.status.WorkflowSucceeded?
      && (v.runs[r].s.row.status.WorkflowCanceled? <==> step.DoCancel? && step.r == r)
      && (v.runs[r].s.row.status.WorkflowFailed? <==> step.DoExpire? && ExpiryFails(w, step.id, r))
  {
    hide WorldInv, Take, NoProgress, ExpiryFails;
    if !Touches(w, step, r) {
      UntouchedStays(w, step, limit, r);
      NoProgressSelf(w.runs[r].s);
      NoFailureElsewhere(w, step, r);
    } else {
      RequestedRefuses(w, step, limit, r);
      TakeOf(w, step, limit);
      match step
      case DoReturn(id, now) => RequestedReturn(w, id, now, r);
      case DoExpire(id, now) => RequestedExpiry(w, id, now, r);
      case DoCancel(_, now) => RequestedCancel(w, now, r);
    }
  }

  lemma NoFailureElsewhere(w: World, step: DispatchStep, r: RunID)
    requires !Touches(w, step, r)
    ensures step.DoExpire? ==> !ExpiryFails(w, step.id, r)
  {
  }

  lemma TakeOf(w: World, step: DispatchStep, limit: nat)
    ensures step.DoReturn? ==> Take(w, step, limit) == ReturnOrphan(w, step.id, step.now)
    ensures step.DoExpire? ==> Take(w, step, limit) == ExpireOne(w, step.id, step.now)
    ensures step.DoCancel? ==> Take(w, step, limit) == CancelOne(w, step.r, step.now)
  {
  }

  /** Step `m` ended run `r`: its cancellation, or an expiry that used up its last chance. */
  ghost predicate EndedBy(steps: seq<DispatchStep>, m: nat, limit: nat, r: RunID, canceled: bool)
    requires m < |steps|
  {
    && Unfinished(WorldAt(steps, m, limit), r)
    && if canceled then steps[m].DoCancel? && steps[m].r == r
       else steps[m].DoExpire? && ExpiryFails(WorldAt(steps, m, limit), steps[m].id, r)
  }

  /** Over any history: once its cancellation was requested, an unfinished run starts no attempt, takes no result and never
      succeeds. It ends canceled, or failed exactly if an expiry used up its last chance before the cancellation came, and
      then never changes again. */
  lemma {:induction false} RequestedRunEnds(steps: seq<DispatchStep>, j: nat, k: nat, limit: nat, r: RunID)
    requires j <= k <= |steps| && Requested(WorldAt(steps, j, limit), r) && Unfinished(WorldAt(steps, j, limit), r)
    ensures r in WorldAt(steps, k, limit).runs
      && NoProgress(WorldAt(steps, j, limit).runs[r].s, WorldAt(steps, k, limit).runs[r].s)
    ensures !WorldAt(steps, k, limit).runs[r].s.row.status.WorkflowSucceeded?
    ensures !Unfinished(WorldAt(steps, k, limit), r) ==>
      exists m: nat :: j <= m < k && EndedBy(steps, m, limit, r, WorldAt(steps, k, limit).runs[r].s.row.status.WorkflowCanceled?)
    decreases k
  {
    hide WorldInv, Limits, Take, NoProgress, ExpiryFails;
    if j == k {
      NoProgressSelf(WorldAt(steps, j, limit).runs[r].s);
    } else {
      RequestedRunEnds(steps, j, k - 1, limit, r);
      EveryHistory(steps, k - 1, limit);
      var w, v := WorldAt(steps, k - 1, limit), WorldAt(steps, k, limit);
      StillRequested(WorldAt(steps, j, limit), w, r);
      if Take(w, steps[k - 1], limit).Moved? {
        if Unfinished(w, r) {
          RequestedStep(w, steps[k - 1], limit, r);
          NoProgressTransitive(WorldAt(steps, j, limit).runs[r].s, w.runs[r].s, v.runs[r].s);
          if !Unfinished(v, r) { assert EndedBy(steps, k - 1, limit, r, v.runs[r].s.row.status.WorkflowCanceled?); }
        } else {
          FinishedStays(w, steps[k - 1], limit, r);
        }
      }
    }
  }

  lemma StillRequested(w: World, v: World, r: RunID)
    requires Requested(w, r) && r in v.runs && NoProgress(w.runs[r].s, v.runs[r].s)
    ensures Requested(v, r)
  {
  }

  // ---------- the failure happens ----------

  /** Dispatch `id` holds the last chance of an unfinished run without a request, and at `now` its lease is over. */
  ghost predicate LastLeaseOver(w: World, id: DispatchID, r: RunID, now: Time) {
    && ExpiryFails(w, id, r) && Unfinished(w, r) && !Requested(w, r)
    && w.dispatches[id].status.DispatchLeased? && !Unexpired(w.dispatches[id], now)
  }

  lemma {:induction false} RequestKeepsChance(w: World, id: DispatchID, r: RunID, asked: Time, now: Time)
    requires LastLeaseOver(w, id, r, now)
    ensures var o := RequestOne(w, r, asked);
      && o.Moved? && o.w.dispatches == w.dispatches && Requested(o.w, r) && Unfinished(o.w, r) && ExpiryFails(o.w, id, r)
  {
    hide Descendants;
  }

  /** The request comes too late for such a run: recorded first, it does not keep the expiry from ending the run as
      failed, and then nothing is left to cancel. */
  lemma {:induction false} RequestedRunCanFail(steps: seq<DispatchStep>, limit: nat, r: RunID, id: DispatchID,
      asked: Time, now: Time)
    requires LastLeaseOver(WorldAt(steps, |steps|, limit), id, r, now)
    ensures var one := steps + [DoRequest(r, asked)]; var two := one + [DoExpire(id, now)];
      && Requested(WorldAt(one, |one|, limit), r) && Unfinished(WorldAt(one, |one|, limit), r)
      && Requested(WorldAt(two, |two|, limit), r) && WorldAt(two, |two|, limit).runs[r].s.row.status.WorkflowFailed?
      && forall later :: !CancelOne(WorldAt(two, |two|, limit), r, later).Moved?
  {
    hide WorldAt, WorldInv, Limits, ExpiryFails, NoProgress, RecordsRequest, Take, RequestOne;
    var w := WorldAt(steps, |steps|, limit);
    RequestTake(w, r, asked, limit);
    EveryHistory(steps, |steps|, limit);
    RequestKeepsWorld(w, r, asked);
    RequestKeepsChance(w, id, r, asked, now);
    WorldNext(steps, DoRequest(r, asked), limit);
    var one := steps + [DoRequest(r, asked)];
    var v := WorldAt(one, |one|, limit);
    SettlesRequested(v, id, r, now, limit);
    WorldNext(one, DoExpire(id, now), limit);
  }

  lemma RequestTake(w: World, r: RunID, asked: Time, limit: nat)
    ensures Take(w, DoRequest(r, asked), limit) == RequestOne(w, r, asked)
  {
  }

  lemma {:induction false} SettlesRequested(v: World, id: DispatchID, r: RunID, now: Time, limit: nat)
    requires WorldInv(v) && Requested(v, r) && Unfinished(v, r) && ExpiryFails(v, id, r)
    requires v.dispatches[id].status.DispatchLeased? && !Unexpired(v.dispatches[id], now)
    ensures var o := Take(v, DoExpire(id, now), limit);
      && o.Moved? && Requested(o.w, r) && o.w.runs[r].s.row.status.WorkflowFailed?
  {
    hide WorldInv, Limits, ExpireOne, NoProgress;
    ExpireExact(v, id, now);
    RequestedStep(v, DoExpire(id, now), limit, r);
    StillRequested(v, ExpireOne(v, id, now).w, r);
  }
}
