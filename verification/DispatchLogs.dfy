/** The audit logs of distributed runs: at every moment of every history the log of each run tells all of it, and every event
    carries the time that its transaction read. */
module DispatchLogs {
  import opened Domain
  import opened Compiler
  import opened Steps
  import opened AuditLog
  import opened RunInvariant
  import opened RunTheorems
  import opened SavedRuns
  import opened RunLogs
  import opened DispatchModel
  import opened DispatchInvariant
  import opened DispatchSteps
  import opened DispatchRuns
  import opened DispatchHistory
  import CS = ChangeSets

  /** After any interleaving of transactions, replaying the log of a run over its first snapshot gives the statuses and times
      that are stored of it. */
  lemma {:induction false} HistoryTells(steps: seq<DispatchStep>, k: nat, limit: nat, r: RunID)
    requires k <= |steps| && r in WorldAt(steps, k, limit).runs
    ensures var e := WorldAt(steps, k, limit).runs[r]; |e.c.dependencies| == e.c.Size() && LogTells(e.c, e.s)
  {
    hide WorldAt, WorldInv, LogTells, FreshInv, Committed;
    EveryHistory(steps, k, limit);
    EntryOf(WorldAt(steps, k, limit), r);
  }

  /** The log goes on with events of the time `at`. */
  ghost predicate LogGrows(s: RunSnapshot, t: RunSnapshot, at: Time) {
    |s.events| <= |t.events| && t.events[..|s.events|] == s.events && Stamped(s, t, at)
  }

  lemma SameLog(s: RunSnapshot, at: Time)
    ensures LogGrows(s, s, at)
  {
  }

  lemma SavedLog(s: RunSnapshot, t: RunSnapshot, at: Time)
    requires CS.Follows(s, Saved(s, t)) && Stamped(s, t, at)
    ensures LogGrows(s, Saved(s, t), at)
  {
    hide CS.Follows;
    CS.FollowsParts(s, Saved(s, t));
  }

  /** A step on dispatch `id` goes on the log of its run, and of no other. */
  ghost predicate OneLogGrows(w: World, v: World, id: DispatchID, at: Time) {
    && id in w.dispatches && w.dispatches[id].run in w.runs && w.dispatches[id].run in v.runs
    && LogGrows(w.runs[w.dispatches[id].run].s, v.runs[w.dispatches[id].run].s, at)
    && forall q :: q in w.runs && q != w.dispatches[id].run ==> q in v.runs && v.runs[q] == w.runs[q]
  }

  lemma {:induction false} ReturnLog(w: World, id: DispatchID, now: Time)
    requires WorldInv(w) && ReturnOrphan(w, id, now).Moved?
    ensures OneLogGrows(w, ReturnOrphan(w, id, now).w, id, now)
  {
    hide WorldInv, EntryInv, ReturnQueuedTaskToReady, Saved, CS.Follows, LogGrows, Stamped;
    var d := w.dispatches[id];
    var e := w.runs[d.run];
    EntryOf(w, d.run);
    var i := TaskIndexByKey(e.s.tasks, d.task);
    ReturnEntry(d.run, e, i, now);
    SavedLog(e.s, ReturnQueuedTaskToReady(e.s, i, now, "no compatible active Worker").s, now);
  }

  lemma {:induction false} ClaimLog(w: World, worker: WorkerID, id: DispatchID, token: Token, now: Time, duration: int)
    requires WorldInv(w) && worker != "" && ClaimOne(w, worker, id, token, now, duration).Moved?
    ensures OneLogGrows(w, ClaimOne(w, worker, id, token, now, duration).w, id, now)
  {
    hide WorldInv, EntryInv, StartQueuedAttempt, Saved, CS.Follows, LogGrows, Stamped, Granted;
    PresentID(w, id);
    var d := w.dispatches[id];
    var e := w.runs[d.run];
    EntryOf(w, d.run);
    var i := TaskIndexByKey(e.s.tasks, d.task);
    ClaimEntry(d.run, e, i, now, worker, id);
    SavedLog(e.s, StartQueuedAttempt(e.s, e.c, i, now, worker, id).s, now);
  }

  lemma {:induction false} CompleteLog(w: World, worker: WorkerID, id: DispatchID, token: Token,
      result: ExecutionResponse, now: Time)
    requires WorldInv(w) && CompleteOne(w, worker, id, token, result, now).Moved?
    ensures OneLogGrows(w, CompleteOne(w, worker, id, token, result, now).w, id, now)
  {
    hide WorldInv, EntryInv, ApplyAttemptResult, Saved, CS.Follows, LogGrows, Stamped, Runnable, OwnsAttempt,
      ActiveAttempt, EndedAs;
    LeasedOwns(w, id);
    var d := w.dispatches[id];
    var e := w.runs[d.run];
    EntryOf(w, d.run);
    var i := TaskIndexByKey(e.s.tasks, d.task);
    CompleteEntry(d.run, e, i, d.lease.value.number, result, now);
    SavedLog(e.s, ApplyAttemptResult(e.s, e.c, i, d.lease.value.number, result, now).s, now);
  }

  lemma {:induction false} ExpireLog(w: World, id: DispatchID, now: Time)
    requires WorldInv(w) && ExpireOne(w, id, now).Moved?
    ensures OneLogGrows(w, ExpireOne(w, id, now).w, id, now)
  {
    hide WorldInv, EntryInv, TimeoutAttempt, InterruptAttempt, Saved, CS.Follows, LogGrows, Stamped, Runnable,
      ActiveAttempt, EndedAs;
    LeasedOwns(w, id);
    var d := w.dispatches[id];
    var e := w.runs[d.run];
    EntryOf(w, d.run);
    var i := TaskIndexByKey(e.s.tasks, d.task);
    ExpireEntry(d.run, e, i, d.lease.value.number, d.lease.value.deadline <= now, now);
    SavedLog(e.s, if d.lease.value.deadline <= now then TimeoutAttempt(e.s, e.c, i, d.lease.value.number, now).s
      else InterruptAttempt(e.s, e.c, i, d.lease.value.number, now, "Worker lease expired").s, now);
  }

  /** One task of the run a step works on. */
  lemma {:induction false} StepLog(w: World, step: DispatchStep, limit: nat, at: Time)
    requires WorldInv(w) && Take(w, step, limit).Moved? && ReadsClock(step) == Some(at)
    requires step.DoReturn? || step.DoClaim? || step.DoComplete? || step.DoExpire?
    ensures OneLogGrows(w, Take(w, step, limit).w, step.id, at)
  {
    hide WorldInv, ReturnOrphan, ClaimOne, CompleteOne, ExpireOne, OneLogGrows;
    match step
    case DoReturn(id, now) => ReturnLog(w, id, now);
    case DoClaim(worker, id, token, now, duration) => ClaimLog(w, worker, id, token, now, duration);
    case DoComplete(worker, id, token, result, now) => CompleteLog(w, worker, id, token, result, now);
    case DoExpire(id, now) => ExpireLog(w, id, now);
  }

  lemma {:induction false} RunStepLog(w: World, step: DispatchStep, limit: nat, at: Time)
    requires WorldInv(w) && Take(w, step, limit).Moved? && ReadsClock(step) == Some(at)
    requires step.DoRequest? || step.DoPromote? || step.DoQueue? || step.DoCancel?
    ensures var r, v := step.r, Take(w, step, limit).w;
      r in w.runs && r in v.runs && LogGrows(w.runs[r].s, v.runs[r].s, at)
      && forall q :: q in w.runs && q != r ==> q in v.runs && v.runs[q] == w.runs[q]
  {
    hide WorldInv, EntryInv, QueueTask, MakeRetryReady, CancelRun, Saved, CS.Follows, LogGrows, Runnable, Stamped, Revoked, Busy,
      ActiveDispatches;
    var r := step.r;
    EntryOf(w, r);
    var e := w.runs[r];
    match step
    case DoRequest(_, now) => RequestLog(e.s, now);
    case DoPromote(_, now) =>
      var i := FirstDueRetry(e.s.tasks, now, 0);
      PromoteEntry(r, e, i, now);
      SavedLog(e.s, MakeRetryReady(e.s, i, e.s.tasks[i].Last().number, now).s, at);
    case DoQueue(_, id, now) =>
      var i := FirstReady(e.s.tasks, 0);
      QueueEntry(r, e, i, now);
      SavedLog(e.s, QueueTask(e.s, i, now).s, at);
    case DoCancel(_, now) =>
      CancelEntry(r, e, now);
      SavedLog(e.s, CancelRun(e.s, now).s, at);
  }

  lemma RequestLog(s: RunSnapshot, at: Time)
    ensures RequestCancelStep(s, at).Applied? ==> LogGrows(s, RequestCancelStep(s, at).s, at)
  {
  }

  lemma {:induction false} OtherSteps(w: World, step: DispatchStep, limit: nat)
    requires Take(w, step, limit).Moved?
    requires step.DoCreate? || step.DoRenew? || step.DoRegister? || step.DoBeat? || step.DoDrain? || step.DoOffline?
    ensures forall q :: q in w.runs ==> q in Take(w, step, limit).w.runs && Take(w, step, limit).w.runs[q] == w.runs[q]
  {
    hide NewRunSnapshot, ValidCompiled, LeasesOf;
  }

  /** What a step adds to the log of a run carries the time its transaction read. */
  lemma {:induction false} TakeLog(w: World, step: DispatchStep, limit: nat, r: RunID)
    requires WorldInv(w) && r in w.runs && Take(w, step, limit).Moved?
    ensures r in Take(w, step, limit).w.runs
    ensures var t := Take(w, step, limit).w.runs[r].s;
      match ReadsClock(step) case Some(at) => LogGrows(w.runs[r].s, t, at) case None => t == w.runs[r].s
  {
    hide WorldInv, Take, LogGrows;
    if step.DoReturn? || step.DoClaim? || step.DoComplete? || step.DoExpire? {
      StepLog(w, step, limit, step.now);
      SameLog(w.runs[r].s, step.now);
    } else if step.DoRequest? || step.DoPromote? || step.DoQueue? || step.DoCancel? {
      RunStepLog(w, step, limit, step.now);
      SameLog(w.runs[r].s, step.now);
    } else {
      OtherSteps(w, step, limit);
      if ReadsClock(step).Some? { SameLog(w.runs[r].s, ReadsClock(step).value); }
    }
  }

  /** The log of a run at one moment is how it begins at every later one. */
  lemma {:induction false} LogForward(steps: seq<DispatchStep>, j: nat, k: nat, limit: nat, r: RunID)
    requires j <= k <= |steps| && r in WorldAt(steps, j, limit).runs
    ensures r in WorldAt(steps, k, limit).runs
    ensures var a, b := WorldAt(steps, j, limit).runs[r].s.events, WorldAt(steps, k, limit).runs[r].s.events;
      |a| <= |b| && b[..|a|] == a
    decreases k
  {
    hide WorldInv, Limits, Take, ReadsClock;
    if j < k {
      LogForward(steps, j, k - 1, limit, r);
      EveryHistory(steps, k - 1, limit);
      var w := WorldAt(steps, k - 1, limit);
      if Take(w, steps[k - 1], limit).Moved? { TakeLog(w, steps[k - 1], limit, r); }
    }
  }

  /** The events a step added to the log of a run carry the time it read, then and in every later log. */
  lemma {:induction false} HistoryStamped(steps: seq<DispatchStep>, m: nat, k: nat, limit: nat, r: RunID)
    requires m < k <= |steps| && r in WorldAt(steps, m, limit).runs
    ensures r in WorldAt(steps, m + 1, limit).runs && r in WorldAt(steps, k, limit).runs
    ensures var a, b, d := WorldAt(steps, m, limit).runs[r].s.events, WorldAt(steps, m + 1, limit).runs[r].s.events,
        WorldAt(steps, k, limit).runs[r].s.events;
      && |a| <= |b| <= |d| && (|b| > |a| ==> ReadsClock(steps[m]).Some?)
      && forall n :: |a| <= n < |b| ==> d[n].at == ReadsClock(steps[m]).value
  {
    hide WorldInv, Limits, Take, ReadsClock;
    EveryHistory(steps, m, limit);
    var w := WorldAt(steps, m, limit);
    if Take(w, steps[m], limit).Moved? { TakeLog(w, steps[m], limit, r); }
    LogForward(steps, m + 1, k, limit, r);
  }
}
