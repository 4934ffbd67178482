/** Every transaction of the dispatch protocol keeps the ownership invariant, and its defensive error branches
    cannot be reached. */
module DispatchSteps {
  import opened Domain
  import opened Compiler
  import opened Steps
  import opened ResumeSteps
  import opened Propagation
  import opened RunInvariant
  import opened RunSteps
  import opened RunResults
  import opened RunTheorems
  import opened SavedRuns
  import opened RunLogs
  import opened AuditLog
  import opened History
  import opened DispatchModel
  import opened DispatchInvariant
  import CS = ChangeSets

  // ---------- runs ----------

  /** Any step of the kernel, committed, keeps the run's own invariant. */
  lemma {:induction false} EntryStep(r: RunID, e: Entry, step: Step)
    requires EntryInv(r, e) && Runnable(e.s, e.c) && Perform(e.c, e.s, step).Applied?
    ensures var t := Perform(e.c, e.s, step).s;
      EntryInv(r, e.(s := Saved(e.s, t))) && CS.Follows(e.s, Saved(e.s, t)) && Extends(e.s, t)
        && Stamped(e.s, t, TimeOf(step))
  {
    hide Stamped, RunInv, AllCounters, Extends, NonNegative, Perform, ValidCompiled, CS.Follows, LogTells;
    var t := Perform(e.c, e.s, step).s;
    StepKeeps(e.c, e.s, step);
    StepRecorded(e.c, e.s, step, 5);
    StepNonNegative(e.c, e.s, step);
    SavedIsCommitted(e.c, e.s, t);
    ExtensionTells(e.c, e.s, t);
    RowChangeKeeps(e.c, t, Saved(e.s, t));
    SameDefinition(e.s, t);
  }

  lemma SameDefinition(s: RunSnapshot, t: RunSnapshot)
    requires Extends(s, t)
    ensures t.definition == s.definition && t.row.id == s.row.id
  {
  }

  lemma EntryRunnable(r: RunID, e: Entry)
    requires EntryInv(r, e)
    ensures Runnable(e.s, e.c) && |e.s.tasks| == e.c.Size() && ValidCompiled(e.c) && RunInv(e.c, e.s)
  {
  }

  lemma EntryOf(w: World, r: RunID)
    requires WorldInv(w) && r in w.runs
    ensures RunDispatched(w.dispatches, r, w.runs[r]) && EntryInv(r, w.runs[r]) && Runnable(w.runs[r].s, w.runs[r].c)
    ensures |w.runs[r].s.tasks| == w.runs[r].c.Size()
  {
    EntryRunnable(r, w.runs[r]);
  }

  /** A change of a run that touches no task, or readies or skips waiting ones, leaves its dispatches alone. */
  lemma {:induction false} RunOnlyKeepsWorld(w: World, r: RunID, t: RunSnapshot)
    requires WorldInv(w) && r in w.runs && EntryInv(r, w.runs[r].(s := t)) && |t.tasks| == |w.runs[r].s.tasks|
    requires forall j :: 0 <= j < |t.tasks| ==> SameOwnership(w.runs[r].s.tasks[j], t.tasks[j])
    ensures WorldInv(w.(runs := w.runs[r := w.runs[r].(s := t)]))
  {
    hide CS.Follows, EntryInv, Shape, AttemptFenced;
    var e, runs' := w.runs[r], w.runs[r := w.runs[r].(s := t)];
    assert RunDispatched(w.dispatches, r, e);
    forall j | 0 <= j < |t.tasks| ensures TaskDispatched(w.dispatches, r, t.tasks[j]) {
      assert TaskDispatched(w.dispatches, r, e.s.tasks[j]);
    }
    forall q | q in runs' ensures RunDispatched(w.dispatches, q, runs'[q]) {
      if q != r { assert RunDispatched(w.dispatches, q, w.runs[q]); }
    }
    forall x | x in w.dispatches ensures DispatchOwned(runs', x, w.dispatches[x]) {
      assert DispatchOwned(w.runs, x, w.dispatches[x]);
    }
  }

  predicate SameOwnership(a: TaskRun, b: TaskRun) {
    b.key == a.key && b.attempts == a.attempts
    && (b.status.TaskQueued? <==> a.status.TaskQueued?) && (b.status.TaskRunning? <==> a.status.TaskRunning?)
  }

  /** The run carries the request, on its next revision. */
  ghost predicate RecordsRequest(w: World, v: World, r: RunID, at: Time) {
    && r in w.runs
    && var e := w.runs[r];
       v == World(w.runs[r := Entry(e.c, e.s.(row := e.s.row.(cancelRequestedAt := Some(at), revision := e.s.row.revision + 1)))],
              w.dispatches, w.workers)
  }

  lemma {:induction false} RequestKeepsWorld(w: World, r: RunID, at: Time)
    requires WorldInv(w)
    ensures RequestOne(w, r, at).Moved? ==> WorldInv(RequestOne(w, r, at).w) && RecordsRequest(w, RequestOne(w, r, at).w, r, at)
    ensures RequestOne(w, r, at).Moved? <==> r in w.runs && Uncanceled(w.runs[r].s)
    ensures RequestOne(w, r, at).Refused? <==> r !in w.runs
  {
    hide CS.Follows, EntryInv, WorldInv, RunDispatched;
    if r in w.runs && RequestCancelStep(w.runs[r].s, at).Applied? {
      EntryOf(w, r);
      var e := w.runs[r];
      var step := Step.RequestCancel(at);
      EntryStep(r, e, step);
      SavedRequest(r, e, at);
      RunOnlyKeepsWorld(w, r, RequestCancelStep(e.s, at).s);
    }
  }

  lemma SavedRequest(r: RunID, e: Entry, at: Time)
    requires EntryInv(r, e) && RequestCancelStep(e.s, at).Applied?
    ensures Saved(e.s, RequestCancelStep(e.s, at).s) == RequestCancelStep(e.s, at).s
  {
  }

  lemma {:induction false} CreateKeepsWorld(w: World, r: RunID, c: Compiled, now: Time)
    requires WorldInv(w) && ValidCompiled(c)
    ensures CreateOne(w, r, c, now).Moved? ==> WorldInv(CreateOne(w, r, c, now).w)
    ensures CreateOne(w, r, c, now).Moved? <==> r != "" && r !in w.runs
  {
    hide FreshInv, Committed, ValidCompiled, Shape, AttemptFenced, LogTells, TaskDispatched, TaskOwns, EntryInv;
    ValidAdjacentHere(c);
    if r != "" && r !in w.runs {
      NewEntry(w, r, c, now);
      var w' := CreateOne(w, r, c, now).w;
      forall q | q in w'.runs ensures RunDispatched(w'.dispatches, q, w'.runs[q]) {
        if q != r { assert RunDispatched(w.dispatches, q, w.runs[q]); }
      }
      forall x | x in w'.dispatches ensures DispatchOwned(w'.runs, x, w'.dispatches[x]) {
        assert DispatchOwned(w.runs, x, w.dispatches[x]);
      }
    }
  }

  lemma {:induction false} NewEntry(w: World, r: RunID, c: Compiled, now: Time)
    requires ValidCompiled(c) && r != ""
    ensures RunDispatched(w.dispatches, r, Entry(c, NewRunSnapshot(r, c, now)))
  {
    hide RunInv, AllCounters, LogTells;
    InitialInv(r, c, now);
    NewTells(r, c, now);
    InitialCommitted(r, c, now);
    ValidAdjacentHere(c);
  }

  lemma ValidAdjacentHere(c: Compiled)
    requires ValidCompiled(c)
    ensures Adjacent(c)
  {
  }

  // ---------- scheduling ----------

  lemma LastNumber(t: TaskRun, max: int)
    requires TaskHistory(t, max) && (t.status.TaskWaitingRetry? || t.status.TaskRunning?)
    ensures |t.attempts| > 0 && t.Last().number == |t.attempts|
    ensures t.status.TaskRunning? ==> t.Last().status.AttemptRunning?
  {
  }

  lemma {:induction false} PromoteEntry(r: RunID, e: Entry, i: nat, now: Time)
    requires EntryInv(r, e) && i < |e.s.tasks| && DueRetry(e.s.tasks[i], now)
    ensures |e.s.tasks[i].attempts| > 0
    ensures var o := MakeRetryReady(e.s, i, e.s.tasks[i].Last().number, now);
      && o.Applied? && EntryInv(r, e.(s := Saved(e.s, o.s))) && CS.Follows(e.s, Saved(e.s, o.s))
      && o.s.tasks == e.s.tasks[i := e.s.tasks[i].(status := TaskReady, readyAt := None)] && Stamped(e.s, o.s, now)
  {
    hide CS.Follows, EntryInv, Stamped, MakeRetryReady, Saved, RunInv, TaskHistory;
    EntryRunnable(r, e);
    TaskOf(e.c, e.s, i);
    LastNumber(e.s.tasks[i], e.c.MaxAttempts(i));
    var number := e.s.tasks[i].Last().number;
    RetryReadyKeeps(e.c, e.s, i, number, now);
    assert Perform(e.c, e.s, RetryReady(i, number, now)) == MakeRetryReady(e.s, i, number, now);
    EntryStep(r, e, RetryReady(i, number, now));
  }

  /** Run `r` went from `e` to `t`, and nothing else changed but perhaps dispatches. */
  ghost predicate OnlyRun(w: World, v: World, r: RunID) {
    r in w.runs && r in v.runs && v.workers == w.workers && v.runs == w.runs[r := Entry(w.runs[r].c, v.runs[r].s)]
  }

  /** The first task of the run whose retry is due became ready. */
  ghost predicate PromotesFirst(w: World, v: World, r: RunID, now: Time) {
    && OnlyRun(w, v, r) && v.dispatches == w.dispatches
    && var a, b := w.runs[r].s.tasks, v.runs[r].s.tasks;
       exists i :: 0 <= i < |a| && RetryIsDue(a[i], now) && (forall j :: 0 <= j < i ==> !RetryIsDue(a[j], now))
         && b == a[i := a[i].(status := TaskReady, readyAt := None)]
  }

  /** A due retry is always still due: the error branch is dead. */
  lemma {:induction false} PromoteKeepsWorld(w: World, r: RunID, now: Time)
    requires WorldInv(w)
    ensures PromoteRetry(w, r, now).Moved? ==> WorldInv(PromoteRetry(w, r, now).w)
    ensures PromoteRetry(w, r, now).Refused? <==> r !in w.runs
    ensures PromoteRetry(w, r, now).Moved?
      <==> r in w.runs && exists i :: 0 <= i < |w.runs[r].s.tasks| && RetryIsDue(w.runs[r].s.tasks[i], now)
    ensures PromoteRetry(w, r, now).Moved? ==> PromotesFirst(w, PromoteRetry(w, r, now).w, r, now)
  {
    hide CS.Follows, EntryInv, WorldInv, RunDispatched, MakeRetryReady, Saved, Runnable;
    if r in w.runs {
      EntryOf(w, r);
      var e := w.runs[r];
      var i := FirstDueRetry(e.s.tasks, now, 0);
      if i >= 0 {
        PromoteEntry(r, e, i, now);
        var t := MakeRetryReady(e.s, i, e.s.tasks[i].Last().number, now).s;
        SavedTasks(e.s, t);
        RunOnlyKeepsWorld(w, r, Saved(e.s, t));
      }
    }
  }

  lemma SavedTasks(s: RunSnapshot, t: RunSnapshot)
    ensures Saved(s, t).tasks == t.tasks && Saved(s, t).row.status == t.row.status
      && Saved(s, t).row.cancelRequestedAt == t.row.cancelRequestedAt
  {
  }

  lemma {:induction false} QueueEntry(r: RunID, e: Entry, i: nat, now: Time)
    requires EntryInv(r, e) && i < |e.s.tasks| && e.s.tasks[i].status.TaskReady?
    ensures var o := QueueTask(e.s, i, now);
      && o.Applied? && EntryInv(r, e.(s := Saved(e.s, o.s))) && CS.Follows(e.s, Saved(e.s, o.s))
      && o.s.tasks == e.s.tasks[i := e.s.tasks[i].(status := TaskQueued)] && o.s.row.status.WorkflowRunning?
      && Stamped(e.s, o.s, now)
  {
    hide Stamped, CS.Follows, EntryInv, QueueTask, Saved, RunInv;
    EntryRunnable(r, e);
    LiveTaskMeansRunning(e.c, e.s, i);
    QueueKeeps(e.c, e.s, i, now);
    assert Perform(e.c, e.s, Queue(i, now)) == QueueTask(e.s, i, now);
    EntryStep(r, e, Queue(i, now));
  }

  /** The first ready task of the run was queued, with a new pending dispatch for its executor. */
  ghost predicate QueuesFirst(w: World, v: World, r: RunID, id: DispatchID, now: Time) {
    && OnlyRun(w, v, r) && v.runs[r].s.row.status.WorkflowRunning?
    && var a, b, c := w.runs[r].s.tasks, v.runs[r].s.tasks, w.runs[r].c;
       exists i :: 0 <= i < |a| == c.Size() && a[i].status.TaskReady? && (forall j :: 0 <= j < i ==> !a[j].status.TaskReady?)
         && b == a[i := a[i].(status := TaskQueued)]
         && v.dispatches == w.dispatches[id :=
              Dispatch(r, a[i].key, c.definition.tasks[i].executor, DispatchPending, None, None, now, None)]
  }

  /** Queueing the first ready task of an unfinished run always succeeds. */
  lemma {:induction false} QueueKeepsWorld(w: World, r: RunID, id: DispatchID, now: Time)
    requires WorldInv(w) && id != "" && id !in w.dispatches
    ensures QueueNext(w, r, id, now).Moved? ==> WorldInv(QueueNext(w, r, id, now).w)
    ensures QueueNext(w, r, id, now).Refused? <==> r !in w.runs
    ensures QueueNext(w, r, id, now).Moved?
      <==> r in w.runs && exists i :: 0 <= i < |w.runs[r].s.tasks| && w.runs[r].s.tasks[i].status.TaskReady?
    ensures QueueNext(w, r, id, now).Moved? ==> QueuesFirst(w, QueueNext(w, r, id, now).w, r, id, now)
  {
    hide CS.Follows, EntryInv, WorldInv, RunDispatched, QueueTask, Saved, Runnable, StepFits, Bystanders;
    if r in w.runs {
      EntryOf(w, r);
      var e := w.runs[r];
      var i := FirstReady(e.s.tasks, 0);
      EntryDefinition(r, e);
      if i >= 0 {
        QueueEntry(r, e, i, now);
        var t := QueueTask(e.s, i, now).s;
        SavedTasks(e.s, t);
        var d := Dispatch(r, e.s.tasks[i].key, NextKind(e).value, DispatchPending, None, None, now, None);
        QueueFits(w, r, i, id, d, Saved(e.s, t));
        StepKeepsWorld(w, r, i, id, d, Saved(e.s, t));
      }
    }
  }

  lemma EntryDefinition(r: RunID, e: Entry)
    requires EntryInv(r, e)
    ensures e.s.definition == e.c.definition && |e.s.tasks| == e.c.Size()
  {
  }

  lemma {:induction false} QueueFits(w: World, r: RunID, i: nat, id: DispatchID, d: Dispatch, t: RunSnapshot)
    requires WorldInv(w) && r in w.runs && i < |w.runs[r].s.tasks| && id != "" && id !in w.dispatches
    requires w.runs[r].s.tasks[i].status.TaskReady?
      && t.tasks == w.runs[r].s.tasks[i := w.runs[r].s.tasks[i].(status := TaskQueued)]
    requires i < w.runs[r].c.Size()
    requires d.status.DispatchPending? && d.lease.None? && Shape(d) && d.run == r && d.task == w.runs[r].s.tasks[i].key
    requires d.kind == w.runs[r].c.definition.tasks[i].executor
    ensures Bystanders(w.runs[r].s, t, i) && StepFits(w, r, i, id, d, t)
  {
    hide CS.Follows, EntryInv, Shape;
    var e, ds' := w.runs[r], w.dispatches[id := d];
    assert RunDispatched(w.dispatches, r, e);
    var a, b := e.s.tasks[i], t.tasks[i];
    assert TaskDispatched(w.dispatches, r, a);
    assert PendingFor(ds'[id], r, b.key);
    forall n | 0 <= n < |b.attempts| ensures AttemptFenced(ds', r, b.key, b.attempts[n]) {
      assert AttemptFenced(w.dispatches, r, a.key, a.attempts[n]);
    }
    forall x | x in w.dispatches && w.dispatches[x].run == r
      && w.dispatches[x].task == a.key ensures TaskOwns(a, x, w.dispatches[x]) {
      OwnsHere(w, r, i, x);
    }
  }

  /** The dispatches of a task, seen from its position. */
  lemma {:induction false} OwnsHere(w: World, r: RunID, i: nat, x: DispatchID)
    requires WorldInv(w) && r in w.runs && i < |w.runs[r].s.tasks| && x in w.dispatches
    requires w.dispatches[x].run == r && w.dispatches[x].task == w.runs[r].s.tasks[i].key
    ensures TaskOwns(w.runs[r].s.tasks[i], x, w.dispatches[x]) && Shape(w.dispatches[x])
  {
    hide CS.Follows, EntryInv, Shape;
    assert RunDispatched(w.dispatches, r, w.runs[r]);
    assert DispatchOwned(w.runs, x, w.dispatches[x]);
    KeyPosition(r, w.runs[r], i);
  }

  lemma {:induction false} ReturnEntry(r: RunID, e: Entry, i: nat, now: Time)
    requires EntryInv(r, e) && i < |e.s.tasks| && e.s.tasks[i].status.TaskQueued?
    ensures var o := ReturnQueuedTaskToReady(e.s, i, now, "no compatible active Worker");
      && o.Applied? && EntryInv(r, e.(s := Saved(e.s, o.s))) && CS.Follows(e.s, Saved(e.s, o.s)) && Extends(e.s, o.s)
      && o.s.tasks == e.s.tasks[i := e.s.tasks[i].(status := TaskReady)] && o.s.row.status == e.s.row.status
      && Stamped(e.s, o.s, now)
  {
    hide Stamped, CS.Follows, EntryInv, Extends, ReturnQueuedTaskToReady, Saved, RunInv;
    var reason := "no compatible active Worker";
    EntryRunnable(r, e);
    ReturnKeeps(e.c, e.s, i, now, reason);
    assert Perform(e.c, e.s, Return(i, now, reason)) == ReturnQueuedTaskToReady(e.s, i, now, reason);
    EntryStep(r, e, Return(i, now, reason));
  }

  /** The task of the dispatch is ready again, and the dispatch is canceled. */
  ghost predicate ReturnsTask(w: World, v: World, id: DispatchID, now: Time) {
    && id in w.dispatches && OnlyRun(w, v, w.dispatches[id].run)
    && v.dispatches == w.dispatches[id := w.dispatches[id].(status := DispatchCanceled, completedAt := Some(now))]
    && var a, b := w.runs[w.dispatches[id].run].s.tasks, v.runs[w.dispatches[id].run].s.tasks;
       exists i :: 0 <= i < |a| && a[i].key == w.dispatches[id].task && b == a[i := a[i].(status := TaskReady)]
  }

  /** A pending dispatch always matches a queued task, so an orphan is always returned. */
  lemma {:induction false} ReturnKeepsWorld(w: World, id: DispatchID, now: Time)
    requires WorldInv(w)
    ensures !ReturnOrphan(w, id, now).Refused?
    ensures ReturnOrphan(w, id, now).Moved? ==>
      WorldInv(ReturnOrphan(w, id, now).w) && ReturnsTask(w, ReturnOrphan(w, id, now).w, id, now)
    ensures ReturnOrphan(w, id, now).Moved? <==> id in w.dispatches && w.dispatches[id].status.DispatchPending?
  {
    hide CS.Follows, EntryInv, WorldInv, RunDispatched, ReturnQueuedTaskToReady, Saved, TaskHistory, DispatchOwned;
    if id in w.dispatches {
      var d := w.dispatches[id];
      DispatchPosition(w, id);
      var r := d.run;
      var e := w.runs[r];
      var i := TaskIndexByKey(e.s.tasks, d.task);
      if d.status.DispatchPending? {
        EntryOf(w, r);
        ReturnEntry(r, e, i, now);
        var t := ReturnQueuedTaskToReady(e.s, i, now, "no compatible active Worker").s;
        SavedTasks(e.s, t);
        ReturnFits(w, r, i, id, now, Saved(e.s, t));
        StepKeepsWorld(w, r, i, id, Ended(d, DispatchCanceled, now), Saved(e.s, t));
      }
    }
  }

  lemma {:induction false} ReturnFits(w: World, r: RunID, i: nat, id: DispatchID, now: Time, t: RunSnapshot)
    requires WorldInv(w) && r in w.runs && i < |w.runs[r].s.tasks| && id in w.dispatches
    requires w.dispatches[id].status.DispatchPending? && w.dispatches[id].run == r
      && w.dispatches[id].task == w.runs[r].s.tasks[i].key
    requires t.tasks == w.runs[r].s.tasks[i := w.runs[r].s.tasks[i].(status := TaskReady)]
    ensures Bystanders(w.runs[r].s, t, i) && StepFits(w, r, i, id, Ended(w.dispatches[id], DispatchCanceled, now), t)
  {
    hide EntryInv;
    var e, d := w.runs[r], Ended(w.dispatches[id], DispatchCanceled, now);
    var ds' := w.dispatches[id := d];
    assert RunDispatched(w.dispatches, r, e);
    assert DispatchOwned(w.runs, id, w.dispatches[id]);
    KeyPosition(r, e, i);
    var a, b := e.s.tasks[i], t.tasks[i];
    forall n | 0 <= n < |b.attempts| ensures AttemptFenced(ds', r, b.key, b.attempts[n]) {
      assert AttemptFenced(w.dispatches, r, a.key, a.attempts[n]);
    }
    forall x | x in w.dispatches && x != id && w.dispatches[x].run == r
      && w.dispatches[x].task == a.key ensures TaskOwns(b, x, w.dispatches[x]) {
      OwnsHere(w, r, i, x);
      assert PendingFor(w.dispatches[x], r, a.key) ==> id == x;
    }
  }

  // ---------- claims ----------

  /** Starting a queued task for a registered worker always succeeds. */
  lemma {:induction false} ClaimEntry(r: RunID, e: Entry, i: nat, now: Time, worker: WorkerID, id: DispatchID)
    requires EntryInv(r, e) && i < |e.s.tasks| && e.s.tasks[i].status.TaskQueued? && worker != "" && id != ""
    ensures var o := StartQueuedAttempt(e.s, e.c, i, now, worker, id);
      && o.Applied? && EntryInv(r, e.(s := Saved(e.s, o.s))) && CS.Follows(e.s, Saved(e.s, o.s))
      && o.s.tasks == e.s.tasks[i := StartedTask(e.s.tasks[i], now, worker, id)] && Stamped(e.s, o.s, now)
  {
    hide Stamped, CS.Follows, EntryInv, BeginAttempt, Saved, RunInv, TaskHistory;
    EntryRunnable(r, e);
    LiveTaskMeansRunning(e.c, e.s, i);
    TaskOf(e.c, e.s, i);
    BeginKeeps(e.c, e.s, i, now, worker, id, "lease claimed");
    assert Perform(e.c, e.s, StartQueued(i, now, worker, id)) == StartQueuedAttempt(e.s, e.c, i, now, worker, id);
    EntryStep(r, e, StartQueued(i, now, worker, id));
  }

  /** The task of the dispatch starts its next attempt in the name of the worker, within its timeout, and the dispatch holds
      the lease: for the duration, but not beyond the deadline. */
  ghost predicate ClaimsTask(w: World, v: World, worker: WorkerID, id: DispatchID, token: Token, now: Time, duration: int) {
    && id in w.dispatches && OnlyRun(w, v, w.dispatches[id].run)
    && var d, c := w.dispatches[id], w.runs[w.dispatches[id].run].c;
       var a, b := w.runs[d.run].s.tasks, v.runs[d.run].s.tasks;
       exists i :: 0 <= i < |a| == c.Size() && a[i].key == d.task && b == a[i := StartedTask(a[i], now, worker, id)]
         && var deadline := now + c.definition.tasks[i].timeoutMillis * NANOS_PER_MILLI;
            v.dispatches == w.dispatches[id := d.(status := DispatchLeased, lease := Some(LeaseTerms(worker, |a[i].attempts| + 1,
              token, if now + duration <= deadline then now + duration else deadline, deadline, now)))]
  }

  /** A claim of a pending dispatch always succeeds: it matches a queued task. */
  lemma {:induction false} ClaimKeepsWorld(w: World, worker: WorkerID, id: DispatchID, token: Token, now: Time, duration: int)
    requires WorldInv(w) && worker != "" && id in w.dispatches && w.dispatches[id].status.DispatchPending?
    ensures var o := ClaimOne(w, worker, id, token, now, duration);
      o.Moved? && WorldInv(o.w) && ClaimsTask(w, o.w, worker, id, token, now, duration)
  {
    hide CS.Follows, EntryInv, WorldInv, RunDispatched, StartQueuedAttempt, Saved, Runnable, StepFits, Bystanders,
      DispatchOwned, Granted;
    var d := w.dispatches[id];
    DispatchPosition(w, id);
    PresentID(w, id);
    var r := d.run;
    var e := w.runs[r];
    var i := TaskIndexByKey(e.s.tasks, d.task);
    EntryOf(w, r);
    ClaimEntry(r, e, i, now, worker, id);
    var t := StartQueuedAttempt(e.s, e.c, i, now, worker, id).s;
    SavedTasks(e.s, t);
    var terms := Granted(worker, |e.s.tasks[i].attempts| + 1, token, e.c.definition.tasks[i].timeoutMillis, now, duration);
    GrantedTerms(worker, |e.s.tasks[i].attempts| + 1, token, e.c.definition.tasks[i].timeoutMillis, now, duration);
    ClaimFits(w, r, i, id, terms, now, Saved(e.s, t));
    StepKeepsWorld(w, r, i, id, d.(status := DispatchLeased, lease := Some(terms)), Saved(e.s, t));
  }

  lemma PresentID(w: World, id: DispatchID)
    requires WorldInv(w) && id in w.dispatches
    ensures id != "" && Shape(w.dispatches[id]) && w.dispatches[id].run in w.runs
    ensures w.dispatches[id].task in w.runs[w.dispatches[id].run].c.index
  {
    assert DispatchOwned(w.runs, id, w.dispatches[id]);
  }

  /** A lease never outlives the deadline of its attempt. */
  lemma GrantedTerms(worker: WorkerID, number: int, token: Token, timeoutMillis: int, now: Time, duration: int)
    ensures var terms := Granted(worker, number, token, timeoutMillis, now, duration);
      && terms.worker == worker && terms.number == number && terms.token == token && terms.leasedAt == now
      && terms.deadline == now + timeoutMillis * NANOS_PER_MILLI && terms.expiresAt <= terms.deadline
           && terms.expiresAt <= now + duration
      && (terms.expiresAt == terms.deadline || terms.expiresAt == now + duration)
  {
  }

  lemma {:induction false} ClaimFits(w: World, r: RunID, i: nat, id: DispatchID, terms: LeaseTerms, now: Time, t: RunSnapshot)
    requires WorldInv(w) && r in w.runs && i < |w.runs[r].s.tasks| && id in w.dispatches
    requires w.dispatches[id].status.DispatchPending? && w.dispatches[id].run == r
      && w.dispatches[id].task == w.runs[r].s.tasks[i].key
    requires w.runs[r].s.tasks[i].status.TaskQueued?
    requires terms.number == |w.runs[r].s.tasks[i].attempts| + 1 && terms.worker != "" && terms.expiresAt <= terms.deadline
    requires t.tasks == w.runs[r].s.tasks[i := StartedTask(w.runs[r].s.tasks[i], now, terms.worker, id)]
    ensures Bystanders(w.runs[r].s, t, i)
      && StepFits(w, r, i, id, w.dispatches[id].(status := DispatchLeased, lease := Some(terms)), t)
  {
    hide EntryInv;
    var e, d := w.runs[r], w.dispatches[id].(status := DispatchLeased, lease := Some(terms));
    var ds' := w.dispatches[id := d];
    assert RunDispatched(w.dispatches, r, e);
    assert DispatchOwned(w.runs, id, w.dispatches[id]);
    KeyPosition(r, e, i);
    var a, b := e.s.tasks[i], t.tasks[i];
    forall n | 0 <= n < |b.attempts| ensures AttemptFenced(ds', r, b.key, b.attempts[n]) {
      if n < |a.attempts| {
        assert b.attempts[n] == a.attempts[n];
        assert AttemptFenced(w.dispatches, r, a.key, a.attempts[n]);
      }
    }
    forall x | x in w.dispatches && x != id && w.dispatches[x].run == r
      && w.dispatches[x].task == a.key ensures TaskOwns(b, x, w.dispatches[x]) {
      OwnsHere(w, r, i, x);
      assert PendingFor(w.dispatches[x], r, a.key) ==> id == x;
    }
  }

  // ---------- heartbeats ----------

  /** Only the expiry of the lease moved: to the end of another duration, but not beyond the deadline. */
  ghost predicate RenewsLease(w: World, v: World, id: DispatchID, now: Time, duration: int) {
    && id in w.dispatches && w.dispatches[id].lease.Some?
    && var d := w.dispatches[id];
       var deadline := d.lease.value.deadline;
       v == World(w.runs, w.dispatches[id := d.(lease := Some(d.lease.value.(
         expiresAt := if now + duration <= deadline then now + duration else deadline)))], w.workers)
  }

  /** The lease is running and neither it nor its attempt has run out. */
  ghost predicate StillLeased(d: Dispatch, now: Time) {
    d.status.DispatchLeased? && d.lease.Some? && now < d.lease.value.expiresAt && now < d.lease.value.deadline
  }

  /** A renewal keeps who owns what. It is granted exactly to the holder of a lease that has not run out, and answers how many
      whole milliseconds of it remain. */
  lemma {:induction false} RenewKeepsWorld(w: World, worker: WorkerID, id: DispatchID, token: Token, now: Time, duration: int)
    requires WorldInv(w)
    ensures var o := RenewOne(w, worker, id, token, now, duration).0;
      o.Moved? ==> WorldInv(o.w) && RenewsLease(w, o.w, id, now, duration)
    ensures var (o, answer) := RenewOne(w, worker, id, token, now, duration);
      var held := id in w.dispatches && w.dispatches[id].lease.Some? && w.dispatches[id].lease.value.worker == worker
        && w.dispatches[id].lease.value.token == token;
      && (o.Moved? <==> held && StillLeased(w.dispatches[id], now))
      && (answer.LeaseRenewed? <==> o.Moved?) && (answer.LeaseRevoked? <==> held && !o.Moved?)
      && (o.Moved? ==> answer.remainingMillis == (o.w.dispatches[id].lease.value.expiresAt - now) / NANOS_PER_MILLI)
    ensures RenewOne(w, worker, id, token, now, duration).0.Refused? <==> id in w.dispatches && w.dispatches[id].lease.None?
  {
    hide EntryInv;
    var o := RenewOne(w, worker, id, token, now, duration).0;
    if o.Moved? {
      assert DispatchOwned(w.runs, id, w.dispatches[id]);
      LeaseChangeKeepsWorld(w, id, Renewed(w.dispatches[id], now, duration));
    }
  }

  /** The lease of the dispatch was renewed; other dispatches may differ too. */
  ghost predicate RenewsIn(w: World, v: World, id: DispatchID, now: Time, duration: int) {
    && id in w.dispatches && w.dispatches[id].lease.Some? && id in v.dispatches
    && var deadline := w.dispatches[id].lease.value.deadline;
       v.dispatches[id] == w.dispatches[id].(lease := Some(w.dispatches[id].lease.value.(
         expiresAt := if now + duration <= deadline then now + duration else deadline)))
  }

  /** What one more reference does where the row is as it was at the start of the heartbeat. */
  lemma {:induction false} OneAnswer(w: World, v: World, worker: WorkerID, id: DispatchID, token: Token, now: Time, duration: int)
    requires v.runs == w.runs && v.workers == w.workers && v.dispatches.Keys == w.dispatches.Keys
    requires id in w.dispatches ==> v.dispatches[id] == w.dispatches[id]
    ensures var (o, answer) := RenewOne(v, worker, id, token, now, duration);
      !o.Refused? ==>
        var u := if o.Moved? then o.w else v;
        && answer == RenewOne(w, worker, id, token, now, duration).1
        && u.runs == w.runs && u.workers == w.workers && u.dispatches.Keys == w.dispatches.Keys
        && (forall x :: x in w.dispatches && x != id ==> u.dispatches[x] == v.dispatches[x])
        && (answer.LeaseRenewed? ==> RenewsIn(w, u, id, now, duration))
  {
  }

  lemma RenewsStill(w: World, v: World, u: World, id: DispatchID, now: Time, duration: int)
    requires RenewsIn(w, v, id, now, duration) && id in u.dispatches && u.dispatches[id] == v.dispatches[id]
    ensures RenewsIn(w, u, id, now, duration) && id in w.dispatches
  {
  }

  ghost predicate DistinctRefs(refs: seq<(DispatchID, Token)>) {
    forall j, k :: 0 <= j < k < |refs| ==> refs[j].0 != refs[k].0
  }

  /** The references were answered and renewed one by one, and no other dispatch was touched. */
  ghost predicate AnsweredEach(w: World, v: World, worker: WorkerID, refs: seq<(DispatchID, Token)>, now: Time, duration: int,
      answers: seq<LeaseAnswer>)
  {
    && v.runs == w.runs && v.workers == w.workers && v.dispatches.Keys == w.dispatches.Keys && |answers| == |refs|
    && (forall k :: 0 <= k < |refs| ==> answers[k] == RenewOne(w, worker, refs[k].0, refs[k].1, now, duration).1)
    && (forall k :: 0 <= k < |refs| && answers[k].LeaseRenewed? ==> RenewsIn(w, v, refs[k].0, now, duration))
    && (forall id :: id in w.dispatches && (forall k :: 0 <= k < |refs| ==> refs[k].0 != id) ==>
          v.dispatches[id] == w.dispatches[id])
  }

  /** The answers of a heartbeat are those to its references one by one: renewing one lease does not touch another. */
  lemma {:induction false} HeartbeatAnswers(w: World, worker: WorkerID, refs: seq<(DispatchID, Token)>, now: Time, duration: int)
    requires RenewMany(w, worker, refs, now, duration).0.Moved? && DistinctRefs(refs)
    ensures var (o, answers) := RenewMany(w, worker, refs, now, duration); AnsweredEach(w, o.w, worker, refs, now,
      duration, answers)
  {
    hide RenewOne, RenewsIn, AnsweredEach;
    if refs == [] {
      NoneAnswered(w, worker, now, duration);
    } else {
      var n := |refs| - 1;
      HeartbeatAnswers(w, worker, refs[..n], now, duration);
      var (o, answers) := RenewMany(w, worker, refs[..n], now, duration);
      OneMoreAnswer(w, o.w, worker, refs, now, duration, answers);
    }
  }

  lemma NoneAnswered(w: World, worker: WorkerID, now: Time, duration: int)
    ensures AnsweredEach(w, w, worker, [], now, duration, [])
  {
  }

  lemma {:induction false} OneMoreAnswer(w: World, v: World, worker: WorkerID, refs: seq<(DispatchID, Token)>, now: Time,
      duration: int, answers: seq<LeaseAnswer>)
    requires refs != [] && DistinctRefs(refs) && AnsweredEach(w, v, worker, refs[..|refs| - 1], now, duration, answers)
    ensures var ref := refs[|refs| - 1]; var (o, answer) := RenewOne(v, worker, ref.0, ref.1, now, duration);
      !o.Refused? ==> AnsweredEach(w, if o.Moved? then o.w else v, worker, refs, now, duration, answers + [answer])
  {
    hide RenewOne, RenewsIn;
    var n := |refs| - 1;
    var id, token := refs[n].0, refs[n].1;
    if id in w.dispatches {
      forall k | 0 <= k < n ensures refs[..n][k].0 != id { assert refs[..n][k] == refs[k]; }
      assert v.dispatches[id] == w.dispatches[id];
    }
    OneAnswer(w, v, worker, id, token, now, duration);
    var (o, answer) := RenewOne(v, worker, id, token, now, duration);
    if !o.Refused? {
      var u := if o.Moved? then o.w else v;
      forall k | 0 <= k < |refs| && (answers + [answer])[k].LeaseRenewed? ensures RenewsIn(w, u, refs[k].0, now, duration) {
        if k < n {
          assert refs[..n][k] == refs[k];
          RenewsKnown(w, v, refs[k].0, now, duration);
          RenewsStill(w, v, u, refs[k].0, now, duration);
        }
      }
      forall x | x in w.dispatches && forall k :: 0 <= k < |refs| ==> refs[k].0 != x
        ensures u.dispatches[x] == w.dispatches[x]
      {
        forall k | 0 <= k < n ensures refs[..n][k].0 != x { assert refs[..n][k] == refs[k]; }
        assert refs[n].0 != x;
      }
    }
  }

  lemma RenewsKnown(w: World, v: World, id: DispatchID, now: Time, duration: int)
    requires RenewsIn(w, v, id, now, duration)
    ensures id in w.dispatches && id in v.dispatches
  {
  }

  lemma {:induction false} LeaseChangeKeepsWorld(w: World, id: DispatchID, d: Dispatch)
    requires WorldInv(w) && id in w.dispatches && w.dispatches[id].lease.Some? && d.lease.Some? && Shape(d)
    requires d == w.dispatches[id].(lease := d.lease)
    requires d.lease.value.worker == w.dispatches[id].lease.value.worker
      && d.lease.value.number == w.dispatches[id].lease.value.number
    ensures WorldInv(PutDispatch(w, id, d))
  {
    hide EntryInv;
    var ds' := w.dispatches[id := d];
    forall q | q in w.runs ensures RunDispatched(ds', q, w.runs[q]) {
      assert RunDispatched(w.dispatches, q, w.runs[q]);
      forall i | 0 <= i < |w.runs[q].s.tasks| ensures TaskDispatched(ds', q, w.runs[q].s.tasks[i]) {
        RelabelDispatched(w.dispatches, q, w.runs[q].s.tasks[i], id, d);
      }
    }
    forall x | x in ds' ensures DispatchOwned(w.runs, x, ds'[x]) {
      assert DispatchOwned(w.runs, x, w.dispatches[x]);
    }
  }

  lemma {:induction false} RelabelDispatched(ds: map<DispatchID, Dispatch>, r: RunID, t: TaskRun, id: DispatchID, d: Dispatch)
    requires TaskDispatched(ds, r, t) && id in ds && ds[id].lease.Some? && d.lease.Some? && d == ds[id].(lease := d.lease)
    requires d.lease.value.worker == ds[id].lease.value.worker && d.lease.value.number == ds[id].lease.value.number
    ensures TaskDispatched(ds[id := d], r, t)
  {
    if t.status.TaskQueued? {
      var x :| x in ds && PendingFor(ds[x], r, t.key);
      assert x in ds[id := d] && PendingFor(ds[id := d][x], r, t.key);
    }
    forall n | 0 <= n < |t.attempts| ensures AttemptFenced(ds[id := d], r, t.key, t.attempts[n]) {
      assert AttemptFenced(ds, r, t.key, t.attempts[n]);
    }
  }

  // ---------- the end of a lease ----------

  /** The current attempt of `a` ended as `to`, and the task left running. */
  ghost predicate EndedAs(a: TaskRun, b: TaskRun, to: AttemptStatus, result: ExecutionResult) {
    && b.key == a.key && |b.attempts| == |a.attempts| > 0
    && (forall n :: 0 <= n < |a.attempts| - 1 ==> b.attempts[n] == a.attempts[n])
    && b.Last() == a.Last().(status := to, result := result, finishedAt := b.Last().finishedAt)
    && !b.status.TaskQueued? && !b.status.TaskRunning?
  }

  lemma {:induction false} NumbersOf(r: RunID, e: Entry, i: nat)
    requires EntryInv(r, e) && i < |e.s.tasks|
    ensures forall n :: 0 <= n < |e.s.tasks[i].attempts| ==> e.s.tasks[i].attempts[n].number == n + 1
  {
    hide NodeAgrees, Unsucceeded;
    assert TaskHistory(e.s.tasks[i], e.c.MaxAttempts(i));
  }

  lemma {:induction false} EndFits(w: World, r: RunID, i: nat, id: DispatchID, d: Dispatch, to: AttemptStatus,
      result: ExecutionResult, t: RunSnapshot)
    requires WorldInv(w) && r in w.runs && i < |w.runs[r].s.tasks| && id in w.dispatches && |t.tasks| == |w.runs[r].s.tasks|
    requires w.dispatches[id].status.DispatchLeased? && w.dispatches[id].run == r
      && w.dispatches[id].task == w.runs[r].s.tasks[i].key
    requires EndedAs(w.runs[r].s.tasks[i], t.tasks[i], to, result)
    requires d == w.dispatches[id].(status := d.status, result := d.result, completedAt := d.completedAt)
    requires Shape(d) && !d.Active() && OutcomeMatches(t.tasks[i].Last(), d)
    ensures StepFits(w, r, i, id, d, t)
  {
    hide EntryInv, EndedAs, AttemptFenced, PendingUnique;
    var e := w.runs[r];
    assert RunDispatched(w.dispatches, r, e);
    assert DispatchOwned(w.runs, id, w.dispatches[id]);
    KeyPosition(r, e, i);
    var a, b := e.s.tasks[i], t.tasks[i];
    assert TaskOwns(a, id, w.dispatches[id]);
    NumbersOf(r, e, i);
    EndFences(w.dispatches, r, a, b, id, d, to, result);
    forall x | x in w.dispatches && x != id && w.dispatches[x].run == r
      && w.dispatches[x].task == a.key ensures TaskOwns(b, x, w.dispatches[x]) {
      OwnsHere(w, r, i, x);
      EndKeepsOthers(a, b, id, w.dispatches[id], x, w.dispatches[x], to, result);
    }
  }

  /** Only the dispatch of the attempt that ended was leased, and none was pending. */
  lemma EndKeepsOthers(a: TaskRun, b: TaskRun, id: DispatchID, leased: Dispatch, x: DispatchID, other: Dispatch,
      to: AttemptStatus, result: ExecutionResult)
    requires EndedAs(a, b, to, result) && TaskOwns(a, id, leased) && leased.status.DispatchLeased? && x != id
      && TaskOwns(a, x, other)
    ensures TaskOwns(b, x, other)
  {
  }

  lemma {:induction false} EndFences(ds: map<DispatchID, Dispatch>, r: RunID, a: TaskRun, b: TaskRun, id: DispatchID,
      d: Dispatch, to: AttemptStatus, result: ExecutionResult)
    requires TaskDispatched(ds, r, a) && id in ds && ds[id].status.DispatchLeased? && TaskOwns(a, id, ds[id])
      && EndedAs(a, b, to, result)
    requires forall n :: 0 <= n < |a.attempts| ==> a.attempts[n].number == n + 1
    requires d == ds[id].(status := d.status, result := d.result, completedAt := d.completedAt) && !d.Active()
    requires OutcomeMatches(b.Last(), d)
    ensures TaskDispatched(ds[id := d], r, b) && b.key == a.key && TaskOwns(b, id, d)
  {
    var ds' := ds[id := d];
    forall n | 0 <= n < |b.attempts| ensures AttemptFenced(ds', r, b.key, b.attempts[n]) {
      assert AttemptFenced(ds, r, a.key, a.attempts[n]);
    }
  }

  lemma {:induction false} TakenEnds(c: Compiled, s: RunSnapshot, t: RunSnapshot, i: nat, result: ExecutionResponse, now: Time)
    requires ValidCompiled(c) && Fits(s, c) && Fits(t, c) && i < c.Size() && |s.tasks[i].attempts| > 0
    requires ResultTaken(c, s, t, i, result, now)
    ensures EndedAs(s.tasks[i], t.tasks[i], if result.kind.ResultSuccess? then AttemptSucceeded
      else AttemptFailed, ResultOf(result))
  {
    hide SuccessReleased, SkippedWhere, ValidCompiled;
  }

  /** The result of the current attempt is always applied: a run that was never resumed refuses none. */
  lemma {:induction false} CompleteEntry(r: RunID, e: Entry, i: nat, number: int, result: ExecutionResponse, now: Time)
    requires EntryInv(r, e) && Runnable(e.s, e.c) && i < |e.s.tasks| && ActiveAttempt(e.s, i, number) && AcceptableResult(result)
    ensures var o := ApplyAttemptResult(e.s, e.c, i, number, result, now);
      && o.Applied? && EntryInv(r, e.(s := Saved(e.s, o.s))) && CS.Follows(e.s, Saved(e.s, o.s)) && OthersWaitOrStay(e.s, o.s, i)
      && EndedAs(e.s.tasks[i], o.s.tasks[i], if result.kind.ResultSuccess? then AttemptSucceeded
           else AttemptFailed, ResultOf(result))
      && ValidCompiled(e.c) && Fits(e.s, e.c) && Fits(o.s, e.c) && |e.s.tasks[i].attempts| > 0
      && ResultTaken(e.c, e.s, o.s, i, result, now) && Stamped(e.s, o.s, now)
  {
    hide Stamped, CS.Follows, Committed, ApplyAttemptResult, Saved, RunInv, OthersWaitOrStay, ResultTaken, EndedAs, LogTells,
      ValidCompiled, AllCounters;
    EntryRunnable(r, e);
    FreshResultAccepted(e.c, e.s, i, number, result, now);
    ResultKeeps(e.c, e.s, i, number, result, now);
    var t := ApplyAttemptResult(e.s, e.c, i, number, result, now).s;
    InvFits(e.c, e.s);
    InvFits(e.c, t);
    TakenEnds(e.c, e.s, t, i, result, now);
    EntryStep(r, e, Result(i, number, result, now));
  }

  function ExpiryStatus(timeout: bool): AttemptStatus { if timeout then AttemptTimedOut else AttemptInterrupted }

  function ExpiryResult(timeout: bool): ExecutionResult {
    if timeout then ExecutionResult("", "timeout", "execution timed out")
      else ExecutionResult("", "interrupted", "Worker lease expired")
  }

  /** What settling an expired lease does: its attempt is timed out if the deadline has passed and interrupted otherwise,
      its task is retried or failed, the dispatch is expired, and no other run or dispatch changes. */
  ghost predicate ExpirySettles(w: World, v: World, id: DispatchID, now: Time) {
    && id in w.dispatches && w.dispatches[id].lease.Some? && w.dispatches[id].run in w.runs && w.dispatches[id].run in v.runs
    && var d, e, t := w.dispatches[id], w.runs[w.dispatches[id].run], v.runs[w.dispatches[id].run].s;
       var i, timeout := TaskIndexByKey(e.s.tasks, d.task), d.lease.value.deadline <= now;
       && v == World(w.runs[d.run := Entry(e.c, t)], w.dispatches[id := Ended(d, DispatchExpired, now)], w.workers)
       && 0 <= i < e.c.Size() && Fits(e.s, e.c) && Fits(t, e.c) && |e.s.tasks[i].attempts| > 0
       && RetriedOrFailed(e.c, e.s, t, i, ExpiryStatus(timeout), ExpiryResult(timeout), now)
       && (e.s.row.cancelRequestedAt.Some? ==> t.row.cancelRequestedAt == e.s.row.cancelRequestedAt)
  }

  /** An expired attempt is always settled. */
  lemma {:induction false} ExpireEntry(r: RunID, e: Entry, i: nat, number: int, timeout: bool, now: Time)
    requires EntryInv(r, e) && Runnable(e.s, e.c) && i < |e.s.tasks| && ActiveAttempt(e.s, i, number)
    ensures var o := if timeout then TimeoutAttempt(e.s, e.c, i, number, now)
      else InterruptAttempt(e.s, e.c, i, number, now, "Worker lease expired");
      && o.Applied? && EntryInv(r, e.(s := Saved(e.s, o.s))) && CS.Follows(e.s, Saved(e.s, o.s)) && OthersWaitOrStay(e.s, o.s, i)
      && EndedAs(e.s.tasks[i], o.s.tasks[i], ExpiryStatus(timeout), ExpiryResult(timeout))
      && Fits(e.s, e.c) && Fits(o.s, e.c) && |e.s.tasks[i].attempts| > 0
      && RetriedOrFailed(e.c, e.s, o.s, i, ExpiryStatus(timeout), ExpiryResult(timeout), now)
      && Extends(e.s, o.s) && Stamped(e.s, o.s, now)
  {
    hide Stamped, CS.Follows, EntryInv, Extends, TimeoutAttempt, InterruptAttempt, Saved, RunInv, OthersWaitOrStay, SkippedWhere;
    EntryRunnable(r, e);
    if timeout {
      TimeoutKeeps(e.c, e.s, i, number, now);
      InvFits(e.c, TimeoutAttempt(e.s, e.c, i, number, now).s);
      assert Perform(e.c, e.s, Timeout(i, number, now)) == TimeoutAttempt(e.s, e.c, i, number, now);
      EntryStep(r, e, Timeout(i, number, now));
    } else {
      InterruptKeeps(e.c, e.s, i, number, now, "Worker lease expired");
      InvFits(e.c, InterruptAttempt(e.s, e.c, i, number, now, "Worker lease expired").s);
      assert Perform(e.c, e.s, Interrupt(i, number, now, "Worker lease expired")) ==
        InterruptAttempt(e.s, e.c, i, number, now, "Worker lease expired");
      EntryStep(r, e, Interrupt(i, number, now, "Worker lease expired"));
    }
  }

  /** A leased dispatch owns the running attempt of its task. */
  lemma {:induction false} LeasedOwns(w: World, id: DispatchID)
    requires WorldInv(w) && id in w.dispatches && w.dispatches[id].status.DispatchLeased?
    ensures var d := w.dispatches[id]; d.lease.Some? && d.run in w.runs
    ensures var d := w.dispatches[id]; var e := w.runs[d.run]; var i := TaskIndexByKey(e.s.tasks, d.task);
      && 0 <= i < |e.s.tasks| && e.s.tasks[i].key == d.task && e.s.row.status.WorkflowRunning? && Runnable(e.s, e.c)
      && OwnsAttempt(e.s.tasks[i], d.lease.value, id) && ActiveAttempt(e.s, i, d.lease.value.number)
  {
    hide CS.Follows, EntryInv, RunInv, TaskHistory;
    var d := w.dispatches[id];
    DispatchPosition(w, id);
    var e := w.runs[d.run];
    var i := TaskIndexByKey(e.s.tasks, d.task);
    EntryOf(w, d.run);
    EntryRunnable(d.run, e);
    LiveTaskMeansRunning(e.c, e.s, i);
    TaskOf(e.c, e.s, i);
    LastNumber(e.s.tasks[i], e.c.MaxAttempts(i));
    assert TaskDispatched(w.dispatches, d.run, e.s.tasks[i]);
    assert AttemptFenced(w.dispatches, d.run, e.s.tasks[i].key, e.s.tasks[i].Last());
  }

  /** The result is one of the protocol within its size limits, and the caller names the worker and the token that the
      dispatch was leased with. */
  ghost predicate Presented(w: World, worker: WorkerID, id: DispatchID, token: Token, result: ExecutionResponse) {
    && Protocol(result.kind) && |result.output| <= MAX_RESULT_OUTPUT_BYTES
    && |result.errorCode| <= MAX_RESULT_ERROR_CODE_BYTES && |result.errorMessage| <= MAX_RESULT_ERROR_MESSAGE_BYTES
    && id in w.dispatches && w.dispatches[id].lease.Some?
    && w.dispatches[id].lease.value.worker == worker && w.dispatches[id].lease.value.token == token
  }

  /** The dispatch is leased now, and nobody asked to cancel its run. */
  ghost predicate StillCurrent(w: World, id: DispatchID, now: Time)
    requires id in w.dispatches
  {
    var d := w.dispatches[id];
    StillLeased(d, now) && d.run in w.runs && w.runs[d.run].s.row.cancelRequestedAt.None?
  }

  /** What accepting a result does: the run takes the reported result on the task of the dispatch, the dispatch is completed
      with it, and no other run or dispatch changes. */
  ghost predicate CompletionSettles(w: World, v: World, id: DispatchID, result: ExecutionResponse, now: Time) {
    && id in w.dispatches && w.dispatches[id].run in w.runs && w.dispatches[id].run in v.runs
    && var d, e, t := w.dispatches[id], w.runs[w.dispatches[id].run], v.runs[w.dispatches[id].run].s;
       var i := TaskIndexByKey(e.s.tasks, d.task);
       && v == World(w.runs[d.run := Entry(e.c, t)],
            w.dispatches[id := d.(status := DispatchCompleted, completedAt := Some(now), result := Some(result))], w.workers)
       && ValidCompiled(e.c) && 0 <= i < e.c.Size() && Fits(e.s, e.c) && Fits(t, e.c) && |e.s.tasks[i].attempts| > 0
       && ResultTaken(e.c, e.s, t, i, result, now)
  }

  /** Exactly which completions do what: a current lease of an uncanceled run is applied, a replay changes nothing, a
      different result conflicts, and everything else has lost its lease. The kernel itself never refuses. */
  lemma {:induction false} CompleteExact(w: World, worker: WorkerID, id: DispatchID, token: Token,
      result: ExecutionResponse, now: Time)
    requires WorldInv(w)
    ensures var o := CompleteOne(w, worker, id, token, result, now);
      var presented := Presented(w, worker, id, token, result);
      && (o.Moved? ==> WorldInv(o.w) && CompletionSettles(w, o.w, id, result, now))
      && (o.Moved? <==> presented && StillCurrent(w, id, now))
      && (o.Same? <==> presented && w.dispatches[id].status.DispatchCompleted? && w.dispatches[id].result == Some(result))
      && (o == Moved.Refused(ResultConflict)
          <==> presented && w.dispatches[id].status.DispatchCompleted? && w.dispatches[id].result != Some(result))
      && (o.Refused? ==> o.error == InvalidResult || o.error == LeaseLost || o.error == ResultConflict)
  {
    hide CS.Follows, EntryInv, WorldInv, RunDispatched, ApplyAttemptResult, Saved, Runnable, StepFits, DispatchOwned,
      OthersWaitOrStay, EndedAs, OwnsAttempt, ActiveAttempt, ResultTaken, Extends, ValidCompiled;
    if id in w.dispatches {
      PresentID(w, id);
      var d := w.dispatches[id];
      if AcceptableResult(result) && Holds(d, worker, token) && Unexpired(d, now) {
        LeasedOwns(w, id);
        EntryOf(w, d.run);
        var r, e := d.run, w.runs[d.run];
        var i := TaskIndexByKey(e.s.tasks, d.task);
        CompleteEntry(r, e, i, d.lease.value.number, result, now);
        var t := ApplyAttemptResult(e.s, e.c, i, d.lease.value.number, result, now).s;
        CompletedDispatch(w, r, i, id, result, now, t);
        TakenSaved(e.c, e.s, t, i, result, now);
      }
    }
  }

  lemma {:induction false} CompletedDispatch(w: World, r: RunID, i: nat, id: DispatchID, result: ExecutionResponse,
      now: Time, t: RunSnapshot)
    requires WorldInv(w) && r in w.runs && i < |w.runs[r].s.tasks| && id in w.dispatches
    requires w.dispatches[id].status.DispatchLeased? && w.dispatches[id].run == r
      && w.dispatches[id].task == w.runs[r].s.tasks[i].key
    requires EntryInv(r, w.runs[r].(s := Saved(w.runs[r].s, t))) && OthersWaitOrStay(w.runs[r].s, t, i)
    requires EndedAs(w.runs[r].s.tasks[i], t.tasks[i], if result.kind.ResultSuccess? then AttemptSucceeded
      else AttemptFailed, ResultOf(result))
    ensures WorldInv(PutDispatch(PutRun(w, r, t), id, Ended(w.dispatches[id], DispatchCompleted, now).(result := Some(result))))
  {
    hide CS.Follows, EntryInv, WorldInv, Saved, DispatchOwned, StepFits;
    PresentID(w, id);
    SavedTasks(w.runs[r].s, t);
    var d := Ended(w.dispatches[id], DispatchCompleted, now).(result := Some(result));
    EndFits(w, r, i, id, d, if result.kind.ResultSuccess? then AttemptSucceeded
      else AttemptFailed, ResultOf(result), Saved(w.runs[r].s, t));
    StepKeepsWorld(w, r, i, id, d, Saved(w.runs[r].s, t));
  }

  /** An expired lease always owns the current attempt: it is settled, as a timeout exactly when the deadline has passed. */
  lemma {:induction false} ExpireExact(w: World, id: DispatchID, now: Time)
    requires WorldInv(w)
    ensures var o := ExpireOne(w, id, now);
      && !o.Refused? && (o.Moved? ==> WorldInv(o.w) && ExpirySettles(w, o.w, id, now))
      && (o.Moved? <==> id in w.dispatches && w.dispatches[id].status.DispatchLeased? && !StillLeased(w.dispatches[id], now))
  {
    hide CS.Follows, EntryInv, WorldInv, RunDispatched, TimeoutAttempt, InterruptAttempt, Saved, Runnable, StepFits,
      DispatchOwned, OthersWaitOrStay, EndedAs, OwnsAttempt, ActiveAttempt, Extends, RetriedOrFailed, SkippedWhere;
    if id in w.dispatches {
      PresentID(w, id);
      var d := w.dispatches[id];
      if d.status.DispatchLeased? && !Unexpired(d, now) {
        LeasedOwns(w, id);
        EntryOf(w, d.run);
        var r, e := d.run, w.runs[d.run];
        var i := TaskIndexByKey(e.s.tasks, d.task);
        var timeout := d.lease.value.deadline <= now;
        ExpireEntry(r, e, i, d.lease.value.number, timeout, now);
        var t := if timeout then TimeoutAttempt(e.s, e.c, i, d.lease.value.number, now).s
                 else InterruptAttempt(e.s, e.c, i, d.lease.value.number, now, "Worker lease expired").s;
        ExpiredDispatch(w, r, i, id, timeout, now, t);
        RetriedSaved(e.c, e.s, t, i, ExpiryStatus(timeout), ExpiryResult(timeout), now);
        RequestStands(e.s, t);
      }
    }
  }

  lemma RequestStands(s: RunSnapshot, t: RunSnapshot)
    requires Extends(s, t)
    ensures s.row.cancelRequestedAt.Some? ==> Saved(s, t).row.cancelRequestedAt == s.row.cancelRequestedAt
  {
  }

  lemma {:induction false} ExpiredDispatch(w: World, r: RunID, i: nat, id: DispatchID, timeout: bool, now: Time, t: RunSnapshot)
    requires WorldInv(w) && r in w.runs && i < |w.runs[r].s.tasks| && id in w.dispatches
    requires w.dispatches[id].status.DispatchLeased? && w.dispatches[id].run == r
      && w.dispatches[id].task == w.runs[r].s.tasks[i].key
    requires EntryInv(r, w.runs[r].(s := Saved(w.runs[r].s, t))) && OthersWaitOrStay(w.runs[r].s, t, i)
    requires EndedAs(w.runs[r].s.tasks[i], t.tasks[i], ExpiryStatus(timeout), ExpiryResult(timeout))
    ensures WorldInv(PutDispatch(PutRun(w, r, t), id, Ended(w.dispatches[id], DispatchExpired, now)))
  {
    hide CS.Follows, EntryInv, WorldInv, Saved, DispatchOwned, StepFits;
    PresentID(w, id);
    SavedTasks(w.runs[r].s, t);
    var d := Ended(w.dispatches[id], DispatchExpired, now);
    EndFits(w, r, i, id, d, t.tasks[i].Last().status, t.tasks[i].Last().result, Saved(w.runs[r].s, t));
    StepKeepsWorld(w, r, i, id, d, Saved(w.runs[r].s, t));
  }

  // ---------- cancellation ----------

  lemma {:induction false} CancelEntry(r: RunID, e: Entry, now: Time)
    requires EntryInv(r, e) && !WorkflowTerminal(e.s.row.status)
    ensures var o := CancelRun(e.s, now);
      && o.Applied? && EntryInv(r, e.(s := Saved(e.s, o.s))) && CS.Follows(e.s, Saved(e.s, o.s)) && |o.s.tasks| == |e.s.tasks|
      && Extends(e.s, o.s) && Stamped(e.s, o.s, now)
      && forall j :: 0 <= j < |e.s.tasks| ==> o.s.tasks[j] == CanceledTask(e.s.tasks[j], now)
  {
    hide Stamped, CS.Follows, EntryInv, CancelRun, Saved, RunInv, Extends;
    EntryRunnable(r, e);
    CancelKeeps(e.c, e.s, now);
    assert Perform(e.c, e.s, Cancel(now)) == CancelRun(e.s, now);
    EntryStep(r, e, Cancel(now));
    InvFits(e.c, CancelRun(e.s, now).s);
  }

  /** A canceled task after its run's dispatches were revoked. */
  lemma {:induction false} CanceledDispatched(ds: map<DispatchID, Dispatch>, r: RunID, a: TaskRun, max: int, now: Time)
    requires TaskDispatched(ds, r, a) && TaskHistory(a, max)
    ensures TaskDispatched(Revoked(ds, r, now), r, CanceledTask(a, now))
  {
    var b, ds' := CanceledTask(a, now), Revoked(ds, r, now);
    forall n | 0 <= n < |b.attempts| ensures AttemptFenced(ds', r, b.key, b.attempts[n]) {
      assert AttemptFenced(ds, r, a.key, a.attempts[n]);
      assert a.attempts[n].status.AttemptRunning? ==> n == |a.attempts| - 1;
    }
  }

  lemma {:induction false} CanceledOwns(a: TaskRun, id: DispatchID, d: Dispatch, now: Time)
    requires TaskOwns(a, id, d) && Shape(d)
    ensures TaskOwns(CanceledTask(a, now), id, if d.Active() then Ended(d, DispatchCanceled, now) else d)
    ensures Shape(if d.Active() then Ended(d, DispatchCanceled, now) else d)
  {
  }

  lemma {:induction false} OtherRunRevoked(ds: map<DispatchID, Dispatch>, q: RunID, r: RunID, t: TaskRun, now: Time)
    requires TaskDispatched(ds, q, t) && q != r
    ensures TaskDispatched(Revoked(ds, r, now), q, t)
  {
    var ds' := Revoked(ds, r, now);
    if t.status.TaskQueued? {
      var id :| id in ds && PendingFor(ds[id], q, t.key);
      assert id in ds' && PendingFor(ds'[id], q, t.key);
    }
    forall n | 0 <= n < |t.attempts| ensures AttemptFenced(ds', q, t.key, t.attempts[n]) {
      assert AttemptFenced(ds, q, t.key, t.attempts[n]);
    }
  }

  lemma {:induction false} RevokedWorld(w: World, r: RunID, t: RunSnapshot, now: Time)
    requires WorldInv(w) && r in w.runs && EntryInv(r, w.runs[r].(s := t)) && |t.tasks| == |w.runs[r].s.tasks|
    requires forall j :: 0 <= j < |t.tasks| ==> t.tasks[j] == CanceledTask(w.runs[r].s.tasks[j], now)
    ensures WorldInv(w.(runs := w.runs[r := w.runs[r].(s := t)], dispatches := Revoked(w.dispatches, r, now)))
  {
    hide Shape, AttemptFenced, TaskDispatched, TaskOwns, FreshInv, Committed, Revoked;
    var e, ds', runs' := w.runs[r], Revoked(w.dispatches, r, now), w.runs[r := w.runs[r].(s := t)];
    EntryOf(w, r);
    RevokedRows(w.dispatches, r, now);
    forall q | q in runs' ensures RunDispatched(ds', q, runs'[q]) {
      assert RunDispatched(w.dispatches, q, w.runs[q]);
      forall j | 0 <= j < |runs'[q].s.tasks| ensures TaskDispatched(ds', q, runs'[q].s.tasks[j]) {
        if q == r {
          EntryRunnable(r, e);
          TaskOf(e.c, e.s, j);
          CanceledDispatched(w.dispatches, r, e.s.tasks[j], e.c.MaxAttempts(j), now);
        } else {
          OtherRunRevoked(w.dispatches, q, r, w.runs[q].s.tasks[j], now);
        }
      }
    }
    forall x | x in ds' ensures DispatchOwned(runs', x, ds'[x]) {
      RevokedOwned(w, r, t, x, now);
    }
    RevokedUnique(w.dispatches, r, now);
  }

  lemma {:induction false} RevokedOwned(w: World, r: RunID, t: RunSnapshot, x: DispatchID, now: Time)
    requires WorldInv(w) && r in w.runs && |t.tasks| == |w.runs[r].s.tasks| && x in w.dispatches
      && x in Revoked(w.dispatches, r, now)
    requires forall j :: 0 <= j < |t.tasks| ==> t.tasks[j] == CanceledTask(w.runs[r].s.tasks[j], now)
    ensures DispatchOwned(w.runs[r := w.runs[r].(s := t)], x, Revoked(w.dispatches, r, now)[x])
  {
    hide Shape, TaskOwns, EntryInv, CanceledTask, Revoked;
    var e, d := w.runs[r], w.dispatches[x];
    RevokedRows(w.dispatches, r, now);
    assert DispatchOwned(w.runs, x, d);
    if d.run == r {
      EntryOf(w, r);
      IndexNames(r, e, d.task);
      CanceledOwns(e.s.tasks[e.c.index[d.task]], x, d, now);
    }
  }

  lemma RevokedUnique(ds: map<DispatchID, Dispatch>, r: RunID, now: Time)
    requires PendingUnique(ds)
    ensures PendingUnique(Revoked(ds, r, now))
  {
    hide Revoked;
    RevokedRows(ds, r, now);
  }

  lemma RevokedRows(ds: map<DispatchID, Dispatch>, r: RunID, now: Time)
    ensures Revoked(ds, r, now).Keys == ds.Keys
    ensures forall x :: x in ds && (ds[x].run != r || !ds[x].Active()) ==> Revoked(ds, r, now)[x] == ds[x]
    ensures forall x :: x in ds && ds[x].run == r && ds[x].Active() ==>
      Revoked(ds, r, now)[x] == Ended(ds[x], DispatchCanceled, now)
  {
  }

  /** A requested cancellation always goes through, ends the run and every dispatch of it, and touches no other run. */
  lemma {:induction false} CancelExact(w: World, r: RunID, now: Time)
    requires WorldInv(w)
    ensures var o := CancelOne(w, r, now);
      && (o.Moved? <==> r in w.runs && !WorkflowTerminal(w.runs[r].s.row.status) && w.runs[r].s.row.cancelRequestedAt.Some?)
      && (o.Refused? ==> o.error == DispatchError.RunNotFound || o.error == NotRequested)
      && (o.Moved? ==> WorldInv(o.w) && RunRevoked(w, o.w, r, now))
  {
    hide CS.Follows, EntryInv, WorldInv, RunDispatched, CancelRun, Saved, Revoked, Runnable, RunRevoked, Extends, Stamped,
      CanceledTask;
    if r in w.runs && !WorkflowTerminal(w.runs[r].s.row.status) && w.runs[r].s.row.cancelRequestedAt.Some? {
      EntryOf(w, r);
      var e := w.runs[r];
      CancelEntry(r, e, now);
      var t := CancelRun(e.s, now).s;
      SavedTasks(e.s, t);
      RevokedWorld(w, r, Saved(e.s, t), now);
      CanceledStatus(e.s, now);
      RevokedExactly(w, r, Saved(e.s, t), now);
    }
  }

  lemma {:induction false} RevokedExactly(w: World, r: RunID, t: RunSnapshot, now: Time)
    requires r in w.runs && |t.tasks| == |w.runs[r].s.tasks| && t.row.status.WorkflowCanceled?
    requires forall j :: 0 <= j < |t.tasks| ==> t.tasks[j] == CanceledTask(w.runs[r].s.tasks[j], now)
    ensures RunRevoked(w, w.(runs := w.runs[r := w.runs[r].(s := t)], dispatches := Revoked(w.dispatches, r, now)), r, now)
  {
    hide Revoked, CanceledTask;
    RevokedRows(w.dispatches, r, now);
  }

  lemma CanceledStatus(s: RunSnapshot, now: Time)
    requires CancelRun(s, now).Applied?
    ensures CancelRun(s, now).s.row.status.WorkflowCanceled?
  {
  }

  /** Run `r` and its unfinished tasks are canceled, its active dispatches end as canceled; nothing else differs. */
  ghost predicate RunRevoked(w: World, v: World, r: RunID, now: Time) {
    && r in w.runs && r in v.runs && v.runs[r].s.row.status.WorkflowCanceled?
    && |v.runs[r].s.tasks| == |w.runs[r].s.tasks|
    && (forall j :: 0 <= j < |w.runs[r].s.tasks| ==> v.runs[r].s.tasks[j] == CanceledTask(w.runs[r].s.tasks[j], now))
    && v.runs.Keys == w.runs.Keys && (forall q :: q in w.runs && q != r ==> v.runs[q] == w.runs[q])
    && v.dispatches.Keys == w.dispatches.Keys && v.workers == w.workers
    && (forall x :: x in v.dispatches && v.dispatches[x].run == r ==> !v.dispatches[x].Active())
    && forall x :: x in w.dispatches ==> v.dispatches[x] == IfRevoked(w.dispatches[x], r, now)
  }

  ghost function IfRevoked(d: Dispatch, r: RunID, now: Time): Dispatch {
    if d.run == r && (d.status.DispatchPending? || d.status.DispatchLeased?)
    then d.(status := DispatchCanceled, completedAt := Some(now)) else d
  }

  // ---------- workers ----------

  lemma WorkersKeepWorld(w: World, workers: map<WorkerID, Worker>)
    requires WorldInv(w)
    ensures WorldInv(w.(workers := workers))
  {
    hide CS.Follows, EntryInv, Shape, AttemptFenced, TaskDispatched, TaskOwns;
    var v := w.(workers := workers);
    forall r | r in v.runs ensures RunDispatched(v.dispatches, r, v.runs[r]) {}
    forall x | x in v.dispatches ensures DispatchOwned(v.runs, x, v.dispatches[x]) {}
  }
}
