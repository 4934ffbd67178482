/** Ownership: tasks and dispatches agree at every moment, and every attempt is fenced by exactly one dispatch. */
module DispatchInvariant {
  import opened Domain
  import opened Graph
  import opened Compiler
  import opened ResumeSteps
  import opened RunInvariant
  import opened RunResults
  import opened SavedRuns
  import opened RunLogs
  import opened DispatchModel

  // ---------- the invariant ----------

  ghost predicate EntryInv(r: RunID, e: Entry) {
    && FreshInv(e.c, e.s) && Committed(e.c, e.s) && Adjacent(e.c) && LogTells(e.c, e.s)
    && e.s.row.id == r && r != "" && e.s.definition == e.c.definition
  }

  /** The columns each status allows. */
  predicate Shape(d: Dispatch) {
    && (d.lease.Some? ==> d.lease.value.expiresAt <= d.lease.value.deadline && d.lease.value.worker != "")
    && match d.status
       case DispatchPending => d.lease.None? && d.result.None? && d.completedAt.None?
       case DispatchLeased => d.lease.Some? && d.result.None? && d.completedAt.None?
       case DispatchCompleted => d.lease.Some? && d.result.Some? && d.completedAt.Some?
       case DispatchExpired => d.lease.Some? && d.result.None? && d.completedAt.Some?
       case DispatchCanceled => d.result.None? && d.completedAt.Some?
  }

  /** How an attempt ended is how its dispatch ended. */
  predicate OutcomeMatches(a: Attempt, d: Dispatch) {
    match a.status
    case AttemptRunning => d.status.DispatchLeased?
    case AttemptSucceeded => d.status.DispatchCompleted? && d.result.Some? && d.result.value.kind.ResultSuccess?
      && a.result == ResultOf(d.result.value)
    case AttemptFailed => d.status.DispatchCompleted? && d.result.Some? && !d.result.value.kind.ResultSuccess?
      && a.result == ResultOf(d.result.value)
    case AttemptTimedOut => d.status.DispatchExpired?
    case AttemptInterrupted => d.status.DispatchExpired?
    case AttemptCanceled => d.status.DispatchCanceled?
  }

  /** The dispatch that started the attempt: same task, same worker, same number, matching outcome. */
  ghost predicate AttemptFenced(ds: map<DispatchID, Dispatch>, r: RunID, key: TaskKey, a: Attempt) {
    && a.dispatchID in ds
    && var d := ds[a.dispatchID];
       && d.run == r && d.task == key && d.lease.Some?
       && d.lease.value.worker == a.workerID && d.lease.value.number == a.number
       && OutcomeMatches(a, d)
  }

  predicate PendingFor(d: Dispatch, r: RunID, key: TaskKey) {
    d.status.DispatchPending? && d.run == r && d.task == key
  }

  /** From the task: a queued one has a pending dispatch, and every attempt is fenced. */
  ghost predicate TaskDispatched(ds: map<DispatchID, Dispatch>, r: RunID, t: TaskRun) {
    && (t.status.TaskQueued? ==> exists id :: id in ds && PendingFor(ds[id], r, t.key))
    && (forall n :: 0 <= n < |t.attempts| ==> AttemptFenced(ds, r, t.key, t.attempts[n]))
  }

  /** From the dispatch: pending means queued, leased means it started the attempt that is running. */
  predicate TaskOwns(t: TaskRun, id: DispatchID, d: Dispatch) {
    && (d.status.DispatchPending? ==> t.status.TaskQueued?)
    && (d.lease.Some? ==> 1 <= d.lease.value.number <= |t.attempts| && t.attempts[d.lease.value.number - 1].dispatchID == id)
    && (d.status.DispatchLeased? ==> d.lease.Some? && d.lease.value.number == |t.attempts| && t.status.TaskRunning?)
  }

  ghost predicate DispatchOwned(runs: map<RunID, Entry>, id: DispatchID, d: Dispatch) {
    && id != "" && Shape(d) && d.run in runs
    && var e := runs[d.run];
       && d.task in e.c.index && e.c.index[d.task] < |e.s.tasks| == e.c.Size()
       && d.kind == e.c.definition.tasks[e.c.index[d.task]].executor
       && TaskOwns(e.s.tasks[e.c.index[d.task]], id, d)
  }

  ghost predicate PendingUnique(ds: map<DispatchID, Dispatch>) {
    forall a, b :: a in ds && b in ds && ds[a].status.DispatchPending? && PendingFor(ds[b], ds[a].run, ds[a].task) ==> a == b
  }

  ghost predicate RunDispatched(ds: map<DispatchID, Dispatch>, r: RunID, e: Entry) {
    EntryInv(r, e) && forall i :: 0 <= i < |e.s.tasks| ==> TaskDispatched(ds, r, e.s.tasks[i])
  }

  ghost predicate WorldInv(w: World) {
    && (forall r :: r in w.runs ==> RunDispatched(w.dispatches, r, w.runs[r]))
    && (forall id :: id in w.dispatches ==> DispatchOwned(w.runs, id, w.dispatches[id]))
    && PendingUnique(w.dispatches)
  }

  // ---------- positions and keys ----------

  lemma {:induction false} KeyPosition(r: RunID, e: Entry, i: nat)
    requires EntryInv(r, e) && i < |e.s.tasks|
    ensures |e.s.tasks| == e.c.Size() && e.s.tasks[i].key in e.c.index && e.c.index[e.s.tasks[i].key] == i
    ensures TaskIndexByKey(e.s.tasks, e.s.tasks[i].key) == i
    ensures forall j :: 0 <= j < |e.s.tasks| && j != i ==> e.s.tasks[j].key != e.s.tasks[i].key
  {
    hide NodeAgrees, Unsucceeded, TaskHistory, Ranked, Transposes;
    forall j | 0 <= j < |e.s.tasks| ensures e.s.tasks[j].key == e.c.definition.tasks[j].key && e.c.index[e.s.tasks[j].key] == j {}
  }

  lemma {:induction false} DispatchPosition(w: World, id: DispatchID)
    requires WorldInv(w) && id in w.dispatches
    ensures var d := w.dispatches[id]; d.run in w.runs && var e := w.runs[d.run]; var i := TaskIndexByKey(e.s.tasks, d.task);
      0 <= i < |e.s.tasks| && e.s.tasks[i].key == d.task && e.c.index[d.task] == i && TaskOwns(e.s.tasks[i], id, d)
  {
    hide FreshInv, Committed, ValidCompiled;
    var d := w.dispatches[id];
    assert DispatchOwned(w.runs, id, d);
    var e := w.runs[d.run];
    assert RunDispatched(w.dispatches, d.run, e);
    IndexNames(d.run, e, d.task);
    KeyPosition(d.run, e, e.c.index[d.task]);
  }

  lemma {:induction false} IndexNames(r: RunID, e: Entry, key: TaskKey)
    requires EntryInv(r, e) && key in e.c.index
    ensures |e.s.tasks| == e.c.Size() && e.c.index[key] < |e.s.tasks| && e.s.tasks[e.c.index[key]].key == key
  {
    hide NodeAgrees, Unsucceeded, TaskHistory, Ranked, Transposes;
    var i := e.c.index[key];
    assert e.c.definition.tasks[i].key == key;
    assert e.s.tasks[i].key == e.c.definition.tasks[i].key;
  }

  // ---------- one task and one dispatch change ----------

  /** Task `j` stayed, or left waiting without being queued or started. */
  ghost predicate Bystanders(s: RunSnapshot, t: RunSnapshot, i: nat) {
    |t.tasks| == |s.tasks| && forall j :: 0 <= j < |s.tasks| && j != i ==>
      t.tasks[j] == s.tasks[j] || LeftWaiting(s.tasks[j], t.tasks[j])
  }

  /** The dispatches of other tasks, seen from their tasks. */
  lemma {:induction false} BystanderDispatched(ds: map<DispatchID, Dispatch>, ds': map<DispatchID, Dispatch>, r: RunID,
      a: TaskRun, b: TaskRun)
    requires TaskDispatched(ds, r, a) && (b == a || LeftWaiting(a, b))
    requires forall id :: id in ds && ds[id].run == r && ds[id].task == a.key ==> id in ds' && ds'[id] == ds[id]
    ensures TaskDispatched(ds', r, b)
  {
    if b.status.TaskQueued? {
      var id :| id in ds && PendingFor(ds[id], r, a.key);
      assert id in ds' && PendingFor(ds'[id], r, b.key);
    }
    forall n | 0 <= n < |b.attempts| ensures AttemptFenced(ds', r, b.key, b.attempts[n]) {
      assert AttemptFenced(ds, r, a.key, a.attempts[n]);
    }
  }

  lemma {:induction false} BystanderOwns(a: TaskRun, b: TaskRun, id: DispatchID, d: Dispatch)
    requires TaskOwns(a, id, d) && (b == a || LeftWaiting(a, b))
    ensures TaskOwns(b, id, d)
  {
  }

  /** What a step on task `i` of run `r` has to get right: its task and its dispatch `id`. */
  ghost predicate StepFits(w: World, r: RunID, i: nat, id: DispatchID, d: Dispatch, t: RunSnapshot)
    requires r in w.runs && i < |w.runs[r].s.tasks| && |t.tasks| == |w.runs[r].s.tasks|
  {
    var e := w.runs[r];
    && d.run == r && d.task == e.s.tasks[i].key && id != "" && Shape(d) && t.tasks[i].key == e.s.tasks[i].key
    && i < e.c.Size() && d.kind == e.c.definition.tasks[i].executor
    && (id in w.dispatches ==> w.dispatches[id].run == r && w.dispatches[id].task == e.s.tasks[i].key)
    && TaskDispatched(w.dispatches[id := d], r, t.tasks[i])
    && TaskOwns(t.tasks[i], id, d)
    && (forall x :: x in w.dispatches && x != id && w.dispatches[x].run == r && w.dispatches[x].task == e.s.tasks[i].key ==>
          TaskOwns(t.tasks[i], x, w.dispatches[x]))
    && (d.status.DispatchPending? ==>
          forall x :: x in w.dispatches && x != id ==> !PendingFor(w.dispatches[x], r, e.s.tasks[i].key))
  }

  lemma {:induction false} StepRunDispatched(w: World, r: RunID, i: nat, id: DispatchID, d: Dispatch, t: RunSnapshot)
    requires WorldInv(w) && r in w.runs && i < |w.runs[r].s.tasks| && Bystanders(w.runs[r].s, t, i)
    requires EntryInv(r, w.runs[r].(s := t)) && StepFits(w, r, i, id, d, t)
    ensures RunDispatched(w.dispatches[id := d], r, w.runs[r].(s := t))
  {
    hide EntryInv, Shape, AttemptFenced, DispatchOwned, PendingUnique, TaskOwns;
    var e, ds' := w.runs[r], w.dispatches[id := d];
    assert RunDispatched(w.dispatches, r, e);
    KeyPosition(r, e, i);
    forall j | 0 <= j < |t.tasks| ensures TaskDispatched(ds', r, t.tasks[j]) {
      if j != i { BystanderDispatched(w.dispatches, ds', r, e.s.tasks[j], t.tasks[j]); }
    }
  }

  lemma {:induction false} StepOwned(w: World, r: RunID, i: nat, id: DispatchID, d: Dispatch, t: RunSnapshot, x: DispatchID)
    requires WorldInv(w) && r in w.runs && i < |w.runs[r].s.tasks| && Bystanders(w.runs[r].s, t, i)
    requires EntryInv(r, w.runs[r].(s := t)) && StepFits(w, r, i, id, d, t)
    requires x == id || x in w.dispatches
    ensures DispatchOwned(w.runs[r := w.runs[r].(s := t)], x, w.dispatches[id := d][x])
  {
    hide EntryInv, Shape, AttemptFenced, PendingUnique, TaskOwns, TaskDispatched;
    var e := w.runs[r];
    assert RunDispatched(w.dispatches, r, e);
    KeyPosition(r, e, i);
    if x != id {
      var dx := w.dispatches[x];
      assert DispatchOwned(w.runs, x, dx);
      if dx.run == r {
        var j := e.c.index[dx.task];
        IndexNames(r, e, dx.task);
        if j != i { BystanderOwns(e.s.tasks[j], t.tasks[j], x, dx); }
      }
    }
  }

  /** A step on one task and one dispatch keeps the invariant of the whole world. */
  lemma {:induction false} StepKeepsWorld(w: World, r: RunID, i: nat, id: DispatchID, d: Dispatch, t: RunSnapshot)
    requires WorldInv(w) && r in w.runs && i < |w.runs[r].s.tasks| && Bystanders(w.runs[r].s, t, i)
    requires EntryInv(r, w.runs[r].(s := t)) && StepFits(w, r, i, id, d, t)
    ensures WorldInv(w.(runs := w.runs[r := w.runs[r].(s := t)], dispatches := w.dispatches[id := d]))
  {
    hide EntryInv, Shape, AttemptFenced, TaskOwns, TaskDispatched, DispatchOwned;
    var ds', runs' := w.dispatches[id := d], w.runs[r := w.runs[r].(s := t)];
    StepRunDispatched(w, r, i, id, d, t);
    forall q | q in runs' ensures RunDispatched(ds', q, runs'[q]) {
      if q != r { OtherRunDispatched(w, q, r, id, d); }
    }
    forall x | x in ds' ensures DispatchOwned(runs', x, ds'[x]) {
      StepOwned(w, r, i, id, d, t, x);
    }
  }

  lemma {:induction false} OtherRunDispatched(w: World, q: RunID, r: RunID, id: DispatchID, d: Dispatch)
    requires WorldInv(w) && q in w.runs && q != r && d.run == r && (id in w.dispatches ==> w.dispatches[id].run == r)
    ensures RunDispatched(w.dispatches[id := d], q, w.runs[q])
  {
    hide EntryInv, Shape, DispatchOwned, PendingUnique;
    var e, ds' := w.runs[q], w.dispatches[id := d];
    assert RunDispatched(w.dispatches, q, e);
    forall j | 0 <= j < |e.s.tasks| ensures TaskDispatched(ds', q, e.s.tasks[j]) {
      BystanderDispatched(w.dispatches, ds', q, e.s.tasks[j], e.s.tasks[j]);
    }
  }
}
