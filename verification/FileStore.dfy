/** The snapshot store: one file per run, replaced under a compare-and-swap on the revision. Racing writers never
    overwrite each other, and a recorded cancellation request is never lost. */
module FileStore {
  import opened Domain
  import opened Steps
  import opened ResumeSteps
  import opened RunInvariant
  import opened RunResults
  import opened RunTheorems
  import opened ResumedRuns
  import opened SavedRuns
  import CS = ChangeSets

  datatype FileError = InvalidRunID | RunExists | RunNotFound | WrongRunID | NotApplied(reason: CS.ApplyError)

  /** Run ids that name a single file in the directory. */
  predicate ValidPath(id: RunID) {
    id != "" && id != "." && id != ".." && forall k :: 0 <= k < |id| ==> id[k] != '/' && id[k] != '\\'
  }

  class Store {
    var files: map<RunID, RunSnapshot>

    /** Every file holds the run it is named after. */
    ghost predicate Valid() reads this {
      forall id :: id in files ==> ValidPath(id) && files[id].row.id == id
    }

    constructor ()
      ensures Valid() && files == map[]
    {
      files := map[];
    }

    method Load(id: RunID) returns (snapshot: Option<RunSnapshot>, err: Option<FileError>)
      requires Valid()
      ensures err.None? <==> id in files
      ensures err.None? ==> snapshot == Some(files[id])
      ensures err != Some(WrongRunID)
    {
      if !ValidPath(id) { return None, Some(InvalidRunID); }
      if id !in files { return None, Some(RunNotFound); }
      if files[id].row.id != id { return None, Some(WrongRunID); }
      return Some(files[id]), None;
    }

    method Create(snapshot: RunSnapshot) returns (err: Option<FileError>)
      requires Valid()
      modifies this
      ensures Valid()
      ensures err.None? <==> ValidPath(snapshot.row.id) && snapshot.row.id !in old(files)
      ensures files == if err.None? then old(files)[snapshot.row.id := snapshot] else old(files)
    {
      var id := snapshot.row.id;
      if !ValidPath(id) { return Some(InvalidRunID); }
      if id in files { return Some(RunExists); }
      files := files[id := snapshot];
      return None;
    }

    /** The plain replacement of the first store generation; it compares nothing. */
    method Save(snapshot: RunSnapshot) returns (err: Option<FileError>)
      requires Valid()
      modifies this
      ensures Valid()
      ensures err.None? <==> snapshot.row.id in old(files)
      ensures files == if err.None? then old(files)[snapshot.row.id := snapshot] else old(files)
    {
      var id := snapshot.row.id;
      if !ValidPath(id) { return Some(InvalidRunID); }
      if id !in files { return Some(RunNotFound); }
      files := files[id := snapshot];
      return None;
    }

    /** Compare-and-swap: the change set is applied to the stored snapshot or nothing happens. */
    method Apply(change: CS.ChangeSet) returns (err: Option<FileError>)
      requires Valid()
      modifies this
      ensures Valid()
      ensures err.None? <==> change.run in old(files) && CS.Apply(old(files)[change.run], change).Ok?
      ensures files == if err.None? then old(files)[change.run := CS.Apply(old(files)[change.run], change).s] else old(files)
      ensures change.run in old(files) && change.expected != old(files)[change.run].row.revision ==>
        err == Some(NotApplied(CS.RevisionConflict))
    {
      var id := change.run;
      if !ValidPath(id) { return Some(InvalidRunID); }
      if id !in files { return Some(RunNotFound); }
      if files[id].row.revision != change.expected { return Some(NotApplied(CS.RevisionConflict)); }
      var after := CS.ApplyChangeSet(files[id], change);
      if after.Err? { return Some(NotApplied(after.error)); }
      files := files[id := after.s];
      return None;
    }

    /** Records the first cancellation request of an unfinished run. */
    method RequestCancel(id: RunID, at: Time) returns (row: Option<RunRow>, err: Option<FileError>)
      requires Valid()
      modifies this
      ensures Valid()
      ensures err.None? <==> id in old(files)
      ensures err.Some? ==> files == old(files)
      ensures err.None? ==> files == old(files)[id := RequestedSnapshot(old(files)[id], at)] && row == Some(files[id].row)
    {
      if !ValidPath(id) { return None, Some(InvalidRunID); }
      if id !in files { return None, Some(RunNotFound); }
      var snapshot := files[id];
      if WorkflowTerminal(snapshot.row.status) { return Some(snapshot.row), None; }
      if snapshot.row.cancelRequestedAt.Some? { return Some(snapshot.row), None; }
      snapshot := snapshot.(row := snapshot.row.(cancelRequestedAt := Some(at), revision := snapshot.row.revision + 1));
      files := files[id := snapshot];
      return Some(snapshot.row), None;
    }
  }

  // ---------- racing writers ----------

  /** What reaches the store: a cancellation request, or the commit of a writer that loaded the version `base` of the run. */
  datatype StoreOp = Request(at: Time) | Write(base: nat, step: LocalStep)

  /** One file under racing writers. A writer computes its step on some version it read earlier; having read a recorded
      cancellation request it only cancels. The store applies the change set to what it holds, or refuses it. */
  ghost predicate IsHistory(c: Compiled, versions: seq<RunSnapshot>, ops: seq<StoreOp>)
    requires Adjacent(c)
  {
    && |versions| == |ops| + 1 && Committed(c, versions[0])
    && forall k :: 0 <= k < |ops| ==> OpApplies(c, versions, k, ops[k])
  }

  ghost predicate OpApplies(c: Compiled, versions: seq<RunSnapshot>, k: nat, op: StoreOp)
    requires Adjacent(c) && k + 1 < |versions|
  {
    match op
    case Request(at) => versions[k + 1] == RequestedSnapshot(versions[k], at)
    case Write(base, step) =>
      && base <= k && Runnable(versions[base], c) && Commit(c, versions[base], step).Some?
      && (versions[base].row.cancelRequestedAt.Some? ==> step.Do? && step.step.Cancel?)
      && var t := Commit(c, versions[base], step).value;
         |versions[base].events| <= |t.events|
         && versions[k + 1] == Swapped(versions[k], CS.Diff(versions[base], t))
  }

  /** What the store holds after a compare-and-swap. */
  function Swapped(s: RunSnapshot, change: CS.ChangeSet): RunSnapshot {
    match CS.Apply(s, change)
    case Ok(t) => t
    case Err(_) => s
  }

  lemma {:induction false} RequestedKeeps(c: Compiled, s: RunSnapshot, at: Time)
    requires Committed(c, s)
    ensures Committed(c, RequestedSnapshot(s, at)) && RequestedSnapshot(s, at).row.id == s.row.id
    ensures RequestedSnapshot(s, at) == s || RequestedSnapshot(s, at).row.revision == s.row.revision + 1
  {
    hide RunInv;
    RowChangeKeeps(c, s, RequestedSnapshot(s, at));
  }

  /** Versions of one file: a revision names one version, and a write is applied exactly when it was computed on
      the version it replaces. */
  ghost predicate Linear(c: Compiled, versions: seq<RunSnapshot>, k: nat)
    requires k < |versions|
  {
    && (forall j :: 0 <= j <= k ==> Committed(c, versions[j]) && versions[j].row.id == versions[0].row.id)
    && (forall i, j :: 0 <= i <= j <= k ==>
          versions[i].row.revision <= versions[j].row.revision
          && (versions[i].row.revision == versions[j].row.revision ==> versions[i] == versions[j]))
  }

  lemma {:induction false} WriteExact(c: Compiled, versions: seq<RunSnapshot>, ops: seq<StoreOp>, k: nat)
    requires Adjacent(c) && IsHistory(c, versions, ops) && k < |ops| && Linear(c, versions, k) && ops[k].Write?
    ensures var base := versions[ops[k].base];
      if base == versions[k] then Runnable(base, c) && Some(versions[k + 1]) == Commit(c, base, ops[k].step)
      else versions[k + 1] == versions[k]
  {
    hide Committed, Commit, CS.Apply, CS.Diff, Swapped;
    var base, now := versions[ops[k].base], versions[k];
    assert OpApplies(c, versions, k, ops[k]);
    CommitAccepted(c, base, ops[k].step);
    CommitKeeps(c, base, ops[k].step);
    var t := Commit(c, base, ops[k].step).value;
    SwappedExact(base, now, t);
    CS.FollowsParts(base, t);
  }

  lemma SwappedExact(base: RunSnapshot, now: RunSnapshot, t: RunSnapshot)
    requires |base.events| <= |t.events| && CS.Apply(base, CS.Diff(base, t)) == CS.Ok(t)
    ensures Swapped(base, CS.Diff(base, t)) == t
    ensures now.row.revision != base.row.revision ==> Swapped(now, CS.Diff(base, t)) == now
  {
    if now.row.revision != base.row.revision { CS.StaleConflicts(now, CS.Diff(base, t)); }
  }

  /** No update is lost: in any interleaving, a revision names one version, and each applied write was computed on
      exactly the version it replaces. */
  lemma {:induction false} NoLostUpdate(c: Compiled, versions: seq<RunSnapshot>, ops: seq<StoreOp>, k: nat)
    requires Adjacent(c) && IsHistory(c, versions, ops) && k < |versions|
    ensures Linear(c, versions, k)
  {
    hide Committed, Commit, Swapped, RequestedSnapshot, CS.Follows;
    if k > 0 {
      NoLostUpdate(c, versions, ops, k - 1);
      assert OpApplies(c, versions, k - 1, ops[k - 1]);
      match ops[k - 1]
      case Request(at) => RequestedKeeps(c, versions[k - 1], at);
      case Write(base, step) =>
        WriteExact(c, versions, ops, k - 1);
        if versions[base] == versions[k - 1] {
          CommitKeeps(c, versions[k - 1], step);
          CS.FollowsParts(versions[k - 1], versions[k]);
        }
    }
  }

  /** `t` is `s` after the cancellation of the whole run was committed. */
  ghost predicate CanceledFrom(s: RunSnapshot, t: RunSnapshot) {
    exists at :: CancelRun(s, at).Applied? && t == Saved(s, CancelRun(s, at).s)
  }

  lemma {:induction false} CancelTasksRow(s: RunSnapshot, n: nat, at: Time)
    requires n <= |s.tasks|
    ensures var o := CancelTasks(s, n, at); o.Applied? ==> o.s.row == s.row.(lastEventSequence := o.s.row.lastEventSequence)
  {
    if n > 0 { CancelTasksRow(s, n - 1, at); }
  }

  lemma {:induction false} CanceledIsFinal(c: Compiled, s: RunSnapshot, t: RunSnapshot)
    requires Committed(c, s) && CanceledFrom(s, t)
    ensures t.row.status.WorkflowCanceled? && AllTerminal(t.tasks) && t.row.cancelRequestedAt == s.row.cancelRequestedAt
    ensures forall at :: RequestedSnapshot(t, at) == t
  {
    hide RunInv, CancelTasks;
    var at :| CancelRun(s, at).Applied? && t == Saved(s, CancelRun(s, at).s);
    CancelKeeps(c, s, at);
    CancelTasksRow(s, |s.tasks|, at);
  }

  /** Cancellation is never lost: once a request is recorded on an unfinished run, whatever races, the file holds that
      version until it holds its cancellation, and then nothing else. No attempt, result or other outcome is committed. */
  lemma {:induction false} CancellationNeverLost(c: Compiled, versions: seq<RunSnapshot>, ops: seq<StoreOp>, r: nat, k: nat)
    requires Adjacent(c) && IsHistory(c, versions, ops) && r <= k < |versions|
    requires versions[r].row.cancelRequestedAt.Some? && !WorkflowTerminal(versions[r].row.status)
    ensures versions[k] == versions[r] || CanceledFrom(versions[r], versions[k])
  {
    hide Committed, Commit, Swapped, CanceledFrom, CancelRun;
    if k > r {
      CancellationNeverLost(c, versions, ops, r, k - 1);
      NoLostUpdate(c, versions, ops, k - 1);
      assert OpApplies(c, versions, k - 1, ops[k - 1]);
      if CanceledFrom(versions[r], versions[k - 1]) { CanceledIsFinal(c, versions[r], versions[k - 1]); }
      match ops[k - 1]
      case Request(at) =>
      case Write(base, step) =>
        WriteExact(c, versions, ops, k - 1);
        if versions[base] == versions[k - 1] {
          CancelOnly(c, versions[r], versions[k - 1], versions[k], step);
        }
    }
  }

  lemma {:induction false} CancelOnly(c: Compiled, s: RunSnapshot, now: RunSnapshot, t: RunSnapshot, step: LocalStep)
    requires Committed(c, s) && Committed(c, now) && s.row.cancelRequestedAt.Some? && !WorkflowTerminal(s.row.status)
    requires now == s || CanceledFrom(s, now)
    requires Runnable(now, c) && Adjacent(c) && Commit(c, now, step) == Some(t)
    requires now.row.cancelRequestedAt.Some? ==> step.Do? && step.step.Cancel?
    ensures CanceledFrom(s, t) && now == s
  {
    hide RunInv, CancelRun;
    if CanceledFrom(s, now) { CanceledIsFinal(c, s, now); }
    CancelKeeps(c, now, step.step.at);
    assert Perform(c, now, step.step) == CancelRun(now, step.step.at);
  }
}
