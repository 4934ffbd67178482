/** Runs as they are persisted: every step is committed as a change set on the next revision. Every change set
    a step produces is accepted, and replaying them all rebuilds the run. */
module SavedRuns {
  import opened Domain
  import opened Compiler
  import opened Steps
  import opened ResumeSteps
  import opened RunInvariant
  import opened RunResults
  import opened RunTheorems
  import opened History
  import opened Recovery
  import opened ResumedRuns
  import CS = ChangeSets

  /** The candidate as `saveSnapshot` completes it: the next revision and the last event number. */
  function Saved(before: RunSnapshot, after: RunSnapshot): RunSnapshot {
    after.(row := after.row.(revision := before.row.revision + 1, lastEventSequence := LastEventSequence(after)))
  }

  /** Saving changes nothing of what a result or a retryable end led to. */
  lemma TakenSaved(c: Compiled, s: RunSnapshot, t: RunSnapshot, i: nat, result: ExecutionResponse, now: Time)
    requires ValidCompiled(c) && i < c.Size() && Fits(s, c) && Fits(t, c) && |s.tasks[i].attempts| > 0
    requires ResultTaken(c, s, t, i, result, now)
    ensures Fits(Saved(s, t), c) && ResultTaken(c, s, Saved(s, t), i, result, now)
  {
  }

  lemma RetriedSaved(c: Compiled, s: RunSnapshot, t: RunSnapshot, i: nat, to: AttemptStatus, result: ExecutionResult, now: Time)
    requires i < c.Size() && Fits(s, c) && Fits(t, c) && |s.tasks[i].attempts| > 0 && RetriedOrFailed(c, s, t, i, to, result, now)
    ensures Fits(Saved(s, t), c) && RetriedOrFailed(c, s, Saved(s, t), i, to, result, now)
  {
  }

  ghost predicate NonNegative(s: RunSnapshot) {
    forall i :: 0 <= i < |s.remaining| ==> s.remaining[i] >= 0
  }

  /** Everything a committed snapshot keeps for the next commit. */
  ghost predicate Committed(c: Compiled, s: RunSnapshot) {
    RunInv(c, s) && NonNegative(s) && s.row.lastEventSequence == LastEventSequence(s)
  }

  lemma {:induction false} InvNumbersAttempts(c: Compiled, s: RunSnapshot)
    requires RunInv(c, s)
    ensures CS.AttemptsNumbered(s) && |s.tasks| == |s.remaining|
  {
    hide NodeAgrees, Unsucceeded;
    forall i | 0 <= i < |s.tasks| ensures TaskHistory(s.tasks[i], c.MaxAttempts(i)) {}
  }

  /** What extends a numbered snapshot follows it once saved. */
  lemma {:induction false} ExtensionFollows(s: RunSnapshot, t: RunSnapshot)
    requires Extends(s, t) && CS.AttemptsNumbered(s) && NonNegative(t) && |s.tasks| == |s.remaining|
    ensures CS.Follows(s, Saved(s, t))
  {
    var u := Saved(s, t);
    forall i | 0 <= i < |s.tasks| ensures CS.TaskFollows(s.tasks[i], u.tasks[i]) {
      assert TaskExtends(s.tasks[i], t.tasks[i]);
      forall k | 0 <= k < |t.tasks[i].attempts| ensures t.tasks[i].attempts[k].number == k + 1 {
        if k < |s.tasks[i].attempts| { assert AttemptKept(s.tasks[i].attempts[k], t.tasks[i].attempts[k]); }
      }
    }
    assert u.events[..|s.events|] == s.events;
    forall k | 0 <= k < |t.events| - |s.events| ensures u.events[|s.events|..][k].sequence == LastEventSequence(s) + 1 + k {
      assert u.events[|s.events|..][k] == t.events[|s.events| + k];
    }
  }

  // ---------- counters stay non-negative ----------

  lemma {:induction false} SuccessNonNegative(c: Compiled, s: RunSnapshot, i: nat, number: int,
      response: ExecutionResponse, at: Time)
    requires RunInv(c, s) && Runnable(s, c) && NonNegative(s)
    requires i < c.Size() && ActiveAttempt(s, i, number) && response.kind.ResultSuccess?
    ensures var o := ApplyAttemptResult(s, c, i, number, response, at); o.Applied? ==> NonNegative(o.s)
  {
    hide RunInv, ApplyAttemptResult, SkippedCountsHold;
    InvFits(c, s);
    SuccessKeeps(c, s, i, number, response, at);
    SuccessorsBounded(c, i);
    if SkippedCountsHold(c, s, i) {
      ReleaseAllowed(c, s, i, s.tasks[i]);
    }
  }

  lemma {:induction false} StepNonNegative(c: Compiled, s: RunSnapshot, step: Step)
    requires RunInv(c, s) && Runnable(s, c) && NonNegative(s)
    ensures Perform(c, s, step).Applied? ==> NonNegative(Perform(c, s, step).s)
  {
    hide RunInv, ApplyAttemptResult;
    if Perform(c, s, step).Applied? {
      if IsSuccess(step) {
        ResultKeeps(c, s, step.i, step.number, step.response, step.at);
        SuccessNonNegative(c, s, step.i, step.number, step.response, step.at);
      } else {
        hide Perform;
        StepNoSuccess(c, s, step);
      }
    }
  }

  lemma {:induction false} RestedNonNegative(c: Compiled, s: RunSnapshot)
    requires RunInv(c, s) && |s.remaining| == |s.tasks| && Rested(s)
    ensures NonNegative(s)
  {
    hide NodeAgrees, TaskHistory;
  }

  // ---------- committed steps ----------

  /** The snapshot a step commits, if it commits one: any step of the kernel, or a resume of an unfinished run. */
  function Commit(c: Compiled, s: RunSnapshot, step: LocalStep): Option<RunSnapshot>
    requires Runnable(s, c) && Adjacent(c)
  {
    match step
    case Do(d) => if Perform(c, s, d).Applied? then Some(Saved(s, Perform(c, s, d).s)) else None
    case Resume(now) =>
      if WorkflowTerminal(s.row.status) || s.row.cancelRequestedAt.Some? then None
      else
        match PrepareForResume(s, c, now)
        case Resumed(t) => Some(Saved(s, t))
        case Refused(_) => None
  }

  lemma {:induction false} SavedIsCommitted(c: Compiled, s: RunSnapshot, t: RunSnapshot)
    requires RunInv(c, s) && RunInv(c, t) && NonNegative(t) && Extends(s, t)
    ensures Committed(c, Saved(s, t)) && CS.Follows(s, Saved(s, t))
  {
    hide RunInv, Extends, NonNegative, CS.Follows;
    InvNumbersAttempts(c, s);
    ExtensionFollows(s, t);
    RowChangeKeeps(c, t, Saved(s, t));
    CS.FollowsParts(s, Saved(s, t));
    SameCounts(t, Saved(s, t));
  }

  lemma SameCounts(s: RunSnapshot, t: RunSnapshot)
    requires NonNegative(s) && t.remaining == s.remaining
    ensures NonNegative(t)
  {
  }

  /** Each committed step leads to a snapshot that follows the one before, and can be committed on again. */
  lemma {:induction false} CommitKeeps(c: Compiled, s: RunSnapshot, step: LocalStep)
    requires Committed(c, s) && Runnable(s, c) && Adjacent(c) && Commit(c, s, step).Some?
    ensures var t := Commit(c, s, step).value; Committed(c, t) && CS.Follows(s, t)
  {
    hide RunInv, Perform, PrepareForResume, Extends, NonNegative, CS.Follows, Saved;
    match step
    case Do(d) =>
      var t := Perform(c, s, d).s;
      StepKeeps(c, s, d);
      StepRecorded(c, s, d, 5);
      StepNonNegative(c, s, d);
      SavedIsCommitted(c, s, t);
    case Resume(now) =>
      ResumeAccepts(c, s, now);
      ResumeRestores(c, s, now);
      var t := PrepareForResume(s, c, now).s;
      InvFits(c, t);
      RestedNonNegative(c, t);
      SavedIsCommitted(c, s, t);
  }

  /** The change set of every committed step is accepted on the snapshot it was made from, and gives exactly the new one. */
  lemma {:induction false} CommitAccepted(c: Compiled, s: RunSnapshot, step: LocalStep)
    requires Committed(c, s) && Runnable(s, c) && Adjacent(c) && Commit(c, s, step).Some?
    ensures var t := Commit(c, s, step).value; |s.events| <= |t.events| && CS.Apply(s, CS.Diff(s, t)) == CS.Ok(t)
  {
    hide Committed, Commit, CS.Apply, CS.Diff, CS.Follows;
    CommitKeeps(c, s, step);
    var t := Commit(c, s, step).value;
    CS.FollowsParts(s, t);
    CS.RoundTrip(s, t);
  }

  // ---------- whole runs ----------

  ghost predicate IsSavedRun(c: Compiled, states: seq<RunSnapshot>, steps: seq<LocalStep>)
    requires ValidCompiled(c)
  {
    && |states| == |steps| + 1 && Adjacent(c)
    && (exists id, now :: states[0] == NewRunSnapshot(id, c, now))
    && forall k :: 0 <= k < |steps| ==> Runnable(states[k], c) && Commit(c, states[k], steps[k]) == Some(states[k + 1])
  }

  lemma {:induction false} InitialCommitted(id: RunID, c: Compiled, now: Time)
    requires ValidCompiled(c)
    ensures Committed(c, NewRunSnapshot(id, c, now)) && Numbered(NewRunSnapshot(id, c, now))
  {
    InitialParts(id, c, now);
  }

  lemma {:induction false} NumberedFollows(s: RunSnapshot, t: RunSnapshot)
    requires Numbered(s) && CS.Follows(s, t)
    ensures Numbered(t)
  {
    forall k | 0 <= k < |t.events| ensures t.events[k].sequence == k + 1 {
      if k < |s.events| {
        assert t.events[..|s.events|][k] == t.events[k];
      } else {
        assert t.events[|s.events|..][k - |s.events|] == t.events[k];
      }
    }
  }

  /** Every snapshot of a persisted run keeps the invariant; revisions count the commits, events are numbered without gaps. */
  lemma {:induction false} SavedRunCommitted(c: Compiled, states: seq<RunSnapshot>, steps: seq<LocalStep>, k: nat)
    requires ValidCompiled(c) && IsSavedRun(c, states, steps) && k < |states|
    ensures Committed(c, states[k]) && Numbered(states[k]) && states[k].row.revision == k
    ensures k > 0 ==> CS.Follows(states[k - 1], states[k])
  {
    hide Committed, Commit, CS.Follows, Numbered, ValidCompiled;
    if k == 0 {
      var id, now :| states[0] == NewRunSnapshot(id, c, now);
      InitialCommitted(id, c, now);
    } else {
      SavedRunCommitted(c, states, steps, k - 1);
      assert Commit(c, states[k - 1], steps[k - 1]) == Some(states[k - 1 + 1]);
      CommitKeeps(c, states[k - 1], steps[k - 1]);
      NumberedFollows(states[k - 1], states[k]);
      CS.FollowsParts(states[k - 1], states[k]);
    }
  }

  /** The change sets of the first `k` commits. */
  ghost function ChangesOf(states: seq<RunSnapshot>, k: nat): seq<CS.ChangeSet>
    requires k < |states|
    requires forall j :: 0 <= j < k ==> |states[j].events| <= |states[j + 1].events|
  {
    if k == 0 then [] else ChangesOf(states, k - 1) + [CS.Diff(states[k - 1], states[k])]
  }

  function Replay(first: RunSnapshot, changes: seq<CS.ChangeSet>): CS.Applied {
    if changes == [] then CS.Ok(first)
    else
      var s :- Replay(first, changes[..|changes| - 1]);
      CS.Apply(s, changes[|changes| - 1])
  }

  lemma {:induction false} LogsGrow(c: Compiled, states: seq<RunSnapshot>, steps: seq<LocalStep>)
    requires ValidCompiled(c) && IsSavedRun(c, states, steps)
    ensures forall j :: 0 <= j < |steps| ==> |states[j].events| <= |states[j + 1].events|
  {
    hide Committed, Commit, CS.Follows, Numbered, ValidCompiled;
    forall j | 0 <= j < |steps| ensures |states[j].events| <= |states[j + 1].events| {
      SavedRunCommitted(c, states, steps, j + 1);
      assert j + 1 - 1 == j;
      CS.FollowsParts(states[j], states[j + 1]);
    }
  }

  /** Replaying the change sets of a run on its first snapshot rebuilds every later one. */
  lemma {:induction false} ReplayRebuilds(c: Compiled, states: seq<RunSnapshot>, steps: seq<LocalStep>, k: nat)
    requires ValidCompiled(c) && IsSavedRun(c, states, steps) && k < |states|
    ensures forall j :: 0 <= j < |steps| ==> |states[j].events| <= |states[j + 1].events|
    ensures Replay(states[0], ChangesOf(states, k)) == CS.Ok(states[k])
  {
    hide Committed, Commit, CS.Follows, CS.Apply, CS.Diff, Numbered, ValidCompiled;
    LogsGrow(c, states, steps);
    if k > 0 {
      ReplayRebuilds(c, states, steps, k - 1);
      SavedRunCommitted(c, states, steps, k - 1);
      assert Commit(c, states[k - 1], steps[k - 1]) == Some(states[k - 1 + 1]);
      CommitAccepted(c, states[k - 1], steps[k - 1]);
      var changes := ChangesOf(states, k);
      assert changes[..|changes| - 1] == ChangesOf(states, k - 1);
    }
  }
}
