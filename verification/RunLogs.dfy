/** The log of a run from its start: in every snapshot of every run, replaying all events over the first snapshot gives the
    recorded statuses and times, and each event carries the time of the step that logged it. */
module RunLogs {
  import opened Domain
  import opened Graph
  import opened Compiler
  import opened Steps
  import opened AuditLog
  import opened RunInvariant
  import opened RunResults
  import opened RunTheorems
  import opened ResumeSteps
  import opened History
  import opened Recovery
  import opened ResumedRuns
  import opened SavedRuns
  import CS = ChangeSets

  /** The whole log leads from the first snapshot of the run to what `s` records. */
  ghost predicate LogTells(c: Compiled, s: RunSnapshot)
    requires |c.dependencies| == c.Size()
  {
    AuditLog.Replay(StandingOf(NewRunSnapshot(s.row.id, c, s.row.createdAt)), s.events) == Some(StandingOf(s))
  }

  lemma {:induction false} KeysDiffer(c: Compiled)
    requires ValidCompiled(c)
    ensures forall i, j :: 0 <= i < j < c.Size() ==> c.definition.tasks[i].key != c.definition.tasks[j].key
  {
    hide Transposes, Ranked;
  }

  lemma {:induction false} InvAuditable(c: Compiled, s: RunSnapshot)
    requires RunInv(c, s)
    ensures Auditable(s)
  {
    hide NodeAgrees, Unsucceeded;
    KeysDiffer(c);
    forall i, n | 0 <= i < |s.tasks| && 0 <= n < |s.tasks[i].attempts| ensures s.tasks[i].attempts[n].number == n + 1 {
      assert TaskHistory(s.tasks[i], c.MaxAttempts(i));
    }
  }

  lemma {:induction false} NewTells(id: RunID, c: Compiled, now: Time)
    requires ValidCompiled(c)
    ensures |c.dependencies| == c.Size() && LogTells(c, NewRunSnapshot(id, c, now))
  {
    hide StandingOf;
  }

  /** What extends a snapshot and is then saved goes on telling the run. */
  lemma {:induction false} ExtensionTells(c: Compiled, s: RunSnapshot, t: RunSnapshot)
    requires RunInv(c, s) && Extends(s, t) && |c.dependencies| == c.Size() && LogTells(c, s)
    ensures LogTells(c, t) && LogTells(c, Saved(s, t))
  {
    hide RunInv, TaskExtends, LogExtends, AuditLog.Replay, ReplayOne, TasksStandingOf, Auditable;
    InvAuditable(c, s);
    assert t.events == s.events + t.events[|s.events|..];
    ReplayConcat(StandingOf(NewRunSnapshot(s.row.id, c, s.row.createdAt)), s.events, t.events[|s.events|..]);
  }

  // ---------- every kind of run ----------

  /** Any run of the dispatch protocol's and the local engine's steps. */
  lemma {:induction false} RunTells(c: Compiled, states: seq<RunSnapshot>, steps: seq<Step>, k: nat)
    requires ValidCompiled(c) && IsRun(c, states, steps) && k < |states|
    ensures |c.dependencies| == c.Size() && LogTells(c, states[k])
  {
    hide FreshInv, RunInv, ValidCompiled, Perform, Extends, LogTells;
    ValidAdjacent(c);
    if k == 0 {
      var id, now :| states[0] == NewRunSnapshot(id, c, now);
      NewTells(id, c, now);
    } else {
      RunTells(c, states, steps, k - 1);
      ReachableInv(c, states, steps, k - 1);
      FreshIsInv(c, states[k - 1]);
      assert Perform(c, states[k - 1], steps[k - 1]) == Applied(states[k - 1 + 1]);
      StepRecorded(c, states[k - 1], steps[k - 1], 5);
      ExtensionTells(c, states[k - 1], states[k]);
    }
  }

  /** Any local run, with any number of resumes. */
  lemma {:induction false} LocalRunTells(c: Compiled, states: seq<RunSnapshot>, steps: seq<LocalStep>, k: nat)
    requires ValidCompiled(c) && IsLocalRun(c, states, steps) && k < |states|
    ensures |c.dependencies| == c.Size() && LogTells(c, states[k])
  {
    hide RunInv, ValidCompiled, PerformLocal, Extends, LogTells, Budget;
    ValidAdjacent(c);
    var id, now :| states[0] == NewRunSnapshot(id, c, now);
    NewTells(id, c, now);
    LocalRunInv(c, states, steps, 0);
    LocalRunRecorded(c, states, steps, 0, k);
    ExtensionTells(c, states[0], states[k]);
  }

  /** Any run as it is persisted. */
  lemma {:induction false} SavedRunTells(c: Compiled, states: seq<RunSnapshot>, steps: seq<LocalStep>, k: nat)
    requires ValidCompiled(c) && IsSavedRun(c, states, steps) && k < |states|
    ensures |c.dependencies| == c.Size() && LogTells(c, states[k])
  {
    hide Commit, Committed, CS.Follows, Numbered, ValidCompiled, LogTells;
    ValidAdjacent(c);
    if k == 0 {
      var id, now :| states[0] == NewRunSnapshot(id, c, now);
      NewTells(id, c, now);
    } else {
      SavedRunTells(c, states, steps, k - 1);
      SavedRunCommitted(c, states, steps, k - 1);
      assert Commit(c, states[k - 1], steps[k - 1]) == Some(states[k - 1 + 1]);
      CommitTells(c, states[k - 1], steps[k - 1]);
    }
  }

  lemma {:induction false} CommitTells(c: Compiled, s: RunSnapshot, step: LocalStep)
    requires Committed(c, s) && Runnable(s, c) && Adjacent(c) && Commit(c, s, step).Some? && LogTells(c, s)
    ensures LogTells(c, Commit(c, s, step).value)
  {
    hide RunInv, Perform, PrepareForResume, Extends, NonNegative, LogTells, Budget, Saved;
    match step
    case Do(d) =>
      StepRecorded(c, s, d, 5);
      ExtensionTells(c, s, Perform(c, s, d).s);
    case Resume(now) =>
      ResumeAccepts(c, s, now);
      ResumeRestores(c, s, now);
      ExtensionTells(c, s, PrepareForResume(s, c, now).s);
  }

  // ---------- times ----------

  /** The events between two snapshots of a local run carry the time of the step between them, then and in every later log. */
  lemma {:induction false} LocalEventsStamped(c: Compiled, states: seq<RunSnapshot>, steps: seq<LocalStep>, m: nat, k: nat)
    requires ValidCompiled(c) && IsLocalRun(c, states, steps) && m < k < |states|
    ensures |states[m].events| <= |states[m + 1].events| <= |states[k].events|
    ensures forall n :: |states[m].events| <= n < |states[m + 1].events| ==> states[k].events[n].at == LocalTimeOf(steps[m])
  {
    hide RunInv, ValidCompiled, PerformLocal, TaskExtends, Replays, Budget;
    LocalRunInv(c, states, steps, m);
    assert PerformLocal(c, states[m], steps[m]) == Some(states[m + 1]);
    LocalStepKeeps(c, states[m], steps[m]);
    LocalRunRecorded(c, states, steps, m + 1, k);
  }

  lemma {:induction false} EventsStamped(c: Compiled, states: seq<RunSnapshot>, steps: seq<Step>, m: nat, k: nat)
    requires ValidCompiled(c) && IsRun(c, states, steps) && m < k < |states|
    ensures |states[m].events| <= |states[m + 1].events| <= |states[k].events|
    ensures forall n :: |states[m].events| <= n < |states[m + 1].events| ==> states[k].events[n].at == TimeOf(steps[m])
    decreases k
  {
    hide FreshInv, RunInv, ValidCompiled, Perform, TaskExtends, Replays, Budget;
    ReachableInv(c, states, steps, k - 1);
    FreshIsInv(c, states[k - 1]);
    assert Perform(c, states[k - 1], steps[k - 1]) == Applied(states[k - 1 + 1]);
    StepRecorded(c, states[k - 1], steps[k - 1], 5);
    if m < k - 1 { EventsStamped(c, states, steps, m, k - 1); }
  }
}
