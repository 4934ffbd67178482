/** Recovery accepts every snapshot the local engine can have saved, restores the run invariant, and does
    nothing when repeated. Afterwards a success is accepted exactly when it has no skipped successor. */
module Recovery {
  import opened Domain
  import opened Finite
  import opened Graph
  import opened Compiler
  import opened Steps
  import opened ResumeSteps
  import opened Propagation
  import opened RunInvariant
  import opened RunSteps
  import opened RunResults
  import opened History

  /** Snapshots of local runs hold no dispatch boundary. */
  ghost predicate LocalTasks(tasks: seq<TaskRun>) {
    forall i :: 0 <= i < |tasks| ==> !tasks[i].status.TaskQueued?
  }

  /** What a resume leaves behind: no running task and zero counts on finished ones. */
  ghost predicate Rested(s: RunSnapshot)
    requires |s.remaining| == |s.tasks|
  {
    && (forall i :: 0 <= i < |s.tasks| ==> !s.tasks[i].status.TaskRunning? && !s.tasks[i].status.TaskQueued?)
    && (forall i :: 0 <= i < |s.tasks| && Terminal(s.tasks[i].status) ==> s.remaining[i] == 0)
  }

  // ---------- first pass ----------

  /** A task row after the first pass. */
  function RestedTask(t: TaskRun, max: int, now: Time): TaskRun
  {
    if !t.status.TaskRunning? || |t.attempts| == 0 then t
    else if |t.attempts| >= max then Settled(t, AttemptInterrupted, t.Last().result, TaskFailed, now)
    else Settled(t, AttemptInterrupted, t.Last().result, TaskWaitingRetry, now).(readyAt := Some(now))
  }

  lemma HistoryIsStored(t: TaskRun, max: int)
    requires TaskHistory(t, max) && !t.status.TaskQueued?
    ensures StoredHistory(t, max)
  {
  }

  /** What a resume accepts is what a local run leaves; of a canceled task it asks less. */
  lemma StoredIsHistory(t: TaskRun, max: int)
    requires !t.status.TaskCanceled?
    ensures StoredHistory(t, max) <==> TaskHistory(t, max) && !t.status.TaskQueued?
  {
  }

  lemma RestedHistory(t: TaskRun, max: int, now: Time)
    requires TaskHistory(t, max)
    ensures TaskHistory(RestedTask(t, max, now), max)
  {
    var u := RestedTask(t, max, now);
    if t.status.TaskRunning? {
      assert forall k :: 0 <= k < |t.attempts| - 1 ==> u.attempts[k] == t.attempts[k];
    }
  }

  lemma ResumeTaskExact(s: RunSnapshot, c: Compiled, i: nat, now: Time)
    requires i < |s.tasks| == c.Size() && TaskHistory(s.tasks[i], c.MaxAttempts(i)) && !s.tasks[i].status.TaskQueued?
    requires s.tasks[i].key == c.definition.tasks[i].key
    ensures var o := ResumeTask(s, c, i, now);
      && o.Resumed? && o.s.tasks == s.tasks[i := RestedTask(s.tasks[i], c.MaxAttempts(i), now)]
      && o.s.remaining == s.remaining && o.s.row.status == s.row.status
      && Recorded(s, o.s, 4, now)
      && (!s.tasks[i].status.TaskRunning? ==> o.s == s)
  {
    hide Recorded, AppendEvent;
    HistoryIsStored(s.tasks[i], c.MaxAttempts(i));
    RecordedSelf(s, 4, now);
    var t := s.tasks[i];
    if t.status.TaskRunning? {
      var o1 := FinishAttempt(s, i, AttemptInterrupted, t.Last().result, now, "process restarted");
      FinishAttemptRecorded(s, i, AttemptInterrupted, t.Last().result, now, "process restarted", 4);
      if |t.attempts| >= c.MaxAttempts(i) {
        LeaveRunningRecorded(o1.s, i, TaskFailed, now, "attempts exhausted after restart", 4);
        var o2 := MoveTask(o1.s, i, TaskFailed, now, "attempts exhausted after restart");
        RecordedTransitive(s, o1.s, o2.s, 4, now);
      } else {
        LeaveRunningRecorded(o1.s, i, TaskWaitingRetry, now, "retry interrupted attempt", 4);
        var o2 := MoveTask(o1.s, i, TaskWaitingRetry, now, "retry interrupted attempt");
        RecordedTransitive(s, o1.s, o2.s, 4, now);
        ReadyAtRecorded(o2.s, i, now, 4, now);
        RecordedTransitive(s, o2.s, SetReadyAt(o2.s, i, now), 4, now);
      }
    }
  }

  ghost predicate RestedUpTo(c: Compiled, before: seq<TaskRun>, after: seq<TaskRun>, n: nat, now: Time)
    requires |before| == c.Size()
  {
    && |after| == |before|
    && forall j :: 0 <= j < |before| ==>
         after[j] == if j < n then RestedTask(before[j], c.MaxAttempts(j), now) else before[j]
  }

  lemma {:induction false} ResumeTasksExact(s: RunSnapshot, c: Compiled, n: nat, now: Time)
    requires Fits(s, c) && Histories(c, s) && n <= c.Size() && LocalTasks(s.tasks[..n])
    ensures var o := ResumeTasks(s, c, n, now);
      && o.Resumed? && RestedUpTo(c, s.tasks, o.s.tasks, n, now)
      && o.s.remaining == s.remaining && o.s.row.status == s.row.status && Recorded(s, o.s, 4, now)
      && ((forall i :: 0 <= i < |s.tasks| ==> !s.tasks[i].status.TaskRunning?) ==> o.s == s)
  {
    hide Recorded, ResumeTask, TaskHistory;
    if n == 0 {
      RecordedSelf(s, 4, now);
    } else {
      assert forall j :: 0 <= j < n ==> s.tasks[..n][j] == s.tasks[j];
      ResumeTasksExact(s, c, n - 1, now);
      var s1 := ResumeTasks(s, c, n - 1, now).s;
      ResumeTaskExact(s1, c, n - 1, now);
      RecordedTransitive(s, s1, ResumeTask(s1, c, n - 1, now).s, 4, now);
    }
  }

  // ---------- propagation ----------

  lemma {:induction false} BlockedSourcesExact(tasks: seq<TaskRun>, n: nat)
    requires n <= |tasks|
    ensures forall i: nat :: i in BlockedSources(tasks, n) <==> i < n && Blocked(tasks[i].status)
  {
    if n > 0 { BlockedSourcesExact(tasks, n - 1); }
  }

  /** Propagation over descendants that are all finished changes nothing, not even the log. */
  lemma {:induction false} SkipLoopNothing(s: RunSnapshot, g: Adjacency, queue: seq<nat>, visited: set<nat>, at: Time,
      all: set<nat>)
    requires InRange(g) && |s.tasks| == |g| && Bounded(queue, |g|)
    requires forall k :: 0 <= k < |queue| ==> queue[k] in all
    requires forall u, v :: u in all && Edge(g, u, v) ==> v in all
    requires forall v :: v in all && v < |s.tasks| ==> Terminal(s.tasks[v].status)
    ensures SkipLoop(s, g, queue, visited, at) == Applied(s)
    decreases Below(|g|) - visited, |queue|
  {
    if queue != [] {
      var current: nat := queue[0];
      if current in visited {
        SkipLoopNothing(s, g, queue[1..], visited, at, all);
      } else {
        var queue' := queue[1..] + g[current];
        forall k | 0 <= k < |queue'| ensures queue'[k] in all {
          if k >= |queue| - 1 { assert Edge(g, current, queue'[k]); }
        }
        SkipLoopNothing(s, g, queue', visited + {current}, at, all);
      }
    }
  }

  /** The tasks after both passes over failures. */
  ghost predicate Propagated(c: Compiled, s: RunSnapshot, mid: seq<TaskRun>, after: seq<TaskRun>, now: Time)
    requires ValidCompiled(c) && Fits(s, c)
  {
    && RestedUpTo(c, s.tasks, mid, c.Size(), now)
    && SkippedWhere(mid, after, Descendants(c.successors, BlockedSources(mid, |mid|)), now)
  }

  /** A blocked task has not succeeded, and in an uncanceled run it failed or was skipped. */
  lemma {:induction false} SourceBefore(c: Compiled, tasks: seq<TaskRun>, mid: seq<TaskRun>, u: nat, now: Time)
    requires |tasks| == c.Size() && RestedUpTo(c, tasks, mid, c.Size(), now)
    requires u in BlockedSources(mid, |mid|)
    ensures u < c.Size() && !tasks[u].status.TaskSucceeded? && Blocked(mid[u].status)
    ensures NoneCanceled(tasks) ==> mid[u].status.TaskFailed? || mid[u].status.TaskSkipped?
  {
    BlockedSourcesExact(mid, |mid|);
  }

  /** Every unfinished descendant of a blocked task was waiting for dependencies. */
  lemma {:induction false} BlockedDescendantWaits(c: Compiled, s: RunSnapshot, mid: seq<TaskRun>, v: nat, now: Time)
    requires RunInv(c, s) && NoneCanceled(s.tasks) && RestedUpTo(c, s.tasks, mid, c.Size(), now)
    requires v in Descendants(c.successors, BlockedSources(mid, |mid|))
    ensures v < c.Size() && (s.tasks[v].status.TaskWaitingDependencies? || s.tasks[v].status.TaskSkipped?) && mid[v] == s.tasks[v]
  {
    hide RunInv, NoneCanceled, BlockedSources;
    var u :| u in BlockedSources(mid, |mid|) && Reaches(c.successors, u, v);
    InvFits(c, s);
    SourceBefore(c, s.tasks, mid, u, now);
    DescendantWaits(c, s, u, v);
    assert mid[v] == RestedTask(s.tasks[v], c.MaxAttempts(v), now);
  }

  ghost predicate Unblocked(c: Compiled, mid: seq<TaskRun>, d: nat)
    requires d < |mid|
  {
    d !in Descendants(c.successors, BlockedSources(mid, |mid|)) && !Blocked(mid[d].status)
  }

  lemma {:induction false} PropagatedGraph(c: Compiled, s: RunSnapshot, mid: seq<TaskRun>, after: seq<TaskRun>, now: Time)
    requires RunInv(c, s) && NoneCanceled(s.tasks) && Propagated(c, s, mid, after, now)
    ensures GraphAgrees(c, after)
  {
    hide TaskHistory, Unsucceeded, IndexIsBijection, Ranked;
    var sources := BlockedSources(mid, |mid|);
    var hit := Descendants(c.successors, sources);
    BlockedSourcesExact(mid, |mid|);
    forall j | 0 <= j < c.Size() ensures NodeAgrees(c.dependencies[j], after, after[j].status) {
      if j in hit {
        PropagatedDescendant(c, s, mid, after, j, now);
      } else {
        forall d | d in c.dependencies[j] ensures d < c.Size() && d !in hit && d !in sources {
          SuccessorsBounded(c, j);
          DependencyEdge(c, d, j);
          if d in sources { EdgeReaches(c.successors, d, j); }
          if d in hit { EdgeExtends(c.successors, sources, d, j); }
        }
        PropagatedOther(c, s, mid, after, j, now);
      }
    }
  }

  lemma {:induction false} PropagatedDescendant(c: Compiled, s: RunSnapshot, mid: seq<TaskRun>, after: seq<TaskRun>,
      j: nat, now: Time)
    requires RunInv(c, s) && NoneCanceled(s.tasks) && Propagated(c, s, mid, after, now)
    requires j in Descendants(c.successors, BlockedSources(mid, |mid|))
    ensures j < c.Size() && after[j].status.TaskSkipped? && NodeAgrees(c.dependencies[j], after, after[j].status)
  {
    hide RunInv, NoneCanceled, ValidCompiled, BlockedSources, RestedTask;
    var sources := BlockedSources(mid, |mid|);
    InvFits(c, s);
    BlockedDescendantWaits(c, s, mid, j, now);
    assert after[j].status.TaskSkipped?;
    var u :| u in sources && Reaches(c.successors, u, j);
    SourceBefore(c, s.tasks, mid, u, now);
    var w := ReachesSplit(c.successors, u, j);
    EdgeReaches(c.successors, w, j);
    ReachesInRange(c.successors, w, j);
    SuccessorsBounded(c, j);
    DependencyEdge(c, w, j);
    if w == u {
      assert after[u] == mid[u];
    } else {
      assert w in Descendants(c.successors, sources);
      BlockedDescendantWaits(c, s, mid, w, now);
      assert after[w].status.TaskSkipped?;
    }
    assert w in c.dependencies[j] && (after[w].status.TaskFailed? || after[w].status.TaskSkipped?);
  }

  lemma {:induction false} PropagatedOther(c: Compiled, s: RunSnapshot, mid: seq<TaskRun>, after: seq<TaskRun>, j: nat, now: Time)
    requires RunInv(c, s) && NoneCanceled(s.tasks) && Propagated(c, s, mid, after, now)
    requires j < c.Size() && j !in Descendants(c.successors, BlockedSources(mid, |mid|))
    requires forall d :: d in c.dependencies[j] ==> d < c.Size() && Unblocked(c, mid, d)
    ensures NodeAgrees(c.dependencies[j], after, after[j].status)
  {
    hide TaskHistory, Unsucceeded, IndexIsBijection, Ranked, Transposes, Descendants;
    var deps := c.dependencies[j];
    assert NodeAgrees(deps, s.tasks, s.tasks[j].status);
    forall d | d in deps ensures SameClass(s.tasks[d].status, after[d].status) {
      assert after[d] == mid[d];
    }
    NodeKeeps(deps, s.tasks, after, s.tasks[j].status);
    assert after[j] == mid[j];
  }

  // ---------- last pass ----------

  lemma {:induction false} UnfinishedIsUnsucceeded(deps: seq<nat>, tasks: seq<TaskRun>)
    requires Bounded(deps, |tasks|) && forall d :: d in deps ==> !Blocking(tasks[d].status)
    ensures Unfinished(deps, tasks) == Unsucceeded(deps, tasks)
  {
    if deps != [] {
      assert deps[|deps| - 1] in deps;
      UnfinishedIsUnsucceeded(deps[..|deps| - 1], tasks);
    }
  }

  /** On a graph that agrees, refilling one task only counts. */
  lemma {:induction false} RefillTaskExact(s: RunSnapshot, c: Compiled, i: nat, now: Time)
    requires ValidCompiled(c) && Fits(s, c) && Adjacent(c) && i < c.Size()
    requires NodeAgrees(c.dependencies[i], s.tasks, s.tasks[i].status)
    ensures RefillTask(s, c, i, now) == Resumed(
      if Terminal(s.tasks[i].status) then s
      else s.(remaining := s.remaining[i := Unsucceeded(c.dependencies[i], s.tasks)]))
  {
    hide Ranked, IndexIsBijection, Transposes;
    var deps := c.dependencies[i];
    if !Terminal(s.tasks[i].status) {
      forall d | d in deps ensures !Blocking(s.tasks[d].status) {}
      UnfinishedIsUnsucceeded(deps, s.tasks);
      UnsucceededZero(deps, s.tasks);
      assert !AnyBlocked(deps, s.tasks);
    }
  }

  ghost predicate Refilled(c: Compiled, s: RunSnapshot, remaining: seq<int>, n: nat)
    requires ValidCompiled(c) && Fits(s, c)
  {
    && |remaining| == |s.remaining|
    && forall j :: 0 <= j < c.Size() ==>
         remaining[j] == if j < n && !Terminal(s.tasks[j].status) then Unsucceeded(c.dependencies[j], s.tasks) else s.remaining[j]
  }

  lemma {:induction false} RefillTasksExact(s: RunSnapshot, c: Compiled, n: nat, now: Time)
    requires ValidCompiled(c) && Fits(s, c) && Adjacent(c) && n <= c.Size() && GraphAgrees(c, s.tasks)
    ensures var o := RefillTasks(s, c, n, now);
      o.Resumed? && o.s == s.(remaining := o.s.remaining) && Refilled(c, s, o.s.remaining, n)
  {
    hide Unsucceeded, NodeAgrees, RefillTask, ValidCompiled;
    if n > 0 {
      RefillTasksExact(s, c, n - 1, now);
      RefillTaskExact(RefillTasks(s, c, n - 1, now).s, c, n - 1, now);
    }
  }

  // ---------- the whole preparation ----------

  lemma ValidAdjacent(c: Compiled)
    requires ValidCompiled(c)
    ensures Adjacent(c)
  {
  }

  /** The first two passes, on a local snapshot of an unfinished run. */
  lemma {:induction false} PropagationApplies(s: RunSnapshot, c: Compiled, s1: RunSnapshot, now: Time)
    requires RunInv(c, s) && NoneCanceled(s.tasks) && Adjacent(c)
    requires RestedUpTo(c, s.tasks, s1.tasks, c.Size(), now)
    ensures var o := SkipDescendantsFrom(s1, c, BlockedSources(s1.tasks, |s1.tasks|), now);
      && o.Applied? && SameApartFromTasks(s1, o.s) && Propagated(c, s, s1.tasks, o.s.tasks, now) && Recorded(s1, o.s, 4, now)
  {
    hide Recorded, BlockedSources, SkipLoop, RestedTask, RunInv, NoneCanceled;
    InvFits(c, s);
    var sources := BlockedSources(s1.tasks, |s1.tasks|);
    var hit := Descendants(c.successors, sources);
    SkipDescendantsExact(s1, c, sources, now);
    SkipLoopRecorded(s1, c.successors, AllSuccessors(c.successors, sources), {}, now, 4);
    forall v | v in hit && v < |s1.tasks| && !Terminal(s1.tasks[v].status) ensures TaskEdge(s1.tasks[v].status, TaskSkipped) {
      BlockedDescendantWaits(c, s, s1.tasks, v, now);
    }
  }

  lemma {:induction false} PropagatedHistory(c: Compiled, s: RunSnapshot, mid: seq<TaskRun>, after: seq<TaskRun>,
      j: nat, now: Time)
    requires RunInv(c, s) && NoneCanceled(s.tasks) && Propagated(c, s, mid, after, now) && j < c.Size()
    ensures TaskHistory(after[j], c.MaxAttempts(j)) && after[j].key == c.definition.tasks[j].key
    ensures !after[j].status.TaskRunning? && !after[j].status.TaskCanceled?
    ensures !s.tasks[j].status.TaskQueued? ==> !after[j].status.TaskQueued?
  {
    hide RunInv, BlockedSources, Descendants, ValidCompiled;
    TaskOf(c, s, j);
    RestedHistory(s.tasks[j], c.MaxAttempts(j), now);
    assert mid[j] == RestedTask(s.tasks[j], c.MaxAttempts(j), now);
    if j in Descendants(c.successors, BlockedSources(mid, |mid|)) {
      BlockedDescendantWaits(c, s, mid, j, now);
    }
  }

  /** Nothing has happened yet in a pending run, so there is nothing to correct. */
  lemma {:induction false} PendingStays(c: Compiled, s: RunSnapshot, mid: seq<TaskRun>, after: seq<TaskRun>, now: Time)
    requires RunInv(c, s) && s.row.status.WorkflowPending? && Propagated(c, s, mid, after, now)
    ensures NothingStarted(after)
  {
    hide RunInv, BlockedSources;
    InvFits(c, s);
    PendingNothing(c, s);
    forall u | u in BlockedSources(mid, |mid|) ensures false {
      SourceBefore(c, s.tasks, mid, u, now);
    }
    assert Descendants(c.successors, BlockedSources(mid, |mid|)) == {};
  }

  lemma PendingNothing(c: Compiled, s: RunSnapshot)
    requires RunInv(c, s) && s.row.status.WorkflowPending?
    ensures NothingStarted(s.tasks) && NoneCanceled(s.tasks)
  {
  }

  /** Recovery accepts every unfinished snapshot the local engine can have saved and restores the invariant:
      no task is left running, attempts stay within the limit, unfinished tasks get the right counts,
      and only the interrupted tasks and the descendants of failures change. */
  lemma {:induction false} ResumeRestores(c: Compiled, s: RunSnapshot, now: Time)
    requires RunInv(c, s) && Adjacent(c) && !WorkflowTerminal(s.row.status) && LocalTasks(s.tasks)
    ensures var o := PrepareForResume(s, c, now);
      && o.Resumed? && RunInv(c, o.s) && Rested(o.s) && Recorded(s, o.s, 4, now)
      && o.s.row.status == s.row.status
      && exists mid :: Propagated(c, s, mid, o.s.tasks, now)
  {
    hide Recorded, BlockedSources, RunInv, ResumeTasks, RefillTasks, SkipDescendantsFrom, TaskHistory, ValidCompiled;
    hide Propagated, Unsucceeded;
    UnfinishedParts(c, s);
    var s0 := s.(remaining := ZeroCounts(|s.tasks|));
    CounterRecorded(s, s0, 4, now);
    assert s0.tasks[..c.Size()] == s0.tasks;
    ResumeTasksExact(s0, c, c.Size(), now);
    var s1 := ResumeTasks(s0, c, c.Size(), now).s;
    RecordedTransitive(s, s0, s1, 4, now);
    PropagationApplies(s, c, s1, now);
    var s2 := SkipDescendantsFrom(s1, c, BlockedSources(s1.tasks, |s1.tasks|), now).s;
    RecordedTransitive(s, s1, s2, 4, now);
    PropagatedGraph(c, s, s1.tasks, s2.tasks, now);
    RefillTasksExact(s2, c, c.Size(), now);
    var t := RefillTasks(s2, c, c.Size(), now).s;
    CounterRecorded(s2, t, 4, now);
    RecordedTransitive(s, s2, t, 4, now);
    RestoredInv(c, s, s1.tasks, t, now);
  }

  lemma UnfinishedParts(c: Compiled, s: RunSnapshot)
    requires RunInv(c, s) && !WorkflowTerminal(s.row.status)
    ensures ValidCompiled(c) && Fits(s, c) && Histories(c, s) && NoneCanceled(s.tasks)
  {
  }

  lemma {:induction false} RestoredInv(c: Compiled, s: RunSnapshot, mid: seq<TaskRun>, t: RunSnapshot, now: Time)
    requires RunInv(c, s) && NoneCanceled(s.tasks) && !WorkflowTerminal(s.row.status) && LocalTasks(s.tasks)
    requires Propagated(c, s, mid, t.tasks, now) && GraphAgrees(c, t.tasks) && t.row.status == s.row.status && Fits(t, c)
    requires forall j :: 0 <= j < c.Size() ==>
      t.remaining[j] == if !Terminal(t.tasks[j].status) then Unsucceeded(c.dependencies[j], t.tasks) else 0
    ensures RunInv(c, t) && Rested(t)
  {
    hide TaskHistory, NodeAgrees, Unsucceeded, ValidCompiled;
    if s.row.status.WorkflowPending? { PendingStays(c, s, mid, t.tasks, now); }
    forall j | 0 <= j < c.Size()
      ensures TaskHistory(t.tasks[j], c.MaxAttempts(j)) && t.tasks[j].key == c.definition.tasks[j].key
      ensures !t.tasks[j].status.TaskRunning? && !t.tasks[j].status.TaskCanceled? && !t.tasks[j].status.TaskQueued?
    {
      PropagatedHistory(c, s, mid, t.tasks, j, now);
    }
  }

  /** A snapshot with a task on the dispatch boundary is refused: recovery is for local runs. */
  lemma {:induction false} QueuedRefused(s: RunSnapshot, c: Compiled, q: nat, n: nat, now: Time)
    requires Fits(s, c) && Histories(c, s) && q < n <= c.Size()
    requires LocalTasks(s.tasks[..q]) && s.tasks[q].status.TaskQueued?
    ensures ResumeTasks(s, c, n, now).Refused?
  {
    hide TaskHistory, RestedTask, Recorded;
    if q < n - 1 {
      QueuedRefused(s, c, q, n - 1, now);
    } else {
      ResumeTasksExact(s, c, q, now);
    }
  }

  /** Recovery accepts an unfinished run exactly when no task is queued. */
  lemma {:induction false} ResumeAccepts(c: Compiled, s: RunSnapshot, now: Time)
    requires RunInv(c, s) && Adjacent(c) && !WorkflowTerminal(s.row.status)
    ensures PrepareForResume(s, c, now).Resumed? <==> LocalTasks(s.tasks)
  {
    hide RunInv, TaskHistory, ResumeTasks, RefillTasks, SkipDescendantsFrom;
    UnfinishedParts(c, s);
    if LocalTasks(s.tasks) {
      ResumeRestores(c, s, now);
    } else {
      var q := FirstQueued(s.tasks, |s.tasks|);
      QueuedRefused(s.(remaining := ZeroCounts(|s.tasks|)), c, q, c.Size(), now);
    }
  }

  lemma {:induction false} FirstQueued(tasks: seq<TaskRun>, n: nat) returns (q: nat)
    requires n <= |tasks| && !LocalTasks(tasks[..n])
    ensures q < n && LocalTasks(tasks[..q]) && tasks[q].status.TaskQueued?
  {
    if LocalTasks(tasks[..n - 1]) {
      q := n - 1;
      assert forall j :: 0 <= j < n - 1 ==> tasks[..n][j] == tasks[..n - 1][j];
    } else {
      q := FirstQueued(tasks, n - 1);
    }
  }

  // ---------- preparing again changes nothing ----------

  ghost function BlockedTasks(tasks: seq<TaskRun>): set<nat> {
    set v | v in Below(|tasks|) && Blocked(tasks[v].status)
  }

  /** Where the graph agrees, the tasks behind a blocked one are blocked themselves. */
  lemma {:induction false} BlockedCloses(c: Compiled, s: RunSnapshot, u: nat, v: nat)
    requires RunInv(c, s) && u in BlockedTasks(s.tasks) && Edge(c.successors, u, v)
    ensures v in BlockedTasks(s.tasks)
  {
    hide Unsucceeded, TaskHistory, Ranked, IndexIsBijection;
    EdgeReaches(c.successors, u, v);
    ReachesInRange(c.successors, u, v);
    DependencyEdge(c, u, v);
    assert NodeAgrees(c.dependencies[v], s.tasks, s.tasks[v].status);
  }

  /** Nothing is left to skip once the graph agrees. */
  lemma {:induction false} NothingToSkip(c: Compiled, s: RunSnapshot, s1: RunSnapshot, now: Time)
    requires RunInv(c, s) && s1.tasks == s.tasks && Adjacent(c) && |s1.tasks| == c.Size()
    ensures SkipDescendantsFrom(s1, c, BlockedSources(s1.tasks, |s1.tasks|), now) == Applied(s1)
  {
    hide RunInv, BlockedSources, SkipLoop;
    var sources := BlockedSources(s1.tasks, |s1.tasks|);
    var all := BlockedTasks(s.tasks);
    BlockedSourcesExact(s1.tasks, |s1.tasks|);
    forall u, v | u in all && Edge(c.successors, u, v) ensures v in all { BlockedCloses(c, s, u, v); }
    var queue := AllSuccessors(c.successors, sources);
    AllSuccessorsExact(c.successors, sources);
    forall k | 0 <= k < |queue| ensures queue[k] in all {
      assert queue[k] in queue;
      var u: nat :| u in sources && Edge(c.successors, u, queue[k]);
      assert u in all;
    }
    SkipLoopNothing(s1, c.successors, queue, {}, now, all);
  }

  /** Preparing a prepared snapshot again gives it back unchanged: no event, no task, no counter. */
  lemma {:induction false} ResumeTwiceIsOnce(c: Compiled, s: RunSnapshot, now: Time)
    requires RunInv(c, s) && Adjacent(c) && !WorkflowTerminal(s.row.status) && |s.remaining| == |s.tasks| && Rested(s)
    ensures PrepareForResume(s, c, now) == Resumed(s)
  {
    hide RunInv, BlockedSources, ResumeTasks, RefillTasks, SkipDescendantsFrom, TaskHistory, NodeAgrees, Unsucceeded,
      ValidCompiled;
    UnfinishedParts(c, s);
    var s0 := s.(remaining := ZeroCounts(|s.tasks|));
    assert s0.tasks[..c.Size()] == s0.tasks;
    ResumeTasksExact(s0, c, c.Size(), now);
    NothingToSkip(c, s, s0, now);
    CountsOf(c, s);
    RefillTasksExact(s0, c, c.Size(), now);
    assert RefillTasks(s0, c, c.Size(), now).s.remaining == s.remaining;
  }

  lemma CountsOf(c: Compiled, s: RunSnapshot)
    requires RunInv(c, s)
    ensures ValidCompiled(c) && Fits(s, c) && GraphAgrees(c, s.tasks) && LiveCounters(c, s)
  {
  }
}
