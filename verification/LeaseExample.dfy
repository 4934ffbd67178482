/** Two concrete histories of one lease, the only attempt of the only task of a run. In the first, two accepted renewals
    move its expiry back: the second transaction read the clock earlier than the first. In the second, the cancellation of
    the run is requested, the lease expires before it is carried out, and the run ends as failed. */
module LeaseExample {
  import opened Domain
  import opened Graph
  import opened Propagation
  import opened Compiler
  import opened Steps
  import opened RunInvariant
  import opened RunSteps
  import opened RunResults
  import opened RunTheorems
  import opened DispatchModel
  import opened DispatchInvariant
  import opened DispatchSteps
  import opened DispatchRuns
  import opened LeaseTiming
  import opened RequestedRuns

  const SINGLE := Compiled(
    WorkflowDefinition("example", 1, [TaskDefinition("a", EXECUTOR_MOCK, "run", Input([]), [], RetryPolicy(1, 0), 1)]),
    map["a" := 0], [[]], [[]])
  const SESSION := Worker([EXECUTOR_MOCK], 1, WorkerActive, 0, 0, None)
  const CREATE := DoCreate("r", SINGLE, 0)
  const REGISTER := DoRegister("w", [EXECUTOR_MOCK], 1, 0)
  const QUEUE := DoQueue("r", "d", 0)
  const CLAIM := DoClaim("w", "d", "t", 0, 100)
  const CLAIMED: seq<DispatchStep> := [CREATE, REGISTER, QUEUE, CLAIM]
  const REQUEST := DoRequest("r", 50)
  const EXPIRE := DoExpire("d", 100)

  lemma SingleIsValid()
    ensures ValidCompiled(SINGLE)
  {
    SingleGraph();
    hide Transposes, Ranked;
    assert IndexIsBijection(SINGLE);
  }

  lemma SingleGraph()
    ensures Transposes(SINGLE.successors, SINGLE.dependencies) && Ranked(SINGLE)
  {
    assert Ranks(SINGLE.successors, [0]);
  }

  function FirstEntry(): Entry { Entry(SINGLE, NewRunSnapshot("r", SINGLE, 0)) }
  function Registered(): World { World(map["r" := FirstEntry()], map[], map["w" := SESSION]) }

  lemma {:induction false} UpToRegister()
    ensures WorldAt([CREATE, REGISTER], 2, 1) == Registered()
  {
    SingleIsValid();
    hide ValidCompiled, NewRunSnapshot;
    assert WorldAt([CREATE, REGISTER], 0, 1) == EMPTY;
    assert WorldAt([CREATE, REGISTER], 1, 1) == World(map["r" := FirstEntry()], map[], map[]);
  }

  lemma {:induction false} FirstTask()
    ensures var s := NewRunSnapshot("r", SINGLE, 0);
      && |s.tasks| == 1 && FirstReady(s.tasks, 0) == 0 && s.tasks[0].key == "a" && s.tasks[0].attempts == []
      && s.row.status.WorkflowPending? && s.row.cancelRequestedAt.None?
      && NextKind(FirstEntry()) == Some(EXECUTOR_MOCK)
  {
  }

  /** The only task of a running run waits for a worker, with no attempt yet. */
  ghost predicate Pending(w: World) {
    && w.workers == map["w" := SESSION] && w.dispatches ==
         map["d" := Dispatch("r", "a", EXECUTOR_MOCK, DispatchPending, None, None, 0, None)]
    && "r" in w.runs && w.runs["r"].c == SINGLE && w.runs["r"].s.row.status.WorkflowRunning?
         && w.runs["r"].s.row.cancelRequestedAt.None?
    && |w.runs["r"].s.tasks| == 1 && w.runs["r"].s.tasks[0].key == "a" && w.runs["r"].s.tasks[0].attempts == []
    && w.runs["r"].s.tasks[0].status.TaskQueued?
  }

  lemma {:induction false} QueuedRun()
    ensures var s := NewRunSnapshot("r", SINGLE, 0); var o := QueueTask(s, 0, 0);
      && o.Applied? && o.s.tasks == s.tasks[0 := s.tasks[0].(status := TaskQueued)]
      && o.s.row.status.WorkflowRunning? && o.s.row.cancelRequestedAt.None?
  {
    SingleIsValid();
    hide ValidCompiled, RunInv, NewRunSnapshot, QueueTask;
    FirstTask();
    InitialInv("r", SINGLE, 0);
    FreshIsInv(SINGLE, NewRunSnapshot("r", SINGLE, 0));
    InvFits(SINGLE, NewRunSnapshot("r", SINGLE, 0));
    QueueKeeps(SINGLE, NewRunSnapshot("r", SINGLE, 0), 0, 0);
    QueuedRow(NewRunSnapshot("r", SINGLE, 0));
  }

  lemma QueuedRow(s: RunSnapshot)
    ensures var o := QueueTask(s, 0, 0); o.Applied? ==> o.s.row.cancelRequestedAt == s.row.cancelRequestedAt
  {
  }

  lemma {:induction false} QueueHere()
    ensures Schedulable(Registered(), "r", "d", 1)
    ensures QueueNext(Registered(), "r", "d", 0).Moved? && Pending(QueueNext(Registered(), "r", "d", 0).w)
  {
    hide NewRunSnapshot, QueueTask, NextKind;
    FirstTask();
    QueuedRun();
    SingleIsValid();
    NewIsIdle("r", SINGLE, 0);
    assert ActiveDispatches(Registered().dispatches) == {};
  }

  /** The only attempt of the only task is leased until 100. */
  ghost predicate OnlyAttempt(w: World) {
    && "d" in w.dispatches && w.dispatches["d"].run == "r" && w.dispatches["d"].task == "a"
         && w.dispatches["d"].status.DispatchLeased?
    && w.dispatches["d"].lease == Some(LeaseTerms("w", 1, "t", 100, NANOS_PER_MILLI, 0))
    && "r" in w.runs && w.runs["r"].c == SINGLE && w.runs["r"].s.row.status.WorkflowRunning?
         && w.runs["r"].s.row.cancelRequestedAt.None?
    && Fits(w.runs["r"].s, SINGLE) && |w.runs["r"].s.tasks| == 1 && w.runs["r"].s.tasks[0].key == "a"
         && |w.runs["r"].s.tasks[0].attempts| == 1
  }

  lemma StartedRow(s: RunSnapshot, c: Compiled)
    ensures var o := StartQueuedAttempt(s, c, 0, 0, "w", "d");
      o.Applied? ==>
        && o.s.row.status == s.row.status && o.s.row.cancelRequestedAt == s.row.cancelRequestedAt
        && |o.s.tasks| == |s.tasks| && |s.tasks| > 0
        && o.s.tasks[0].key == s.tasks[0].key && |o.s.tasks[0].attempts| == |s.tasks[0].attempts| + 1
  {
  }

  lemma {:induction false} ClaimHere(w: World)
    requires WorldInv(w) && Pending(w)
    ensures Claimable(w, "w", "d")
    ensures ClaimOne(w, "w", "d", "t", 0, 100).Moved? && OnlyAttempt(ClaimOne(w, "w", "d", "t", 0, 100).w)
  {
    hide WorldInv, EntryInv, StartQueuedAttempt;
    assert LeasesOf(w.dispatches, "w") == {};
    ClaimKeepsWorld(w, "w", "d", "t", 0, 100);
    assert TaskIndexByKey(w.runs["r"].s.tasks, "a") == 0;
    StartedRow(w.runs["r"].s, SINGLE);
    var v := ClaimOne(w, "w", "d", "t", 0, 100).w;
    EntryOf(v, "r");
    EntryRunnable("r", v.runs["r"]);
  }

  lemma {:induction false} UpToClaim()
    ensures OnlyAttempt(WorldAt(CLAIMED, 4, 1))
  {
    hide WorldInv, Pending, Claimable, Schedulable, ClaimOne, QueueNext, WorldAt, Registered, OnlyAttempt;
    UpToRegister();
    QueueHere();
    WorldNext([CREATE, REGISTER], QUEUE, 1);
    var steps := [CREATE, REGISTER] + [QUEUE];
    EveryHistory(steps, 3, 1);
    ClaimHere(WorldAt(steps, 3, 1));
    WorldNext(steps, CLAIM, 1);
    assert steps + [CLAIM] == CLAIMED;
  }

  /** Renewed at 10 the lease lasts until 110; a second transaction that read 9 cuts it to 109. */
  lemma {:induction false} RenewalsOutOfOrder()
    ensures var one := CLAIMED + [DoRenew("w", "d", "t", 10, 100)];
      var two := one + [DoRenew("w", "d", "t", 9, 100)];
      && "d" in WorldAt(one, |one|, 1).dispatches && WorldAt(one, |one|, 1).dispatches["d"].lease.Some?
      && "d" in WorldAt(two, |two|, 1).dispatches && WorldAt(two, |two|, 1).dispatches["d"].lease.Some?
      && WorldAt(two, |two|, 1).dispatches["d"].lease.value.expiresAt <
           WorldAt(one, |one|, 1).dispatches["d"].lease.value.expiresAt
  {
    hide WorldAt;
    UpToClaim();
    HistoryMovesBack(CLAIMED, 1, "w", "d", "t", 10, 100);
  }

  lemma {:induction false} LastChanceHere(w: World)
    requires OnlyAttempt(w)
    ensures LastLeaseOver(w, "d", "r", 100)
  {
    hide Descendants;
    assert TaskIndexByKey(w.runs["r"].s.tasks, "a") == 0;
  }

  /** The cancellation is requested at 50, and the lease that was not renewed is settled at 100: the run has failed. */
  lemma {:induction false} RequestedThenFailed()
    ensures var asked := WorldAt(CLAIMED + [REQUEST], 5, 1);
      Requested(asked, "r") && Unfinished(asked, "r")
    ensures var ended := WorldAt(CLAIMED + [REQUEST] + [EXPIRE], 6, 1);
      Requested(ended, "r") && ended.runs["r"].s.row.status.WorkflowFailed?
  {
    hide WorldAt, OnlyAttempt, LastLeaseOver;
    UpToClaim();
    LastChanceHere(WorldAt(CLAIMED, 4, 1));
    RequestedRunCanFail(CLAIMED, 1, "r", "d", 50, 100);
  }
}
