/** The dispatch transactions as they are executed: scans over the tables, loops over their work lists, and commits as
    change sets. Every transaction keeps ownership, fencing and capacity, and its defensive errors never occur. */
module DispatchRepository {
  import opened Domain
  import opened Finite
  import opened Compiler
  import opened Steps
  import opened RunStates
  import opened RunResults
  import opened SavedRuns
  import opened DispatchModel
  import opened DispatchInvariant
  import opened DispatchSteps
  import opened DispatchRuns
  import opened DispatchEffects
  import CS = ChangeSets

  /** The tables after one item of a transaction agree with the value-level step. */
  predicate Did(err: Option<DispatchError>, o: Moved, before: World, after: World) {
    match o
    case Moved(w) => err.None? && after == w
    case Same => err.None? && after == before
    case Refused(e) => err == Some(e) && after == before
  }

  function StepFailure(f: Failure): Option<DispatchError> {
    match f
    case None => Some(NotOwner)
    case Some(e) => Some(StepRefused(e))
  }

  /** The loop over the tasks of a run. */
  method FindTask(tasks: seq<TaskRun>, key: TaskKey) returns (i: int)
    ensures i == TaskIndexByKey(tasks, key)
  {
    i := 0;
    while i < |tasks|
      invariant 0 <= i <= |tasks| && forall j :: 0 <= j < i ==> tasks[j].key != key
    {
      if tasks[i].key == key { return; }
      i := i + 1;
    }
    return -1;
  }

  method FindReady(tasks: seq<TaskRun>) returns (i: int)
    ensures i == FirstReady(tasks, 0)
  {
    i := 0;
    while i < |tasks|
      invariant 0 <= i <= |tasks| && forall j :: 0 <= j < i ==> !tasks[j].status.TaskReady?
    {
      if tasks[i].status == TaskReady { return; }
      i := i + 1;
    }
    return -1;
  }

  method FindDueRetry(tasks: seq<TaskRun>, at: Time) returns (i: int)
    ensures i == FirstDueRetry(tasks, at, 0)
  {
    i := 0;
    while i < |tasks|
      invariant 0 <= i <= |tasks| && forall j :: 0 <= j < i ==> !DueRetry(tasks[j], at)
    {
      if tasks[i].status == TaskWaitingRetry && tasks[i].readyAt.Some? && at >= tasks[i].readyAt.value { return; }
      i := i + 1;
    }
    return -1;
  }

  /** SELECT count(*) of the tasks in a slot. */
  method CountBusy(tasks: seq<TaskRun>) returns (n: nat)
    ensures n == |Busy(tasks)|
  {
    n := 0;
    var i := 0;
    while i < |tasks|
      invariant 0 <= i <= |tasks| && n == |Busy(tasks[..i])|
    {
      OneMoreTask(tasks, i);
      if tasks[i].status == TaskQueued || tasks[i].status == TaskRunning { n := n + 1; }
      i := i + 1;
    }
    assert tasks[..i] == tasks;
  }

  lemma OneMoreTask(tasks: seq<TaskRun>, i: nat)
    requires i < |tasks|
    ensures |Busy(tasks[..i + 1])| == |Busy(tasks[..i])| + if Occupies(tasks[i].status) then 1 else 0
  {
    var before, after := tasks[..i], tasks[..i + 1];
    forall k: nat ensures k in Busy(after) <==> k in Busy(before) || (k == i && Occupies(tasks[i].status)) {
      assert k < i ==> after[k] == before[k];
    }
    hide Busy, Occupies;
    if Occupies(tasks[i].status) {
      assert Busy(after) == Busy(before) + {i};
    } else {
      assert Busy(after) == Busy(before);
    }
  }

  lemma LeasableIsPending(w: World, id: DispatchID, kinds: seq<ExecutorKind>)
    requires CanBeLeased(w, id, kinds)
    ensures id in w.dispatches && w.dispatches[id].status.DispatchPending? && w.dispatches[id].kind in kinds
  {
  }

  lemma NewName(names: seq<string>, n: nat)
    requires NoDuplicates(names) && n < |names|
    ensures names[n] !in names[..n] && names[..n + 1] == names[..n] + [names[n]]
  {
  }

  // ---------- the scans find what they are to find ----------

  lemma OrphansExactly(w: World)
    ensures forall id :: IsOrphan(w, id) <==> IsStranded(w, id)
    ensures forall id :: IsStranded(w, id) ==> id in w.dispatches && w.dispatches[id].status.DispatchPending?
  {
    forall id ensures IsOrphan(w, id) <==> IsStranded(w, id) {
      if IsOrphan(w, id) {
        forall k | k in w.workers && w.workers[k].status.WorkerActive? ensures w.dispatches[id].kind !in w.workers[k].kinds {
          assert !Serves(w.workers[k], w.dispatches[id].kind);
        }
      }
    }
  }

  lemma RetriesExactly(w: World, now: Time)
    ensures forall r :: HasDueRetry(w, r, now) <==> RetryCanGo(w, r, now)
    ensures forall r :: RetryCanGo(w, r, now) ==> r in w.runs
  {
    forall r ensures HasDueRetry(w, r, now) <==> RetryCanGo(w, r, now) { DueExactly(w, r, now); }
  }

  /** Where both rows are owned a pending dispatch waits for a queued task of a running run. */
  lemma {:induction false} OffersExactly(w: World, kinds: seq<ExecutorKind>)
    requires WorldInv(w)
    ensures forall id :: Offered(w, id, kinds) <==> CanBeLeased(w, id, kinds)
    ensures forall id :: CanBeLeased(w, id, kinds) ==> id in w.dispatches
  {
    hide WorldInv;
    forall id ensures Offered(w, id, kinds) <==> CanBeLeased(w, id, kinds) { OfferedExactly(w, id, kinds); }
  }

  lemma ExpiredExactly(w: World, now: Time)
    ensures forall id :: IsExpired(w, id, now) <==> RanOut(w, id, now)
    ensures forall id :: RanOut(w, id, now) ==> id in w.dispatches
  {
  }

  lemma SilentExactly(workers: map<WorkerID, Worker>, before: Time)
    ensures var after := MarkedOffline(workers, before);
      after.Keys == workers.Keys && forall k :: k in workers ==> after[k] == IfSilent(workers[k], before)
  {
  }

  lemma RoomExactly(w: World)
    ensures forall r :: HasRoom(w, r) <==> Advanceable(w, r) && |Busy(w.runs[r].s.tasks)| < w.runs[r].c.definition.concurrency
    ensures forall r :: HasRoom(w, r) ==> r in w.runs && Open(w.runs[r].s)
  {
  }

  lemma RoomOf(w: World, r: RunID)
    requires HasRoom(w, r)
    ensures r in w.runs && Open(w.runs[r].s) && |Busy(w.runs[r].s.tasks)| < w.runs[r].c.definition.concurrency
  {
  }

  lemma RequestsExactly(w: World)
    ensures forall r :: IsRequested(w, r) <==> CancelWaits(w, r)
    ensures forall r :: CancelWaits(w, r) ==> r in w.runs
  {
  }

  lemma WaitingIsRun(w: World, r: RunID)
    requires CancelWaits(w, r)
    ensures r in w.runs
  {
  }

  lemma ReturnedRow(w: World, id: DispatchID, now: Time)
    requires ReturnOrphan(w, id, now).Moved?
    ensures var v := ReturnOrphan(w, id, now).w;
      v.workers == w.workers && v.dispatches == w.dispatches[id := Ended(w.dispatches[id], DispatchCanceled, now)]
  {
    hide ReturnQueuedTaskToReady, PutRun;
  }

  /** The run after its first due retry became ready. */
  function Promoted(w: World, r: RunID, now: Time): Entry
    requires r in w.runs
  {
    match PromoteRetry(w, r, now)
    case Moved(v) => if r in v.runs then v.runs[r] else w.runs[r]
    case _ => w.runs[r]
  }

  lemma PromotedRun(w: World, r: RunID, now: Time)
    requires PromoteRetry(w, r, now).Moved?
    ensures var v := PromoteRetry(w, r, now).w;
      r in w.runs && v.workers == w.workers && v.dispatches == w.dispatches && v.runs == w.runs[r := Promoted(w, r, now)]
  {
    hide MakeRetryReady;
  }

  lemma SameRetry(w: World, v: World, r: RunID, now: Time)
    requires r in w.runs && r in v.runs && v.runs[r] == w.runs[r]
    ensures RetryCanGo(w, r, now) <==> RetryCanGo(v, r, now)
    ensures Promoted(v, r, now) == Promoted(w, r, now)
  {
    hide MakeRetryReady;
  }

  ghost predicate ListsActive(workers: map<WorkerID, Worker>, ids: seq<WorkerID>) {
    NoDuplicates(ids) && forall id :: id in ids <==> id in workers && workers[id].status.WorkerActive?
  }

  ghost predicate ListsPending(dispatches: map<DispatchID, Dispatch>, ids: seq<DispatchID>) {
    NoDuplicates(ids) && forall id :: id in ids <==> id in dispatches && dispatches[id].status.DispatchPending?
  }

  /** Ids nobody has used: nonempty, distinct and new. */
  predicate FreshNames(dispatches: map<DispatchID, Dispatch>, names: seq<DispatchID>) {
    NoDuplicates(names) && forall k :: 0 <= k < |names| ==> names[k] != "" && names[k] !in dispatches
  }

  /** An active session with room for `slots` more leases. */
  ghost predicate HasSlots(w: World, worker: WorkerID, slots: int)
    requires worker in w.workers
  {
    w.workers[worker].status.WorkerActive? && |LeasesOf(w.dispatches, worker)| + slots <= w.workers[worker].maxConcurrency
  }

  /** There is a free slot for a kind exactly if some of the sessions serves it and could claim one more dispatch. */
  lemma {:induction false} FreeSlotsExactly(w: World, sessions: seq<WorkerID>, kind: ExecutorKind)
    requires forall k :: 0 <= k < |sessions| ==> sessions[k] in w.workers && w.workers[sessions[k]].status.WorkerActive?
    ensures FreeSlots(w, sessions, kind) > 0
      <==> exists k :: 0 <= k < |sessions| && kind in w.workers[sessions[k]].kinds && HasSlots(w, sessions[k], 1)
  {
    hide LeasesOf;
    if sessions != [] {
      var n := |sessions| - 1;
      var id := sessions[n];
      var free := NonNegativePart(w.workers[id].maxConcurrency - |LeasesOf(w.dispatches, id)|);
      FreeSlotsExactly(w, sessions[..n], kind);
      FreeSlotsServe(w, sessions[..n], kind);
      ShareBounds(w.workers[id].kinds, kind, free);
      ShareExactly(w.workers[id].kinds, kind, free);
      forall k | 0 <= k < n ensures sessions[..n][k] == sessions[k] {}
      if free > 0 && kind in w.workers[id].kinds { assert HasSlots(w, sessions[n], 1); }
    }
  }

  lemma {:induction false} ShareExactly(kinds: seq<ExecutorKind>, kind: ExecutorKind, free: int)
    requires free >= 0
    ensures KindShare(kinds, kind, free) > 0 <==> free > 0 && kind in kinds
  {
    if kinds != [] {
      ShareExactly(kinds[..|kinds| - 1], kind, free);
      ShareBounds(kinds[..|kinds| - 1], kind, free);
      assert kinds == kinds[..|kinds| - 1] + [kinds[|kinds| - 1]];
    }
  }

  // ---------- the steps of a transaction ----------

  /** The last world of a history. */
  ghost function Latest(steps: seq<DispatchStep>, limit: nat): World { WorldAt(steps, |steps|, limit) }

  function Then(w: World, o: Moved): World {
    match o
    case Moved(v) => v
    case _ => w
  }

  /** `o` is what the next step does. */
  lemma {:induction false} Taken(steps: seq<DispatchStep>, step: DispatchStep, limit: nat, o: Moved)
    requires o == Take(Latest(steps, limit), step, limit)
    ensures Latest(steps + [step], limit) == Then(Latest(steps, limit), o)
  {
    hide Take;
    WorldNext(steps, step, limit);
  }

  /** The tables after a step are those the table of the protocol says. */
  ghost predicate Obeys(before: World, after: World, step: DispatchStep, limit: nat) {
    if Enabled(before, step, limit) then Effect(before, after, step) else after == before
  }

  lemma {:induction false} ThenObeys(w: World, step: DispatchStep, limit: nat, o: Moved)
    requires WorldInv(w) && o == Take(w, step, limit)
    ensures Obeys(w, Then(w, o), step, limit)
  {
    hide Take, Enabled, Effect;
    TakeExactly(w, step, limit);
  }

  lemma OneMore(past: seq<DispatchStep>, steps: seq<DispatchStep>, step: DispatchStep)
    ensures past + steps + [step] == past + (steps + [step])
  {
  }

  /** The first of the dispatches were claimed, in order. */
  predicate AreClaims(steps: seq<DispatchStep>, worker: WorkerID, ids: seq<DispatchID>, tokens: seq<Token>, now: Time,
      duration: int) {
    |steps| <= |ids| && |steps| <= |tokens| && forall k :: 0 <= k < |steps| ==>
      steps[k] == DoClaim(worker, ids[k], tokens[k], now, duration)
  }

  lemma MoreClaims(past: seq<DispatchStep>, steps: seq<DispatchStep>, worker: WorkerID, ids: seq<DispatchID>,
      tokens: seq<Token>, now: Time, duration: int)
    requires AreClaims(steps, worker, ids, tokens, now, duration) && |steps| < |ids| && |steps| < |tokens|
    ensures var step := DoClaim(worker, ids[|steps|], tokens[|steps|], now, duration);
      past + steps + [step] == past + (steps + [step]) && AreClaims(steps + [step], worker, ids, tokens, now, duration)
  {
  }

  lemma NoClaims(runs: map<RunID, Entry>, worker: WorkerID, ids: seq<DispatchID>, tokens: seq<Token>, now: Time, duration: int)
    ensures AreClaims([], worker, ids, tokens, now, duration) && SameStanding(runs, runs)
  {
  }

  lemma StandingAgain(a: map<RunID, Entry>, b: map<RunID, Entry>, c: map<RunID, Entry>)
    requires SameStanding(a, b) && SameStanding(b, c)
    ensures SameStanding(a, c)
  {
  }

  /** The first of the references were renewed, in order. */
  predicate AreRenewals(steps: seq<DispatchStep>, worker: WorkerID, refs: seq<(DispatchID, Token)>, now: Time, duration: int) {
    |steps| <= |refs| && forall k :: 0 <= k < |steps| ==> steps[k] == DoRenew(worker, refs[k].0, refs[k].1, now, duration)
  }

  lemma MoreRenewals(past: seq<DispatchStep>, steps: seq<DispatchStep>, worker: WorkerID,
      refs: seq<(DispatchID, Token)>, now: Time, duration: int)
    requires AreRenewals(steps, worker, refs, now, duration) && |steps| < |refs|
    ensures var step := DoRenew(worker, refs[|steps|].0, refs[|steps|].1, now, duration);
      past + steps + [step] == past + (steps + [step]) && AreRenewals(steps + [step], worker, refs, now, duration)
  {
  }

  /** A task of each of the runs was queued, in order, with the first of the names. */
  predicate AreQueues(steps: seq<DispatchStep>, queued: seq<RunID>, names: seq<DispatchID>, now: Time) {
    |steps| == |queued| <= |names| && forall k :: 0 <= k < |steps| ==> steps[k] == DoQueue(queued[k], names[k], now)
  }

  lemma MoreQueues(past: seq<DispatchStep>, steps: seq<DispatchStep>, queued: seq<RunID>, q: RunID,
      names: seq<DispatchID>, now: Time)
    requires AreQueues(steps, queued, names, now) && |queued| < |names|
    ensures var step := DoQueue(q, names[|queued|], now);
      past + steps + [step] == past + (steps + [step]) && AreQueues(steps + [step], queued + [q], names, now)
  {
  }

  /** The step settles dispatch `id`, at a time not before `now`. */
  predicate Settles(step: DispatchStep, id: DispatchID, now: Time) {
    step.DoExpire? && step.id == id && step.now >= now
  }

  /** No run changed its status or its request. */
  ghost predicate SameStanding(before: map<RunID, Entry>, after: map<RunID, Entry>) {
    && after.Keys == before.Keys
    && forall q :: q in before ==>
         && after[q].s.row.status == before[q].s.row.status
         && after[q].s.row.cancelRequestedAt == before[q].s.row.cancelRequestedAt
  }

  /** A pending dispatch that was offered is still offered while its run stands: its task is still queued. */
  lemma {:induction false} OfferStands(w: World, v: World, id: DispatchID, kinds: seq<ExecutorKind>)
    requires CanBeLeased(w, id, kinds) && WorldInv(v) && SameStanding(w.runs, v.runs) && id in v.dispatches
      && v.dispatches[id] == w.dispatches[id]
    ensures Offered(v, id, kinds)
  {
    hide WorldInv;
    PendingWaits(v, id);
  }

  /** How many of the queued runs queued a task of `kind`. */
  function KindCount(runs: map<RunID, Entry>, queued: seq<RunID>, kind: ExecutorKind): nat {
    if queued == [] then 0
    else
      var q := queued[|queued| - 1];
      KindCount(runs, queued[..|queued| - 1], kind) + (if q in runs && NextKind(runs[q]) == Some(kind) then 1 else 0)
  }

  /** The run has nothing to queue, or the queued ones took every slot for its kind. */
  predicate NothingLeft(runs: map<RunID, Entry>, queued: seq<RunID>, slots: map<ExecutorKind, int>, q: RunID)
    requires q in runs
  {
    NextKind(runs[q]).Some? ==> CapacityFor(slots, NextKind(runs[q]).value) <= KindCount(runs, queued, NextKind(runs[q]).value)
  }

  lemma KindCountNext(runs: map<RunID, Entry>, queued: seq<RunID>, q: RunID)
    requires q in runs
    ensures forall kind ::
      KindCount(runs, queued + [q], kind) == KindCount(runs, queued, kind) + (if NextKind(runs[q]) == Some(kind) then 1 else 0)
  {
    hide NextKind;
    assert (queued + [q])[..|queued|] == queued;
  }

  /** What is left of the slots after the queued runs took theirs. */
  ghost predicate Accounted(runs: map<RunID, Entry>, queued: seq<RunID>, slots: map<ExecutorKind, int>,
      left: map<ExecutorKind, int>) {
    && (forall kind :: CapacityFor(left, kind) == CapacityFor(slots, kind) - KindCount(runs, queued, kind))
    && (forall kind :: KindCount(runs, queued, kind) <= NonNegativePart(CapacityFor(slots, kind)))
  }

  /** Every run of `ids` was queued, or nothing was left for it. */
  ghost predicate Considered(runs: map<RunID, Entry>, ids: seq<RunID>, queued: seq<RunID>, slots: map<ExecutorKind, int>) {
    && NoDuplicates(queued) && (forall q :: q in queued ==> q in ids)
    && (forall q :: q in ids && q in runs && q !in queued ==> NothingLeft(runs, queued, slots, q))
  }

  lemma NoneConsidered(runs: map<RunID, Entry>, slots: map<ExecutorKind, int>, names: seq<DispatchID>, now: Time)
    ensures Accounted(runs, [], slots, slots) && Considered(runs, [], [], slots) && AreQueues([], [], names, now)
  {
  }

  lemma {:induction false} OneQueued(runs: map<RunID, Entry>, ids: seq<RunID>, queued: seq<RunID>,
      slots: map<ExecutorKind, int>, left: map<ExecutorKind, int>, q: RunID)
    requires q in runs && q !in ids && Accounted(runs, queued, slots, left) && Considered(runs, ids, queued, slots)
    requires NextKind(runs[q]).Some? && CapacityFor(left, NextKind(runs[q]).value) > 0
    ensures var kind := NextKind(runs[q]).value; Accounted(runs, queued + [q], slots, left[kind := CapacityFor(left, kind) - 1])
    ensures Considered(runs, ids + [q], queued + [q], slots)
  {
    hide NextKind, KindCount;
    KindCountNext(runs, queued, q);
  }

  lemma {:induction false} OnePassedOver(runs: map<RunID, Entry>, ids: seq<RunID>, queued: seq<RunID>,
      slots: map<ExecutorKind, int>, left: map<ExecutorKind, int>, q: RunID)
    requires q in runs && Accounted(runs, queued, slots, left) && Considered(runs, ids, queued, slots)
    requires NextKind(runs[q]).Some? ==> CapacityFor(left, NextKind(runs[q]).value) <= 0
    ensures Considered(runs, ids + [q], queued, slots)
  {
    hide NextKind, KindCount;
  }

  /** A run with a ready task and room for one more of its tasks. */
  ghost predicate HasRoom(w: World, r: RunID) {
    TaskCanGo(w, r) && |Busy(w.runs[r].s.tasks)| < w.runs[r].c.definition.concurrency
  }

  /** One scheduling pass: what its three scans found and the steps it took. */
  datatype Pass = Pass(
    returned: seq<DispatchID>, reversals: seq<DispatchStep>,
    promoted: seq<RunID>, promotes: seq<DispatchStep>,
    candidates: seq<RunID>, sessions: seq<WorkerID>, pending: seq<DispatchID>,
      slots: map<ExecutorKind, int>,
    queued: seq<RunID>, queues: seq<DispatchStep>)

  /** The first scan returns orphans: all of them, or as many as the limit. */
  ghost predicate ReturnsOrphans(w: World, p: Pass, limit: nat, now: Time) {
    && NoDuplicates(p.returned) && |p.returned| <= limit && (forall k :: 0 <= k < |p.returned| ==> IsStranded(w, p.returned[k]))
    && (|p.returned| < limit ==> forall id :: IsStranded(w, id) ==> id in p.returned)
    && |p.reversals| == |p.returned| && forall k :: 0 <= k < |p.returned| ==> p.reversals[k] == DoReturn(p.returned[k], now)
  }

  /** The second scan readies a due retry in runs that have one: in all that no other transaction holds, or as many as the
      limit. */
  ghost predicate PromotesRetries(w: World, p: Pass, limit: nat, now: Time, held: set<RunID>) {
    && NoDuplicates(p.promoted) && |p.promoted| <= limit
         && (forall k :: 0 <= k < |p.promoted| ==> RetryCanGo(w, p.promoted[k], now))
    && (|p.promoted| < limit ==> forall q :: RetryCanGo(w, q, now) ==> q in p.promoted || q in held)
    && |p.promotes| == |p.promoted| && forall k :: 0 <= k < |p.promoted| ==> p.promotes[k] == DoPromote(p.promoted[k], now)
  }

  /** The third scan queues one task in runs with room: as many candidates as dispatches are missing to the limit, or all
      that are not held. No candidate is passed over while a slot is left for its kind, and no slot is used twice. */
  ghost predicate QueuesCandidates(w: World, p: Pass, limit: nat, names: seq<DispatchID>, now: Time, held: set<RunID>) {
    var available := limit - |ActiveDispatches(w.dispatches)|;
    AreQueues(p.queues, p.queued, names, now) && if available <= 0 then p.queued == [] else FillsSlots(w, p, available, held)
  }

  ghost predicate FillsSlots(w: World, p: Pass, available: nat, held: set<RunID>) {
    && CountsSlots(w, p.slots, p.sessions, p.pending)
    && NoDuplicates(p.candidates) && |p.candidates| <= available
         && (forall k :: 0 <= k < |p.candidates| ==> HasRoom(w, p.candidates[k]))
    && (|p.candidates| < available ==>
         forall q :: HasRoom(w, q) ==> q in p.candidates || q in held || NothingLeft(w.runs, p.queued, p.slots, q))
    && Considered(w.runs, p.candidates, p.queued, p.slots)
    && forall kind :: KindCount(w.runs, p.queued, kind) <= CapacityFor(p.slots, kind)
  }

  /** The slots of each kind: free ones of the active sessions, less the dispatches already pending. */
  ghost predicate CountsSlots(w: World, slots: map<ExecutorKind, int>, sessions: seq<WorkerID>, pending: seq<DispatchID>) {
    && ListsActive(w.workers, sessions) && ListsPending(w.dispatches, pending)
    && forall kind :: CapacityFor(slots, kind) ==
         NonNegativePart(FreeSlots(w, sessions, kind) - PendingCount(w.dispatches, pending, kind))
  }

  /** The pass over the world that `past` led to, while other transactions hold some runs during its two locking scans. */
  ghost predicate IsPass(past: seq<DispatchStep>, p: Pass, limit: nat, names: seq<DispatchID>, now: Time,
      heldRetries: set<RunID>, held: set<RunID>) {
    && ReturnsOrphans(Latest(past, limit), p, limit, now)
    && PromotesRetries(Latest(past + p.reversals, limit), p, limit, now, heldRetries)
    && QueuesCandidates(Latest(past + p.reversals + p.promotes, limit), p, limit, names, now, held)
  }

  /** Without any slot no run could be queued. */
  lemma NoSlots(w: World, p: Pass, available: nat, held: set<RunID>)
    requires CountsSlots(w, p.slots, p.sessions, p.pending) && |p.slots| == 0 && p.candidates == [] && p.queued == []
    ensures FillsSlots(w, p, available, held)
  {
    hide CountsSlots, NextKind, TaskCanGo, Busy;
    assert p.slots == map[];
  }

  lemma {:induction false} AllCandidates(w: World, p: Pass, available: nat, tried: nat, held: set<RunID>)
    requires CountsSlots(w, p.slots, p.sessions, p.pending)
    requires NoDuplicates(p.candidates) && |p.candidates| <= available && forall k :: 0 <= k < |p.candidates| ==>
      HasRoom(w, p.candidates[k])
    requires |p.candidates| < available ==> forall q :: HasRoom(w, q) ==> q in p.candidates || q in held
    requires |p.queued| <= tried <= |p.candidates| && (tried == |p.candidates| || |p.queued| == available)
    requires Considered(w.runs, p.candidates[..tried], p.queued, p.slots)
    requires forall kind :: KindCount(w.runs, p.queued, kind) <= NonNegativePart(CapacityFor(p.slots, kind))
    ensures FillsSlots(w, p, available, held)
  {
    hide HasRoom, NothingLeft, KindCount, NextKind, Considered, FreeSlots;
    assert p.candidates[..tried] == p.candidates;
    RoomExactly(w);
  }

  lemma NoQueues(names: seq<DispatchID>, now: Time)
    ensures AreQueues([], [], names, now)
  {
  }

  lemma SlotsAreServed(w: World, slots: map<ExecutorKind, int>, sessions: seq<WorkerID>, pending: seq<DispatchID>)
    requires CountsSlots(w, slots, sessions, pending)
    ensures forall kind :: CapacityFor(slots, kind) > 0 ==> Served(w.workers, kind)
  {
    hide FreeSlots, Served, CapacityFor, PendingCount;
    forall kind | CapacityFor(slots, kind) > 0 ensures Served(w.workers, kind) { FreeSlotsServe(w, sessions, kind); }
  }

  predicate IsRequested(w: World, q: RunID) {
    q in w.runs && w.runs[q].s.row.cancelRequestedAt.Some? && !WorkflowTerminal(w.runs[q].s.row.status)
  }

  lemma SameRequest(w: World, v: World, q: RunID)
    requires q in w.runs && q in v.runs ==> v.runs[q] == w.runs[q]
    requires q in w.runs <==> q in v.runs
    ensures CancelWaits(w, q) <==> CancelWaits(v, q)
  {
  }

  class Repository {
    const leaseDuration: int
    const heartbeatInterval: int
    /** The constant limit on active dispatches that every scan is run with. */
    const dispatchLimit: nat

    var runs: map<RunID, Entry>
    var dispatches: map<DispatchID, Dispatch>
    var workers: map<WorkerID, Worker>
    /** Every step that was taken on the tables, by whatever transaction. */
    ghost var history: seq<DispatchStep>

    function Tables(): World reads this { World(runs, dispatches, workers) }

    /** The tables are those of a history of the protocol, so that everything proved of histories holds of them. */
    ghost predicate Inv() reads this {
      WorldInv(Tables()) && Limits(Tables(), dispatchLimit) && Tables() == Latest(history, dispatchLimit)
    }

    constructor (leaseDuration: int, heartbeatInterval: int, dispatchLimit: nat)
      ensures Inv() && Tables() == EMPTY && history == []
      ensures this.leaseDuration == leaseDuration && this.heartbeatInterval == heartbeatInterval
        && this.dispatchLimit == dispatchLimit
    {
      this.leaseDuration, this.heartbeatInterval, this.dispatchLimit := leaseDuration, heartbeatInterval, dispatchLimit;
      runs, dispatches, workers, history := map[], map[], map[], [];
      new;
      EmptyWorld(dispatchLimit);
    }

    // ---------- committing a run ----------

    /** The difference to the stored snapshot is committed as a change set on the next revision. */
    method CommitRun(r: RunID, t: RunSnapshot)
      requires r in runs && CS.Follows(runs[r].s, Saved(runs[r].s, t))
      modifies this`runs
      ensures runs == PutRun(old(Tables()), r, t).runs
    {
      hide CS.Follows, CS.Apply, CS.Diff;
      var before := runs[r].s;
      var after := t.(row := t.row.(revision := before.row.revision + 1, lastEventSequence := LastEventSequence(t)));
      CS.FollowsParts(before, after);
      CS.RoundTrip(before, after);
      var change := CS.ChangeSetFromSnapshots(before, after);
      var stored := CS.ApplyChangeSet(before, change);
      runs := runs[r := runs[r].(s := stored.s)];
    }

    // ---------- single items ----------

    method ReturnOne(id: DispatchID, now: Time) returns (err: Option<DispatchError>)
      requires WorldInv(Tables())
      modifies this`runs, this`dispatches
      ensures Did(err, ReturnOrphan(old(Tables()), id, now), old(Tables()), Tables())
    {
      hide Latest, WorldInv, CS.Follows, EntryInv, Steps.ReturnQueuedTaskToReady, RunDispatched;
      if id !in dispatches { return None; }
      var d := dispatches[id];
      if d.run !in runs { return Some(DispatchError.RunNotFound); }
      if d.status != DispatchPending { return None; }
      var s := runs[d.run].s;
      var i := FindTask(s.tasks, d.task);
      if i < 0 || s.tasks[i].status != TaskQueued { return Some(NotQueued); }
      EntryOf(Tables(), d.run);
      ReturnEntry(d.run, runs[d.run], i, now);
      var updated := new RunState.Clone(s);
      var failed := updated.ReturnQueuedTaskToReady(i, now, "no compatible active Worker");
      if failed.Some? { return StepFailure(failed); }
      CommitRun(d.run, updated.Value());
      dispatches := dispatches[id := d.(status := DispatchCanceled, completedAt := Some(now))];
      return None;
    }

    method PromoteOne(r: RunID, now: Time) returns (err: Option<DispatchError>)
      requires WorldInv(Tables())
      modifies this`runs, this`dispatches
      ensures Did(err, PromoteRetry(old(Tables()), r, now), old(Tables()), Tables())
    {
      hide Latest, WorldInv, CS.Follows, EntryInv, Steps.MakeRetryReady, RunDispatched;
      if r !in runs { return Some(DispatchError.RunNotFound); }
      var s := runs[r].s;
      var i := FindDueRetry(s.tasks, now);
      if i < 0 { return None; }
      EntryOf(Tables(), r);
      PromoteEntry(r, runs[r], i, now);
      var number := s.tasks[i].Last().number;
      var updated := new RunState.Clone(s);
      var applied, failed := updated.MakeRetryReady(i, number, now);
      if failed.Some? { return StepFailure(failed); }
      if !applied { return Some(RetryGone); }
      CommitRun(r, updated.Value());
      return None;
    }

    method QueueOne(r: RunID, id: DispatchID, now: Time) returns (err: Option<DispatchError>)
      requires WorldInv(Tables())
      modifies this`runs, this`dispatches
      ensures Did(err, QueueNext(old(Tables()), r, id, now), old(Tables()), Tables())
    {
      hide Latest, WorldInv, CS.Follows, EntryInv, Steps.QueueTask, RunDispatched;
      if r !in runs { return Some(DispatchError.RunNotFound); }
      var s := runs[r].s;
      var i := FindReady(s.tasks);
      if i < 0 || i >= |s.definition.tasks| { return None; }
      EntryOf(Tables(), r);
      QueueEntry(r, runs[r], i, now);
      var kind := s.definition.tasks[i].executor;
      var updated := new RunState.Clone(s);
      var failed := updated.QueueTask(i, now);
      if failed.Some? { return StepFailure(failed); }
      CommitRun(r, updated.Value());
      dispatches := dispatches[id := Dispatch(r, s.tasks[i].key, kind, DispatchPending, None, None, now, None)];
      return None;
    }

    method LeaseOne(worker: WorkerID, id: DispatchID, token: Token, now: Time) returns (err: Option<DispatchError>)
      requires WorldInv(Tables()) && worker != ""
      modifies this`runs, this`dispatches
      ensures Did(err, ClaimOne(old(Tables()), worker, id, token, now, leaseDuration), old(Tables()), Tables())
    {
      hide Latest, WorldInv, CS.Follows, EntryInv, Steps.StartQueuedAttempt, RunDispatched;
      if id !in dispatches || dispatches[id].run !in runs { return None; }
      var d := dispatches[id];
      var e := runs[d.run];
      var i := FindTask(e.s.tasks, d.task);
      if i < 0 || e.s.tasks[i].status != TaskQueued { return Some(NotQueued); }
      PresentID(Tables(), id);
      EntryOf(Tables(), d.run);
      ClaimEntry(d.run, e, i, now, worker, id);
      var updated := new RunState.Clone(e.s);
      var request, failed := updated.StartQueuedAttempt(e.c, i, now, worker, id);
      if failed.Some? { return StepFailure(failed); }
      if d.status != DispatchPending { return Some(LeaseLost); }
      var deadline := now + e.c.definition.tasks[i].timeoutMillis * NANOS_PER_MILLI;
      var expiresAt := now + leaseDuration;
      if expiresAt > deadline { expiresAt := deadline; }
      var terms := LeaseTerms(worker, request.value.attempt, token, expiresAt, deadline, now);
      CommitRun(d.run, updated.Value());
      dispatches := dispatches[id := d.(status := DispatchLeased, lease := Some(terms))];
      return None;
    }

    /** A worker reports a result: fencing first, then the kernel, then the dispatch row. */
    method Complete(worker: WorkerID, id: DispatchID, token: Token, result: ExecutionResponse, now: Time)
      returns (err: Option<DispatchError>)
      requires Inv()
      modifies this
      ensures Inv() && Did(err, CompleteOne(old(Tables()), worker, id, token, result, now), old(Tables()), Tables())
      ensures history == old(history) + [DoComplete(worker, id, token, result, now)]
      ensures Obeys(old(Tables()), Tables(), DoComplete(worker, id, token, result, now), dispatchLimit)
      ensures old(Presented(Tables(), worker, id, token, result) && StillCurrent(Tables(), id, now)) ==>
        err.None? && CompletionSettles(old(Tables()), Tables(), id, result, now)
    {
      hide Latest, WorldInv, Limits, Obeys, CS.Follows, EntryInv, Steps.ApplyAttemptResult, RunDispatched,
        ActiveAttempt, Runnable, CompletionSettles, Presented, StillCurrent, ResultTaken, ValidCompiled, EndedAs,
        OthersWaitOrStay;
      ghost var w := Tables();
      Taken(history, DoComplete(worker, id, token, result, now), dispatchLimit, CompleteOne(w, worker, id, token, result, now));
      ThenObeys(w, DoComplete(worker, id, token, result, now), dispatchLimit, CompleteOne(w, worker, id, token, result, now));
      history := history + [DoComplete(worker, id, token, result, now)];
      CompleteExact(w, worker, id, token, result, now);
      if CompleteOne(w, worker, id, token, result, now).Moved? {
        CompleteLimits(w, worker, id, token, result, now, dispatchLimit);
      }
      if !AcceptableResult(result) { return Some(InvalidResult); }
      if id !in dispatches { return Some(LeaseLost); }
      var d := dispatches[id];
      if d.run !in runs { return Some(LeaseLost); }
      if d.lease.None? || d.lease.value.worker != worker || d.lease.value.token != token { return Some(LeaseLost); }
      var terms := d.lease.value;
      if d.status == DispatchCompleted {
        if d.result != Some(result) { return Some(ResultConflict); }
        return None;
      }
      if d.status != DispatchLeased || terms.expiresAt <= now || terms.deadline <= now { return Some(LeaseLost); }
      LeasedOwns(w, id);
      var e := runs[d.run];
      if e.s.row.cancelRequestedAt.Some? || e.s.row.status != WorkflowRunning { return Some(LeaseLost); }
      var i := FindTask(e.s.tasks, d.task);
      if i < 0 { return Some(LeaseLost); }
      var task := e.s.tasks[i];
      if task.status != TaskRunning || |task.attempts| == 0 { return Some(LeaseLost); }
      var attempt := task.Last();
      if attempt.number != terms.number || attempt.workerID != worker || attempt.dispatchID != id { return Some(LeaseLost); }
      EntryOf(w, d.run);
      CompleteEntry(d.run, e, i, terms.number, result, now);
      var updated := new RunState.Clone(e.s);
      var applied, failed := updated.ApplyAttemptResult(e.c, i, terms.number, result, now);
      if failed.Some? { return StepFailure(failed); }
      if !applied { return Some(LeaseLost); }
      CommitRun(d.run, updated.Value());
      dispatches := dispatches[id := d.(status := DispatchCompleted, result := Some(result), completedAt := Some(now))];
      return None;
    }

    /** One expired lease, judged again by the current time. */
    method SettleExpired(id: DispatchID, now: Time) returns (err: Option<DispatchError>)
      requires WorldInv(Tables())
      modifies this`runs, this`dispatches
      ensures Did(err, ExpireOne(old(Tables()), id, now), old(Tables()), Tables())
    {
      hide Latest, WorldInv, CS.Follows, EntryInv, Steps.TimeoutAttempt, Steps.InterruptAttempt, RunDispatched,
        ActiveAttempt, Runnable;
      ghost var w := Tables();
      if id !in dispatches { return None; }
      var d := dispatches[id];
      if d.status != DispatchLeased || d.lease.None? { return None; }
      var terms := d.lease.value;
      if terms.expiresAt > now && terms.deadline > now { return None; }
      LeasedOwns(w, id);
      if d.run !in runs { return Some(DispatchError.RunNotFound); }
      var e := runs[d.run];
      var i := FindTask(e.s.tasks, d.task);
      if i < 0 { return Some(NoMatchingTask); }
      EntryOf(w, d.run);
      ExpireEntry(d.run, e, i, terms.number, terms.deadline <= now, now);
      var updated := new RunState.Clone(e.s);
      var applied, failed;
      if terms.deadline <= now {
        applied, failed := updated.TimeoutAttempt(e.c, i, terms.number, now);
      } else {
        applied, failed := updated.InterruptAttempt(e.c, i, terms.number, now, "Worker lease expired");
      }
      if failed.Some? { return StepFailure(failed); }
      if !applied { return Some(NotOwner); }
      CommitRun(d.run, updated.Value());
      dispatches := dispatches[id := d.(status := DispatchExpired, completedAt := Some(now))];
      return None;
    }

    method RevokeDispatches(r: RunID, now: Time)
      modifies this`dispatches
      ensures dispatches == Revoked(old(dispatches), r, now)
    {
      hide Revoked;
      RevokedRows(dispatches, r, now);
      ghost var before, target := dispatches, Revoked(dispatches, r, now);
      var rest := dispatches.Keys;
      while rest != {}
        invariant rest <= dispatches.Keys == before.Keys
        invariant forall id :: id in before ==> dispatches[id] == if id in rest then before[id] else target[id]
        decreases |rest|
      {
        var id :| id in rest;
        if dispatches[id].run == r && (dispatches[id].status == DispatchPending || dispatches[id].status == DispatchLeased) {
          dispatches := dispatches[id := dispatches[id].(status := DispatchCanceled, completedAt := Some(now))];
        }
        rest := rest - {id};
      }
    }

    /** Carries out a requested cancellation: the run and all its active dispatches in one transaction. */
    method CancelRun(r: RunID, now: Time) returns (err: Option<DispatchError>)
      requires Inv()
      modifies this
      ensures Inv() && Did(err, CancelOne(old(Tables()), r, now), old(Tables()), Tables())
      ensures history == old(history) + [DoCancel(r, now)]
      ensures Obeys(old(Tables()), Tables(), DoCancel(r, now), dispatchLimit)
    {
      hide Latest, WorldInv, Limits, Obeys, CS.Follows, EntryInv, Steps.CancelRun, RunDispatched, Revoked, Runnable;
      ghost var w := Tables();
      Taken(history, DoCancel(r, now), dispatchLimit, CancelOne(w, r, now));
      ThenObeys(w, DoCancel(r, now), dispatchLimit, CancelOne(w, r, now));
      history := history + [DoCancel(r, now)];
      CancelExact(w, r, now);
      if CancelOne(w, r, now).Moved? { CancelLimits(w, r, now, dispatchLimit); }
      if r !in runs { return Some(DispatchError.RunNotFound); }
      var s := runs[r].s;
      if WorkflowTerminal(s.row.status) { return None; }
      if s.row.cancelRequestedAt.None? { return Some(NotRequested); }
      EntryOf(w, r);
      CancelEntry(r, runs[r], now);
      var updated := new RunState.Clone(s);
      var failed := updated.CancelRun(now);
      if failed.Some? { return StepFailure(failed); }
      CommitRun(r, updated.Value());
      RevokeDispatches(r, now);
      return None;
    }

    /** Records the first cancellation request. */
    method RequestCancel(r: RunID, at: Time) returns (err: Option<DispatchError>)
      requires Inv()
      modifies this
      ensures Inv() && Did(err, RequestOne(old(Tables()), r, at), old(Tables()), Tables())
      ensures history == old(history) + [DoRequest(r, at)]
      ensures Obeys(old(Tables()), Tables(), DoRequest(r, at), dispatchLimit)
    {
      hide Latest, WorldInv, Limits, Obeys;
      ghost var w := Tables();
      Taken(history, DoRequest(r, at), dispatchLimit, RequestOne(w, r, at));
      ThenObeys(w, DoRequest(r, at), dispatchLimit, RequestOne(w, r, at));
      history := history + [DoRequest(r, at)];
      RequestKeepsWorld(w, r, at);
      if RequestOne(w, r, at).Moved? { RequestLimits(w, r, at, dispatchLimit); }
      if r !in runs { return Some(DispatchError.RunNotFound); }
      var s := runs[r].s;
      if !WorkflowTerminal(s.row.status) && s.row.cancelRequestedAt.None? {
        s := s.(row := s.row.(cancelRequestedAt := Some(at), revision := s.row.revision + 1));
        runs := runs[r := runs[r].(s := s)];
      }
      return None;
    }

    /** A new run of a compiled definition. */
    method CreateRun(r: RunID, c: Compiled, now: Time) returns (created: bool)
      requires Inv() && ValidCompiled(c)
      modifies this
      ensures Inv() && (created <==> r != "" && r !in old(runs))
      ensures Tables() == if created then CreateOne(old(Tables()), r, c, now).w else old(Tables())
      ensures history == old(history) + [DoCreate(r, c, now)]
      ensures Obeys(old(Tables()), Tables(), DoCreate(r, c, now), dispatchLimit)
    {
      hide Latest, WorldInv, Limits, Obeys;
      ValidAdjacentHere(c);
      ghost var w := Tables();
      Taken(history, DoCreate(r, c, now), dispatchLimit, CreateOne(w, r, c, now));
      ThenObeys(w, DoCreate(r, c, now), dispatchLimit, CreateOne(w, r, c, now));
      history := history + [DoCreate(r, c, now)];
      CreateKeepsWorld(w, r, c, now);
      if r == "" || r in runs { return false; }
      CreateLimits(w, r, c, now, dispatchLimit);
      var first := new RunState.New(r, c, now);
      runs := runs[r := Entry(c, first.Value())];
      return true;
    }

    // ---------- counting ----------

    method CountLeases(worker: WorkerID) returns (n: nat)
      ensures n == |LeasesOf(dispatches, worker)|
    {
      n := 0;
      ghost var counted: set<DispatchID> := {};
      var rest := dispatches.Keys;
      while rest != {}
        invariant rest <= dispatches.Keys && n == |counted|
        invariant forall id :: id in counted <==> id in LeasesOf(dispatches, worker) && id !in rest
        decreases |rest|
      {
        var id :| id in rest;
        if LeasedBy(dispatches[id], worker) { n, counted := n + 1, counted + {id}; }
        rest := rest - {id};
      }
      assert counted == LeasesOf(dispatches, worker);
    }

    method CountActive() returns (n: nat)
      ensures n == |ActiveDispatches(dispatches)|
    {
      n := 0;
      ghost var counted: set<DispatchID> := {};
      var rest := dispatches.Keys;
      while rest != {}
        invariant rest <= dispatches.Keys && n == |counted|
        invariant forall id :: id in counted <==> id in ActiveDispatches(dispatches) && id !in rest
        decreases |rest|
      {
        var id :| id in rest;
        if dispatches[id].Active() { n, counted := n + 1, counted + {id}; }
        rest := rest - {id};
      }
      assert counted == ActiveDispatches(dispatches);
    }

    // ---------- scans: rows locked by others may be skipped ----------

    method SelectOffered(kinds: seq<ExecutorKind>, limit: nat, held: set<DispatchID>) returns (ids: seq<DispatchID>)
      requires WorldInv(Tables())
      ensures NoDuplicates(ids) && |ids| <= limit && forall k :: 0 <= k < |ids| ==> CanBeLeased(Tables(), ids[k], kinds)
      ensures |ids| < limit ==> forall x :: CanBeLeased(Tables(), x, kinds) ==> x in ids || x in held
    {
      hide WorldInv, Offered, CanBeLeased;
      OffersExactly(Tables(), kinds);
      ids := [];
      var rest := dispatches.Keys;
      while rest != {} && |ids| < limit
        invariant NoDuplicates(ids) && |ids| <= limit && rest <= dispatches.Keys
        invariant forall k :: 0 <= k < |ids| ==> CanBeLeased(Tables(), ids[k], kinds) && ids[k] !in rest
        invariant forall x :: x in dispatches && x !in rest && CanBeLeased(Tables(), x, kinds) ==> x in ids || x in held
        decreases |rest|
      {
        var id :| id in rest;
        if id !in held && Offered(Tables(), id, kinds) { ids := ids + [id]; }
        rest := rest - {id};
      }
    }

    method SelectExpired(now: Time, limit: nat, held: set<DispatchID>) returns (ids: seq<DispatchID>)
      ensures NoDuplicates(ids) && |ids| <= limit && forall k :: 0 <= k < |ids| ==> RanOut(Tables(), ids[k], now)
      ensures |ids| < limit ==> forall x :: RanOut(Tables(), x, now) ==> x in ids || x in held
    {
      ExpiredExactly(Tables(), now);
      hide IsExpired, RanOut;
      ids := [];
      var rest := dispatches.Keys;
      while rest != {} && |ids| < limit
        invariant NoDuplicates(ids) && |ids| <= limit && rest <= dispatches.Keys
        invariant forall k :: 0 <= k < |ids| ==> RanOut(Tables(), ids[k], now) && ids[k] !in rest
        invariant forall x :: x in dispatches && x !in rest && RanOut(Tables(), x, now) ==> x in ids || x in held
        decreases |rest|
      {
        var id :| id in rest;
        if id !in held && IsExpired(Tables(), id, now) { ids := ids + [id]; }
        rest := rest - {id};
      }
    }

    // ---------- claiming ----------

    /** Leases up to `slots` dispatches to an active worker with that many free slots: every one it can execute, but those
        that other transactions hold. It never fails once the session and the capacity were checked. */
    method Claim(worker: WorkerID, slots: int, tokens: seq<Token>, now: Time, held: set<DispatchID>)
      returns (leases: seq<DispatchID>, err: Option<DispatchError>, ghost steps: seq<DispatchStep>)
      requires Inv() && slots <= |tokens| && worker != ""
      modifies this
      ensures Inv()
      ensures err.Some? ==> Tables() == old(Tables()) && leases == []
      ensures err.None? <==> slots > 0 && worker in old(workers) && HasSlots(old(Tables()), worker, slots)
      ensures err.Some? ==> err.value == CapacityExceeded || err.value == SessionInvalid || err.value == WorkerIsDraining
      ensures NoDuplicates(leases) && |leases| <= |tokens| && (err.None? ==> |leases| <= slots)
      ensures history == old(history) + steps && |steps| == |leases|
        && AreClaims(steps, worker, leases, tokens, now, leaseDuration)
      ensures err.None? && |leases| < slots ==> forall id :: old(CanBeLeased(Tables(), id, workers[worker].kinds)) ==>
        id in leases || id in held
      ensures forall k :: 0 <= k < |leases| ==>
        old(CanBeLeased(Tables(), leases[k], workers[worker].kinds)) && leases[k] in dispatches
        && LeasedBy(dispatches[leases[k]], worker)
      ensures forall id :: id in old(dispatches) && id !in leases ==> id in dispatches && dispatches[id] == old(dispatches)[id]
    {
      hide Latest, WorldInv, Limits, CanBeLeased;
      if slots <= 0 { return [], Some(CapacityExceeded), []; }
      if worker !in workers { return [], Some(SessionInvalid), []; }
      var session := workers[worker];
      if session.status == WorkerDraining { return [], Some(WorkerIsDraining), []; }
      if session.status != WorkerActive { return [], Some(SessionInvalid), []; }
      var active := CountLeases(worker);
      if slots > session.maxConcurrency - active { return [], Some(CapacityExceeded), []; }
      var ids := SelectOffered(session.kinds, slots, held);
      err, steps := LeaseAll(worker, ids, tokens, now);
      leases := ids;
    }

    method LeaseAll(worker: WorkerID, ids: seq<DispatchID>, tokens: seq<Token>, now: Time)
      returns (err: Option<DispatchError>, ghost steps: seq<DispatchStep>)
      requires Inv() && worker != "" && worker in workers && workers[worker].status.WorkerActive? && NoDuplicates(ids)
        && |ids| <= |tokens|
      requires |LeasesOf(dispatches, worker)| + |ids| <= workers[worker].maxConcurrency
      requires forall k :: 0 <= k < |ids| ==> CanBeLeased(Tables(), ids[k], workers[worker].kinds)
      modifies this
      ensures Inv() && err.None? && history == old(history) + steps && |steps| == |ids|
        && AreClaims(steps, worker, ids, tokens, now, leaseDuration)
      ensures forall k :: 0 <= k < |ids| ==> ids[k] in dispatches && LeasedBy(dispatches[ids[k]], worker)
      ensures forall id :: id in old(dispatches) && id !in ids ==> id in dispatches && dispatches[id] == old(dispatches)[id]
    {
      hide Latest, WorldInv, Limits, EntryInv, LeasesOf, CanBeLeased, SameStanding, AreClaims;
      NoClaims(runs, worker, ids, tokens, now, leaseDuration);
      ghost var kinds := workers[worker].kinds;
      forall k | 0 <= k < |ids| ensures ids[k] in dispatches && dispatches[ids[k]].status.DispatchPending?
        && dispatches[ids[k]].kind in kinds {
        LeasableIsPending(Tables(), ids[k], kinds);
      }
      err, steps := None, [];
      var k := 0;
      while k < |ids|
        invariant 0 <= k <= |ids| && Inv() && err.None? && workers == old(workers)
        invariant dispatches.Keys == old(dispatches).Keys && SameStanding(old(runs), runs)
          && history == old(history) + steps && |steps| == k
        invariant AreClaims(steps, worker, ids, tokens, now, leaseDuration)
        invariant |LeasesOf(dispatches, worker)| <= |LeasesOf(old(dispatches), worker)| + k
        invariant forall j :: 0 <= j < k ==> LeasedBy(dispatches[ids[j]], worker)
        invariant forall id :: id in old(dispatches) && id !in ids[..k] ==> dispatches[id] == old(dispatches)[id]
      {
        NewName(ids, k);
        OfferStands(old(Tables()), Tables(), ids[k], kinds);
        MoreClaims(old(history), steps, worker, ids, tokens, now, leaseDuration);
        ghost var before := runs;
        err := LeaseChecked(worker, ids[k], tokens[k], now);
        steps := steps + [DoClaim(worker, ids[k], tokens[k], now, leaseDuration)];
        StandingAgain(old(runs), before, runs);
        k := k + 1;
      }
      assert ids[..k] == ids;
    }

    method LeaseChecked(worker: WorkerID, id: DispatchID, token: Token, now: Time) returns (err: Option<DispatchError>)
      requires Inv() && Claimable(Tables(), worker, id)
      modifies this
      ensures Inv() && err.None? && workers == old(workers)
      ensures history == old(history) + [DoClaim(worker, id, token, now, leaseDuration)]
      ensures id in dispatches && dispatches == old(dispatches)[id := dispatches[id]] && LeasedBy(dispatches[id], worker)
      ensures SameStanding(old(runs), runs)
      ensures |LeasesOf(dispatches, worker)| == |LeasesOf(old(dispatches), worker)| + 1
    {
      hide Latest, WorldInv, Limits, EntryInv, LeasesOf, ClaimOne;
      ClaimKeepsWorld(Tables(), worker, id, token, now, leaseDuration);
      ClaimedRow(Tables(), worker, id, token, now, leaseDuration);
      ClaimLimits(Tables(), worker, id, token, now, leaseDuration, dispatchLimit);
      Taken(history, DoClaim(worker, id, token, now, leaseDuration), dispatchLimit,
        ClaimOne(Tables(), worker, id, token, now, leaseDuration));
      err := LeaseOne(worker, id, token, now);
      history := history + [DoClaim(worker, id, token, now, leaseDuration)];
    }

    // ---------- heartbeats ----------

    /** Renews what the worker can prove it holds; anything unreadable rolls the whole heartbeat back. */
    method Heartbeat(worker: WorkerID, refs: seq<(DispatchID, Token)>, now: Time)
      returns (answers: seq<LeaseAnswer>, err: Option<DispatchError>, ghost steps: seq<DispatchStep>)
      requires Inv()
      modifies this
      ensures Inv()
      ensures err.Some? ==> Tables() == old(Tables()) && history == old(history)
      ensures err.None? ==> history == old(history) + [DoBeat(worker, now)] + steps
      ensures err.None? ==> |steps| == |refs| && AreRenewals(steps, worker, refs, now, leaseDuration)
      ensures match Beat(old(Tables()), worker, now)
              case Moved(w) =>
                (match RenewMany(w, worker, refs, now, leaseDuration)
                 case (Moved(v), list) => err.None? && Tables() == v && answers == list
                 case (o, _) => err == Some(NullColumn))
              case _ => err == Some(SessionInvalid)
    {
      hide Latest, WorldInv, Limits, RenewOne, Take;
      BeatTaken(worker, now);
      answers, steps := [], [];
      if worker !in workers { return [], Some(SessionInvalid), []; }
      var session := workers[worker];
      if session.status != WorkerActive && session.status != WorkerDraining { return [], Some(SessionInvalid), []; }
      var savedDispatches, savedWorkers := dispatches, workers;
      ghost var saved := history;
      workers := workers[worker := session.(lastHeartbeatAt := now)];
      history := history + [DoBeat(worker, now)];
      ghost var w := Tables();
      var k := 0;
      while k < |refs|
        invariant 0 <= k <= |refs| && Inv() && runs == old(runs) && workers == w.workers
        invariant history == saved + [DoBeat(worker, now)] + steps && |steps| == k
        invariant AreRenewals(steps, worker, refs, now, leaseDuration)
        invariant RenewMany(w, worker, refs[..k], now, leaseDuration) == (Moved(Tables()), answers)
      {
        RenewStops(w, worker, refs, k + 1, now, leaseDuration);
        RenewNext(w, worker, refs, k, now, leaseDuration);
        var answer, failed := RenewChecked(worker, refs[k].0, refs[k].1, now);
        if failed.Some? {
          dispatches, workers, history := savedDispatches, savedWorkers, saved;
          return [], failed, [];
        }
        MoreRenewals(saved + [DoBeat(worker, now)], steps, worker, refs, now, leaseDuration);
        steps := steps + [DoRenew(worker, refs[k].0, refs[k].1, now, leaseDuration)];
        answers := answers + [answer];
        k := k + 1;
      }
      assert refs[..k] == refs;
      return answers, None, steps;
    }

    lemma BeatTaken(worker: WorkerID, now: Time)
      requires Inv()
      ensures var o := Beat(Tables(), worker, now);
        Latest(history + [DoBeat(worker, now)], dispatchLimit) == Then(Tables(), o)
          && (o.Moved? ==> WorldInv(o.w) && Limits(o.w, dispatchLimit))
    {
      hide Latest, WorldInv, Limits;
      if Beat(Tables(), worker, now).Moved? {
        WorkersKeepWorld(Tables(), Beat(Tables(), worker, now).w.workers);
        WorkerSteps(Tables(), DoBeat(worker, now), dispatchLimit);
      }
      Taken(history, DoBeat(worker, now), dispatchLimit, Beat(Tables(), worker, now));
    }

    /** One reference of a heartbeat. */
    method RenewChecked(worker: WorkerID, id: DispatchID, token: Token, now: Time)
      returns (answer: LeaseAnswer, err: Option<DispatchError>)
      requires Inv()
      modifies this`dispatches, this`history
      ensures err.None? ==> Inv() && history == old(history) + [DoRenew(worker, id, token, now, leaseDuration)]
      ensures err.Some? ==> err.value == NullColumn && dispatches == old(dispatches) && history == old(history)
      ensures match RenewOne(old(Tables()), worker, id, token, now, leaseDuration)
              case (Refused(e), _) => err == Some(e)
              case (o, a) => err.None? && answer == a && Tables() == Then(old(Tables()), o)
    {
      hide Latest, WorldInv, Limits;
      Taken(history, DoRenew(worker, id, token, now, leaseDuration), dispatchLimit,
        RenewOne(Tables(), worker, id, token, now, leaseDuration).0);
      RenewKeepsWorld(Tables(), worker, id, token, now, leaseDuration);
      if RenewOne(Tables(), worker, id, token, now, leaseDuration).0.Moved? {
        RenewLimits(Tables(), worker, id, token, now, leaseDuration, dispatchLimit);
      }
      answer, err := LeaseUnknown, None;
      if id in dispatches {
        var d := dispatches[id];
        if d.lease.None? { return LeaseUnknown, Some(NullColumn); }
        if d.lease.value.worker == worker && d.lease.value.token == token {
          if d.status != DispatchLeased || d.lease.value.expiresAt <= now || d.lease.value.deadline <= now {
            answer := LeaseRevoked;
          } else {
            var expiresAt := now + leaseDuration;
            if expiresAt > d.lease.value.deadline { expiresAt := d.lease.value.deadline; }
            dispatches := dispatches[id := d.(lease := Some(d.lease.value.(expiresAt := expiresAt)))];
            answer := LeaseRenewed((expiresAt - now) / NANOS_PER_MILLI);
          }
        }
      }
      history := history + [DoRenew(worker, id, token, now, leaseDuration)];
    }

    // ---------- expiry ----------

    /** Marks silent workers offline and settles expired leases: each one selected is settled, whatever time has passed since. */
    method ReapExpired(limit: int, now: Time, held: set<DispatchID>)
      returns (settled: seq<DispatchID>, err: Option<DispatchError>, ghost steps: seq<DispatchStep>)
      requires Inv()
      modifies this
      ensures Inv() && (err.None? <==> limit > 0)
      ensures err.Some? ==> settled == [] && Tables() == old(Tables()) && history == old(history)
      ensures err.None? ==> history == old(history) + [DoOffline(now - 3 * heartbeatInterval)] + steps && |steps| == |settled|
      ensures err.None? ==> forall k :: 0 <= k < |settled| ==> Settles(steps[k], settled[k], now)
      ensures forall k :: 0 <= k < |settled| ==> RanOut(old(Tables()), settled[k], now)
      ensures err.None? && |settled| < limit ==> forall id :: RanOut(old(Tables()), id, now) ==> id in settled || id in held
      ensures NoDuplicates(settled) && (err.None? ==> |settled| <= limit)
      ensures forall k :: 0 <= k < |settled| ==> settled[k] in dispatches && dispatches[settled[k]].status.DispatchExpired?
      ensures forall id :: id in old(dispatches) && id !in settled ==> id in dispatches && dispatches[id] == old(dispatches)[id]
      ensures err.None? ==> workers.Keys == old(workers).Keys
      ensures err.None? ==> forall k :: k in workers ==> workers[k] == IfSilent(old(workers)[k], now - 3 * heartbeatInterval)
    {
      hide Latest, WorldInv, Limits, MarkedOffline, IfSilent;
      SilentExactly(workers, now - 3 * heartbeatInterval);
      if limit <= 0 { return [], Some(BadLimit), []; }
      Taken(history, DoOffline(now - 3 * heartbeatInterval), dispatchLimit,
        Moved(Tables().(workers := MarkedOffline(workers, now - 3 * heartbeatInterval))));
      WorkersKeepWorld(Tables(), MarkedOffline(workers, now - 3 * heartbeatInterval));
      WorkerSteps(Tables(), DoOffline(now - 3 * heartbeatInterval), dispatchLimit);
      workers := MarkedOffline(workers, now - 3 * heartbeatInterval);
      history := history + [DoOffline(now - 3 * heartbeatInterval)];
      assert forall id :: RanOut(Tables(), id, now) <==> RanOut(old(Tables()), id, now);
      settled := SelectExpired(now, limit, held);
      err, steps := SettleAll(settled, now);
    }

    method SettleAll(ids: seq<DispatchID>, now: Time) returns (err: Option<DispatchError>, ghost steps: seq<DispatchStep>)
      requires Inv() && NoDuplicates(ids) && forall k :: 0 <= k < |ids| ==> RanOut(Tables(), ids[k], now)
      modifies this
      ensures Inv() && err.None? && workers == old(workers)
      ensures history == old(history) + steps && |steps| == |ids| && forall k :: 0 <= k < |ids| ==> Settles(steps[k], ids[k], now)
      ensures forall k :: 0 <= k < |ids| ==> ids[k] in dispatches && dispatches[ids[k]].status.DispatchExpired?
      ensures forall id :: id in old(dispatches) && id !in ids ==> id in dispatches && dispatches[id] == old(dispatches)[id]
    {
      hide Latest, WorldInv, Limits;
      err, steps := None, [];
      var k := 0;
      while k < |ids|
        invariant 0 <= k <= |ids| && Inv() && err.None? && workers == old(workers) && dispatches.Keys == old(dispatches).Keys
        invariant history == old(history) + steps && |steps| == k && forall j :: 0 <= j < k ==> Settles(steps[j], ids[j], now)
        invariant forall j :: 0 <= j < k ==> dispatches[ids[j]].status.DispatchExpired?
        invariant forall id :: id in old(dispatches) && id !in ids[..k] ==> dispatches[id] == old(dispatches)[id]
      {
        NewName(ids, k);
        assert RanOut(old(Tables()), ids[k], now);
        var current: Time := *;
        if current < now { current := now; }
        err := SettleChecked(ids[k], current);
        OneMore(old(history), steps, DoExpire(ids[k], current));
        steps := steps + [DoExpire(ids[k], current)];
        k := k + 1;
      }
      assert ids[..k] == ids;
    }

    method SettleChecked(id: DispatchID, now: Time) returns (err: Option<DispatchError>)
      requires Inv() && RanOut(Tables(), id, now)
      modifies this
      ensures Inv() && err.None? && workers == old(workers)
      ensures history == old(history) + [DoExpire(id, now)]
      ensures id in dispatches && dispatches == old(dispatches)[id := dispatches[id]] && dispatches[id].status.DispatchExpired?
    {
      hide Latest, WorldInv, Limits, ExpireOne;
      ExpireExact(Tables(), id, now);
      ExpiredRow(Tables(), id, now);
      ExpireLimits(Tables(), id, now, dispatchLimit);
      Taken(history, DoExpire(id, now), dispatchLimit, ExpireOne(Tables(), id, now));
      err := SettleExpired(id, now);
      history := history + [DoExpire(id, now)];
    }

    // ---------- scheduling ----------

    method SelectOrphans(limit: nat) returns (ids: seq<DispatchID>)
      ensures NoDuplicates(ids) && |ids| <= limit && forall k :: 0 <= k < |ids| ==> IsStranded(Tables(), ids[k])
      ensures |ids| < limit ==> forall id :: IsStranded(Tables(), id) ==> id in ids
    {
      hide IsOrphan, IsStranded;
      OrphansExactly(Tables());
      ids := [];
      var rest := dispatches.Keys;
      while rest != {} && |ids| < limit
        invariant NoDuplicates(ids) && |ids| <= limit && rest <= dispatches.Keys
        invariant forall k :: 0 <= k < |ids| ==> IsStranded(Tables(), ids[k]) && ids[k] !in rest
        invariant forall id :: id in dispatches && id !in rest && IsStranded(Tables(), id) ==> id in ids
        decreases |rest|
      {
        var id :| id in rest;
        if IsOrphan(Tables(), id) { ids := ids + [id]; }
        rest := rest - {id};
      }
    }

    method SelectDueRetries(now: Time, limit: nat, held: set<RunID>) returns (ids: seq<RunID>)
      ensures NoDuplicates(ids) && |ids| <= limit && forall k :: 0 <= k < |ids| ==> RetryCanGo(Tables(), ids[k], now)
      ensures |ids| < limit ==> forall x :: RetryCanGo(Tables(), x, now) ==> x in ids || x in held
    {
      hide HasDueRetry, RetryCanGo;
      RetriesExactly(Tables(), now);
      ids := [];
      var rest := runs.Keys;
      while rest != {} && |ids| < limit
        invariant NoDuplicates(ids) && |ids| <= limit && rest <= runs.Keys
        invariant forall k :: 0 <= k < |ids| ==> RetryCanGo(Tables(), ids[k], now) && ids[k] !in rest
        invariant forall x :: x in runs && x !in rest && RetryCanGo(Tables(), x, now) ==> x in ids || x in held
        decreases |rest|
      {
        var id :| id in rest;
        if id !in held && HasDueRetry(Tables(), id, now) { ids := ids + [id]; }
        rest := rest - {id};
      }
    }

    method SelectAdvanceable(limit: nat, held: set<RunID>) returns (ids: seq<RunID>)
      ensures NoDuplicates(ids) && |ids| <= limit && forall k :: 0 <= k < |ids| ==> HasRoom(Tables(), ids[k])
      ensures |ids| < limit ==> forall q :: HasRoom(Tables(), q) ==> q in ids || q in held
    {
      RoomExactly(Tables());
      hide Advanceable, HasRoom, Busy;
      ids := [];
      var rest := runs.Keys;
      while rest != {} && |ids| < limit
        invariant NoDuplicates(ids) && |ids| <= limit && rest <= runs.Keys
        invariant forall k :: 0 <= k < |ids| ==> ids[k] !in rest && HasRoom(Tables(), ids[k])
        invariant forall q :: q in runs && q !in rest && HasRoom(Tables(), q) ==> q in ids || q in held
        decreases |rest|
      {
        var id :| id in rest;
        if id !in held && Advanceable(Tables(), id) {
          var busy := CountBusy(runs[id].s.tasks);
          if busy < runs[id].c.definition.concurrency { ids := ids + [id]; }
        }
        rest := rest - {id};
      }
    }

    /** Pending dispatches without a compatible active worker go back to ready: all of them, or as many as the limit. */
    method ReturnOrphanedPendingDispatches(limit: nat, now: Time)
      returns (err: Option<DispatchError>, ghost ids: seq<DispatchID>, ghost steps: seq<DispatchStep>)
      requires Inv()
      modifies this
      ensures Inv() && err.None? && workers == old(workers) && history == old(history) + steps
      ensures |steps| == |ids| && forall k :: 0 <= k < |ids| ==> steps[k] == DoReturn(ids[k], now)
      ensures NoDuplicates(ids) && |ids| <= limit && forall k :: 0 <= k < |ids| ==> IsStranded(old(Tables()), ids[k])
      ensures |ids| < limit ==> forall id :: IsStranded(old(Tables()), id) ==> id in ids
      ensures dispatches.Keys == old(dispatches).Keys
      ensures forall id :: id in dispatches ==>
        dispatches[id] == if id in ids then Ended(old(dispatches)[id], DispatchCanceled, now) else old(dispatches)[id]
    {
      hide Latest, WorldInv, Limits, IsStranded;
      var orphans := SelectOrphans(limit);
      ids := orphans;
      OrphansExactly(Tables());
      err, steps := None, [];
      var k := 0;
      while k < |orphans|
        invariant 0 <= k <= |ids| && Inv() && err.None? && workers == old(workers) && dispatches.Keys == old(dispatches).Keys
        invariant history == old(history) + steps && |steps| == k && forall j :: 0 <= j < k ==> steps[j] == DoReturn(ids[j], now)
        invariant forall id :: id in dispatches ==>
          dispatches[id] == if id in ids[..k] then Ended(old(dispatches)[id], DispatchCanceled, now)
          else old(dispatches)[id]
      {
        NewName(ids, k);
        OneMore(old(history), steps, DoReturn(ids[k], now));
        err := ReturnChecked(orphans[k], now);
        steps := steps + [DoReturn(ids[k], now)];
        k := k + 1;
      }
      assert ids[..k] == ids;
    }

    method ReturnChecked(id: DispatchID, now: Time) returns (err: Option<DispatchError>)
      requires Inv() && id in dispatches && dispatches[id].status.DispatchPending?
      modifies this
      ensures Inv() && err.None? && workers == old(workers) && history == old(history) + [DoReturn(id, now)]
      ensures dispatches == old(dispatches)[id := Ended(old(dispatches)[id], DispatchCanceled, now)]
    {
      hide Latest, WorldInv, Limits, ReturnOrphan;
      ReturnKeepsWorld(Tables(), id, now);
      ReturnedRow(Tables(), id, now);
      ReturnLimits(Tables(), id, now, dispatchLimit);
      Taken(history, DoReturn(id, now), dispatchLimit, ReturnOrphan(Tables(), id, now));
      err := ReturnOne(id, now);
      history := history + [DoReturn(id, now)];
    }

    /** One due retry of each selected run becomes ready, in every run that has one but those beyond the limit or held
        by other transactions. */
    method PromoteDueRetries(limit: nat, now: Time, held: set<RunID>)
      returns (err: Option<DispatchError>, ghost ids: seq<RunID>, ghost steps: seq<DispatchStep>)
      requires Inv()
      modifies this
      ensures Inv() && err.None? && workers == old(workers) && dispatches == old(dispatches) && history == old(history) + steps
      ensures |steps| == |ids| && forall k :: 0 <= k < |ids| ==> steps[k] == DoPromote(ids[k], now)
      ensures NoDuplicates(ids) && |ids| <= limit && forall k :: 0 <= k < |ids| ==> RetryCanGo(old(Tables()), ids[k], now)
      ensures |ids| < limit ==> forall q :: RetryCanGo(old(Tables()), q, now) ==> q in ids || q in held
      ensures runs.Keys == old(runs).Keys
      ensures forall q :: q in runs ==> runs[q] == if q in ids then Promoted(old(Tables()), q, now) else old(runs)[q]
    {
      hide Latest, WorldInv, Limits, RetryCanGo, Promoted;
      var due := SelectDueRetries(now, limit, held);
      ids := due;
      RetriesExactly(Tables(), now);
      err, steps := None, [];
      var k := 0;
      while k < |due|
        invariant 0 <= k <= |ids| && Inv() && err.None? && workers == old(workers) && dispatches == old(dispatches)
        invariant runs.Keys == old(runs).Keys && history == old(history) + steps
        invariant |steps| == k && forall j :: 0 <= j < k ==> steps[j] == DoPromote(ids[j], now)
        invariant forall q :: q in runs ==> runs[q] == if q in ids[..k] then Promoted(old(Tables()), q, now) else old(runs)[q]
      {
        NewName(ids, k);
        OneMore(old(history), steps, DoPromote(ids[k], now));
        SameRetry(old(Tables()), Tables(), ids[k], now);
        err := PromoteChecked(due[k], now);
        steps := steps + [DoPromote(ids[k], now)];
        k := k + 1;
      }
      assert ids[..k] == ids;
    }

    method PromoteChecked(q: RunID, now: Time) returns (err: Option<DispatchError>)
      requires Inv() && RetryCanGo(Tables(), q, now)
      modifies this
      ensures Inv() && err.None? && workers == old(workers) && dispatches == old(dispatches)
        && history == old(history) + [DoPromote(q, now)]
      ensures q in old(runs) && runs == old(runs)[q := Promoted(old(Tables()), q, now)]
    {
      hide Latest, WorldInv, Limits, PromoteRetry;
      PromoteKeepsWorld(Tables(), q, now);
      PromotedRun(Tables(), q, now);
      PromoteLimits(Tables(), q, now, dispatchLimit);
      Taken(history, DoPromote(q, now), dispatchLimit, PromoteRetry(Tables(), q, now));
      err := PromoteOne(q, now);
      history := history + [DoPromote(q, now)];
    }

    /** Free slots of the active sessions per executor kind, less what is pending already. */
    method LoadExecutorCapacity()
      returns (capacity: map<ExecutorKind, int>, ghost sessions: seq<WorkerID>, ghost pending: seq<DispatchID>)
      ensures CountsSlots(Tables(), capacity, sessions, pending)
    {
      capacity, sessions := SessionCapacity();
      forall kind ensures FreeSlots(Tables(), sessions, kind) >= 0 { FreeSlotsServe(Tables(), sessions, kind); }
      hide FreeSlots;
      capacity, pending := LessPending(capacity);
    }

    method SessionCapacity() returns (capacity: map<ExecutorKind, int>, ghost sessions: seq<WorkerID>)
      ensures ListsActive(workers, sessions)
      ensures forall kind :: CapacityFor(capacity, kind) == FreeSlots(Tables(), sessions, kind)
    {
      capacity, sessions := map[], [];
      var rest := workers.Keys;
      while rest != {}
        invariant rest <= workers.Keys && NoDuplicates(sessions)
        invariant forall id :: id in sessions <==> id in workers && workers[id].status.WorkerActive? && id !in rest
        invariant forall kind :: CapacityFor(capacity, kind) == FreeSlots(Tables(), sessions, kind)
        decreases |rest|
      {
        var id :| id in rest;
        rest := rest - {id};
        if workers[id].status == WorkerActive {
          var leased := CountLeases(id);
          var free: int := workers[id].maxConcurrency - leased;
          if free < 0 { free := 0; }
          capacity := AddSlots(capacity, workers[id].kinds, free);
          ghost var more := sessions + [id];
          assert more[..|more| - 1] == sessions;
          sessions := more;
        }
      }
    }

    method LessPending(slots: map<ExecutorKind, int>) returns (capacity: map<ExecutorKind, int>, ghost pending: seq<DispatchID>)
      requires forall kind :: CapacityFor(slots, kind) >= 0
      ensures ListsPending(dispatches, pending)
      ensures forall kind ::
        CapacityFor(capacity, kind) == NonNegativePart(CapacityFor(slots, kind) - PendingCount(dispatches, pending, kind))
    {
      capacity, pending := slots, [];
      var rest := dispatches.Keys;
      while rest != {}
        invariant rest <= dispatches.Keys && NoDuplicates(pending)
        invariant forall id :: id in pending <==> id in dispatches && dispatches[id].status.DispatchPending? && id !in rest
        invariant forall kind ::
          CapacityFor(capacity, kind) == NonNegativePart(CapacityFor(slots, kind) - PendingCount(dispatches, pending, kind))
        decreases |rest|
      {
        var id :| id in rest;
        rest := rest - {id};
        if dispatches[id].status == DispatchPending {
          var kind := dispatches[id].kind;
          ghost var more := pending + [id];
          assert more[..|more| - 1] == pending;
          capacity := capacity[kind := NonNegativePart(CapacityFor(capacity, kind) - 1)];
          pending := more;
        }
      }
    }

    method AddSlots(before: map<ExecutorKind, int>, kinds: seq<ExecutorKind>, free: int)
      returns (capacity: map<ExecutorKind, int>)
      ensures forall kind :: CapacityFor(capacity, kind) == CapacityFor(before, kind) + KindShare(kinds, kind, free)
    {
      capacity := before;
      var j := 0;
      while j < |kinds|
        invariant 0 <= j <= |kinds|
        invariant forall kind :: CapacityFor(capacity, kind) == CapacityFor(before, kind) + KindShare(kinds[..j], kind, free)
      {
        assert kinds[..j + 1][..j] == kinds[..j];
        capacity := capacity[kinds[j] := CapacityFor(capacity, kinds[j]) + free];
        j := j + 1;
      }
      assert kinds[..j] == kinds;
    }

    /** One scheduling pass: orphans go back, due retries become ready, and then at most one ready task per run is queued,
        within the dispatch limit and the free slots of the workers. Nothing is passed over while there is room for it. */
    method CreateDispatches(limit: int, names: seq<DispatchID>, now: Time, heldRetries: set<RunID>, held: set<RunID>)
      returns (created: nat, err: Option<DispatchError>, ghost pass: Pass)
      requires Inv() && (limit > 0 ==> limit == dispatchLimit) && |names| >= limit && FreshNames(dispatches, names)
      modifies this
      ensures Inv() && (err.None? <==> limit > 0) && created == |pass.queued|
      ensures err.Some? ==> Tables() == old(Tables()) && created == 0 && history == old(history)
      ensures err.None? ==> IsPass(old(history), pass, limit, names, now, heldRetries, held)
      ensures err.None? ==> history == old(history) + pass.reversals + pass.promotes + pass.queues
      ensures forall id :: id in old(dispatches) ==> id in dispatches
      ensures forall id :: id in dispatches && id !in old(dispatches) ==>
        id in names && dispatches[id].status.DispatchPending? && Served(workers, dispatches[id].kind)
    {
      hide Latest, WorldInv, Limits, ActiveDispatches, RetryCanGo, IsStranded, FillsSlots, Served, Promoted, AreQueues,
        NoDuplicates;
      created, pass := 0, Pass([], [], [], [], [], [], [], map[], [], []);
      if limit <= 0 { err := Some(BadLimit); return; }
      ghost var returned, promoted, reversals, promotes;
      err, returned, reversals := ReturnOrphanedPendingDispatches(limit, now);
      if err.Some? { return; }
      err, promoted, promotes := PromoteDueRetries(limit, now, heldRetries);
      if err.Some? { return; }
      pass := Pass(returned, reversals, promoted, promotes, [], [], [], map[], [], []);
      NoQueues(names, now);
      var active := CountActive();
      var available := limit - active;
      if available <= 0 { return; }
      created, pass := FillSlots(available, names, now, held, pass);
    }

    /** The third scan, with the dispatches that are missing to the limit. */
    method FillSlots(available: nat, names: seq<DispatchID>, now: Time, held: set<RunID>, ghost start: Pass)
      returns (created: nat, ghost pass: Pass)
      requires Inv() && FreshNames(dispatches, names) && available <= |names|
      requires |ActiveDispatches(dispatches)| + available <= dispatchLimit && start.queued == [] && start.queues == []
        && start.candidates == []
      modifies this
      ensures Inv() && workers == old(workers) && created == |pass.queued|
      ensures pass.returned == start.returned && pass.reversals == start.reversals
      ensures pass.promoted == start.promoted && pass.promotes == start.promotes
      ensures FillsSlots(old(Tables()), pass, available, held) && AreQueues(pass.queues, pass.queued, names, now)
      ensures history == old(history) + pass.queues
      ensures forall id :: id in old(dispatches) ==> id in dispatches
      ensures forall id :: id in dispatches && id !in old(dispatches) ==>
        id in names && dispatches[id].status.DispatchPending? && Served(workers, dispatches[id].kind)
    {
      hide Latest, WorldInv, Limits, ActiveDispatches, HasRoom, KindCount, NothingLeft, Considered, FillsSlots,
        CountsSlots, CapacityFor, Served, AreQueues;
      NoQueues(names, now);
      var capacity, sessions, pending := LoadExecutorCapacity();
      created, pass := 0, start.(sessions := sessions, pending := pending, slots := capacity);
      if |capacity| == 0 { NoSlots(Tables(), pass, available, held); return; }
      SlotsAreServed(Tables(), capacity, sessions, pending);
      var ids := SelectAdvanceable(available, held);
      ghost var w, queued, tried, queues := Tables(), [], 0, [];
      created, queued, tried, queues := QueueAll(ids, capacity, available, names, now);
      pass := pass.(candidates := ids, queued := queued, queues := queues);
      AllCandidates(w, pass, available, tried, held);
    }

    /** The loop over the selected runs, in their order: a run is passed over only if nothing is left for the kind of its
        first ready task, and no more tasks of a kind are queued than there are slots for it. */
    method QueueAll(ids: seq<RunID>, slots: map<ExecutorKind, int>, available: nat, names: seq<DispatchID>, now: Time)
      returns (created: nat, ghost queued: seq<RunID>, ghost tried: nat, ghost steps: seq<DispatchStep>)
      requires Inv() && NoDuplicates(ids) && FreshNames(dispatches, names) && available <= |names|
      requires |ActiveDispatches(dispatches)| + available <= dispatchLimit
      requires forall k :: 0 <= k < |ids| ==> HasRoom(Tables(), ids[k])
      requires forall kind :: CapacityFor(slots, kind) > 0 ==> Served(workers, kind)
      modifies this
      ensures Inv() && workers == old(workers) && created <= available && created <= tried
      ensures |queued| == created && history == old(history) + steps && AreQueues(steps, queued, names, now)
      ensures tried <= |ids| && (tried == |ids| || created == available) && Considered(old(runs), ids[..tried], queued, slots)
      ensures forall kind :: KindCount(old(runs), queued, kind) <= NonNegativePart(CapacityFor(slots, kind))
      ensures forall id :: id in old(dispatches) ==> id in dispatches
      ensures forall id :: id in dispatches && id !in old(dispatches) ==>
        id in names && dispatches[id].status.DispatchPending? && Served(workers, dispatches[id].kind)
    {
      hide Latest, WorldInv, Limits, ActiveDispatches, Busy, Served, KindCount, Advanceable, NextKind, Considered,
        CapacityFor, AreQueues, HasRoom, Open;
      NoneConsidered(runs, slots, names, now);
      forall k | 0 <= k < |ids|
        ensures ids[k] in runs && Open(runs[ids[k]].s) && |Busy(runs[ids[k]].s.tasks)| < runs[ids[k]].c.definition.concurrency
      {
        RoomOf(Tables(), ids[k]);
      }
      created, queued, tried, steps := 0, [], 0, [];
      var capacity := slots;
      var k := 0;
      while k < |ids| && created < available
        invariant 0 <= k <= |ids| && created <= available && created <= k && Inv() && workers == old(workers) && tried == k
        invariant |ActiveDispatches(dispatches)| <= |ActiveDispatches(old(dispatches))| + created
        invariant runs.Keys == old(runs).Keys && forall j :: k <= j < |ids| ==> runs[ids[j]] == old(runs)[ids[j]]
        invariant |queued| == created && history == old(history) + steps && AreQueues(steps, queued, names, now)
        invariant Accounted(old(runs), queued, slots, capacity) && Considered(old(runs), ids[..k], queued, slots)
        invariant forall id :: id in old(dispatches) ==> id in dispatches
        invariant forall id :: id in dispatches && id !in old(dispatches) ==> NewlyPending(names[..created], id)
      {
        var r := ids[k];
        assert r !in ids[..k];
        assert ids[..k + 1] == ids[..k] + [r];
        ghost var before, left := queued, capacity;
        var done;
        capacity, done := QueueNextRun(r, capacity, names[created], now);
        if done {
          OneQueued(old(runs), ids[..k], before, slots, left, r);
          NewName(names, created);
          queued := queued + [r];
          MoreQueues(old(history), steps, before, r, names, now);
          steps := steps + [DoQueue(r, names[created], now)];
          assert Served(workers, dispatches[names[created]].kind);
          created := created + 1;
        } else {
          OnePassedOver(old(runs), ids[..k], before, slots, left, r);
        }
        k, tried := k + 1, k + 1;
      }
    }

    /** Queues the first ready task of one run if a slot is left for its kind. */
    method QueueNextRun(q: RunID, before: map<ExecutorKind, int>, name: DispatchID, now: Time)
      returns (capacity: map<ExecutorKind, int>, done: bool)
      requires Inv() && q in runs && Open(runs[q].s) && |Busy(runs[q].s.tasks)| < runs[q].c.definition.concurrency
      requires |ActiveDispatches(dispatches)| < dispatchLimit && name != "" && name !in dispatches
      modifies this
      ensures Inv() && workers == old(workers) && runs.Keys == old(runs).Keys && forall p :: p in runs && p != q ==>
        runs[p] == old(runs)[p]
      ensures done <==> NextKind(old(runs)[q]).Some? && CapacityFor(before, NextKind(old(runs)[q]).value) > 0
      ensures !done ==> Tables() == old(Tables()) && history == old(history) && capacity == before
      ensures done ==>
        var kind := NextKind(old(runs)[q]).value;
        && history == old(history) + [DoQueue(q, name, now)] && capacity == before[kind := CapacityFor(before, kind) - 1]
        && name in dispatches && dispatches == old(dispatches)[name := dispatches[name]]
        && dispatches[name].status.DispatchPending? && dispatches[name].kind == kind
        && |ActiveDispatches(dispatches)| <= |ActiveDispatches(old(dispatches))| + 1
    {
      hide Latest, WorldInv, Limits, ActiveDispatches, Busy;
      capacity, done := before, false;
      var i := FindReady(runs[q].s.tasks);
      if i < 0 || i >= |runs[q].s.definition.tasks| { return; }
      var kind := runs[q].s.definition.tasks[i].executor;
      if CapacityFor(capacity, kind) <= 0 { return; }
      var err := QueueChecked(q, name, kind, now);
      capacity, done := capacity[kind := CapacityFor(capacity, kind) - 1], true;
    }

    /** A row this scan added: pending, under one of the used names, for a kind some active worker serves. */
    predicate NewlyPending(used: seq<DispatchID>, id: DispatchID)
      requires id in dispatches
      reads this
    {
      id in used && dispatches[id].status.DispatchPending? && Served(workers, dispatches[id].kind)
    }

    method QueueChecked(r: RunID, id: DispatchID, kind: ExecutorKind, now: Time) returns (err: Option<DispatchError>)
      requires Inv() && Schedulable(Tables(), r, id, dispatchLimit) && NextKind(runs[r]) == Some(kind)
        && FirstReady(runs[r].s.tasks, 0) >= 0
      modifies this
      ensures Inv() && err.None? && workers == old(workers)
      ensures history == old(history) + [DoQueue(r, id, now)]
      ensures runs.Keys == old(runs).Keys && forall q :: q in runs && q != r ==> runs[q] == old(runs)[q]
      ensures id in dispatches && dispatches == old(dispatches)[id := dispatches[id]]
      ensures dispatches[id].status.DispatchPending? && dispatches[id].kind == kind
      ensures |ActiveDispatches(dispatches)| <= |ActiveDispatches(old(dispatches))| + 1
    {
      hide Latest, WorldInv, Limits, EntryInv, Steps.QueueTask;
      QueueKeepsWorld(Tables(), r, id, now);
      QueueLimits(Tables(), r, id, now, dispatchLimit);
      Taken(history, DoQueue(r, id, now), dispatchLimit, QueueNext(Tables(), r, id, now));
      err := QueueOne(r, id, now);
      history := history + [DoQueue(r, id, now)];
      ActiveChange(old(dispatches), id, dispatches[id]);
    }

    // ---------- requested cancellations ----------

    /** Open runs with a request, up to the limit. */
    method SelectRequested(limit: nat) returns (ids: seq<RunID>)
      ensures NoDuplicates(ids) && |ids| <= limit && forall k :: 0 <= k < |ids| ==> CancelWaits(Tables(), ids[k])
      ensures |ids| < limit ==> forall q :: CancelWaits(Tables(), q) ==> q in ids
    {
      hide IsRequested, CancelWaits;
      RequestsExactly(Tables());
      ids := [];
      var rest := runs.Keys;
      while rest != {} && |ids| < limit
        invariant NoDuplicates(ids) && |ids| <= limit && rest <= runs.Keys
        invariant forall k :: 0 <= k < |ids| ==> CancelWaits(Tables(), ids[k]) && ids[k] !in rest
        invariant forall q :: q in runs && q !in rest && CancelWaits(Tables(), q) ==> q in ids
        decreases |rest|
      {
        var q :| q in rest;
        if IsRequested(Tables(), q) { ids := ids + [q]; }
        rest := rest - {q};
      }
    }

    /** Carries out recorded cancellation requests, each in its own transaction; afterwards all the selected runs are
        canceled, and none is left unless the limit was reached. */
    method CancelRequestedRuns(limit: int)
      returns (canceled: nat, err: Option<DispatchError>, ghost ids: seq<RunID>, ghost steps: seq<DispatchStep>)
      requires Inv()
      modifies this
      ensures Inv() && (err.None? <==> limit > 0) && canceled == |ids| == |steps|
      ensures history == old(history) + steps && forall k :: 0 <= k < |ids| ==> steps[k].DoCancel? && steps[k].r == ids[k]
      ensures NoDuplicates(ids) && (forall k :: 0 <= k < |ids| ==> CancelWaits(old(Tables()), ids[k]))
      ensures forall k :: 0 <= k < |ids| ==> ids[k] in runs && runs[ids[k]].s.row.status.WorkflowCanceled?
      ensures forall q :: q in old(runs) && q !in ids ==> q in runs && runs[q] == old(runs)[q]
      ensures err.None? && canceled < limit ==> forall q :: !CancelWaits(Tables(), q)
    {
      hide Latest, WorldInv, Limits;
      canceled, ids, steps := 0, [], [];
      if limit <= 0 { err := Some(BadLimit); return; }
      var requested := SelectRequested(limit);
      ids := requested;
      err, steps := CancelAll(requested);
      canceled := |requested|;
    }

    method CancelAll(ids: seq<RunID>) returns (err: Option<DispatchError>, ghost steps: seq<DispatchStep>)
      requires Inv() && NoDuplicates(ids) && forall k :: 0 <= k < |ids| ==> CancelWaits(Tables(), ids[k])
      modifies this
      ensures Inv() && err.None? && runs.Keys == old(runs).Keys
      ensures history == old(history) + steps && |steps| == |ids| && forall k :: 0 <= k < |ids| ==>
        steps[k].DoCancel? && steps[k].r == ids[k]
      ensures forall q :: q in ids ==> q in runs && runs[q].s.row.status.WorkflowCanceled?
      ensures forall q :: q in old(runs) && q !in ids ==> runs[q] == old(runs)[q]
    {
      hide Latest, WorldInv, Limits, CancelWaits;
      forall k | 0 <= k < |ids| ensures ids[k] in runs { WaitingIsRun(Tables(), ids[k]); }
      err, steps := None, [];
      var k := 0;
      while k < |ids|
        invariant 0 <= k <= |ids| && Inv() && err.None? && runs.Keys == old(runs).Keys
        invariant history == old(history) + steps && |steps| == k && forall j :: 0 <= j < k ==>
          steps[j].DoCancel? && steps[j].r == ids[j]
        invariant forall q :: q in ids[..k] ==> q in runs && runs[q].s.row.status.WorkflowCanceled?
        invariant forall q :: q in old(runs) && q !in ids[..k] ==> runs[q] == old(runs)[q]
      {
        NewName(ids, k);
        SameRequest(old(Tables()), Tables(), ids[k]);
        var current: Time := *;
        err := CancelChecked(ids[k], current);
        OneMore(old(history), steps, DoCancel(ids[k], current));
        steps := steps + [DoCancel(ids[k], current)];
        k := k + 1;
      }
      assert ids[..k] == ids;
    }

    method CancelChecked(q: RunID, now: Time) returns (err: Option<DispatchError>)
      requires Inv() && CancelWaits(Tables(), q)
      modifies this
      ensures Inv() && err.None? && history == old(history) + [DoCancel(q, now)] && runs.Keys == old(runs).Keys
      ensures q in runs && runs[q].s.row.status.WorkflowCanceled? && forall p :: p in old(runs) && p != q ==>
        runs[p] == old(runs)[p]
    {
      hide Latest, WorldInv, Limits, CancelOne;
      CancelExact(Tables(), q, now);
      err := CancelRun(q, now);
    }

    // ---------- sessions ----------

    method RegisterWorker(id: WorkerID, kinds: seq<ExecutorKind>, maxConcurrency: nat, now: Time) returns (registered: bool)
      requires Inv()
      modifies this
      ensures Inv() && (registered <==> id != "" && id !in old(workers))
      ensures Tables() == if registered then Register(old(Tables()), id, kinds, maxConcurrency, now).w else old(Tables())
      ensures history == old(history) + [DoRegister(id, kinds, maxConcurrency, now)]
      ensures Obeys(old(Tables()), Tables(), DoRegister(id, kinds, maxConcurrency, now), dispatchLimit)
    {
      hide Latest, WorldInv, Limits, Obeys;
      Taken(history, DoRegister(id, kinds, maxConcurrency, now), dispatchLimit,
        Register(Tables(), id, kinds, maxConcurrency, now));
      ThenObeys(Tables(), DoRegister(id, kinds, maxConcurrency, now), dispatchLimit,
        Register(Tables(), id, kinds, maxConcurrency, now));
      history := history + [DoRegister(id, kinds, maxConcurrency, now)];
      if id == "" || id in workers { return false; }
      WorkersKeepWorld(Tables(), workers[id := Worker(kinds, maxConcurrency, WorkerActive, now, now, None)]);
      WorkerSteps(Tables(), DoRegister(id, kinds, maxConcurrency, now), dispatchLimit);
      workers := workers[id := Worker(kinds, maxConcurrency, WorkerActive, now, now, None)];
      return true;
    }

    /** Stops new claims at once, and the session itself when it holds no lease. */
    method DrainWorker(id: WorkerID, now: Time) returns (err: Option<DispatchError>)
      requires Inv()
      modifies this
      ensures Inv() && Did(err, Drained(old(Tables()), id, now), old(Tables()), Tables())
      ensures history == old(history) + [DoDrain(id, now)]
      ensures Obeys(old(Tables()), Tables(), DoDrain(id, now), dispatchLimit)
    {
      hide Latest, WorldInv, Limits, Obeys;
      Taken(history, DoDrain(id, now), dispatchLimit, Drained(Tables(), id, now));
      ThenObeys(Tables(), DoDrain(id, now), dispatchLimit, Drained(Tables(), id, now));
      history := history + [DoDrain(id, now)];
      if id !in workers || (workers[id].status != WorkerActive && workers[id].status != WorkerDraining) {
        return Some(SessionInvalid);
      }
      WorkersKeepWorld(Tables(), Drained(Tables(), id, now).w.workers);
      WorkerSteps(Tables(), DoDrain(id, now), dispatchLimit);
      var active := CountLeases(id);
      var next, stoppedAt := WorkerDraining, None;
      if active == 0 { next, stoppedAt := WorkerStopped, Some(now); }
      workers := workers[id := workers[id].(status := next, stoppedAt := stoppedAt)];
      return None;
    }
  }

  lemma {:induction false} RenewNext(w: World, worker: WorkerID, refs: seq<(DispatchID, Token)>, k: nat, now: Time, duration: int)
    requires k < |refs| && RenewMany(w, worker, refs[..k], now, duration).0.Moved?
    ensures var (o, answers) := RenewMany(w, worker, refs[..k], now, duration);
      var (o', answer) := RenewOne(o.w, worker, refs[k].0, refs[k].1, now, duration);
      RenewMany(w, worker, refs[..k + 1], now, duration) ==
        (match o'
         case Refused(e) => (Moved.Refused(e), answers)
         case Moved(v) => (Moved(v), answers + [answer])
         case Same => (o, answers + [answer]))
  {
    hide RenewOne;
    assert refs[..k + 1][..k] == refs[..k];
  }

  lemma {:induction false} RenewStops(w: World, worker: WorkerID, refs: seq<(DispatchID, Token)>, n: nat, now: Time,
      duration: int)
    requires n <= |refs|
    ensures var r := RenewMany(w, worker, refs[..n], now, duration); !r.0.Moved? ==>
      RenewMany(w, worker, refs, now, duration) == r
    decreases |refs|
  {
    if n < |refs| {
      assert refs[..|refs| - 1][..n] == refs[..n];
      RenewStops(w, worker, refs[..|refs| - 1], n, now, duration);
    } else {
      assert refs[..n] == refs;
    }
  }

  lemma StartStands(s: RunSnapshot, c: Compiled, i: int, now: Time, worker: WorkerID, dispatch: DispatchID)
    ensures var o := StartQueuedAttempt(s, c, i, now, worker, dispatch);
      o.Applied? ==> o.s.row.status == s.row.status && o.s.row.cancelRequestedAt == s.row.cancelRequestedAt
  {
  }

  /** What a claim does to the tables. */
  lemma {:induction false} ClaimedRow(w: World, worker: WorkerID, id: DispatchID, token: Token, now: Time, duration: int)
    requires WorldInv(w) && id in w.dispatches && w.dispatches[id].status.DispatchPending?
      && ClaimOne(w, worker, id, token, now, duration).Moved?
    ensures var v := ClaimOne(w, worker, id, token, now, duration).w;
      && v.workers == w.workers && id in v.dispatches && v.dispatches == w.dispatches[id := v.dispatches[id]]
           && LeasedBy(v.dispatches[id], worker)
      && SameStanding(w.runs, v.runs)
      && |LeasesOf(v.dispatches, worker)| == |LeasesOf(w.dispatches, worker)| + 1
  {
    hide WorldInv, StartQueuedAttempt;
    var d := w.dispatches[id];
    if d.run in w.runs {
      StartStands(w.runs[d.run].s, w.runs[d.run].c, TaskIndexByKey(w.runs[d.run].s.tasks, d.task), now, worker, id);
    }
    var v := ClaimOne(w, worker, id, token, now, duration).w;
    LeasesChange(w.dispatches, id, v.dispatches[id], worker);
  }

  lemma {:induction false} ExpiredRow(w: World, id: DispatchID, now: Time)
    requires ExpireOne(w, id, now).Moved?
    ensures var v := ExpireOne(w, id, now).w;
      && v.workers == w.workers && id in v.dispatches && v.dispatches == w.dispatches[id := v.dispatches[id]]
           && v.dispatches[id].status.DispatchExpired?
  {
    hide TimeoutAttempt, InterruptAttempt, PutRun;
  }
}
