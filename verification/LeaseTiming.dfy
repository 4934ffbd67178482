/** The worker's own clock on a lease: it cancels a local execution a safety margin before the lease it knows of runs
    out, and so no two attempts of a task ever execute at the same time, even if transactions read the clock early and
    the worker acts late, as long as both fit in the margin. */
module LeaseTiming {
  import opened Domain
  import opened Steps
  import opened DispatchModel
  import opened DispatchInvariant
  import opened DispatchSteps
  import opened DispatchRuns
  import opened DispatchHistory

  /** The heartbeat loop passes on how long the lease still lasts; the deadline loop takes it at `at`. */
  datatype Renewal = Renewal(at: Time, remaining: int)

  /** One local execution as its deadline loop sees it: the lease it was started with, and the renewals in order. The loop
      may run up to `late` after its timer fired. */
  datatype Watch = Watch(expiresAt: Time, deadline: Time, margin: int, late: nat, start: Time, renewals: seq<Renewal>)
  {
    /** When the `n`th promise arrived; the lease itself is promise 0. */
    function At(n: nat): Time requires n <= |renewals| { if n == 0 then start else renewals[n - 1].at }

    /** Until when the `n`th promise allows the execution to go on. */
    function FiresAt(n: nat): Time
      requires n <= |renewals|
    {
      Min(if n == 0 then expiresAt else At(n) + renewals[n - 1].remaining, deadline) - margin
    }

    /** The promise arrived early enough to set the timer. */
    predicate Armed(n: nat) requires n <= |renewals| { At(n) < FiresAt(n) }

    /** When the execution is canceled on the `n`th promise: on the timer, or at once if that was not set. */
    function Earliest(n: nat): Time requires n <= |renewals| { if Armed(n) then FiresAt(n) else At(n) }
    function Latest(n: nat): Time requires n <= |renewals| { if Armed(n) then FiresAt(n) + late else At(n) }

    /** The timer was set, and the next promise was taken before the loop saw it fire. */
    predicate Passed(m: nat) requires m < |renewals| { Armed(m) && renewals[m].at <= FiresAt(m) + late }

    /** Promise `n` is the last one taken: every earlier one was followed by the next, and it was not. */
    ghost predicate Ends(n: nat) {
      && n <= |renewals|
      && (forall m: nat :: m < n ==> Passed(m))
      && (n < |renewals| && Armed(n) ==> FiresAt(n) <= renewals[n].at)
    }

    /** The execution is canceled at `stop`, with promise `n` the last one taken. */
    ghost predicate Stops(n: nat, stop: Time) { Ends(n) && Earliest(n) <= stop <= Latest(n) }
  }

  function LocalSafetyDelay(expiresAt: Time, deadline: Time, margin: int, now: Time): (delay: int)
    ensures delay > 0 <==> now + margin < expiresAt && now + margin < deadline
    ensures now + delay <= expiresAt - margin && now + delay <= deadline - margin
  {
    (if expiresAt < deadline then expiresAt else deadline) - now - margin
  }

  /** The deadline loop of one execution: a single timer, set anew by every renewal. A loop that runs late may find both a
      renewal and the fired timer, and then either wins. */
  method EnforceLocalSafetyDeadline(w: Watch) returns (stop: Time, taken: nat)
    ensures w.Stops(taken, stop)
  {
    taken := 0;
    var delay := LocalSafetyDelay(w.expiresAt, w.deadline, w.margin, w.start);
    if delay <= 0 { return w.start, 0; }
    var timer := w.start + delay;
    while taken < |w.renewals|
      invariant taken <= |w.renewals| && w.Armed(taken) && timer == w.FiresAt(taken)
      invariant forall m: nat :: m < taken ==> w.Passed(m)
    {
      var renewal := w.renewals[taken];
      var fired := renewal.at > timer + w.late;
      if timer <= renewal.at <= timer + w.late { fired := *; }
      if fired { break; }
      delay := renewal.remaining - w.margin;
      var attemptDelay := w.deadline - renewal.at - w.margin;
      if delay > attemptDelay { delay := attemptDelay; }
      taken := taken + 1;
      if delay <= 0 { return renewal.at, taken; }
      timer := renewal.at + delay;
    }
    stop :| timer <= stop <= timer + w.late;
  }

  // ---------- one promise against the lease the server stored ----------

  /** The server read `sent` and stored `expiresAt`, and answered how many whole milliseconds remain. */
  datatype Stored = Stored(sent: Time, expiresAt: Time)

  /** What the answer in milliseconds leaves out of the time that remains. */
  function Lost(s: Stored): int { (s.expiresAt - s.sent) % NANOS_PER_MILLI }

  function Told(s: Stored): int { (s.expiresAt - s.sent) / NANOS_PER_MILLI * NANOS_PER_MILLI }

  /** What the server stores for promise `n` of this watch. */
  predicate Promised(w: Watch, n: nat, s: Stored, duration: int) {
    && n <= |w.renewals| && s.expiresAt == Min(s.sent + duration, w.deadline) && s.sent <= w.At(n)
    && (if n == 0 then w.expiresAt == s.expiresAt else w.renewals[n - 1].remaining == Told(s))
  }

  /** With the same clock on both sides, an execution that ends with a renewal always stops before the stored lease runs
      out exactly if the renewal itself came before that, and, where it set the timer, handling it and acting late took
      no more than the margin (and what the answer left out), or the deadline, which needs no answer, is what stops it. */
  lemma {:induction false} RenewalInTimeExactly(w: Watch, n: nat, s: Stored, duration: int)
    requires w.Ends(n) && n > 0 && Promised(w, n, s, duration)
    ensures (forall stop :: w.Stops(n, stop) ==> stop <= s.expiresAt) <==>
      && w.At(n) <= s.expiresAt
      && (w.Armed(n) ==> w.At(n) - s.sent + w.late <= w.margin + Lost(s) || w.deadline - w.margin + w.late <= s.expiresAt)
  {
    assert Told(s) + Lost(s) == s.expiresAt - s.sent;
    assert w.Stops(n, w.Latest(n));
  }

  /** Without a renewal it always stops in time exactly if it was not started too late, nor acts later than the margin. */
  lemma LeaseInTimeExactly(w: Watch, s: Stored, duration: int)
    requires w.Ends(0) && Promised(w, 0, s, duration)
    ensures (forall stop :: w.Stops(0, stop) ==> stop <= s.expiresAt) <==>
      w.start <= s.expiresAt && (w.Armed(0) ==> w.late <= w.margin)
  {
    assert w.Stops(0, w.Latest(0));
  }

  /** The server granted promise `n` at a time it read between `sent[n]` and `lag` later. Reading early, handling the answer
      and acting late fit in the margin, and the execution started on a lease that lasted. */
  ghost predicate Prompt(w: Watch, sent: seq<Time>, duration: int, lag: nat) {
    && |sent| == |w.renewals| + 1 && lag + w.late <= w.margin
    && w.start + lag <= w.expiresAt <= Min(sent[0] + lag + duration, w.deadline)
    && forall n: nat :: 0 < n < |sent| ==> w.renewals[n - 1].remaining <= duration && w.At(n) + w.late <= sent[n] + w.margin
  }

  /** A prompt worker stops no later than one of the promises it took means at the least. */
  lemma {:induction false} PromptStopsInTime(w: Watch, taken: nat, stop: Time, sent: seq<Time>, duration: int, lag: nat)
    returns (n: nat)
    requires w.Stops(taken, stop) && Prompt(w, sent, duration, lag)
    ensures n <= taken && stop <= Min(sent[n] + duration, w.deadline)
  {
    n := if taken > 0 && !w.Armed(taken) then taken - 1 else taken;
    assert n < taken ==> w.Passed(n);
  }

  // ---------- transactions that read the clock early ----------

  /** A step takes effect at `clock[k + 1]`, after its transaction read the clock: a grant at most `lag` before. */
  ghost predicate Skewed(steps: seq<DispatchStep>, clock: seq<Time>, duration: int, lag: nat) {
    && |clock| == |steps| + 1 && duration >= 0
    && (forall j, k :: 0 <= j <= k < |clock| ==> clock[j] <= clock[k])
    && forall k: nat :: k < |steps| ==> Grants(steps[k], duration) && ReadsEarly(steps[k], clock[k + 1], lag)
  }

  predicate ReadsEarly(step: DispatchStep, at: Time, lag: nat) {
    && (ReadsClock(step).Some? ==> ReadsClock(step).value <= at)
    && (step.DoClaim? || step.DoRenew? ==> at - lag <= step.now)
  }

  /** Reading the clock when the step takes effect is the case without a lag. */
  lemma ClockedIsSkewed(steps: seq<DispatchStep>, clock: seq<Time>, duration: int)
    requires Clocked(steps, clock, duration)
    ensures Skewed(steps, clock, duration, 0)
  {
  }

  ghost predicate RowsInTime(w: World, clock: Time, duration: int) {
    forall id :: id in w.dispatches ==> RowTimes(w.dispatches[id], clock, duration)
  }

  /** Whenever the transactions read the clock before, a settled lease had expired. */
  lemma {:induction false} SkewedTimes(steps: seq<DispatchStep>, clock: seq<Time>, duration: int, lag: nat, k: nat, limit: nat)
    requires Skewed(steps, clock, duration, lag) && k <= |steps|
    ensures RowsInTime(WorldAt(steps, k, limit), clock[k], duration)
  {
    hide WorldInv, Limits, Take, RowTimes, RowChange, Grants, ReadsClock;
    if k > 0 {
      SkewedTimes(steps, clock, duration, lag, k - 1, limit);
      EveryHistory(steps, k - 1, limit);
      var w, v := WorldAt(steps, k - 1, limit), WorldAt(steps, k, limit);
      if Take(w, steps[k - 1], limit).Moved? { TakeTable(w, steps[k - 1], limit); }
      forall id | id in v.dispatches ensures RowTimes(v.dispatches[id], clock[k], duration) {
        if id !in w.dispatches {
          NewRowTimes(v.dispatches[id], clock[k], duration);
        } else {
          PresentID(w, id);
          if v.dispatches[id] == w.dispatches[id] {
            assert RowTimes(w.dispatches[id], clock[k - 1], duration);
            LaterTimes(w.dispatches[id], clock[k - 1], clock[k], duration);
          } else {
            ChangeTimes(id, w.dispatches[id], v.dispatches[id], steps[k - 1], clock[k - 1], clock[k], duration);
          }
        }
      }
    }
  }

  lemma LaterTimes(d: Dispatch, before: Time, after: Time, duration: int)
    requires RowTimes(d, before, duration) && before <= after
    ensures RowTimes(d, after, duration)
  {
  }

  /** The lease lasts at least as long as one granted at `at`. */
  predicate LastsAsFrom(d: Dispatch, at: Time, duration: int) {
    d.lease.Some? && Min(at + duration, d.lease.value.deadline) <= d.lease.value.expiresAt
  }

  lemma ChangeLasts(id: DispatchID, a: Dispatch, b: Dispatch, step: DispatchStep, at: Time, duration: int)
    requires RowChange(id, a, b, step) && LastsAsFrom(a, at, duration) && Shape(a) && Grants(step, duration)
    requires step.DoRenew? ==> at <= step.now
    ensures LastsAsFrom(b, at, duration) && b.lease.value.deadline == a.lease.value.deadline
  {
  }

  /** However early the later renewals read the clock, a lease never lasts less than one granted `lag` ago. */
  lemma {:induction false} ExpiryFloor(steps: seq<DispatchStep>, clock: seq<Time>, duration: int, lag: nat, j: nat,
      k: nat, limit: nat, id: DispatchID, at: Time)
    requires Skewed(steps, clock, duration, lag) && j <= k <= |steps| && id in WorldAt(steps, j, limit).dispatches
    requires LastsAsFrom(WorldAt(steps, j, limit).dispatches[id], at, duration) && at <= clock[j] - lag
    ensures id in WorldAt(steps, k, limit).dispatches && LastsAsFrom(WorldAt(steps, k, limit).dispatches[id], at, duration)
    ensures WorldAt(steps, k, limit).dispatches[id].lease.value.deadline ==
      WorldAt(steps, j, limit).dispatches[id].lease.value.deadline
    decreases k
  {
    hide WorldInv, Limits, Take, RowChange, LastsAsFrom, Grants;
    if j < k {
      ExpiryFloor(steps, clock, duration, lag, j, k - 1, limit, id, at);
      var w, p := WorldAt(steps, k - 1, limit), k - 1;
      EveryHistory(steps, p, limit);
      PresentID(w, id);
      if Take(w, steps[p], limit).Moved? {
        TakeTable(w, steps[p], limit);
        assert ReadsEarly(steps[p], clock[p + 1], lag) && Grants(steps[p], duration) && clock[j] <= clock[p + 1];
        ChangeLasts(id, w.dispatches[id], WorldAt(steps, k, limit).dispatches[id], steps[p], at, duration);
      }
    }
  }

  // ---------- the watch of a dispatch in a history ----------

  /** Step `p` of the history granted the lease of dispatch `id`: it claimed or renewed it. */
  ghost predicate GrantedAt(steps: seq<DispatchStep>, limit: nat, p: nat, id: DispatchID) {
    && p < |steps| && (steps[p].DoClaim? || steps[p].DoRenew?) && steps[p].id == id
    && Take(WorldAt(steps, p, limit), steps[p], limit).Moved?
  }

  ghost predicate LeasedAt(steps: seq<DispatchStep>, limit: nat, p: nat, id: DispatchID) {
    GrantedAt(steps, limit, p, id) && steps[p].DoClaim?
  }

  /** Step `p` renewed it, answering that `remaining` is left. */
  ghost predicate RenewedAt(steps: seq<DispatchStep>, limit: nat, p: nat, id: DispatchID, remaining: int) {
    && p < |steps| && steps[p].DoRenew? && steps[p].id == id
    && var (o, answer) := RenewOne(WorldAt(steps, p, limit), steps[p].worker, id, steps[p].token, steps[p].now,
         steps[p].duration);
       o.Moved? && answer == LeaseRenewed(remaining)
  }

  /** The promises of `w` are the answers of the given steps, all among the first `k`: the claim that leased the dispatch
      and then renewals, each handled after it was sent. Reading the clock early, handling the answer and acting late
      together fit in the margin. */
  ghost predicate Watches(w: Watch, answers: seq<nat>, steps: seq<DispatchStep>, clock: seq<Time>, duration: int,
      lag: nat, k: nat, limit: nat, id: DispatchID)
  {
    && Skewed(steps, clock, duration, lag) && k <= |steps| && |answers| == |w.renewals| + 1 && lag + w.late <= w.margin
    && (forall n: nat :: n < |answers| ==> answers[0] <= answers[n] < k)
    && LeasedAt(steps, limit, answers[0], id) && LeaseOf(w, WorldAt(steps, answers[0] + 1, limit), id)
    && clock[answers[0] + 1] <= w.start && w.start + lag <= w.expiresAt
    && forall n: nat :: 0 < n < |answers| ==> HandledInTime(w, n, answers[n], steps, clock, lag, limit, id)
  }

  ghost predicate HandledInTime(w: Watch, n: nat, p: nat, steps: seq<DispatchStep>, clock: seq<Time>, lag: nat,
      limit: nat, id: DispatchID)
    requires 0 < n <= |w.renewals| && p < |steps| && |clock| == |steps| + 1
  {
    && w.renewals[n - 1].remaining % NANOS_PER_MILLI == 0
    && RenewedAt(steps, limit, p, id, w.renewals[n - 1].remaining / NANOS_PER_MILLI)
    && clock[p + 1] <= w.At(n) && w.At(n) + w.late + lag <= clock[p + 1] + w.margin
  }

  ghost predicate LeaseOf(w: Watch, world: World, id: DispatchID) {
    && id in world.dispatches && world.dispatches[id].lease.Some?
    && w.expiresAt == world.dispatches[id].lease.value.expiresAt && w.deadline == world.dispatches[id].lease.value.deadline
  }

  /** What a grant of step `p` stores. */
  predicate StoredBy(d: Dispatch, step: DispatchStep)
    requires step.DoClaim? || step.DoRenew?
  {
    d.lease.Some? && d.lease.value.expiresAt == Min(step.now + step.duration, d.lease.value.deadline)
  }

  lemma {:induction false} GrantStores(steps: seq<DispatchStep>, limit: nat, p: nat, id: DispatchID)
    requires GrantedAt(steps, limit, p, id)
    ensures id in WorldAt(steps, p + 1, limit).dispatches && StoredBy(WorldAt(steps, p + 1, limit).dispatches[id], steps[p])
  {
    hide StartQueuedAttempt;
  }

  lemma {:induction false} RenewalGrants(steps: seq<DispatchStep>, limit: nat, p: nat, id: DispatchID, remaining: int)
    requires RenewedAt(steps, limit, p, id, remaining)
    ensures GrantedAt(steps, limit, p, id) && remaining * NANOS_PER_MILLI <= steps[p].duration
  {
  }

  /** Promise `n` was granted at a time between `lag` before it took effect and then, and lasts as long from there on. */
  lemma {:induction false} PromiseLasts(w: Watch, answers: seq<nat>, n: nat, steps: seq<DispatchStep>, clock: seq<Time>,
      duration: int, lag: nat, k: nat, limit: nat, id: DispatchID)
    requires Watches(w, answers, steps, clock, duration, lag, k, limit, id) && n < |answers|
    ensures id in WorldAt(steps, k, limit).dispatches && WorldAt(steps, k, limit).dispatches[id].lease.Some?
    ensures Min(clock[answers[n] + 1] - lag + duration, w.deadline) <=
      WorldAt(steps, k, limit).dispatches[id].lease.value.expiresAt
    ensures n > 0 ==> w.renewals[n - 1].remaining <= duration
    ensures w.expiresAt <= Min(clock[answers[0] + 1] + duration, w.deadline)
  {
    hide Take, WorldAt, LastsAsFrom, RenewedAt, GrantedAt;
    var first, p := answers[0], answers[n];
    GrantStores(steps, limit, first, id);
    assert Grants(steps[first], duration) && ReadsEarly(steps[first], clock[first + 1], lag);
    GrantLasts(steps, clock, duration, lag, first, limit, id);
    ExpiryFloor(steps, clock, duration, lag, first + 1, p + 1, limit, id, clock[first + 1] - lag);
    if n > 0 {
      assert HandledInTime(w, n, p, steps, clock, lag, limit, id);
      RenewalGrants(steps, limit, p, id, w.renewals[n - 1].remaining / NANOS_PER_MILLI);
      assert Grants(steps[p], duration);
    }
    GrantLasts(steps, clock, duration, lag, p, limit, id);
    ExpiryFloor(steps, clock, duration, lag, p + 1, k, limit, id, clock[p + 1] - lag);
    FloorOf(WorldAt(steps, k, limit).dispatches[id], clock[p + 1] - lag, duration);
  }

  lemma FloorOf(d: Dispatch, at: Time, duration: int)
    requires LastsAsFrom(d, at, duration)
    ensures d.lease.Some? && Min(at + duration, d.lease.value.deadline) <= d.lease.value.expiresAt
  {
  }

  lemma {:induction false} GrantLasts(steps: seq<DispatchStep>, clock: seq<Time>, duration: int, lag: nat, p: nat,
      limit: nat, id: DispatchID)
    requires Skewed(steps, clock, duration, lag) && GrantedAt(steps, limit, p, id)
    ensures id in WorldAt(steps, p + 1, limit).dispatches
    ensures LastsAsFrom(WorldAt(steps, p + 1, limit).dispatches[id], clock[p + 1] - lag, duration)
  {
    hide Take, WorldAt;
    GrantStores(steps, limit, p, id);
    assert Grants(steps[p], duration) && ReadsEarly(steps[p], clock[p + 1], lag);
  }

  /** A worker that handles every renewal within its margin cancels the execution no later than the lease the database
      holds, now and at every later time, even when renewals that read the clock early move that lease back. */
  lemma {:induction false} WorkerStopsBeforeExpiry(w: Watch, answers: seq<nat>, taken: nat, stop: Time, steps: seq<DispatchStep>,
      clock: seq<Time>, duration: int, lag: nat, k: nat, limit: nat, id: DispatchID)
    requires Watches(w, answers, steps, clock, duration, lag, k, limit, id) && w.Stops(taken, stop)
    ensures id in WorldAt(steps, k, limit).dispatches && WorldAt(steps, k, limit).dispatches[id].lease.Some?
    ensures stop <= WorldAt(steps, k, limit).dispatches[id].lease.value.expiresAt
  {
    hide Take, RenewedAt, LeasedAt, WorldAt;
    var sent := seq(|answers|, n requires 0 <= n < |answers| => clock[answers[n] + 1] - lag);
    PromiseLasts(w, answers, 0, steps, clock, duration, lag, k, limit, id);
    forall n: nat | 0 < n < |sent| ensures w.renewals[n - 1].remaining <= duration && w.At(n) + w.late <= sent[n] + w.margin {
      PromiseLasts(w, answers, n, steps, clock, duration, lag, k, limit, id);
      assert HandledInTime(w, n, answers[n], steps, clock, lag, limit, id);
    }
    var n := PromptStopsInTime(w, taken, stop, sent, duration, lag);
    PromiseLasts(w, answers, n, steps, clock, duration, lag, k, limit, id);
  }

  // ---------- no two executions of a task at once ----------

  /** The step that leased a dispatch. */
  lemma {:induction false} ClaimStep(steps: seq<DispatchStep>, k: nat, limit: nat, id: DispatchID) returns (p: nat)
    requires k <= |steps| && id in WorldAt(steps, k, limit).dispatches && WorldAt(steps, k, limit).dispatches[id].lease.Some?
    ensures p < k && LeasedAt(steps, limit, p, id)
    decreases k
  {
    hide Take, WorldInv, Limits;
    var w := WorldAt(steps, k - 1, limit);
    EveryHistory(steps, k - 1, limit);
    if Take(w, steps[k - 1], limit).Moved? { TakeTable(w, steps[k - 1], limit); }
    if id in w.dispatches && w.dispatches[id].lease.Some? {
      p := ClaimStep(steps, k - 1, limit, id);
    } else {
      if id in w.dispatches { PresentID(w, id); }
      p := k - 1;
    }
  }

  /** What a claim leased at step `q` was pending before, and nothing else changed. */
  lemma {:induction false} AtClaim(steps: seq<DispatchStep>, q: nat, limit: nat, b: DispatchID)
    requires LeasedAt(steps, limit, q, b)
    ensures var w, v := WorldAt(steps, q, limit), WorldAt(steps, q + 1, limit);
      && WorldInv(w) && WorldInv(v) && Claims(w, v, b, steps[q])
      && forall a :: a in w.dispatches && a != b ==> a in v.dispatches && v.dispatches[a] == w.dispatches[a]
  {
    hide WorldInv, Limits, Take, Leased;
    EveryHistory(steps, q, limit);
    EveryHistory(steps, q + 1, limit);
    ClaimTakes(WorldAt(steps, q, limit), steps[q], limit);
  }

  lemma {:induction false} ClaimTakes(w: World, step: DispatchStep, limit: nat)
    requires step.DoClaim? && Take(w, step, limit).Moved?
    ensures var v := Take(w, step, limit).w;
      Claims(w, v, step.id, step) && forall a :: a in w.dispatches && a != step.id ==>
        a in v.dispatches && v.dispatches[a] == w.dispatches[a]
  {
    hide StartQueuedAttempt, LeasesOf, PutRun;
  }

  lemma EarlierFollows(a: Dispatch, a': Dispatch, b: Dispatch, b': Dispatch)
    requires RowFollows(a, a') && RowFollows(b, b') && a.lease.Some? && b.lease.Some?
    ensures EarlierAttempt(a, b) <==> EarlierAttempt(a', b')
  {
  }

  /** Once dispatch `b` is leased, an earlier attempt of its task has ended for good, and a lease that was there is earlier. */
  lemma {:induction false} LeasedAfter(steps: seq<DispatchStep>, q: nat, k: nat, limit: nat, a: DispatchID, b: DispatchID)
    requires LeasedAt(steps, limit, q, b) && q < k <= |steps| && a != b
    requires a in WorldAt(steps, q, limit).dispatches && WorldAt(steps, q, limit).dispatches[a].lease.Some?
    ensures var w, v := WorldAt(steps, q, limit), WorldAt(steps, k, limit);
      && a in v.dispatches && b in v.dispatches && !EarlierAttempt(v.dispatches[b], v.dispatches[a])
      && (EarlierAttempt(v.dispatches[a], v.dispatches[b]) ==> v.dispatches[a] == w.dispatches[a])
  {
    hide WorldInv, Limits, WorldAt, LeasedAt, EarlierAttempt;
    AtClaim(steps, q, limit, b);
    var w, u, v := WorldAt(steps, q, limit), WorldAt(steps, q + 1, limit), WorldAt(steps, k, limit);
    ClaimIsLater(w, u, a, b, steps[q]);
    RowsForward(steps, q + 1, k, limit);
    EarlierFollows(u.dispatches[a], v.dispatches[a], u.dispatches[b], v.dispatches[b]);
    EarlierFollows(u.dispatches[b], v.dispatches[b], u.dispatches[a], v.dispatches[a]);
  }

  lemma {:induction false} StillLeased(steps: seq<DispatchStep>, p: nat, q: nat, limit: nat, id: DispatchID)
    requires LeasedAt(steps, limit, p, id) && p < q <= |steps|
    ensures id in WorldAt(steps, q, limit).dispatches && WorldAt(steps, q, limit).dispatches[id].lease.Some?
  {
    hide Take, WorldAt;
    GrantStores(steps, limit, p, id);
    RowsForward(steps, p + 1, q, limit);
  }

  /** When the later attempt of a task is leased, the dispatch of the earlier one has ended for good. */
  lemma {:induction false} EarlierHadEnded(steps: seq<DispatchStep>, q: nat, k: nat, limit: nat, a: DispatchID, b: DispatchID)
    requires LeasedAt(steps, limit, q, b) && q < k <= |steps|
    requires var v := WorldAt(steps, k, limit);
      a in v.dispatches && b in v.dispatches && EarlierAttempt(v.dispatches[a], v.dispatches[b])
    ensures a in WorldAt(steps, q, limit).dispatches
      && WorldAt(steps, q, limit).dispatches[a] == WorldAt(steps, k, limit).dispatches[a]
  {
    hide WorldAt, Take;
    var p := ClaimStep(steps, k, limit, a);
    if p < q {
      StillLeased(steps, p, q, limit, a);
      LeasedAfter(steps, q, k, limit, a, b);
    } else {
      StillLeased(steps, q, p, limit, b);
      LeasedAfter(steps, p, k, limit, b, a);
    }
  }

  /** Two attempts of one task never execute at the same time: the earlier execution has ended when the later one can
      start. An execution starts after its claim took effect, and ends before its result is reported and at the latest when
      its watch cancels it. */
  lemma {:induction false} WatchedExecutionsNeverOverlap(w: Watch, answers: seq<nat>, taken: nat, stop: Time, end: Time,
      start: Time, steps: seq<DispatchStep>, clock: seq<Time>, duration: int, lag: nat, k: nat, limit: nat,
      a: DispatchID, b: DispatchID, q: nat)
    requires Watches(w, answers, steps, clock, duration, lag, k, limit, a) && w.Stops(taken, stop) && end <= stop
    requires var v := WorldAt(steps, k, limit);
      a in v.dispatches && b in v.dispatches && EarlierAttempt(v.dispatches[a], v.dispatches[b])
    requires var d := WorldAt(steps, k, limit).dispatches[a]; d.status.DispatchCompleted? && d.completedAt.Some? ==>
      end <= d.completedAt.value
    requires LeasedAt(steps, limit, q, b) && q < k && clock[q + 1] <= start
    ensures end <= start
  {
    hide WorldAt, WorldInv, Limits, LeasedAt, HandledInTime, EarlierAttempt;
    WorkerStopsBeforeExpiry(w, answers, taken, stop, steps, clock, duration, lag, k, limit, a);
    EarlierHadEnded(steps, q, k, limit, a, b);
    EveryHistory(steps, k, limit);
    EarlierWasNotCanceled(WorldAt(steps, k, limit), a, b);
    SkewedTimes(steps, clock, duration, lag, q, limit);
    assert RowTimes(WorldAt(steps, q, limit).dispatches[a], clock[q], duration) && clock[q] <= clock[q + 1];
  }

  // ---------- clocks that run backwards ----------

  /** The lease was the same from the `j`th world to the `k`th. */
  ghost predicate LeaseStands(steps: seq<DispatchStep>, j: nat, k: nat, limit: nat, id: DispatchID)
    requires k <= |steps|
  {
    && id in WorldAt(steps, k, limit).dispatches
    && forall m: nat :: j <= m <= k ==>
         id in WorldAt(steps, m, limit).dispatches
           && WorldAt(steps, m, limit).dispatches[id].lease == WorldAt(steps, k, limit).dispatches[id].lease
  }

  /** The grant that stands: the last claim or renewal of the dispatch, after which its lease did not change. */
  lemma {:induction false} LastGrant(steps: seq<DispatchStep>, k: nat, limit: nat, id: DispatchID) returns (p: nat)
    requires k <= |steps| && id in WorldAt(steps, k, limit).dispatches && WorldAt(steps, k, limit).dispatches[id].lease.Some?
    ensures p < k && GrantedAt(steps, limit, p, id) && StoredBy(WorldAt(steps, k, limit).dispatches[id], steps[p])
    ensures LeaseStands(steps, p + 1, k, limit, id)
    decreases k
  {
    hide Take, WorldInv, Limits;
    var w, v := WorldAt(steps, k - 1, limit), WorldAt(steps, k, limit);
    EveryHistory(steps, k - 1, limit);
    if Take(w, steps[k - 1], limit).Moved? { TakeTable(w, steps[k - 1], limit); }
    if id in w.dispatches { PresentID(w, id); }
    if GrantedAt(steps, limit, k - 1, id) {
      GrantStores(steps, limit, k - 1, id);
      p := k - 1;
    } else {
      assert id in w.dispatches && w.dispatches[id].lease == v.dispatches[id].lease;
      p := LastGrant(steps, k - 1, limit, id);
    }
  }

  /** Without a common clock between the transactions the expiry can move back: after any history an accepted renewal shortens
      the lease exactly if it ends before what the last grant, a claim or a renewal, asked for, and before the deadline. */
  lemma {:induction false} RenewalMovesBackExactly(steps: seq<DispatchStep>, k: nat, limit: nat, worker: WorkerID, id: DispatchID,
      token: Token, now: Time, duration: int) returns (p: nat)
    requires k <= |steps| && RenewOne(WorldAt(steps, k, limit), worker, id, token, now, duration).0.Moved?
    ensures p < k && GrantedAt(steps, limit, p, id) && LeaseStands(steps, p + 1, k, limit, id)
    ensures var w := WorldAt(steps, k, limit);
      var v := RenewOne(w, worker, id, token, now, duration).0.w;
      && id in w.dispatches && w.dispatches[id].lease.Some? && id in v.dispatches && v.dispatches[id].lease.Some?
      && (v.dispatches[id].lease.value.expiresAt < w.dispatches[id].lease.value.expiresAt
          <==> now + duration < steps[p].now + steps[p].duration && now + duration < w.dispatches[id].lease.value.deadline)
  {
    hide Take, WorldAt, GrantedAt, LeaseStands;
    p := LastGrant(steps, k, limit, id);
  }

  /** The margin is what covers this: an execution that does not learn of such a renewal still always stops in time exactly if
      the renewal asked for no more than the margin, less the lateness, below what the last grant had given. */
  lemma {:induction false} UnseenRenewalExactly(w: Watch, steps: seq<DispatchStep>, k: nat, limit: nat,
      worker: WorkerID, id: DispatchID, token: Token, now: Time, duration: int) returns (p: nat)
    requires k <= |steps| && RenewOne(WorldAt(steps, k, limit), worker, id, token, now, duration).0.Moved?
    requires LeaseOf(w, WorldAt(steps, k, limit), id) && w.Ends(0) && w.Armed(0) && w.late <= w.margin
    ensures p < k && GrantedAt(steps, limit, p, id) && LeaseStands(steps, p + 1, k, limit, id)
    ensures var v := RenewOne(WorldAt(steps, k, limit), worker, id, token, now, duration).0.w;
      && id in v.dispatches && v.dispatches[id].lease.Some?
      && ((forall stop :: w.Stops(0, stop) ==> stop <= v.dispatches[id].lease.value.expiresAt)
          <==> Min(steps[p].now + steps[p].duration, w.deadline) - (now + duration) <= w.margin - w.late)
  {
    hide Take, WorldAt, GrantedAt, LeaseStands;
    p := LastGrant(steps, k, limit, id);
    assert w.Stops(0, w.Latest(0));
  }

  /** Where grants read the clock at most `lag` before they take effect, an expiry moves back by no more than that. */
  lemma {:induction false} MovesBackAtMostLag(steps: seq<DispatchStep>, clock: seq<Time>, duration: int, lag: nat,
      j: nat, k: nat, limit: nat, id: DispatchID)
    requires Skewed(steps, clock, duration, lag) && j <= k <= |steps|
    requires id in WorldAt(steps, j, limit).dispatches && WorldAt(steps, j, limit).dispatches[id].lease.Some?
    ensures id in WorldAt(steps, k, limit).dispatches && WorldAt(steps, k, limit).dispatches[id].lease.Some?
    ensures WorldAt(steps, j, limit).dispatches[id].lease.value.expiresAt - lag <=
      WorldAt(steps, k, limit).dispatches[id].lease.value.expiresAt
  {
    hide Take, WorldAt, LeaseStands;
    var p := LastGrant(steps, j, limit, id);
    assert Grants(steps[p], duration) && ReadsEarly(steps[p], clock[p + 1], lag) && clock[p + 1] <= clock[j];
    ExpiryFloor(steps, clock, duration, lag, j, k, limit, id, steps[p].now - lag);
  }

  /** A held lease that is renewed at `first` and then by a transaction that read the clock a moment earlier. */
  predicate Renewable(d: Dispatch, worker: WorkerID, token: Token, first: Time, duration: int) {
    Holds(d, worker, token) && Unexpired(d, first) && first + duration <= d.lease.value.deadline && duration > 1
  }

  lemma RenewalMovesBack(w: World, worker: WorkerID, id: DispatchID, token: Token, first: Time, duration: int)
    requires id in w.dispatches && Renewable(w.dispatches[id], worker, token, first, duration)
    ensures var o := RenewOne(w, worker, id, token, first, duration).0;
      && o.Moved? && id in o.w.dispatches && o.w.dispatches[id].lease.Some?
      && var o' := RenewOne(o.w, worker, id, token, first - 1, duration).0;
         && o'.Moved? && id in o'.w.dispatches && o'.w.dispatches[id].lease.Some?
         && o'.w.dispatches[id].lease.value.expiresAt < o.w.dispatches[id].lease.value.expiresAt
  {
  }

  /** At the end of any history that leaves such a lease, the two renewals are accepted and the second moves the expiry back. */
  lemma {:induction false} HistoryMovesBack(steps: seq<DispatchStep>, limit: nat, worker: WorkerID, id: DispatchID,
      token: Token, first: Time, duration: int)
    requires id in WorldAt(steps, |steps|, limit).dispatches
    requires Renewable(WorldAt(steps, |steps|, limit).dispatches[id], worker, token, first, duration)
    ensures var one := steps + [DoRenew(worker, id, token, first, duration)];
      var two := one + [DoRenew(worker, id, token, first - 1, duration)];
      && id in WorldAt(one, |one|, limit).dispatches && WorldAt(one, |one|, limit).dispatches[id].lease.Some?
      && id in WorldAt(two, |two|, limit).dispatches && WorldAt(two, |two|, limit).dispatches[id].lease.Some?
      && WorldAt(two, |two|, limit).dispatches[id].lease.value.expiresAt <
           WorldAt(one, |one|, limit).dispatches[id].lease.value.expiresAt
  {
    hide WorldAt, RenewOne, Renewable;
    var w := WorldAt(steps, |steps|, limit);
    RenewalMovesBack(w, worker, id, token, first, duration);
    var one := steps + [DoRenew(worker, id, token, first, duration)];
    WorldNext(steps, DoRenew(worker, id, token, first, duration), limit);
    WorldNext(one, DoRenew(worker, id, token, first - 1, duration), limit);
  }
}
