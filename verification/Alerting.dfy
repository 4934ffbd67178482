/** The alert engine: five rules over aggregate snapshots, each with a minimum duration and hysteresis; and what the
    sequence of its events says about the snapshots. */
module Alerting {
  import opened Domain

  datatype RuleName = QueueBacklog | WorkersOffline | LeaseReclaimErrors | CompleteErrorRate | DBPoolNearExhaustion

  /** `now` is absent when the caller did not fill it in. */
  datatype Snapshot = Snapshot(
    now: Option<Time>, queueDepth: int, availableSlots: int, onlineWorkers: int,
    leaseReclaimErrors: int, completeTotal: int, completeErrors: int, dbInUse: int, dbMax: int)

  datatype Rules = Rules(
    queueBacklogFor: int, workersOfflineFor: int, leaseReclaimErrorsFor: int, completeErrorRateFor: int,
    dbPoolExhaustionFor: int, recoveryFor: int, dbPoolRecoveryFor: int)

  datatype Status = Firing(startsAt: Time) | Resolved(endsAt: Time) | Unknown
  datatype Event = Event(rule: RuleName, status: Status)

  const NANOS_PER_SECOND: int := 1_000_000_000
  const DEFAULT_RULES := Rules(
    10 * NANOS_PER_SECOND, 5 * NANOS_PER_SECOND, NANOS_PER_SECOND, 30 * NANOS_PER_SECOND,
    10 * NANOS_PER_SECOND, 5 * NANOS_PER_SECOND, 10 * NANOS_PER_SECOND)

  function PositiveOr(given: int, fallback: int): int { if given <= 0 then fallback else given }

  function Completed(rules: Rules): (r: Rules)
    ensures forall rule :: DurationOf(r, rule) > 0 && RecoveryOf(r, rule) > 0
  {
    Rules(
      PositiveOr(rules.queueBacklogFor, DEFAULT_RULES.queueBacklogFor),
      PositiveOr(rules.workersOfflineFor, DEFAULT_RULES.workersOfflineFor),
      PositiveOr(rules.leaseReclaimErrorsFor, DEFAULT_RULES.leaseReclaimErrorsFor),
      PositiveOr(rules.completeErrorRateFor, DEFAULT_RULES.completeErrorRateFor),
      PositiveOr(rules.dbPoolExhaustionFor, DEFAULT_RULES.dbPoolExhaustionFor),
      PositiveOr(rules.recoveryFor, DEFAULT_RULES.recoveryFor),
      PositiveOr(rules.dbPoolRecoveryFor, DEFAULT_RULES.dbPoolRecoveryFor))
  }

  function DurationOf(rules: Rules, rule: RuleName): int {
    match rule
    case QueueBacklog => rules.queueBacklogFor
    case WorkersOffline => rules.workersOfflineFor
    case LeaseReclaimErrors => rules.leaseReclaimErrorsFor
    case CompleteErrorRate => rules.completeErrorRateFor
    case DBPoolNearExhaustion => rules.dbPoolExhaustionFor
  }

  function RecoveryOf(rules: Rules, rule: RuleName): int {
    if rule.DBPoolNearExhaustion? then rules.dbPoolRecoveryFor else rules.recoveryFor
  }

  /** How many seconds a rule waits before it fires, unless configured otherwise, and before it resolves. */
  ghost function DefaultSeconds(rule: RuleName): (int, int) {
    match rule
    case QueueBacklog => (10, 5)
    case WorkersOffline => (5, 5)
    case LeaseReclaimErrors => (1, 5)
    case CompleteErrorRate => (30, 5)
    case DBPoolNearExhaustion => (10, 10)
  }

  ghost function Given(rules: Rules, rule: RuleName): (int, int) {
    match rule
    case QueueBacklog => (rules.queueBacklogFor, rules.recoveryFor)
    case WorkersOffline => (rules.workersOfflineFor, rules.recoveryFor)
    case LeaseReclaimErrors => (rules.leaseReclaimErrorsFor, rules.recoveryFor)
    case CompleteErrorRate => (rules.completeErrorRateFor, rules.recoveryFor)
    case DBPoolNearExhaustion => (rules.dbPoolExhaustionFor, rules.dbPoolRecoveryFor)
  }

  /** Each rule goes by its own configured times where they are positive, and by its defaults otherwise. */
  lemma CompletedExactly(given: Rules, rule: RuleName)
    ensures var (d, r), (seconds, recovery) := Given(given, rule), DefaultSeconds(rule);
      && DurationOf(Completed(given), rule) == (if d > 0 then d else seconds * NANOS_PER_SECOND)
      && RecoveryOf(Completed(given), rule) == (if r > 0 then r else recovery * NANOS_PER_SECOND)
  {
  }

  // ---------- what a snapshot says about a rule ----------

  function Rate(part: int, whole: int): real requires whole > 0 { part as real / whole as real }

  predicate BadFor(rule: RuleName, s: Snapshot) {
    match rule
    case QueueBacklog => s.queueDepth > 0 && s.availableSlots == 0
    case WorkersOffline => s.queueDepth > 0 && s.onlineWorkers == 0
    case LeaseReclaimErrors => s.leaseReclaimErrors > 0
    case CompleteErrorRate => s.completeTotal >= 20 && Rate(s.completeErrors, s.completeTotal) > 0.05
    case DBPoolNearExhaustion => s.dbMax > 0 && Rate(s.dbInUse, s.dbMax) >= 0.8
  }

  predicate RecoveredFor(rule: RuleName, s: Snapshot) {
    match rule
    case QueueBacklog => s.queueDepth == 0 || s.availableSlots > 0
    case WorkersOffline => s.queueDepth == 0 || s.onlineWorkers > 0
    case LeaseReclaimErrors => s.leaseReclaimErrors == 0
    case CompleteErrorRate => s.completeTotal >= 20 && Rate(s.completeErrors, s.completeTotal) < 0.01
    case DBPoolNearExhaustion => s.dbMax > 0 && Rate(s.dbInUse, s.dbMax) < 0.7
  }

  predicate UnknownFor(rule: RuleName, s: Snapshot) {
    match rule
    case CompleteErrorRate => s.completeTotal < 20
    case DBPoolNearExhaustion => s.dbMax <= 0
    case _ => false
  }

  /** One rule's view of one snapshot. */
  datatype Sample = Sample(now: Time, bad: bool, recovered: bool, unknown: bool)
  {
    predicate Bad() { !unknown && bad }
    predicate Good() { !unknown && !bad && recovered }
  }

  function Observed(rule: RuleName, s: Snapshot, now: Time): (r: Sample)
    ensures r.bad ==> !r.recovered && !r.unknown
    ensures r.recovered ==> !r.unknown
  {
    Sample(now, BadFor(rule, s), RecoveredFor(rule, s), UnknownFor(rule, s))
  }

  /** What each rule warns of: the numbers as they are, without rates. */
  ghost predicate Troubled(rule: RuleName, s: Snapshot) {
    match rule
    case QueueBacklog => s.queueDepth > 0 && s.availableSlots == 0
    case WorkersOffline => s.queueDepth > 0 && s.onlineWorkers == 0
    case LeaseReclaimErrors => s.leaseReclaimErrors > 0
    case CompleteErrorRate => s.completeTotal >= 20 && 20 * s.completeErrors > s.completeTotal
    case DBPoolNearExhaustion => s.dbMax > 0 && 10 * s.dbInUse >= 8 * s.dbMax
  }

  ghost predicate Calm(rule: RuleName, s: Snapshot) {
    match rule
    case QueueBacklog => s.queueDepth == 0 || s.availableSlots > 0
    case WorkersOffline => s.queueDepth == 0 || s.onlineWorkers > 0
    case LeaseReclaimErrors => s.leaseReclaimErrors == 0
    case CompleteErrorRate => s.completeTotal >= 20 && 100 * s.completeErrors < s.completeTotal
    case DBPoolNearExhaustion => s.dbMax > 0 && 10 * s.dbInUse < 7 * s.dbMax
  }

  /** Numbers that say neither: too few completions for a rate, or no pool. */
  ghost predicate Insufficient(rule: RuleName, s: Snapshot) {
    (rule.CompleteErrorRate? && s.completeTotal < 20) || (rule.DBPoolNearExhaustion? && s.dbMax <= 0)
  }

  lemma RateCompared(part: int, whole: int, a: int, b: int)
    requires whole > 0 && b > 0
    ensures Rate(part, whole) > a as real / b as real <==> b * part > a * whole
    ensures Rate(part, whole) < a as real / b as real <==> b * part < a * whole
  {
    var p, w, x, y := part as real, whole as real, a as real, b as real;
    assert p / w > x / y <==> p * y > x * w;
    assert p / w < x / y <==> p * y < x * w;
    assert (b * part) as real == p * y && (a * whole) as real == x * w;
  }

  /** A sample is bad, recovered or unknown exactly by what the rule warns of. */
  lemma {:induction false} ObservedExactly(rule: RuleName, s: Snapshot, now: Time)
    ensures var x := Observed(rule, s, now);
      x.now == now && (x.bad <==> Troubled(rule, s)) && (x.recovered <==> Calm(rule, s)) && (x.unknown <==> Insufficient(rule, s))
  {
    if rule.CompleteErrorRate? && s.completeTotal >= 20 {
      RateCompared(s.completeErrors, s.completeTotal, 5, 100);
      RateCompared(s.completeErrors, s.completeTotal, 1, 100);
    } else if rule.DBPoolNearExhaustion? && s.dbMax > 0 {
      RateCompared(s.dbInUse, s.dbMax, 8, 10);
      RateCompared(s.dbInUse, s.dbMax, 7, 10);
    }
  }

  // ---------- one rule ----------

  datatype RuleState = RuleState(conditionSince: Option<Time>, recoverySince: Option<Time>, firing: bool, unknown: bool)

  const QUIET := RuleState(None, None, false, false)

  function Or(since: Option<Time>, now: Time): Time { if since.Some? then since.value else now }

  /** The rule's next state, and the event it emits. */
  function Advance(state: RuleState, x: Sample, duration: int, recovery: int): (RuleState, Option<Status>) {
    if x.unknown then
      (RuleState(None, None, state.firing, true), if state.firing && !state.unknown then Some(Unknown) else None)
    else if x.bad then
      var since := Or(state.conditionSince, x.now);
      var fires := !state.firing && x.now - since >= duration;
      (RuleState(Some(since), None, state.firing || fires, false), if fires then Some(Firing(since)) else None)
    else if !state.firing then (RuleState(None, state.recoverySince, false, false), None)
    else if !x.recovered then (RuleState(None, None, true, false), None)
    else
      var since := Or(state.recoverySince, x.now);
      if x.now - since >= recovery then (RuleState(None, None, false, false), Some(Resolved(x.now)))
      else (RuleState(None, Some(since), true, false), None)
  }

  function StateAt(xs: seq<Sample>, k: nat, duration: int, recovery: int): RuleState
    requires k <= |xs|
  {
    if k == 0 then QUIET else Advance(StateAt(xs, k - 1, duration, recovery), xs[k - 1], duration, recovery).0
  }

  /** The event at sample `k`. */
  function EventAt(xs: seq<Sample>, k: nat, duration: int, recovery: int): Option<Status>
    requires k < |xs|
  {
    Advance(StateAt(xs, k, duration, recovery), xs[k], duration, recovery).1
  }

  // ---------- the law of a trace ----------

  /** `j` is where the stretch of bad samples that ends with `k` begins. */
  ghost predicate BadStretch(xs: seq<Sample>, j: nat, k: nat) {
    && j <= k < |xs| && (forall m :: j <= m <= k ==> xs[m].Bad()) && (j > 0 ==> !xs[j - 1].Bad())
  }

  ghost predicate GoodStretch(xs: seq<Sample>, j: nat, k: nat) {
    && j <= k < |xs| && (forall m :: j <= m <= k ==> xs[m].Good()) && (j > 0 ==> !xs[j - 1].Good())
  }

  /** The state says since when the samples have been bad, and, while the alert is on, since when good. */
  ghost predicate StateTells(xs: seq<Sample>, k: nat, state: RuleState)
    requires k <= |xs|
  {
    && (state.unknown <==> k > 0 && xs[k - 1].unknown)
    && (state.conditionSince.Some? <==> k > 0 && xs[k - 1].Bad())
    && (state.recoverySince.Some? <==> k > 0 && xs[k - 1].Good() && state.firing)
    && (state.conditionSince.Some? ==> exists j: nat :: BadStretch(xs, j, k - 1) && state.conditionSince == Some(xs[j].now))
    && (state.recoverySince.Some? ==> exists j: nat :: GoodStretch(xs, j, k - 1) && state.recoverySince == Some(xs[j].now))
    && (state.firing && k > 0 && xs[k - 1].Good() ==> state.recoverySince.Some?)
  }

  lemma {:induction false} StateTold(xs: seq<Sample>, k: nat, duration: int, recovery: int)
    requires k <= |xs|
    ensures StateTells(xs, k, StateAt(xs, k, duration, recovery))
  {
    if k > 0 {
      StateTold(xs, k - 1, duration, recovery);
      var state := StateAt(xs, k - 1, duration, recovery);
      var x := xs[k - 1];
      if x.Bad() {
        if state.conditionSince.Some? {
          var j: nat :| BadStretch(xs, j, k - 2) && state.conditionSince == Some(xs[j].now);
          assert BadStretch(xs, j, k - 1);
        } else {
          assert BadStretch(xs, k - 1, k - 1);
        }
      } else if x.Good() && state.firing {
        if state.recoverySince.Some? {
          var j: nat :| GoodStretch(xs, j, k - 2) && state.recoverySince == Some(xs[j].now);
          assert GoodStretch(xs, j, k - 1);
        } else {
          assert GoodStretch(xs, k - 1, k - 1);
        }
      }
    }
  }

  lemma OneStretch(xs: seq<Sample>, i: nat, j: nat, k: nat)
    ensures BadStretch(xs, i, k) && BadStretch(xs, j, k) ==> i == j
    ensures GoodStretch(xs, i, k) && GoodStretch(xs, j, k) ==> i == j
  {
    if i < j <= k { assert i <= j - 1 <= k; } else if j < i <= k { assert j <= i - 1 <= k; }
  }

  /** The alert is on before sample `k`. */
  predicate On(xs: seq<Sample>, k: nat, duration: int, recovery: int) requires k <= |xs| {
    StateAt(xs, k, duration, recovery).firing
  }

  /** A rule fires at exactly the samples where the alert is off and the stretch of bad samples has lasted its duration;
      the event names the start of that stretch. */
  lemma {:induction false} FiresExactly(xs: seq<Sample>, j: nat, k: nat, duration: int, recovery: int)
    requires BadStretch(xs, j, k)
    ensures EventAt(xs, k, duration, recovery) ==
      (if !On(xs, k, duration, recovery) && xs[k].now - xs[j].now >= duration then Some(Firing(xs[j].now)) else None)
  {
    StateTold(xs, k, duration, recovery);
    var state := StateAt(xs, k, duration, recovery);
    if state.conditionSince.Some? {
      var i: nat :| BadStretch(xs, i, k - 1) && state.conditionSince == Some(xs[i].now);
      assert BadStretch(xs, i, k);
      OneStretch(xs, i, j, k);
    }
  }

  /** It resolves at exactly the samples where the alert is on and the stretch of good samples has lasted the recovery
      time. */
  lemma {:induction false} ResolvesExactly(xs: seq<Sample>, j: nat, k: nat, duration: int, recovery: int)
    requires GoodStretch(xs, j, k)
    ensures EventAt(xs, k, duration, recovery) ==
      (if On(xs, k, duration, recovery) && xs[k].now - xs[j].now >= recovery then Some(Resolved(xs[k].now)) else None)
  {
    StateTold(xs, k, duration, recovery);
    var state := StateAt(xs, k, duration, recovery);
    if state.firing {
      if state.recoverySince.Some? {
        var i: nat :| GoodStretch(xs, i, k - 1) && state.recoverySince == Some(xs[i].now);
        assert GoodStretch(xs, i, k);
        OneStretch(xs, i, j, k);
      } else {
        assert k > 0 ==> !xs[k - 1].Good();
        assert j == k;
      }
    }
  }

  /** It reports missing data at exactly the first sample of a stretch of insufficient ones, if the alert is on then. */
  lemma {:induction false} UnknownExactly(xs: seq<Sample>, k: nat, duration: int, recovery: int)
    requires k < |xs|
    ensures EventAt(xs, k, duration, recovery) == Some(Unknown) <==>
      xs[k].unknown && (k > 0 ==> !xs[k - 1].unknown) && On(xs, k, duration, recovery)
  {
    StateTold(xs, k, duration, recovery);
  }

  /** Samples that are neither bad nor good nor the start of missing data cause no event and leave the alert as it is. */
  lemma {:induction false} BetweenThresholds(xs: seq<Sample>, k: nat, duration: int, recovery: int)
    requires k < |xs| && !xs[k].Bad() && !xs[k].Good()
    ensures On(xs, k + 1, duration, recovery) <==> On(xs, k, duration, recovery)
    ensures EventAt(xs, k, duration, recovery) == None || EventAt(xs, k, duration, recovery) == Some(Unknown)
  {
  }

  /** The firing and resolved events among the first `k` samples, oldest first. */
  function Lifecycle(xs: seq<Sample>, k: nat, duration: int, recovery: int): seq<Status>
    requires k <= |xs|
  {
    if k == 0 then []
    else
      var event := EventAt(xs, k - 1, duration, recovery);
      Lifecycle(xs, k - 1, duration, recovery) + (if event.Some? && !event.value.Unknown? then [event.value] else [])
  }

  /** Firing and resolved strictly alternate, starting with firing; the alert is on exactly after a firing. */
  lemma {:induction false} EventsAlternate(xs: seq<Sample>, k: nat, duration: int, recovery: int)
    requires k <= |xs|
    ensures var events := Lifecycle(xs, k, duration, recovery);
      && (forall n :: 0 <= n < |events| ==> (events[n].Firing? <==> n % 2 == 0) && (events[n].Resolved? <==> n % 2 == 1))
      && (On(xs, k, duration, recovery) <==> |events| % 2 == 1)
  {
    if k > 0 { EventsAlternate(xs, k - 1, duration, recovery); }
  }

  ghost predicate TimeOrdered(xs: seq<Sample>) {
    forall j, k :: 0 <= j <= k < |xs| ==> xs[j].now <= xs[k].now
  }

  ghost predicate FiresAt(xs: seq<Sample>, k: nat, duration: int, recovery: int) {
    k < |xs| && EventAt(xs, k, duration, recovery).Some? && EventAt(xs, k, duration, recovery).value.Firing?
  }

  ghost predicate ResolvesAt(xs: seq<Sample>, k: nat, duration: int, recovery: int) {
    k < |xs| && EventAt(xs, k, duration, recovery).Some? && EventAt(xs, k, duration, recovery).value.Resolved?
  }

  /** What a firing says: every sample from its start on was bad, and that lasted the rule's duration. */
  lemma {:induction false} FiringMeans(xs: seq<Sample>, k: nat, duration: int, recovery: int) returns (j: nat)
    requires FiresAt(xs, k, duration, recovery)
    ensures BadStretch(xs, j, k) && EventAt(xs, k, duration, recovery) == Some(Firing(xs[j].now))
    ensures xs[k].now - xs[j].now >= duration
  {
    j := StretchStart(xs, k);
    FiresExactly(xs, j, k, duration, recovery);
  }

  lemma {:induction false} StretchStart(xs: seq<Sample>, k: nat) returns (j: nat)
    requires k < |xs|
    ensures xs[k].Bad() ==> BadStretch(xs, j, k)
    ensures xs[k].Good() ==> GoodStretch(xs, j, k)
  {
    j := k;
    if k > 0 && ((xs[k].Bad() && xs[k - 1].Bad()) || (xs[k].Good() && xs[k - 1].Good())) {
      j := StretchStart(xs, k - 1);
    }
  }

  /** What a resolve says: every sample of a stretch as long as the recovery time was good. */
  lemma {:induction false} ResolvingMeans(xs: seq<Sample>, k: nat, duration: int, recovery: int) returns (j: nat)
    requires ResolvesAt(xs, k, duration, recovery)
    ensures GoodStretch(xs, j, k) && EventAt(xs, k, duration, recovery) == Some(Resolved(xs[k].now))
    ensures xs[k].now - xs[j].now >= recovery
  {
    j := StretchStart(xs, k);
    ResolvesExactly(xs, j, k, duration, recovery);
  }

  /** While the alert stays on it has not been resolved. */
  lemma {:induction false} OnUntilResolved(xs: seq<Sample>, f: nat, k: nat, duration: int, recovery: int)
    requires f < k <= |xs| && FiresAt(xs, f, duration, recovery)
    requires forall m: nat :: f < m < k ==> !ResolvesAt(xs, m, duration, recovery)
    ensures On(xs, k, duration, recovery)
  {
    if f + 1 < k {
      OnUntilResolved(xs, f, k - 1, duration, recovery);
      assert !ResolvesAt(xs, k - 1, duration, recovery);
    }
  }

  /** No flapping: two firings of one rule are at least its recovery time and its duration apart. */
  lemma {:induction false} FiringsAreApart(xs: seq<Sample>, f: nat, g: nat, duration: int, recovery: int)
    requires TimeOrdered(xs) && f < g && FiresAt(xs, f, duration, recovery) && FiresAt(xs, g, duration, recovery)
    ensures exists m: nat :: f < m < g && ResolvesAt(xs, m, duration, recovery)
    ensures xs[g].now - xs[f].now >= duration + recovery
  {
    if forall m: nat :: f < m < g ==> !ResolvesAt(xs, m, duration, recovery) {
      OnUntilResolved(xs, f, g, duration, recovery);
      assert false;
    }
    var m: nat :| f < m < g && ResolvesAt(xs, m, duration, recovery);
    var i := FiringMeans(xs, f, duration, recovery);
    var j := ResolvingMeans(xs, m, duration, recovery);
    var n := FiringMeans(xs, g, duration, recovery);
    assert xs[f].Bad() && xs[m].Good();
    assert f < j && m < n;
  }

  // ---------- the engine ----------

  const ALL_RULES: seq<RuleName> := [QueueBacklog, WorkersOffline, LeaseReclaimErrors, CompleteErrorRate, DBPoolNearExhaustion]

  function SamplesOf(rule: RuleName, snapshots: seq<(Snapshot, Time)>): (r: seq<Sample>)
    ensures |r| == |snapshots|
    ensures forall k :: 0 <= k < |r| ==> r[k] == Observed(rule, snapshots[k].0, snapshots[k].1)
  {
    if snapshots == [] then []
    else
      var last := snapshots[|snapshots| - 1];
      SamplesOf(rule, snapshots[..|snapshots| - 1]) + [Observed(rule, last.0, last.1)]
  }

  /** The state of a rule depends only on the samples before it. */
  lemma {:induction false} StateFromPrefix(xs: seq<Sample>, ys: seq<Sample>, k: nat, duration: int, recovery: int)
    requires k <= |xs| && k <= |ys| && xs[..k] == ys[..k]
    ensures StateAt(xs, k, duration, recovery) == StateAt(ys, k, duration, recovery)
  {
    if k > 0 {
      assert xs[..k - 1] == xs[..k][..k - 1] && ys[..k - 1] == ys[..k][..k - 1];
      StateFromPrefix(xs, ys, k - 1, duration, recovery);
      assert xs[k - 1] == xs[..k][k - 1] == ys[..k][k - 1] == ys[k - 1];
    }
  }

  /** The event of `rule` for the last of the snapshots. */
  function LastEvent(rule: RuleName, snapshots: seq<(Snapshot, Time)>, rules: Rules): Option<Status>
    requires |snapshots| > 0
  {
    EventAt(SamplesOf(rule, snapshots), |snapshots| - 1, DurationOf(rules, rule), RecoveryOf(rules, rule))
  }

  /** The events of the first `n` rules for the last of the snapshots, in the order of the rules. */
  function LastEvents(n: nat, snapshots: seq<(Snapshot, Time)>, rules: Rules): seq<Event>
    requires n <= |ALL_RULES| && |snapshots| > 0
  {
    if n == 0 then []
    else
      var event := LastEvent(ALL_RULES[n - 1], snapshots, rules);
      LastEvents(n - 1, snapshots, rules) + (if event.Some? then [Event(ALL_RULES[n - 1], event.value)] else [])
  }

  lemma {:induction false} NextSample(rule: RuleName, history: seq<(Snapshot, Time)>, snapshot: Snapshot, now: Time,
      duration: int, recovery: int)
    ensures var longer := history + [(snapshot, now)];
      Advance(StateAt(SamplesOf(rule, history), |history|, duration, recovery), Observed(rule, snapshot, now), duration,
        recovery) ==
        (StateAt(SamplesOf(rule, longer), |longer|, duration, recovery),
          EventAt(SamplesOf(rule, longer), |history|, duration, recovery))
  {
    var longer := history + [(snapshot, now)];
    assert longer[..|history|] == history;
    var xs, ys := SamplesOf(rule, history), SamplesOf(rule, longer);
    assert xs[..|history|] == ys[..|history|];
    StateFromPrefix(xs, ys, |history|, duration, recovery);
  }

  /** The checks of one rule in the order the engine makes them. */
  method AdvanceRule(before: RuleState, x: Sample, duration: int, recovery: int) returns (state: RuleState, event: Option<Status>)
    ensures (state, event) == Advance(before, x, duration, recovery)
  {
    state, event := before, None;
    if x.unknown {
      state := state.(conditionSince := None, recoverySince := None);
      if state.firing && !state.unknown { event := Some(Unknown); }
      state := state.(unknown := true);
      return;
    }
    state := state.(unknown := false);
    if x.bad {
      state := state.(recoverySince := None);
      if state.conditionSince.None? { state := state.(conditionSince := Some(x.now)); }
      if !state.firing && x.now - state.conditionSince.value >= duration {
        state := state.(firing := true);
        event := Some(Firing(state.conditionSince.value));
      }
      return;
    }
    state := state.(conditionSince := None);
    if !state.firing { return; }
    if !x.recovered {
      state := state.(recoverySince := None);
      return;
    }
    if state.recoverySince.None? { state := state.(recoverySince := Some(x.now)); }
    if x.now - state.recoverySince.value >= recovery {
      state := state.(firing := false, recoverySince := None);
      event := Some(Resolved(x.now));
    }
  }

  /** The state kept for `rule` is that after the given snapshots. */
  ghost predicate UpTo(active: map<RuleName, RuleState>, rule: RuleName, snapshots: seq<(Snapshot, Time)>, rules: Rules) {
    (if rule in active then active[rule] else QUIET)
      == StateAt(SamplesOf(rule, snapshots), |snapshots|, DurationOf(rules, rule), RecoveryOf(rules, rule))
  }

  lemma StillUpTo(before: map<RuleName, RuleState>, after: map<RuleName, RuleState>, rule: RuleName,
      snapshots: seq<(Snapshot, Time)>, rules: Rules)
    requires rule in before <==> rule in after
    requires rule in before ==> after[rule] == before[rule]
    ensures UpTo(before, rule, snapshots, rules) ==> UpTo(after, rule, snapshots, rules)
  {
  }

  class Engine {
    const rules: Rules
    var active: map<RuleName, RuleState>
    /** All snapshots evaluated so far, each with the time it was given. */
    ghost var history: seq<(Snapshot, Time)>

    ghost predicate Valid()
      reads this
    {
      forall rule :: UpTo(active, rule, history, rules)
    }

    constructor (given: Rules)
      ensures Valid() && history == [] && rules == Completed(given)
    {
      rules, active, history := Completed(given), map[], [];
    }

    /** One check of one rule, for a snapshot seen at `now`. */
    method CheckRule(rule: RuleName, snapshot: Snapshot, now: Time) returns (event: Option<Status>)
      requires UpTo(active, rule, history, rules)
      modifies this`active
      ensures UpTo(active, rule, history + [(snapshot, now)], rules)
      ensures event == LastEvent(rule, history + [(snapshot, now)], rules)
      ensures forall other :: other != rule ==> (other in active <==> other in old(active))
      ensures forall other :: other != rule && other in active ==> active[other] == old(active)[other]
    {
      NextSample(rule, history, snapshot, now, DurationOf(rules, rule), RecoveryOf(rules, rule));
      var state := if rule in active then active[rule] else QUIET;
      state, event := AdvanceRule(state, Observed(rule, snapshot, now), DurationOf(rules, rule), RecoveryOf(rules, rule));
      active := active[rule := state];
    }

    /** The events of one snapshot are those of the trace law for every rule; `clock` stands in for a missing time. */
    method Evaluate(snapshot: Snapshot, clock: Time) returns (events: seq<Event>)
      requires Valid()
      modifies this
      ensures Valid()
      ensures history == old(history) + [(snapshot, if snapshot.now.Some? then snapshot.now.value else clock)]
      ensures events == LastEvents(|ALL_RULES|, history, rules)
    {
      hide UpTo, LastEvent, EventAt, SamplesOf;
      var now := if snapshot.now.Some? then snapshot.now.value else clock;
      ghost var longer := history + [(snapshot, now)];
      events := [];
      for n := 0 to |ALL_RULES|
        invariant history == old(history)
        invariant forall m :: 0 <= m < n ==> UpTo(active, ALL_RULES[m], longer, rules)
        invariant forall m :: n <= m < |ALL_RULES| ==> UpTo(active, ALL_RULES[m], history, rules)
        invariant events == LastEvents(n, longer, rules)
      {
        ghost var was := active;
        var event := CheckRule(ALL_RULES[n], snapshot, now);
        forall m | 0 <= m < |ALL_RULES| && m != n
          ensures UpTo(was, ALL_RULES[m], history, rules) ==> UpTo(active, ALL_RULES[m], history, rules)
          ensures UpTo(was, ALL_RULES[m], longer, rules) ==> UpTo(active, ALL_RULES[m], longer, rules)
        {
          RulesDiffer(m, n);
          StillUpTo(was, active, ALL_RULES[m], history, rules);
          StillUpTo(was, active, ALL_RULES[m], longer, rules);
        }
        if event.Some? { events := events + [Event(ALL_RULES[n], event.value)]; }
      }
      history := longer;
      forall rule ensures UpTo(active, rule, history, rules) {
        var n := RulePosition(rule);
        assert UpTo(active, ALL_RULES[n], longer, rules);
      }
    }
  }

  lemma RulesDiffer(m: nat, n: nat)
    requires m < |ALL_RULES| && n < |ALL_RULES| && m != n
    ensures ALL_RULES[m] != ALL_RULES[n]
  {
  }

  lemma RulePosition(rule: RuleName) returns (n: nat)
    ensures n < |ALL_RULES| && ALL_RULES[n] == rule
  {
    n := match rule
      case QueueBacklog => 0
      case WorkersOffline => 1
      case LeaseReclaimErrors => 2
      case CompleteErrorRate => 3
      case DBPoolNearExhaustion => 4;
  }
}
