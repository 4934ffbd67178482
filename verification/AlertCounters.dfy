/** The rolling counters behind the alerts: 64 one-second buckets, reused modulo 64, against the full log of recorded
    operations. */
module AlertCounters {
  import opened Domain

  const BUCKETS: nat := 64
  const NANOS_PER_SECOND: int := 1_000_000_000

  function SecondOf(t: Time): int { t / NANOS_PER_SECOND }

  /** The bucket of a second; never negative, for times before 1970 too. */
  function SlotOf(second: int): (slot: nat)
    ensures slot < BUCKETS
  {
    second % BUCKETS
  }

  /** The operations that count, and the three counters they go into. */
  datatype Operation = CompleteSucceeded | CompleteFailed | ReapFailed
  datatype Counter = CompleteTotal | CompleteErrors | LeaseReclaimErrors

  predicate CountsFor(op: Operation, m: Counter) {
    match m
    case CompleteTotal => op.CompleteSucceeded? || op.CompleteFailed?
    case CompleteErrors => op.CompleteFailed?
    case LeaseReclaimErrors => op.ReapFailed?
  }

  datatype Entry = Entry(second: int, op: Operation)
  {
    function Slot(): nat { SlotOf(second) }
    predicate Within(low: int, high: int) { low <= second <= high }
  }

  datatype Bucket = Bucket(second: int, completeTotal: int, completeErrors: int, leaseReclaimErrors: int)
  {
    function Of(m: Counter): int {
      match m
      case CompleteTotal => completeTotal
      case CompleteErrors => completeErrors
      case LeaseReclaimErrors => leaseReclaimErrors
    }
  }

  /** The operation and outcome of a record, if they are counted at all. */
  function Counted(operation: string, outcome: string): Option<Operation> {
    if operation == "complete" then Some(if outcome == "error" then CompleteFailed else CompleteSucceeded)
    else if operation == "lease_reap" && outcome == "error" then Some(ReapFailed)
    else None
  }

  /** Entry `k` was recorded in the window and goes into counter `m`. */
  predicate Matches(log: seq<Entry>, k: nat, low: int, high: int, m: Counter)
    requires k < |log|
  {
    log[k].Within(low, high) && CountsFor(log[k].op, m)
  }

  /** The count over the first `n` entries of the complete history. */
  function Tally(log: seq<Entry>, n: nat, low: int, high: int, m: Counter): nat
    requires n <= |log|
  {
    if n == 0 then 0 else Tally(log, n - 1, low, high, m) + (if Matches(log, n - 1, low, high, m) then 1 else 0)
  }

  /** A later entry has taken the bucket of entry `k` for another second. */
  ghost predicate Overwritten(log: seq<Entry>, k: nat)
    requires k < |log|
  {
    exists j :: k < j < |log| && log[j].Slot() == log[k].Slot() && log[j].second != log[k].second
  }

  /** Entry `k` matches and still stands in its bucket. */
  ghost predicate Stands(log: seq<Entry>, k: nat, low: int, high: int, m: Counter)
    requires k < |log|
  {
    Matches(log, k, low, high, m) && !Overwritten(log, k)
  }

  /** The standing entries among the first `n`, over all slots. */
  ghost function Standing(log: seq<Entry>, n: nat, low: int, high: int, m: Counter): nat
    requires n <= |log|
  {
    if n == 0 then 0 else Standing(log, n - 1, low, high, m) + (if Stands(log, n - 1, low, high, m) then 1 else 0)
  }

  /** The standing entries of one slot. */
  ghost function StandingIn(slot: nat, log: seq<Entry>, n: nat, low: int, high: int, m: Counter): nat
    requires n <= |log|
  {
    if n == 0 then 0
    else
      StandingIn(slot, log, n - 1, low, high, m)
      + (if log[n - 1].Slot() == slot && Stands(log, n - 1, low, high, m) then 1 else 0)
  }

  // ---------- one more entry ----------

  /** It overwrites exactly the entries of its bucket for other seconds. */
  lemma OverwrittenNext(log: seq<Entry>, e: Entry, k: nat)
    requires k < |log|
    ensures Overwritten(log + [e], k) <==> Overwritten(log, k) || (e.Slot() == log[k].Slot() && e.second != log[k].second)
  {
    hide SlotOf;
    var longer := log + [e];
    if Overwritten(log, k) {
      var j :| k < j < |log| && log[j].Slot() == log[k].Slot() && log[j].second != log[k].second;
      assert longer[j].Slot() == longer[k].Slot();
    }
    if e.Slot() == log[k].Slot() && e.second != log[k].second {
      assert longer[|log|].Slot() == longer[k].Slot();
    }
  }

  lemma {:induction false} OtherSlotsStand(slot: nat, log: seq<Entry>, e: Entry, n: nat, low: int, high: int, m: Counter)
    requires n <= |log|
    requires e.Slot() == slot ==>
      forall k: nat :: k < n && log[k].Slot() == slot && Stands(log, k, low, high, m) ==> log[k].second == e.second
    ensures StandingIn(slot, log + [e], n, low, high, m) == StandingIn(slot, log, n, low, high, m)
  {
    hide SlotOf, Overwritten;
    if n > 0 {
      OtherSlotsStand(slot, log, e, n - 1, low, high, m);
      OverwrittenNext(log, e, n - 1);
    }
  }

  lemma {:induction false} SlotIsCleared(slot: nat, log: seq<Entry>, e: Entry, n: nat, low: int, high: int, m: Counter)
    requires n <= |log| && e.Slot() == slot
    requires forall k: nat :: k < n && log[k].Slot() == slot && Stands(log, k, low, high, m) ==> log[k].second != e.second
    ensures StandingIn(slot, log + [e], n, low, high, m) == 0
  {
    hide SlotOf, Overwritten;
    if n > 0 {
      SlotIsCleared(slot, log, e, n - 1, low, high, m);
      OverwrittenNext(log, e, n - 1);
    }
  }

  // ---------- a bucket holds what stands in it ----------

  /** For every window, `b` holds what stands in `slot`; and what stands there is all from one second. */
  ghost predicate Holds(b: Bucket, slot: nat, log: seq<Entry>) {
    && (forall k: nat :: k < |log| && log[k].Slot() == slot && !Overwritten(log, k) ==> log[k].second == b.second)
    && forall low, high, m :: StandingIn(slot, log, |log|, low, high, m) == if low <= b.second <= high then b.Of(m) else 0
  }

  function Reset(b: Bucket, second: int): Bucket {
    if b.second != second then Bucket(second, 0, 0, 0) else b
  }

  function Incremented(b: Bucket, op: Operation): Bucket {
    match op
    case ReapFailed => b.(leaseReclaimErrors := b.leaseReclaimErrors + 1)
    case CompleteFailed => b.(completeTotal := b.completeTotal + 1, completeErrors := b.completeErrors + 1)
    case CompleteSucceeded => b.(completeTotal := b.completeTotal + 1)
  }

  lemma EmptyHolds(slot: nat)
    ensures Holds(Bucket(0, 0, 0, 0), slot, [])
  {
  }

  lemma {:induction false} RecordSecond(b: Bucket, slot: nat, log: seq<Entry>, e: Entry)
    requires Holds(b, slot, log)
    ensures var after := if e.Slot() == slot then e.second else b.second;
      forall k: nat :: k < |log| + 1 && (log + [e])[k].Slot() == slot && !Overwritten(log + [e], k) ==>
        (log + [e])[k].second == after
  {
    hide SlotOf, Overwritten, StandingIn;
    var longer := log + [e];
    var after := if e.Slot() == slot then e.second else b.second;
    forall k: nat | k < |longer| && longer[k].Slot() == slot && !Overwritten(longer, k) ensures longer[k].second == after {
      if k < |log| {
        assert longer[k] == log[k];
        OverwrittenNext(log, e, k);
      }
    }
  }

  lemma {:induction false} RecordWindow(b: Bucket, slot: nat, log: seq<Entry>, e: Entry, low: int, high: int, m: Counter)
    requires Holds(b, slot, log)
    ensures var after := if e.Slot() == slot then Incremented(Reset(b, e.second), e.op) else b;
      StandingIn(slot, log + [e], |log| + 1, low, high, m) == if low <= after.second <= high then after.Of(m) else 0
  {
    hide SlotOf, Overwritten;
    var longer := log + [e];
    assert !Overwritten(longer, |log|) by { LastStands(longer); }
    assert longer[|log|] == e;
    assert StandingIn(slot, log, |log|, low, high, m) == if low <= b.second <= high then b.Of(m) else 0;
    if e.Slot() == slot && b.second != e.second {
      SlotIsCleared(slot, log, e, |log|, low, high, m);
    } else {
      OtherSlotsStand(slot, log, e, |log|, low, high, m);
    }
  }

  lemma LastStands(log: seq<Entry>)
    requires log != []
    ensures !Overwritten(log, |log| - 1)
  {
  }

  /** Recording keeps every bucket true to the log. */
  lemma {:induction false} RecordKeepsBucket(b: Bucket, slot: nat, log: seq<Entry>, e: Entry)
    requires Holds(b, slot, log)
    ensures Holds(if e.Slot() == slot then Incremented(Reset(b, e.second), e.op) else b, slot, log + [e])
  {
    hide SlotOf, Overwritten, StandingIn, Holds;
    var after := if e.Slot() == slot then Incremented(Reset(b, e.second), e.op) else b;
    var longer := log + [e];
    RecordSecond(b, slot, log, e);
    forall low, high, m ensures StandingIn(slot, longer, |longer|, low, high, m) == if low <= after.second <= high
      then after.Of(m) else 0 {
      RecordWindow(b, slot, log, e, low, high, m);
    }
    HoldsNow(after, slot, longer);
  }

  lemma HoldsNow(b: Bucket, slot: nat, log: seq<Entry>)
    requires forall k: nat :: k < |log| && log[k].Slot() == slot && !Overwritten(log, k) ==> log[k].second == b.second
    requires forall low, high, m :: StandingIn(slot, log, |log|, low, high, m) == if low <= b.second <= high then b.Of(m) else 0
    ensures Holds(b, slot, log)
  {
  }

  // ---------- all slots together ----------

  ghost function SumOfSlots(slots: nat, log: seq<Entry>, n: nat, low: int, high: int, m: Counter): nat
    requires n <= |log|
  {
    if slots == 0 then 0 else SumOfSlots(slots - 1, log, n, low, high, m) + StandingIn(slots - 1, log, n, low, high, m)
  }

  lemma {:induction false} EachEntryInOneSlot(slots: nat, log: seq<Entry>, n: nat, low: int, high: int, m: Counter)
    requires 0 < n <= |log|
    ensures SumOfSlots(slots, log, n, low, high, m) ==
      SumOfSlots(slots, log, n - 1, low, high, m)
        + (if log[n - 1].Slot() < slots && Stands(log, n - 1, low, high, m) then 1 else 0)
  {
    hide SlotOf, Stands;
    if slots > 0 { EachEntryInOneSlot(slots - 1, log, n, low, high, m); }
  }

  lemma {:induction false} NothingInSlots(slots: nat, log: seq<Entry>, low: int, high: int, m: Counter)
    ensures SumOfSlots(slots, log, 0, low, high, m) == 0
  {
    if slots > 0 { NothingInSlots(slots - 1, log, low, high, m); }
  }

  lemma {:induction false} SlotsCoverAll(log: seq<Entry>, n: nat, low: int, high: int, m: Counter)
    requires n <= |log|
    ensures SumOfSlots(BUCKETS, log, n, low, high, m) == Standing(log, n, low, high, m)
  {
    hide SlotOf, Stands, SumOfSlots;
    if n == 0 {
      NothingInSlots(BUCKETS, log, low, high, m);
    } else {
      SlotsCoverAll(log, n - 1, low, high, m);
      EachEntryInOneSlot(BUCKETS, log, n, low, high, m);
    }
  }

  // ---------- when that is the whole window ----------

  /** Some entry in the window that should be counted has been overwritten. */
  ghost predicate Loses(log: seq<Entry>, n: nat, low: int, high: int, m: Counter)
    requires n <= |log|
  {
    exists k: nat :: k < n && Matches(log, k, low, high, m) && Overwritten(log, k)
  }

  /** What stands is the count over the complete history exactly if nothing in the window was overwritten, and never
      more. */
  lemma {:induction false} ExactUnlessOverwritten(log: seq<Entry>, n: nat, low: int, high: int, m: Counter)
    requires n <= |log|
    ensures Standing(log, n, low, high, m) <= Tally(log, n, low, high, m)
    ensures Standing(log, n, low, high, m) == Tally(log, n, low, high, m) <==> !Loses(log, n, low, high, m)
  {
    hide Overwritten, Matches;
    if n > 0 { ExactUnlessOverwritten(log, n - 1, low, high, m); }
  }

  /** The entries were recorded in the order of time, none of them after `high`. */
  ghost predicate Ordered(log: seq<Entry>, high: int) {
    forall j, k :: 0 <= j <= k < |log| ==> log[j].second <= log[k].second <= high
  }

  /** When times are recorded in order and the query is not earlier than the last of them, a window that reaches back at
      most 63 whole seconds loses nothing, although the 64 buckets are reused. */
  lemma {:induction false} ShortWindowsLoseNothing(log: seq<Entry>, low: int, high: int, m: Counter)
    requires Ordered(log, high) && high - low < BUCKETS
    ensures !Loses(log, |log|, low, high, m)
  {
    hide SlotOf;
    forall k: nat | k < |log| && Matches(log, k, low, high, m) ensures !Overwritten(log, k) {
      forall j | k < j < |log| && log[j].second != log[k].second ensures log[j].Slot() != log[k].Slot() {
        SlotsDiffer(log[k].second, log[j].second);
      }
    }
  }

  lemma SlotsDiffer(a: int, b: int)
    requires 0 < b - a < BUCKETS
    ensures SlotOf(a) != SlotOf(b)
  {
    assert a == a / BUCKETS * BUCKETS + a % BUCKETS && b == b / BUCKETS * BUCKETS + b % BUCKETS;
  }

  /** A longer window is not cut to the last 64 seconds: the operation of a bucket nobody has reused since is still
      counted, however old it is. */
  lemma LongWindowsAreNotCut(e: Entry, low: int, high: int)
    requires low <= e.second <= high - (BUCKETS as int) && e.op.CompleteSucceeded?
    ensures Standing([e], 1, low, high, CompleteTotal) == 1
    ensures Tally([e], 1, high - (BUCKETS as int) + 1, high, CompleteTotal) == 0
  {
    LastStands([e]);
    assert Stands([e], 0, low, high, CompleteTotal);
    assert Standing([e], 0, low, high, CompleteTotal) == 0;
    assert Tally([e], 0, high - (BUCKETS as int) + 1, high, CompleteTotal) == 0;
  }

  /** And it loses operations too: of two that are 64 seconds apart only the later is counted. */
  lemma LongWindowsLose(a: Entry, b: Entry, low: int, high: int)
    requires low <= a.second && b.second == a.second + BUCKETS && b.second <= high && a.op.CompleteSucceeded?
    ensures Standing([a, b], 2, low, high, CompleteTotal) < Tally([a, b], 2, low, high, CompleteTotal)
  {
    var log := [a, b];
    assert log[1].Slot() == log[0].Slot();
    assert Matches(log, 0, low, high, CompleteTotal) && Overwritten(log, 0);
    ExactUnlessOverwritten(log, 2, low, high, CompleteTotal);
  }

  /** A window is the sum of its older and its newer part. */
  lemma {:induction false} WindowSplits(log: seq<Entry>, n: nat, low: int, cut: int, high: int, m: Counter)
    requires n <= |log| && low <= cut <= high + 1
    ensures Standing(log, n, low, high, m) == Standing(log, n, low, cut - 1, m) + Standing(log, n, cut, high, m)
  {
    hide Overwritten;
    if n > 0 { WindowSplits(log, n - 1, low, cut, high, m); }
  }

  ghost predicate NoneStands(log: seq<Entry>, n: nat, low: int, high: int, m: Counter)
    requires n <= |log|
  {
    forall k: nat :: k < n ==> !Stands(log, k, low, high, m)
  }

  lemma {:induction false} NoneStanding(log: seq<Entry>, n: nat, low: int, high: int, m: Counter)
    requires n <= |log|
    ensures Standing(log, n, low, high, m) == 0 <==> NoneStands(log, n, low, high, m)
  {
    hide Stands;
    if n > 0 { NoneStanding(log, n - 1, low, high, m); }
  }

  /** A window of 64 seconds or more is limited to the last 64 exactly if no older entry of the window still stands in its
      bucket. */
  lemma {:induction false} LimitedExactly(log: seq<Entry>, low: int, high: int, m: Counter)
    requires Ordered(log, high) && low <= high - (BUCKETS as int)
    ensures Standing(log, |log|, low, high, m) == Tally(log, |log|, high - (BUCKETS as int) + 1, high, m)
      <==> NoneStands(log, |log|, low, high - (BUCKETS as int), m)
  {
    var cut := high - (BUCKETS as int) + 1;
    WindowSplits(log, |log|, low, cut, high, m);
    ShortWindowsLoseNothing(log, cut, high, m);
    ExactUnlessOverwritten(log, |log|, cut, high, m);
    NoneStanding(log, |log|, low, cut - 1, m);
  }

  /** On every log in order up to `high`, every counter gives the count over the complete history from `low` on. */
  ghost predicate AlwaysComplete(low: int, high: int) {
    forall log, m :: Ordered(log, high) ==> Standing(log, |log|, low, high, m) == Tally(log, |log|, low, high, m)
  }

  /** On every log in order up to `high`, every counter gives the count of the last 64 seconds of the window. */
  ghost predicate AlwaysLimited(low: int, high: int) {
    forall log, m :: Ordered(log, high) ==>
      Standing(log, |log|, low, high, m) ==
        Tally(log, |log|, if low <= high - (BUCKETS as int) then high - (BUCKETS as int) + 1 else low, high, m)
  }

  /** What a caller can rely on without knowing the log: a window is counted completely exactly if it reaches back fewer
      than 64 whole seconds, and it is cut to the last 64 seconds, as the comment says, exactly in the same case, where
      there is nothing to cut. */
  lemma {:induction false} WindowsExactly(low: int, high: int)
    requires low <= high
    ensures AlwaysComplete(low, high) <==> high - low < BUCKETS
    ensures AlwaysLimited(low, high) <==> high - low < BUCKETS
  {
    if high - low < BUCKETS {
      forall log, m | Ordered(log, high) ensures Standing(log, |log|, low, high, m) == Tally(log, |log|, low, high, m) {
        ShortWindowsLoseNothing(log, low, high, m);
        ExactUnlessOverwritten(log, |log|, low, high, m);
      }
    } else {
      var a, b := Entry(low, CompleteSucceeded), Entry(low + (BUCKETS as int), CompleteSucceeded);
      LongWindowsLose(a, b, low, high);
      assert Ordered([a, b], high);
      LongWindowsAreNotCut(a, low, high);
      assert Ordered([a], high);
    }
  }

  // ---------- records ----------

  /** Everything the metrics are told of: the operation, its outcome and when. */
  datatype Record = Record(operation: string, outcome: string, at: Time)

  /** What a record adds to a counter. */
  ghost predicate Adds(r: Record, m: Counter) {
    match m
    case CompleteTotal => r.operation == "complete"
    case CompleteErrors => r.operation == "complete" && r.outcome == "error"
    case LeaseReclaimErrors => r.operation == "lease_reap" && r.outcome == "error"
  }

  /** How many of the records of a range of seconds add to the counter. */
  ghost function Told(records: seq<Record>, low: int, high: int, m: Counter): nat {
    if records == [] then 0
    else
      var r := records[|records| - 1];
      Told(records[..|records| - 1], low, high, m)
      + (if low <= r.at / NANOS_PER_SECOND <= high && Adds(r, m) then 1 else 0)
  }

  /** The records that are counted. */
  ghost function EntriesOf(records: seq<Record>): seq<Entry> {
    if records == [] then []
    else
      var r := records[|records| - 1];
      EntriesOf(records[..|records| - 1])
      + (if Counted(r.operation, r.outcome).Some? then [Entry(SecondOf(r.at), Counted(r.operation, r.outcome).value)] else [])
  }

  lemma {:induction false} TallyPrefix(log: seq<Entry>, e: Entry, n: nat, low: int, high: int, m: Counter)
    requires n <= |log|
    ensures Tally(log + [e], n, low, high, m) == Tally(log, n, low, high, m)
  {
    if n > 0 { TallyPrefix(log, e, n - 1, low, high, m); }
  }

  /** The count over the log is that over the records: nothing else is counted, and nothing twice. */
  lemma {:induction false} TallyOfRecords(records: seq<Record>, low: int, high: int, m: Counter)
    ensures Tally(EntriesOf(records), |EntriesOf(records)|, low, high, m) == Told(records, low, high, m)
  {
    if records != [] {
      var r := records[|records| - 1];
      var before := EntriesOf(records[..|records| - 1]);
      TallyOfRecords(records[..|records| - 1], low, high, m);
      if Counted(r.operation, r.outcome).Some? {
        var e := Entry(SecondOf(r.at), Counted(r.operation, r.outcome).value);
        TallyPrefix(before, e, |before|, low, high, m);
        assert EntriesOf(records) == before + [e];
      } else {
        assert EntriesOf(records) == before;
      }
    }
  }

  // ---------- the metrics object ----------

  class Metrics {
    const alertBuckets: array<Bucket>
    /** Everything that was ever recorded, and what of it is counted. */
    ghost var records: seq<Record>
    ghost var log: seq<Entry>

    ghost predicate Valid()
      reads this, alertBuckets
    {
      log == EntriesOf(records) && alertBuckets.Length == BUCKETS && forall i: nat :: i < BUCKETS ==>
        Holds(alertBuckets[i], i, log)
    }

    constructor ()
      ensures Valid() && records == [] && log == [] && fresh(alertBuckets)
    {
      alertBuckets := new Bucket[BUCKETS](_ => Bucket(0, 0, 0, 0));
      records, log := [], [];
      new;
      forall i: nat | i < BUCKETS ensures Holds(alertBuckets[i], i, log) {
        EmptyHolds(i);
      }
    }

    method RecordAlertCounter(operation: string, outcome: string, now: Time)
      requires Valid()
      modifies this, alertBuckets
      ensures Valid() && records == old(records) + [Record(operation, outcome, now)]
    {
      hide Holds, SlotOf, SecondOf;
      ghost var r := Record(operation, outcome, now);
      assert (records + [r])[..|records|] == records;
      records := records + [r];
      if operation != "complete" && !(operation == "lease_reap" && outcome == "error") { return; }
      var second := SecondOf(now);
      var index := SlotOf(second);
      ghost var before := alertBuckets[..];
      var bucket := alertBuckets[index];
      if bucket.second != second { bucket := Bucket(second, 0, 0, 0); }
      if operation == "complete" {
        bucket := bucket.(completeTotal := bucket.completeTotal + 1);
        if outcome == "error" { bucket := bucket.(completeErrors := bucket.completeErrors + 1); }
      } else {
        bucket := bucket.(leaseReclaimErrors := bucket.leaseReclaimErrors + 1);
      }
      alertBuckets[index] := bucket;
      ghost var e := Entry(second, Counted(operation, outcome).value);
      forall i: nat | i < BUCKETS ensures Holds(alertBuckets[i], i, log + [e]) {
        RecordKeepsBucket(before[i], i, log, e);
      }
      log := log + [e];
    }

    /** For every log, in whatever order the times came, and every window: exactly the operations in it that have not been
        overwritten, which is the count over the complete history unless one was. */
    method AlertCounters(now: Time, window: int) returns (completeTotal: int, completeErrors: int, leaseReclaimErrors: int)
      requires Valid()
      ensures window <= 0 ==> completeTotal == completeErrors == leaseReclaimErrors == 0
      ensures window > 0 ==>
        var counts, low, high := Bucket(0, completeTotal, completeErrors, leaseReclaimErrors), SecondOf(now - window),
          SecondOf(now);
        forall m :: counts.Of(m) == Standing(log, |log|, low, high, m)
          && (counts.Of(m) == Told(records, low, high, m) <==> !Loses(log, |log|, low, high, m))
    {
      hide SecondOf;
      completeTotal, completeErrors, leaseReclaimErrors := 0, 0, 0;
      if window <= 0 { return; }
      var cutoff := SecondOf(now - window);
      for i := 0 to alertBuckets.Length
        invariant forall m ::
          Bucket(0, completeTotal, completeErrors, leaseReclaimErrors).Of(m)
          == SumOfSlots(i, log, |log|, cutoff, SecondOf(now), m)
      {
        var bucket := alertBuckets[i];
        assert Holds(bucket, i, log);
        if bucket.second < cutoff || bucket.second > SecondOf(now) { continue; }
        completeTotal := completeTotal + bucket.completeTotal;
        completeErrors := completeErrors + bucket.completeErrors;
        leaseReclaimErrors := leaseReclaimErrors + bucket.leaseReclaimErrors;
      }
      forall m ensures Bucket(0, completeTotal, completeErrors, leaseReclaimErrors).Of(m) ==
        Standing(log, |log|, cutoff, SecondOf(now), m)
        ensures Standing(log, |log|, cutoff, SecondOf(now), m) == Tally(log, |log|, cutoff, SecondOf(now), m)
          <==> !Loses(log, |log|, cutoff, SecondOf(now), m)
        ensures Tally(log, |log|, cutoff, SecondOf(now), m) == Told(records, cutoff, SecondOf(now), m)
      {
        SlotsCoverAll(log, |log|, cutoff, SecondOf(now), m);
        ExactUnlessOverwritten(log, |log|, cutoff, SecondOf(now), m);
        TallyOfRecords(records, cutoff, SecondOf(now), m);
      }
    }
  }
}
