/** Row-level change sets: the difference of two snapshots, its application, and why they are inverse. */
module ChangeSets {
  import opened Domain

  datatype ChangeOperation = ChangeInsert | ChangeUpdate | ChangeOther(text: string)

  /** The row of one task without its attempts; `index` locates it in memory. */
  datatype TaskRunChange = TaskRunChange(run: RunID, index: int, task: TaskRun, remaining: int)

  datatype AttemptChange = AttemptChange(run: RunID, key: TaskKey, index: int, attempt: Attempt, operation: ChangeOperation)

  /** One atomic commit: made on revision `expected`, leading to revision `expected` + 1. */
  datatype ChangeSet = ChangeSet(
    run: RunID, expected: nat, row: Option<RunRow>,
    tasks: seq<TaskRunChange>, attempts: seq<AttemptChange>, events: seq<StateEvent>)

  datatype ChangeRule =
    | RunIDs | RowMissing | RowID | RowRevision | SnapshotShape
    | TaskRunIDs | TaskIndex | TaskTwice | TaskKeys | TaskEmbedsAttempts | NegativeRemaining
    | AttemptRunIDs | AttemptIndex | AttemptKeys | AttemptTwice | InsertNumber | UpdateNumber | UnknownOperation
    | EventSequence | LastSequence

  datatype ApplyError = RevisionConflict | InvalidChangeSet(rule: ChangeRule)

  datatype Applied = Ok(s: RunSnapshot) | Err(error: ApplyError) {
    predicate IsFailure() { Err? }
    function PropagateFailure(): Applied requires IsFailure() { this }
    function Extract(): RunSnapshot requires !IsFailure() { s }
  }

  // ---------- the difference ----------

  const NO_TASK := TaskRun("", TaskWaitingDependencies, [], None, None)

  predicate SameTaskRow(a: TaskRun, b: TaskRun) {
    a.key == b.key && a.status == b.status && a.readyAt == b.readyAt && a.finishedAt == b.finishedAt
  }

  function CountAt(counts: seq<int>, i: nat): int { if i < |counts| then counts[i] else 0 }

  /** Whether the row of task `i` differs; a task the old snapshot does not have counts as changed. */
  predicate TaskRowChanged(before: RunSnapshot, after: RunSnapshot, i: nat)
    requires i < |after.tasks|
  {
    || i >= |before.tasks| || !SameTaskRow(before.tasks[i], after.tasks[i])
    || CountAt(before.remaining, i) != CountAt(after.remaining, i)
  }

  function TaskRowChange(after: RunSnapshot, i: nat): TaskRunChange
    requires i < |after.tasks|
  {
    TaskRunChange(after.row.id, i, after.tasks[i].(attempts := []), CountAt(after.remaining, i))
  }

  /** The changed rows of the first `n` tasks. */
  function TaskChanges(before: RunSnapshot, after: RunSnapshot, n: nat): seq<TaskRunChange>
    requires n <= |after.tasks|
  {
    if n == 0 then []
    else TaskChanges(before, after, n - 1) + (if TaskRowChanged(before, after, n - 1) then [TaskRowChange(after, n - 1)] else [])
  }

  function AttemptsAt(before: RunSnapshot, i: nat): seq<Attempt> {
    if i < |before.tasks| then before.tasks[i].attempts else []
  }

  predicate AttemptRowChanged(was: seq<Attempt>, a: seq<Attempt>, k: nat)
    requires k < |a|
  {
    k >= |was| || was[k] != a[k]
  }

  function AttemptRowChange(after: RunSnapshot, was: seq<Attempt>, i: nat, k: nat): AttemptChange
    requires i < |after.tasks| && k < |after.tasks[i].attempts|
  {
    AttemptChange(after.row.id, after.tasks[i].key, i, after.tasks[i].attempts[k], if k < |was| then ChangeUpdate
      else ChangeInsert)
  }

  /** The changed rows among the first `m` attempts of task `i`. */
  function AttemptChangesOf(before: RunSnapshot, after: RunSnapshot, i: nat, m: nat): seq<AttemptChange>
    requires i < |after.tasks| && m <= |after.tasks[i].attempts|
  {
    if m == 0 then []
    else
      var was := AttemptsAt(before, i);
      AttemptChangesOf(before, after, i, m - 1)
      + (if AttemptRowChanged(was, after.tasks[i].attempts, m - 1) then [AttemptRowChange(after, was, i, m - 1)] else [])
  }

  function AttemptChanges(before: RunSnapshot, after: RunSnapshot, n: nat): seq<AttemptChange>
    requires n <= |after.tasks|
  {
    if n == 0 then []
    else AttemptChanges(before, after, n - 1) + AttemptChangesOf(before, after, n - 1, |after.tasks[n - 1].attempts|)
  }

  function Diff(before: RunSnapshot, after: RunSnapshot): ChangeSet
    requires |before.events| <= |after.events|
  {
    ChangeSet(
      after.row.id, before.row.revision, Some(after.row.(lastEventSequence := LastEventSequence(after))),
      TaskChanges(before, after, |after.tasks|), AttemptChanges(before, after, |after.tasks|), after.events[|before.events|..])
  }

  // ---------- application ----------

  predicate TaskSeen(changes: seq<TaskRunChange>, index: int) {
    exists k :: 0 <= k < |changes| && changes[k].index == index
  }

  /** One task row on top of the rows of `earlier`. */
  function ApplyTaskRow(s: RunSnapshot, run: RunID, earlier: seq<TaskRunChange>, t: TaskRunChange): Applied
    requires |s.tasks| == |s.remaining|
  {
    if t.run != run then Err(InvalidChangeSet(TaskRunIDs))
    else if !(0 <= t.index < |s.tasks|) then Err(InvalidChangeSet(TaskIndex))
    else if TaskSeen(earlier, t.index) then Err(InvalidChangeSet(TaskTwice))
    else if t.task.key != s.tasks[t.index].key then Err(InvalidChangeSet(TaskKeys))
    else if t.task.attempts != [] then Err(InvalidChangeSet(TaskEmbedsAttempts))
    else if t.remaining < 0 then Err(InvalidChangeSet(NegativeRemaining))
    else Ok(s.(tasks := s.tasks[t.index := t.task.(attempts := s.tasks[t.index].attempts)],
               remaining := s.remaining[t.index := t.remaining]))
  }

  function ApplyTaskRows(s: RunSnapshot, run: RunID, changes: seq<TaskRunChange>): (r: Applied)
    requires |s.tasks| == |s.remaining|
    ensures r.Ok? ==> |r.s.tasks| == |s.tasks| == |r.s.remaining| && r.s == s.(tasks := r.s.tasks, remaining := r.s.remaining)
  {
    if changes == [] then Ok(s)
    else
      var n := |changes| - 1;
      var s1 :- ApplyTaskRows(s, run, changes[..n]);
      ApplyTaskRow(s1, run, changes[..n], changes[n])
  }

  predicate AttemptSeen(changes: seq<AttemptChange>, index: int, number: int) {
    exists k :: 0 <= k < |changes| && changes[k].index == index && changes[k].attempt.number == number
  }

  function ApplyAttemptRow(s: RunSnapshot, run: RunID, earlier: seq<AttemptChange>, a: AttemptChange): Applied {
    if a.run != run then Err(InvalidChangeSet(AttemptRunIDs))
    else if !(0 <= a.index < |s.tasks|) then Err(InvalidChangeSet(AttemptIndex))
    else
      var t := s.tasks[a.index];
      var number := a.attempt.number;
      if a.key != t.key then Err(InvalidChangeSet(AttemptKeys))
      else if AttemptSeen(earlier, a.index, number) then Err(InvalidChangeSet(AttemptTwice))
      else
        match a.operation
        case ChangeInsert =>
          if number != |t.attempts| + 1 then Err(InvalidChangeSet(InsertNumber))
          else Ok(s.(tasks := s.tasks[a.index := t.(attempts := t.attempts + [a.attempt])]))
        case ChangeUpdate =>
          if !(0 <= number - 1 < |t.attempts|) || t.attempts[number - 1].number != number then Err(InvalidChangeSet(UpdateNumber))
          else Ok(s.(tasks := s.tasks[a.index := t.(attempts := t.attempts[number - 1 := a.attempt])]))
        case ChangeOther(_) => Err(InvalidChangeSet(UnknownOperation))
  }

  function ApplyAttemptRows(s: RunSnapshot, run: RunID, changes: seq<AttemptChange>): (r: Applied)
    ensures r.Ok? ==> |r.s.tasks| == |s.tasks| && r.s == s.(tasks := r.s.tasks)
  {
    if changes == [] then Ok(s)
    else
      var n := |changes| - 1;
      var s1 :- ApplyAttemptRows(s, run, changes[..n]);
      ApplyAttemptRow(s1, run, changes[..n], changes[n])
  }

  /** The new events continue the stored numbers. */
  predicate EventsFollow(events: seq<StateEvent>, last: nat) {
    forall k :: 0 <= k < |events| ==> events[k].sequence == last + 1 + k
  }

  function ApplyEvents(s: RunSnapshot, events: seq<StateEvent>, last: nat): Applied {
    if !EventsFollow(events, last) then Err(InvalidChangeSet(EventSequence))
    else if s.row.lastEventSequence != last + |events| then Err(InvalidChangeSet(LastSequence))
    else Ok(s.(events := s.events + events))
  }

  function Apply(s: RunSnapshot, change: ChangeSet): Applied {
    if change.run != s.row.id then Err(InvalidChangeSet(RunIDs))
    else if change.expected != s.row.revision then Err(RevisionConflict)
    else if change.row.None? then Err(InvalidChangeSet(RowMissing))
    else if change.row.value.id != change.run then Err(InvalidChangeSet(RowID))
    else if change.row.value.revision != change.expected + 1 then Err(InvalidChangeSet(RowRevision))
    else if |s.tasks| != |s.remaining| then Err(InvalidChangeSet(SnapshotShape))
    else
      var s1 :- ApplyTaskRows(s.(row := change.row.value), change.run, change.tasks);
      var s2 :- ApplyAttemptRows(s1, change.run, change.attempts);
      ApplyEvents(s2, change.events, LastEventSequence(s))
  }

  // ---------- round trip ----------

  /** `after` is a later snapshot of the same run, one revision on: what every step produces. */
  ghost predicate Follows(before: RunSnapshot, after: RunSnapshot) {
    && after.version == before.version && after.definition == before.definition && after.row.id == before.row.id
    && after.row.revision == before.row.revision + 1
    && |after.tasks| == |before.tasks| == |before.remaining| == |after.remaining|
    && (forall i :: 0 <= i < |before.tasks| ==> TaskFollows(before.tasks[i], after.tasks[i]))
    && (forall i :: 0 <= i < |after.remaining| && TaskRowChanged(before, after, i) ==> after.remaining[i] >= 0)
    && |before.events| <= |after.events| && after.events[..|before.events|] == before.events
    && EventsFollow(after.events[|before.events|..], LastEventSequence(before))
    && after.row.lastEventSequence == LastEventSequence(after) == LastEventSequence(before) + |after.events| - |before.events|
  }

  /** The attempts of `b` continue those of `a`, all numbered by position. */
  ghost predicate TaskFollows(a: TaskRun, b: TaskRun) {
    && b.key == a.key && |a.attempts| <= |b.attempts|
    && (forall k :: 0 <= k < |a.attempts| ==> a.attempts[k].number == k + 1)
    && (forall k :: 0 <= k < |b.attempts| ==> b.attempts[k].number == k + 1)
  }

  /** The snapshot between the passes: rows of the first `n` tasks are new, all attempts are old. */
  function TaskPassed(before: TaskRun, after: TaskRun): TaskRun { after.(attempts := before.attempts) }

  ghost predicate TasksPassed(before: RunSnapshot, after: RunSnapshot, s: RunSnapshot, n: nat) {
    && |s.tasks| == |before.tasks| == |after.tasks| == |before.remaining| == |after.remaining| == |s.remaining|
    && s == before.(row := after.row, tasks := s.tasks, remaining := s.remaining)
    && (forall j :: 0 <= j < |s.tasks| ==>
          s.tasks[j] == if j < n then TaskPassed(before.tasks[j], after.tasks[j]) else before.tasks[j])
    && (forall j :: 0 <= j < |s.tasks| ==> s.remaining[j] == if j < n then after.remaining[j] else before.remaining[j])
  }

  lemma {:induction false} ChangedTasksBelow(before: RunSnapshot, after: RunSnapshot, n: nat)
    requires n <= |after.tasks|
    ensures forall k :: 0 <= k < |TaskChanges(before, after, n)| ==> 0 <= TaskChanges(before, after, n)[k].index < n
  {
    if n > 0 { ChangedTasksBelow(before, after, n - 1); }
  }

  lemma {:induction false} NextTaskRow(before: RunSnapshot, after: RunSnapshot, t: RunSnapshot,
      earlier: seq<TaskRunChange>, i: nat)
    requires Follows(before, after) && i < |after.tasks| && TasksPassed(before, after, t, i)
    requires forall k :: 0 <= k < |earlier| ==> 0 <= earlier[k].index < i
    ensures !TaskRowChanged(before, after, i) ==> TasksPassed(before, after, t, i + 1)
    ensures TaskRowChanged(before, after, i) ==>
      var r := ApplyTaskRow(t, after.row.id, earlier, TaskRowChange(after, i)); r.Ok? && TasksPassed(before, after, r.s, i + 1)
  {
    hide EventsFollow;
    assert TaskFollows(before.tasks[i], after.tasks[i]);
    assert t.tasks[i] == before.tasks[i] && t.remaining[i] == before.remaining[i];
  }

  lemma {:induction false} TaskPassZero(before: RunSnapshot, after: RunSnapshot)
    requires Follows(before, after)
    ensures var r := ApplyTaskRows(before.(row := after.row), after.row.id, []);
      r.Ok? && TasksPassed(before, after, r.s, 0)
  {
  }

  lemma {:induction false} TaskPassExact(before: RunSnapshot, after: RunSnapshot, n: nat)
    requires Follows(before, after) && n <= |after.tasks|
    ensures var r := ApplyTaskRows(before.(row := after.row), after.row.id, TaskChanges(before, after, n));
      r.Ok? && TasksPassed(before, after, r.s, n)
  {
    hide Follows, TasksPassed, ApplyTaskRow, ApplyTaskRows, TaskRowChanged, TaskRowChange;
    FollowsParts(before, after);
    if n == 0 {
      TaskPassZero(before, after);
    } else {
      TaskPassExact(before, after, n - 1);
      ChangedTasksBelow(before, after, n - 1);
      var first, earlier := before.(row := after.row), TaskChanges(before, after, n - 1);
      NextTaskRow(before, after, ApplyTaskRows(first, after.row.id, earlier).s, earlier, n - 1);
      OneMoreTaskRow(first, after.row.id, earlier, TaskRowChange(after, n - 1));
      assert !TaskRowChanged(before, after, n - 1) ==> TaskChanges(before, after, n) == earlier;
    }
  }

  lemma {:induction false} OneMoreTaskRow(s: RunSnapshot, run: RunID, earlier: seq<TaskRunChange>, t: TaskRunChange)
    requires |s.tasks| == |s.remaining| && ApplyTaskRows(s, run, earlier).Ok?
    ensures ApplyTaskRows(s, run, earlier + [t]) == ApplyTaskRow(ApplyTaskRows(s, run, earlier).s, run, earlier, t)
  {
    var rows := earlier + [t];
    assert rows[..|rows| - 1] == earlier;
  }

  /** The snapshot inside the attempt pass: tasks below `i` are finished, task `i` has its first `m` attempts. */
  ghost predicate AttemptsPassed(before: RunSnapshot, after: RunSnapshot, s: RunSnapshot, i: nat, m: nat) {
    && |s.tasks| == |before.tasks| == |after.tasks|
    && s == before.(row := after.row, tasks := s.tasks, remaining := after.remaining)
    && forall j :: 0 <= j < |s.tasks| ==> TaskAttemptsPassed(before.tasks[j], after.tasks[j], s.tasks[j],
         if j < i then |after.tasks[j].attempts| else if j == i then m else 0)
  }

  /** The first `m` attempts are new; what is left of the old ones follows. */
  ghost predicate TaskAttemptsPassed(a: TaskRun, b: TaskRun, t: TaskRun, m: nat) {
    && t == b.(attempts := t.attempts) && m <= |b.attempts|
    && |t.attempts| == (if m < |a.attempts| then |a.attempts| else m)
    && forall k :: 0 <= k < |t.attempts| ==> t.attempts[k] == (if k < m then b.attempts[k] else a.attempts[k])
  }

  ghost predicate AttemptRowsBelow(changes: seq<AttemptChange>, i: nat, m: nat) {
    forall k :: 0 <= k < |changes| ==> 0 <= changes[k].index <= i && (changes[k].index == i ==> changes[k].attempt.number <= m)
  }

  /** All rows up to attempt `m` of task `i`. */
  function AttemptRowsUpTo(before: RunSnapshot, after: RunSnapshot, i: nat, m: nat): seq<AttemptChange>
    requires i < |after.tasks| && m <= |after.tasks[i].attempts|
  {
    AttemptChanges(before, after, i) + AttemptChangesOf(before, after, i, m)
  }

  ghost predicate AttemptPass(before: RunSnapshot, after: RunSnapshot, s: RunSnapshot, i: nat, m: nat)
    requires i < |after.tasks| && m <= |after.tasks[i].attempts|
  {
    var rows := AttemptRowsUpTo(before, after, i, m);
    && AttemptRowsBelow(rows, i, m)
    && var r := ApplyAttemptRows(s, after.row.id, rows);
       r.Ok? && AttemptsPassed(before, after, r.s, i, m)
  }

  lemma {:induction false} NextAttempt(a: TaskRun, b: TaskRun, t: TaskRun, m: nat)
    requires TaskFollows(a, b) && TaskAttemptsPassed(a, b, t, m) && m < |b.attempts|
    ensures !AttemptRowChanged(a.attempts, b.attempts, m) ==> TaskAttemptsPassed(a, b, t, m + 1)
    ensures m < |a.attempts| ==> TaskAttemptsPassed(a, b, t.(attempts := t.attempts[m := b.attempts[m]]), m + 1)
    ensures m >= |a.attempts| ==> TaskAttemptsPassed(a, b, t.(attempts := t.attempts + [b.attempts[m]]), m + 1)
  {
  }

  lemma {:induction false} NextRow(before: RunSnapshot, after: RunSnapshot, t: RunSnapshot, rows: seq<AttemptChange>,
      i: nat, m: nat)
    requires Follows(before, after) && i < |after.tasks| && m < |after.tasks[i].attempts|
    requires AttemptRowsBelow(rows, i, m) && AttemptsPassed(before, after, t, i, m)
    ensures !AttemptRowChanged(before.tasks[i].attempts, after.tasks[i].attempts, m) ==>
      AttemptsPassed(before, after, t, i, m + 1)
    ensures var r := ApplyAttemptRow(t, after.row.id, rows, AttemptRowChange(after, before.tasks[i].attempts, i, m));
      r.Ok? && AttemptsPassed(before, after, r.s, i, m + 1)
  {
    hide TaskAttemptsPassed, TaskRowChanged, EventsFollow;
    var a, b := before.tasks[i], after.tasks[i];
    assert TaskFollows(a, b) && TaskAttemptsPassed(a, b, t.tasks[i], m);
    NextAttempt(a, b, t.tasks[i], m);
    PassedShape(a, b, t.tasks[i], m);
    assert !AttemptSeen(rows, i, m + 1);
    forall j | 0 <= j < |t.tasks| && j != i
      ensures TaskAttemptsPassed(before.tasks[j], after.tasks[j], t.tasks[j], if j < i then |after.tasks[j].attempts| else 0) {}
  }

  lemma {:induction false} PassedShape(a: TaskRun, b: TaskRun, t: TaskRun, m: nat)
    requires TaskFollows(a, b) && TaskAttemptsPassed(a, b, t, m) && m < |b.attempts|
    ensures t.key == b.key && b.attempts[m].number == m + 1
    ensures m < |a.attempts| ==> m < |t.attempts| && t.attempts[m].number == m + 1
    ensures m >= |a.attempts| ==> |t.attempts| == m
  {
  }

  lemma {:induction false} UpToNext(before: RunSnapshot, after: RunSnapshot, i: nat, m: nat)
    requires |before.tasks| == |after.tasks| && i < |after.tasks| && m < |after.tasks[i].attempts|
    ensures AttemptRowsUpTo(before, after, i, m + 1) == AttemptRowsUpTo(before, after, i, m) +
      (if AttemptRowChanged(before.tasks[i].attempts, after.tasks[i].attempts, m)
       then [AttemptRowChange(after, before.tasks[i].attempts, i, m)] else [])
  {
    hide AttemptRowChanged, AttemptRowChange, AttemptChanges;
  }

  lemma {:induction false} ApplyAppended(s: RunSnapshot, run: RunID, rows: seq<AttemptChange>, row: AttemptChange)
    requires ApplyAttemptRows(s, run, rows).Ok?
    ensures ApplyAttemptRows(s, run, rows + [row]) == ApplyAttemptRow(ApplyAttemptRows(s, run, rows).s, run, rows, row)
  {
    hide ApplyAttemptRow;
    var longer := rows + [row];
    assert longer[..|longer| - 1] == rows;
  }

  lemma {:induction false} AttemptRowPassed(before: RunSnapshot, after: RunSnapshot, s: RunSnapshot, i: nat, m: nat)
    requires Follows(before, after) && i < |after.tasks| && m < |after.tasks[i].attempts|
    requires AttemptPass(before, after, s, i, m)
    ensures AttemptPass(before, after, s, i, m + 1)
  {
    hide AttemptsPassed, TaskFollows, TaskRowChanged, EventsFollow, AttemptChanges, ApplyAttemptRow, ApplyAttemptRows,
      AttemptRowsUpTo;
    var rows, rows' := AttemptRowsUpTo(before, after, i, m), AttemptRowsUpTo(before, after, i, m + 1);
    var t := ApplyAttemptRows(s, after.row.id, rows).s;
    NextRow(before, after, t, rows, i, m);
    UpToNext(before, after, i, m);
    if AttemptRowChanged(before.tasks[i].attempts, after.tasks[i].attempts, m) {
      var row := AttemptRowChange(after, before.tasks[i].attempts, i, m);
      ApplyAppended(s, after.row.id, rows, row);
      AttemptNumber(before, after, i, m);
      assert rows' == rows + [row];
      assert AttemptRowsBelow(rows', i, m + 1);
      assert AttemptsPassed(before, after, ApplyAttemptRows(s, after.row.id, rows').s, i, m + 1);
    } else {
      assert rows' == rows;
    }
  }

  lemma AttemptNumber(before: RunSnapshot, after: RunSnapshot, i: nat, m: nat)
    requires Follows(before, after) && i < |after.tasks| && m < |after.tasks[i].attempts|
    ensures after.tasks[i].attempts[m].number == m + 1
  {
    assert TaskFollows(before.tasks[i], after.tasks[i]);
  }

  lemma {:induction false} AttemptTaskPassed(before: RunSnapshot, after: RunSnapshot, s: RunSnapshot, i: nat, m: nat)
    requires Follows(before, after) && i < |after.tasks| && m <= |after.tasks[i].attempts|
    requires AttemptPass(before, after, s, i, 0)
    ensures AttemptPass(before, after, s, i, m)
  {
    hide AttemptPass, Follows;
    if m > 0 {
      AttemptTaskPassed(before, after, s, i, m - 1);
      AttemptRowPassed(before, after, s, i, m - 1);
    }
  }

  lemma {:induction false} AttemptPassZero(before: RunSnapshot, after: RunSnapshot, s: RunSnapshot)
    requires Follows(before, after) && |after.tasks| > 0 && TasksPassed(before, after, s, |after.tasks|)
    ensures AttemptPass(before, after, s, 0, 0)
  {
    assert AttemptRowsUpTo(before, after, 0, 0) == [];
    assert s.remaining == after.remaining;
    forall j | 0 <= j < |s.tasks| ensures TaskAttemptsPassed(before.tasks[j], after.tasks[j], s.tasks[j], 0) {}
  }

  lemma {:induction false} AttemptPassTurns(before: RunSnapshot, after: RunSnapshot, s: RunSnapshot, i: nat)
    requires 0 < i < |after.tasks| && AttemptPass(before, after, s, i - 1, |after.tasks[i - 1].attempts|)
    ensures AttemptPass(before, after, s, i, 0)
  {
    assert AttemptRowsUpTo(before, after, i, 0) == AttemptRowsUpTo(before, after, i - 1, |after.tasks[i - 1].attempts|);
  }

  lemma {:induction false} AttemptPassStarts(before: RunSnapshot, after: RunSnapshot, s: RunSnapshot, i: nat)
    requires Follows(before, after) && i < |after.tasks| && TasksPassed(before, after, s, |after.tasks|)
    ensures AttemptPass(before, after, s, i, 0)
  {
    hide Follows, AttemptPass, TasksPassed;
    if i == 0 {
      AttemptPassZero(before, after, s);
    } else {
      AttemptPassStarts(before, after, s, i - 1);
      AttemptTaskPassed(before, after, s, i - 1, |after.tasks[i - 1].attempts|);
      AttemptPassTurns(before, after, s, i);
    }
  }

  /** Applying the difference of two snapshots of a run to the earlier one gives the later one, whatever happened between. */
  lemma {:induction false} RoundTrip(before: RunSnapshot, after: RunSnapshot)
    requires Follows(before, after)
    ensures Apply(before, Diff(before, after)) == Ok(after)
  {
    hide Follows, AttemptPass;
    FollowsParts(before, after);
    TaskPassExact(before, after, |after.tasks|);
    var s1 := ApplyTaskRows(before.(row := after.row), after.row.id, TaskChanges(before, after, |after.tasks|)).s;
    AttemptPassDone(before, after, s1);
    var s2 := ApplyAttemptRows(s1, after.row.id, AttemptChanges(before, after, |after.tasks|)).s;
    assert after.events == before.events + after.events[|before.events|..];
    assert s2.(events := after.events) == after;
  }

  lemma FollowsParts(before: RunSnapshot, after: RunSnapshot)
    requires Follows(before, after)
    ensures after.version == before.version && after.definition == before.definition && after.row.id == before.row.id
    ensures after.row.revision == before.row.revision + 1 && |before.tasks| == |before.remaining| == |after.tasks|
    ensures |before.events| <= |after.events| && after.events[..|before.events|] == before.events
    ensures EventsFollow(after.events[|before.events|..], LastEventSequence(before))
    ensures after.row.lastEventSequence == LastEventSequence(after) == LastEventSequence(before)
      + |after.events| - |before.events|
  {
  }

  lemma PassedTask(a: TaskRun, b: TaskRun, t: TaskRun)
    requires TaskFollows(a, b) && TaskAttemptsPassed(a, b, t, |b.attempts|)
    ensures t == b
  {
    assert t.attempts == b.attempts;
  }

  lemma {:induction false} AllPassed(before: RunSnapshot, after: RunSnapshot, r: RunSnapshot)
    requires Follows(before, after) && |after.tasks| > 0
    requires AttemptsPassed(before, after, r, |after.tasks| - 1, |after.tasks[|after.tasks| - 1].attempts|)
    ensures r.tasks == after.tasks && r == before.(row := after.row, tasks := after.tasks, remaining := after.remaining)
  {
    hide TaskFollows, TaskAttemptsPassed, TaskRowChanged, EventsFollow, LastEventSequence;
    forall j | 0 <= j < |after.tasks| ensures r.tasks[j] == after.tasks[j] {
      assert TaskAttemptsPassed(before.tasks[j], after.tasks[j], r.tasks[j], |after.tasks[j].attempts|);
      PassedTask(before.tasks[j], after.tasks[j], r.tasks[j]);
    }
  }

  lemma {:induction false} NothingPassed(before: RunSnapshot, after: RunSnapshot, s: RunSnapshot)
    requires Follows(before, after) && TasksPassed(before, after, s, |after.tasks|) && |after.tasks| == 0
    ensures s == before.(row := after.row, tasks := after.tasks, remaining := after.remaining)
  {
    hide TaskFollows, TaskRowChanged, EventsFollow, LastEventSequence;
    assert s.remaining == after.remaining && s.tasks == after.tasks;
  }

  lemma {:induction false} AttemptPassDone(before: RunSnapshot, after: RunSnapshot, s: RunSnapshot)
    requires Follows(before, after) && TasksPassed(before, after, s, |after.tasks|)
    ensures var r := ApplyAttemptRows(s, after.row.id, AttemptChanges(before, after, |after.tasks|));
      r.Ok? && r.s.tasks == after.tasks && r.s == before.(row := after.row, tasks := after.tasks, remaining := after.remaining)
  {
    hide Follows, TasksPassed, ApplyAttemptRow, AttemptsPassed, AttemptRowsBelow;
    var n := |after.tasks|;
    if n == 0 {
      NothingPassed(before, after, s);
    } else {
      AttemptPassStarts(before, after, s, n - 1);
      AttemptTaskPassed(before, after, s, n - 1, |after.tasks[n - 1].attempts|);
      AllPassed(before, after, ApplyAttemptRows(s, after.row.id, AttemptChanges(before, after, n)).s);
    }
  }

  // ---------- what can be applied at all ----------

  /** Attempts are numbered by position, as every step leaves them. */
  predicate AttemptsNumbered(s: RunSnapshot) {
    forall i, k :: 0 <= i < |s.tasks| && 0 <= k < |s.tasks[i].attempts| ==> s.tasks[i].attempts[k].number == k + 1
  }

  /** What the task pass can change: rows of known tasks, to counts that are not negative. */
  ghost predicate RowsOnly(s: RunSnapshot, t: RunSnapshot) {
    && |t.tasks| == |s.tasks| == |s.remaining| == |t.remaining|
    && t == s.(tasks := t.tasks, remaining := t.remaining)
    && forall i :: 0 <= i < |s.tasks| ==>
         && t.tasks[i].key == s.tasks[i].key && t.tasks[i].attempts == s.tasks[i].attempts
         && (t.remaining[i] >= 0 || (t.tasks[i] == s.tasks[i] && t.remaining[i] == s.remaining[i]))
  }

  lemma {:induction false} TaskRowsOnly(s: RunSnapshot, run: RunID, changes: seq<TaskRunChange>)
    requires |s.tasks| == |s.remaining|
    ensures var r := ApplyTaskRows(s, run, changes); r.Ok? ==> RowsOnly(s, r.s)
  {
    if changes != [] { TaskRowsOnly(s, run, changes[..|changes| - 1]); }
  }

  /** What the attempt pass can change: attempts, keeping their numbers and never dropping one. */
  ghost predicate AttemptsOnly(s: RunSnapshot, t: RunSnapshot) {
    && |t.tasks| == |s.tasks| && t == s.(tasks := t.tasks)
    && forall i :: 0 <= i < |s.tasks| ==>
         && t.tasks[i] == s.tasks[i].(attempts := t.tasks[i].attempts)
         && TaskFollows(s.tasks[i], t.tasks[i])
  }

  lemma {:induction false} AttemptRowsOnly(s: RunSnapshot, run: RunID, changes: seq<AttemptChange>)
    requires AttemptsNumbered(s)
    ensures var r := ApplyAttemptRows(s, run, changes); r.Ok? ==> AttemptsOnly(s, r.s)
  {
    if changes != [] { AttemptRowsOnly(s, run, changes[..|changes| - 1]); }
  }

  lemma {:induction false} AppliedFollows(s: RunSnapshot, change: ChangeSet)
    requires AttemptsNumbered(s) && Apply(s, change).Ok?
    ensures Follows(s, Apply(s, change).s)
  {
    hide ApplyTaskRows, ApplyAttemptRows;
    var s0 := s.(row := change.row.value);
    TaskRowsOnly(s0, change.run, change.tasks);
    var s1 := ApplyTaskRows(s0, change.run, change.tasks).s;
    AttemptRowsOnly(s1, change.run, change.attempts);
    var t := Apply(s, change).s;
    assert t.events[..|s.events|] == s.events && t.events[|s.events|..] == change.events;
    forall i | 0 <= i < |s.tasks| ensures TaskFollows(s.tasks[i], t.tasks[i])
      && (TaskRowChanged(s, t, i) ==> t.remaining[i] >= 0) {
      assert TaskFollows(s1.tasks[i], t.tasks[i]);
    }
  }

  /** Some change set leads from `s` to `t` if and only if `t` follows `s`: nothing else can ever be committed. */
  lemma {:induction false} ApplyReachesExactlyFollowers(s: RunSnapshot, t: RunSnapshot)
    requires AttemptsNumbered(s)
    ensures (exists change :: Apply(s, change) == Ok(t)) <==> Follows(s, t)
  {
    hide Apply, Follows, Diff;
    if Follows(s, t) {
      RoundTrip(s, t);
    }
    if exists change :: Apply(s, change) == Ok(t) {
      var change :| Apply(s, change) == Ok(t);
      AppliedFollows(s, change);
    }
  }

  /** A change set computed on any other revision than the stored one is never applied. */
  lemma StaleConflicts(s: RunSnapshot, change: ChangeSet)
    requires change.expected != s.row.revision
    ensures Apply(s, change).Err? && (change.run == s.row.id ==> Apply(s, change) == Err(RevisionConflict))
  {
  }

  // ---------- the loops ----------

  method ChangeSetFromSnapshots(before: RunSnapshot, after: RunSnapshot) returns (change: ChangeSet)
    requires |before.events| <= |after.events|
    ensures change == Diff(before, after)
  {
    var row := after.row.(lastEventSequence := LastEventSequence(after));
    var tasks: seq<TaskRunChange>, attempts: seq<AttemptChange> := [], [];
    var i := 0;
    while i < |after.tasks|
      invariant 0 <= i <= |after.tasks|
      invariant tasks == TaskChanges(before, after, i) && attempts == AttemptChanges(before, after, i)
    {
      var beforeTask, beforeRemaining, afterRemaining := NO_TASK, 0, 0;
      if i < |before.tasks| { beforeTask := before.tasks[i]; }
      if i < |before.remaining| { beforeRemaining := before.remaining[i]; }
      var afterTask := after.tasks[i];
      if i < |after.remaining| { afterRemaining := after.remaining[i]; }
      if i >= |before.tasks| || beforeTask.key != afterTask.key || beforeTask.status != afterTask.status
        || beforeRemaining != afterRemaining
        || beforeTask.readyAt != afterTask.readyAt || beforeTask.finishedAt != afterTask.finishedAt
      {
        tasks := tasks + [TaskRunChange(after.row.id, i, afterTask.(attempts := []), afterRemaining)];
      }
      var k := 0;
      while k < |afterTask.attempts|
        invariant 0 <= k <= |afterTask.attempts|
        invariant attempts == AttemptChanges(before, after, i) + AttemptChangesOf(before, after, i, k)
      {
        var operation := ChangeInsert;
        if k < |beforeTask.attempts| { operation := ChangeUpdate; }
        if operation == ChangeInsert || beforeTask.attempts[k] != afterTask.attempts[k] {
          attempts := attempts + [AttemptChange(after.row.id, afterTask.key, i, afterTask.attempts[k], operation)];
        }
        k := k + 1;
      }
      i := i + 1;
    }
    change := ChangeSet(after.row.id, before.row.revision, Some(row), tasks, attempts, after.events[|before.events|..]);
  }

  lemma {:induction false} TaskRowsStop(s: RunSnapshot, run: RunID, changes: seq<TaskRunChange>, n: nat)
    requires |s.tasks| == |s.remaining| && n <= |changes|
    ensures var r := ApplyTaskRows(s, run, changes[..n]); r.Err? ==> ApplyTaskRows(s, run, changes) == r
    decreases |changes|
  {
    if n < |changes| {
      assert changes[..|changes| - 1][..n] == changes[..n];
      TaskRowsStop(s, run, changes[..|changes| - 1], n);
    } else {
      assert changes[..n] == changes;
    }
  }

  lemma {:induction false} AttemptRowsStop(s: RunSnapshot, run: RunID, changes: seq<AttemptChange>, n: nat)
    requires n <= |changes|
    ensures var r := ApplyAttemptRows(s, run, changes[..n]); r.Err? ==> ApplyAttemptRows(s, run, changes) == r
    decreases |changes|
  {
    if n < |changes| {
      assert changes[..|changes| - 1][..n] == changes[..n];
      AttemptRowsStop(s, run, changes[..|changes| - 1], n);
    } else {
      assert changes[..n] == changes;
    }
  }

  lemma NoTaskRows(s: RunSnapshot, run: RunID)
    requires |s.tasks| == |s.remaining|
    ensures ApplyTaskRows(s, run, []) == Ok(s)
  {
  }

  /** The next row, once the rows before it have been applied. */
  lemma {:induction false} OneMoreTaskRowApplied(s: RunSnapshot, run: RunID, changes: seq<TaskRunChange>, k: nat)
    requires |s.tasks| == |s.remaining| && k < |changes| && ApplyTaskRows(s, run, changes[..k]).Ok?
    ensures ApplyTaskRows(s, run, changes[..k + 1]) ==
      ApplyTaskRow(ApplyTaskRows(s, run, changes[..k]).s, run, changes[..k], changes[k])
  {
    hide ApplyTaskRow;
    assert changes[..k + 1][..k] == changes[..k];
  }

  /** The first pass of an application, with its set of changed tasks. */
  method ApplyTaskLoop(s: RunSnapshot, run: RunID, changes: seq<TaskRunChange>) returns (r: Applied)
    requires |s.tasks| == |s.remaining|
    ensures r == ApplyTaskRows(s, run, changes)
  {
    hide ApplyTaskRows;
    assert ApplyTaskRows(s, run, []) == Ok(s) by { NoTaskRows(s, run); }
    var tasks, remaining, changed: set<int> := s.tasks, s.remaining, {};
    var k := 0;
    while k < |changes|
      invariant 0 <= k <= |changes| && |tasks| == |remaining|
      invariant ApplyTaskRows(s, run, changes[..k]) == Ok(s.(tasks := tasks, remaining := remaining))
      invariant changed == set j | 0 <= j < k :: changes[j].index
    {
      TaskRowsStop(s, run, changes, k + 1);
      OneMoreTaskRowApplied(s, run, changes, k);
      var c := changes[k];
      if c.run != run { return Err(InvalidChangeSet(TaskRunIDs)); }
      if c.index < 0 || c.index >= |tasks| { return Err(InvalidChangeSet(TaskIndex)); }
      assert c.index in changed <==> TaskSeen(changes[..k], c.index);
      if c.index in changed { return Err(InvalidChangeSet(TaskTwice)); }
      changed := changed + {c.index};
      if c.task.key != tasks[c.index].key { return Err(InvalidChangeSet(TaskKeys)); }
      if |c.task.attempts| != 0 { return Err(InvalidChangeSet(TaskEmbedsAttempts)); }
      if c.remaining < 0 { return Err(InvalidChangeSet(NegativeRemaining)); }
      tasks := tasks[c.index := c.task.(attempts := tasks[c.index].attempts)];
      remaining := remaining[c.index := c.remaining];
      k := k + 1;
    }
    assert changes[..k] == changes;
    return Ok(s.(tasks := tasks, remaining := remaining));
  }

  /** One row of the second pass; `changed` holds the attempts of the rows before it. */
  method ApplyAttempt(s: RunSnapshot, run: RunID, changed: set<(int, int)>, c: AttemptChange,
      ghost earlier: seq<AttemptChange>) returns (r: Applied)
    requires changed == set j | 0 <= j < |earlier| :: (earlier[j].index, earlier[j].attempt.number)
    ensures r == ApplyAttemptRow(s, run, earlier, c)
  {
    if c.run != run { return Err(InvalidChangeSet(AttemptRunIDs)); }
    if c.index < 0 || c.index >= |s.tasks| { return Err(InvalidChangeSet(AttemptIndex)); }
    var task := s.tasks[c.index];
    if c.key != task.key { return Err(InvalidChangeSet(AttemptKeys)); }
    assert (c.index, c.attempt.number) in changed <==> AttemptSeen(earlier, c.index, c.attempt.number);
    if (c.index, c.attempt.number) in changed { return Err(InvalidChangeSet(AttemptTwice)); }
    match c.operation {
      case ChangeInsert =>
        if c.attempt.number != |task.attempts| + 1 { return Err(InvalidChangeSet(InsertNumber)); }
        task := task.(attempts := task.attempts + [c.attempt]);
      case ChangeUpdate =>
        var index := c.attempt.number - 1;
        if index < 0 || index >= |task.attempts| || task.attempts[index].number != c.attempt.number {
          return Err(InvalidChangeSet(UpdateNumber));
        }
        task := task.(attempts := task.attempts[index := c.attempt]);
      case ChangeOther(_) => return Err(InvalidChangeSet(UnknownOperation));
    }
    return Ok(s.(tasks := s.tasks[c.index := task]));
  }

  /** The second pass, with its set of changed attempts. */
  method ApplyAttemptLoop(s: RunSnapshot, run: RunID, changes: seq<AttemptChange>) returns (r: Applied)
    ensures r == ApplyAttemptRows(s, run, changes)
  {
    hide ApplyAttemptRow;
    var changed: set<(int, int)> := {};
    r := Ok(s);
    var k := 0;
    while k < |changes|
      invariant 0 <= k <= |changes| && r.Ok? && r == ApplyAttemptRows(s, run, changes[..k])
      invariant changed == set j | 0 <= j < k :: (changes[..k][j].index, changes[..k][j].attempt.number)
    {
      AttemptRowsStop(s, run, changes, k + 1);
      assert changes[..k + 1] == changes[..k] + [changes[k]];
      assert changes[..k + 1][..k] == changes[..k];
      r := ApplyAttempt(r.s, run, changed, changes[k], changes[..k]);
      if r.Err? { return; }
      changed := changed + {(changes[k].index, changes[k].attempt.number)};
      k := k + 1;
    }
    assert changes[..k] == changes;
  }

  method ApplyChangeSet(snapshot: RunSnapshot, change: ChangeSet) returns (r: Applied)
    ensures r == Apply(snapshot, change)
  {
    if change.run != snapshot.row.id { return Err(InvalidChangeSet(RunIDs)); }
    if change.expected != snapshot.row.revision { return Err(RevisionConflict); }
    if change.row.None? { return Err(InvalidChangeSet(RowMissing)); }
    if change.row.value.id != change.run { return Err(InvalidChangeSet(RowID)); }
    if change.row.value.revision != change.expected + 1 { return Err(InvalidChangeSet(RowRevision)); }
    if |snapshot.tasks| != |snapshot.remaining| { return Err(InvalidChangeSet(SnapshotShape)); }
    r := ApplyTaskLoop(snapshot.(row := change.row.value), change.run, change.tasks);
    if r.Err? { return; }
    r := ApplyAttemptLoop(r.s, change.run, change.attempts);
    if r.Err? { return; }
    var updated := r.s;
    var persisted := LastEventSequence(snapshot);
    var next, k := persisted + 1, 0;
    while k < |change.events|
      invariant 0 <= k <= |change.events| && next == persisted + 1 + k
      invariant EventsFollow(change.events[..k], persisted)
    {
      if change.events[k].sequence != next {
        return Err(InvalidChangeSet(EventSequence));
      }
      next, k := next + 1, k + 1;
    }
    assert change.events[..k] == change.events;
    var want := persisted;
    if |change.events| > 0 { want := change.events[|change.events| - 1].sequence; }
    if updated.row.lastEventSequence != want { return Err(InvalidChangeSet(LastSequence)); }
    return Ok(updated.(events := updated.events + change.events));
  }
}
