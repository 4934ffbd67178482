/** The relational store: a run spread over four tables, updated row by row. Applying a change set to the tables
    agrees with applying it to the snapshot the tables represent, and loading gives that snapshot back. */
module Relational {
  import opened Domain
  import opened ChangeSets

  datatype RunTableRow = RunTableRow(version: int, row: RunRow)
  datatype TaskTableRow = TaskTableRow(
    index: nat, status: TaskStatus, remaining: int, readyAt: Option<Time>, finishedAt: Option<Time>)

  datatype TaskID = TaskID(run: RunID, key: TaskKey)
  datatype AttemptID = AttemptID(run: RunID, key: TaskKey, number: int)
  datatype EventID = EventID(run: RunID, sequence: nat)
  datatype VersionID = VersionID(workflow: string, version: int)

  /** The tables by primary key; `versions` holds the canonical definitions. */
  datatype Database = Database(
    versions: map<VersionID, WorkflowDefinition>,
    runs: map<RunID, RunTableRow>,
    tasks: map<TaskID, TaskTableRow>,
    attempts: map<AttemptID, Attempt>,
    events: map<EventID, StateEvent>)

  datatype StoreError =
    | RunExists | RunNotFound | StoreConflict | StoreInvalid
    | DefinitionNotFound | TaskRowsBroken | AttemptRowsBroken | EventRowsBroken

  datatype Stored = Done(db: Database) | Failed(error: StoreError) {
    predicate IsFailure() { Failed? }
    function PropagateFailure(): Stored requires IsFailure() { this }
    function Extract(): Database requires !IsFailure() { db }
  }

  // ---------- what the tables represent ----------

  function TaskTableRowOf(s: RunSnapshot, i: nat): TaskTableRow
    requires i < |s.tasks| == |s.remaining|
  {
    TaskTableRow(i, s.tasks[i].status, s.remaining[i], s.tasks[i].readyAt, s.tasks[i].finishedAt)
  }

  /** The task rows of run `id` are those of `s`, and no others. */
  ghost predicate RepresentsTasks(db: Database, id: RunID, s: RunSnapshot) {
    && |s.tasks| == |s.remaining|
    && (forall i :: 0 <= i < |s.tasks| ==> s.tasks[i].key != "")
    && (forall i :: 0 <= i < |s.tasks| ==>
          TaskID(id, s.tasks[i].key) in db.tasks && db.tasks[TaskID(id, s.tasks[i].key)] == TaskTableRowOf(s, i))
    && (forall k :: TaskID(id, k) in db.tasks ==>
          var i := db.tasks[TaskID(id, k)].index; i < |s.tasks| && s.tasks[i].key == k)
  }

  /** The attempt rows of run `id` are the histories of `s`, numbered by position, and no others. */
  ghost predicate RepresentsAttempts(db: Database, id: RunID, s: RunSnapshot) {
    && (forall i :: 0 <= i < |s.tasks| ==> RepresentsHistory(db, id, s.tasks[i]))
    && (forall k, n :: AttemptID(id, k, n) in db.attempts ==> TaskID(id, k) in db.tasks)
  }

  ghost predicate RepresentsHistory(db: Database, id: RunID, t: TaskRun) {
    && (forall n :: AttemptID(id, t.key, n) in db.attempts <==> 1 <= n <= |t.attempts|)
    && (forall n :: 1 <= n <= |t.attempts| ==>
          db.attempts[AttemptID(id, t.key, n)] == t.attempts[n - 1] && t.attempts[n - 1].number == n)
  }

  ghost predicate RepresentsEvents(db: Database, id: RunID, s: RunSnapshot) {
    && (forall q: nat :: EventID(id, q) in db.events <==> 1 <= q <= |s.events|)
    && (forall q: nat :: 1 <= q <= |s.events| ==> db.events[EventID(id, q)] == s.events[q - 1] && s.events[q - 1].sequence == q)
  }

  ghost predicate RepresentsRow(db: Database, s: RunSnapshot) {
    var id := s.row.id;
    && id != "" && id in db.runs && db.runs[id] == RunTableRow(s.version, s.row)
    && VersionID(s.row.definitionID, s.row.definitionVersion) in db.versions
    && db.versions[VersionID(s.row.definitionID, s.row.definitionVersion)] == s.definition
    && s.row.lastEventSequence == |s.events|
  }

  ghost predicate Represents(db: Database, s: RunSnapshot) {
    && RepresentsRow(db, s) && RepresentsTasks(db, s.row.id, s)
    && RepresentsAttempts(db, s.row.id, s) && RepresentsEvents(db, s.row.id, s)
    && |s.tasks| == |s.definition.tasks|
  }

  /** Nothing outside run `id` differs. */
  ghost predicate OthersKept(a: Database, b: Database, id: RunID) {
    && b.versions == a.versions
    && (forall r :: r != id ==> (r in b.runs <==> r in a.runs) && (r in a.runs ==> b.runs[r] == a.runs[r]))
    && (forall t: TaskID :: t.run != id ==> (t in b.tasks <==> t in a.tasks) && (t in a.tasks ==> b.tasks[t] == a.tasks[t]))
    && (forall t: AttemptID :: t.run != id ==>
         (t in b.attempts <==> t in a.attempts) && (t in a.attempts ==> b.attempts[t] == a.attempts[t]))
    && (forall t: EventID :: t.run != id ==> (t in b.events <==> t in a.events) && (t in a.events ==> b.events[t] == a.events[t]))
  }

  // ---------- the shape check ----------

  predicate TaskShape(run: RunID, t: TaskRunChange) {
    t.run == run && t.index >= 0 && t.task.key != "" && t.task.attempts == [] && t.remaining >= 0
  }

  predicate TaskShapes(run: RunID, rows: seq<TaskRunChange>) {
    forall k :: 0 <= k < |rows| ==> TaskShape(run, rows[k]) && !TaskSeen(rows[..k], rows[k].index)
  }

  predicate AttemptShape(run: RunID, a: AttemptChange) {
    a.run == run && a.index >= 0 && a.key != "" && a.attempt.number > 0
  }

  predicate KeySeen(rows: seq<AttemptChange>, key: TaskKey, number: int) {
    exists k :: 0 <= k < |rows| && rows[k].key == key && rows[k].attempt.number == number
  }

  predicate AttemptShapes(run: RunID, rows: seq<AttemptChange>) {
    forall k :: 0 <= k < |rows| ==> AttemptShape(run, rows[k]) && !KeySeen(rows[..k], rows[k].key, rows[k].attempt.number)
  }

  /** New events are numbered on from the first one, up to the number in the run row. */
  predicate EventShape(row: RunRow, events: seq<StateEvent>) {
    |events| > 0 ==>
      events[0].sequence > 0 && EventsFollow(events, events[0].sequence - 1)
      && row.lastEventSequence == events[0].sequence + |events| - 1
  }

  predicate Shaped(change: ChangeSet) {
    && change.run != "" && change.row.Some? && change.row.value.id == change.run
    && change.row.value.revision == change.expected + 1
    && TaskShapes(change.run, change.tasks) && AttemptShapes(change.run, change.attempts)
    && EventShape(change.row.value, change.events)
  }

  // ---------- row updates ----------

  /** The number the stored events must have reached for the update to find its row. */
  function StoredLast(change: ChangeSet): nat
    requires Shaped(change)
  {
    if |change.events| > 0 then change.events[0].sequence - 1 else change.row.value.lastEventSequence
  }

  /** UPDATE workflow_runs: every column but the identity of the definition and the snapshot version. */
  function UpdateRun(db: Database, change: ChangeSet): Stored
    requires Shaped(change)
  {
    if change.run !in db.runs then Failed(RunNotFound)
    else
      var was := db.runs[change.run];
      if was.row.revision != change.expected then Failed(StoreConflict)
      else if was.row.lastEventSequence != StoredLast(change) then Failed(StoreInvalid)
      else
        var row := change.row.value.(definitionID := was.row.definitionID, definitionVersion := was.row.definitionVersion);
        Done(db.(runs := db.runs[change.run := was.(row := row)]))
  }

  function UpdateTask(db: Database, t: TaskRunChange): Stored {
    var id := TaskID(t.run, t.task.key);
    if id !in db.tasks || db.tasks[id].index != t.index then Failed(StoreInvalid)
    else
      var row := db.tasks[id].(status := t.task.status, remaining := t.remaining, readyAt := t.task.readyAt,
        finishedAt := t.task.finishedAt);
      Done(db.(tasks := db.tasks[id := row]))
  }

  /** `number` is one more than the highest stored one, or 1 without any. */
  predicate IsNextNumber(db: Database, run: RunID, key: TaskKey, number: int) {
    && (number == 1 || AttemptID(run, key, number - 1) in db.attempts)
    && forall a :: a in db.attempts && a.run == run && a.key == key ==> a.number < number
  }

  function WriteAttempt(db: Database, a: AttemptChange): Stored {
    var id := AttemptID(a.run, a.key, a.attempt.number);
    var owner := TaskID(a.run, a.key);
    var owned := owner in db.tasks && db.tasks[owner].index == a.index;
    match a.operation
    case ChangeInsert =>
      if !owned || !IsNextNumber(db, a.run, a.key, a.attempt.number) then Failed(StoreInvalid)
      else Done(db.(attempts := db.attempts[id := a.attempt]))
    case ChangeUpdate =>
      if !owned || id !in db.attempts then Failed(StoreInvalid)
      else Done(db.(attempts := db.attempts[id := a.attempt]))
    case ChangeOther(_) => Failed(StoreInvalid)
  }

  function UpdateTasks(db: Database, rows: seq<TaskRunChange>): Stored {
    if rows == [] then Done(db)
    else
      var db1 :- UpdateTasks(db, rows[..|rows| - 1]);
      UpdateTask(db1, rows[|rows| - 1])
  }

  function WriteAttempts(db: Database, rows: seq<AttemptChange>): Stored {
    if rows == [] then Done(db)
    else
      var db1 :- WriteAttempts(db, rows[..|rows| - 1]);
      WriteAttempt(db1, rows[|rows| - 1])
  }

  /** INSERT INTO state_events; a taken number violates the primary key. */
  function InsertEvents(db: Database, run: RunID, events: seq<StateEvent>): Stored {
    if events == [] then Done(db)
    else
      var db1 :- InsertEvents(db, run, events[..|events| - 1]);
      var e := events[|events| - 1];
      if EventID(run, e.sequence) in db1.events then Failed(StoreInvalid)
      else Done(db1.(events := db1.events[EventID(run, e.sequence) := e]))
  }

  function ApplyRows(db: Database, change: ChangeSet): Stored {
    if !Shaped(change) then Failed(StoreInvalid)
    else
      var db1 :- UpdateRun(db, change);
      var db2 :- UpdateTasks(db1, change.tasks);
      var db3 :- WriteAttempts(db2, change.attempts);
      InsertEvents(db3, change.run, change.events)
  }

  // ---------- one pass simulates the other ----------

  /** The parts the row passes work on. */
  ghost predicate Mirrors(db: Database, id: RunID, s: RunSnapshot) {
    RepresentsTasks(db, id, s) && RepresentsAttempts(db, id, s)
  }

  lemma {:induction false} KeysDiffer(db: Database, id: RunID, s: RunSnapshot, i: nat, j: nat)
    requires RepresentsTasks(db, id, s) && i < |s.tasks| && j < |s.tasks| && i != j
    ensures s.tasks[i].key != s.tasks[j].key
  {
  }

  lemma HistoryFrame(a: Database, b: Database, id: RunID, t: TaskRun, u: TaskRun)
    requires RepresentsHistory(a, id, t) && u.key == t.key && u.attempts == t.attempts
    requires forall n :: AttemptID(id, t.key, n) in b.attempts <==> AttemptID(id, t.key, n) in a.attempts
    requires forall n :: AttemptID(id, t.key, n) in a.attempts ==>
      b.attempts[AttemptID(id, t.key, n)] == a.attempts[AttemptID(id, t.key, n)]
    ensures RepresentsHistory(b, id, u)
  {
    forall n | 1 <= n <= |u.attempts| ensures b.attempts[AttemptID(id, u.key, n)] == u.attempts[n - 1]
      && u.attempts[n - 1].number == n {
      assert AttemptID(id, u.key, n) == AttemptID(id, t.key, n) && AttemptID(id, t.key, n) in a.attempts;
      assert a.attempts[AttemptID(id, t.key, n)] == t.attempts[n - 1];
    }
  }

  lemma {:induction false} TaskRowSimulates(db: Database, id: RunID, s: RunSnapshot, earlier: seq<TaskRunChange>,
      t: TaskRunChange)
    requires Mirrors(db, id, s)
    ensures var r := ApplyTaskRow(s, id, earlier, t);
      && (r.Ok? <==> TaskShape(id, t) && !TaskSeen(earlier, t.index) && UpdateTask(db, t).Done?)
      && (r.Ok? ==> Mirrors(UpdateTask(db, t).db, id, r.s) && r.s == s.(tasks := r.s.tasks, remaining := r.s.remaining))
  {
    var r := ApplyTaskRow(s, id, earlier, t);
    if r.Ok? {
      var db' := UpdateTask(db, t).db;
      forall i | 0 <= i < |s.tasks|
        ensures TaskID(id, s.tasks[i].key) in db'.tasks && db'.tasks[TaskID(id, s.tasks[i].key)] == TaskTableRowOf(r.s, i)
      {
        if i != t.index { KeysDiffer(db, id, s, i, t.index); }
      }
      forall i | 0 <= i < |s.tasks| ensures RepresentsHistory(db', id, r.s.tasks[i]) {
        HistoryFrame(db, db', id, s.tasks[i], r.s.tasks[i]);
      }
    }
  }

  lemma {:induction false} TaskRowsSimulate(db: Database, id: RunID, s: RunSnapshot, rows: seq<TaskRunChange>)
    requires Mirrors(db, id, s) && |s.tasks| == |s.remaining|
    ensures var r := ApplyTaskRows(s, id, rows);
      && (r.Ok? <==> TaskShapes(id, rows) && UpdateTasks(db, rows).Done?)
      && (r.Ok? ==> Mirrors(UpdateTasks(db, rows).db, id, r.s) && r.s == s.(tasks := r.s.tasks, remaining := r.s.remaining))
  {
    hide Mirrors, TaskShape, UpdateTask, ApplyTaskRow;
    if rows != [] {
      var n := |rows| - 1;
      TaskRowsSimulate(db, id, s, rows[..n]);
      TaskShapesPrefix(id, rows);
      var r := ApplyTaskRows(s, id, rows[..n]);
      if r.Ok? {
        TaskRowSimulates(UpdateTasks(db, rows[..n]).db, id, r.s, rows[..n], rows[n]);
      }
    }
  }

  lemma {:induction false} TaskShapesPrefix(id: RunID, rows: seq<TaskRunChange>)
    requires rows != []
    ensures var n := |rows| - 1;
      TaskShapes(id, rows) <==> TaskShapes(id, rows[..n]) && TaskShape(id, rows[n]) && !TaskSeen(rows[..n], rows[n].index)
  {
    hide TaskShape, TaskSeen;
    var n := |rows| - 1;
    forall k | 0 <= k < n ensures rows[..n][k] == rows[k] && rows[..n][..k] == rows[..k] {}
    if TaskShapes(id, rows[..n]) && TaskShape(id, rows[n]) && !TaskSeen(rows[..n], rows[n].index) {
      forall k | 0 <= k < |rows| ensures TaskShape(id, rows[k]) && !TaskSeen(rows[..k], rows[k].index) {
        if k < n { assert TaskShape(id, rows[..n][k]) && !TaskSeen(rows[..n][..k], rows[..n][k].index); }
      }
    }
  }

  /** Each row names the task at its index. */
  ghost predicate RowsKeyed(s: RunSnapshot, rows: seq<AttemptChange>) {
    forall k :: 0 <= k < |rows| ==> 0 <= rows[k].index < |s.tasks| && rows[k].key == s.tasks[rows[k].index].key
  }

  lemma {:induction false} SeenAgree(db: Database, id: RunID, s: RunSnapshot, rows: seq<AttemptChange>, index: nat, number: int)
    requires RepresentsTasks(db, id, s) && RowsKeyed(s, rows) && index < |s.tasks|
    ensures AttemptSeen(rows, index, number) <==> KeySeen(rows, s.tasks[index].key, number)
  {
    forall k | 0 <= k < |rows| ensures rows[k].index == index <==> rows[k].key == s.tasks[index].key {
      if rows[k].index != index { KeysDiffer(db, id, s, rows[k].index, index); }
    }
  }

  lemma {:induction false} NextNumber(db: Database, id: RunID, t: TaskRun, number: int)
    requires RepresentsHistory(db, id, t)
    ensures IsNextNumber(db, id, t.key, number) <==> number == |t.attempts| + 1
  {
    if |t.attempts| > 0 { assert AttemptID(id, t.key, |t.attempts|) in db.attempts; }
    if number == |t.attempts| + 1 {
      forall a | a in db.attempts && a.run == id && a.key == t.key ensures a.number < number {
        assert a == AttemptID(id, t.key, a.number);
      }
    }
  }

  lemma {:induction false} OwnerAgrees(db: Database, id: RunID, s: RunSnapshot, key: TaskKey, index: int)
    requires RepresentsTasks(db, id, s)
    ensures TaskID(id, key) in db.tasks && db.tasks[TaskID(id, key)].index == index
      <==> 0 <= index < |s.tasks| && s.tasks[index].key == key
  {
  }

  lemma {:induction false} HistoryWritten(db: Database, id: RunID, t: TaskRun, attempts: seq<Attempt>, a: Attempt)
    requires RepresentsHistory(db, id, t) && a.number > 0
    requires (a.number <= |t.attempts| && attempts == t.attempts[a.number - 1 := a])
      || (a.number == |t.attempts| + 1 && attempts == t.attempts + [a])
    ensures RepresentsHistory(db.(attempts := db.attempts[AttemptID(id, t.key, a.number) := a]), id, t.(attempts := attempts))
  {
    var db' := db.(attempts := db.attempts[AttemptID(id, t.key, a.number) := a]);
    forall n ensures AttemptID(id, t.key, n) in db'.attempts <==> 1 <= n <= |attempts| {
      assert AttemptID(id, t.key, n) in db'.attempts <==> AttemptID(id, t.key, n) in db.attempts || n == a.number;
    }
    forall n | 1 <= n <= |attempts| ensures db'.attempts[AttemptID(id, t.key, n)] == attempts[n - 1]
      && attempts[n - 1].number == n {
      if n != a.number {
        assert attempts[n - 1] == t.attempts[n - 1];
        assert AttemptID(id, t.key, n) in db.attempts;
      }
    }
  }

  lemma {:induction false} AttemptWritten(db: Database, id: RunID, s: RunSnapshot, index: nat, attempts: seq<Attempt>, a: Attempt)
    requires Mirrors(db, id, s) && index < |s.tasks| && a.number > 0
    requires (a.number <= |s.tasks[index].attempts| && attempts == s.tasks[index].attempts[a.number - 1 := a])
      || (a.number == |s.tasks[index].attempts| + 1 && attempts == s.tasks[index].attempts + [a])
    ensures Mirrors(db.(attempts := db.attempts[AttemptID(id, s.tasks[index].key, a.number) := a]), id,
                    s.(tasks := s.tasks[index := s.tasks[index].(attempts := attempts)]))
  {
    var db' := db.(attempts := db.attempts[AttemptID(id, s.tasks[index].key, a.number) := a]);
    var s' := s.(tasks := s.tasks[index := s.tasks[index].(attempts := attempts)]);
    forall i | 0 <= i < |s'.tasks| ensures RepresentsHistory(db', id, s'.tasks[i]) {
      assert RepresentsHistory(db, id, s.tasks[i]);
      var t := s'.tasks[i];
      if i != index {
        KeysDiffer(db, id, s, i, index);
        HistoryFrame(db, db', id, s.tasks[i], t);
      } else {
        HistoryWritten(db, id, s.tasks[i], attempts, a);
      }
    }
    assert forall i :: 0 <= i < |s'.tasks| ==> TaskTableRowOf(s', i) == TaskTableRowOf(s, i) && s'.tasks[i].key == s.tasks[i].key;
  }

  lemma {:induction false} AttemptRowSimulates(db: Database, id: RunID, s: RunSnapshot, earlier: seq<AttemptChange>,
      a: AttemptChange)
    requires Mirrors(db, id, s) && RowsKeyed(s, earlier)
    ensures var r := ApplyAttemptRow(s, id, earlier, a);
      && (r.Ok? <==> AttemptShape(id, a) && !KeySeen(earlier, a.key, a.attempt.number) && WriteAttempt(db, a).Done?)
      && (r.Ok? ==> Mirrors(WriteAttempt(db, a).db, id, r.s) && r.s == s.(tasks := r.s.tasks) && RowsKeyed(r.s, earlier + [a]))
  {
    hide RepresentsHistory, IsNextNumber, KeySeen, AttemptSeen;
    OwnerAgrees(db, id, s, a.key, a.index);
    if 0 <= a.index < |s.tasks| && s.tasks[a.index].key == a.key && a.run == id {
      var t, number := s.tasks[a.index], a.attempt.number;
      SeenAgree(db, id, s, earlier, a.index, number);
      NextNumber(db, id, t, number);
      StoredNumber(db, id, t, number);
      if ApplyAttemptRow(s, id, earlier, a).Ok? {
        hide Mirrors;
        AttemptWritten(db, id, s, a.index, ApplyAttemptRow(s, id, earlier, a).s.tasks[a.index].attempts, a.attempt);
      }
    }
  }

  lemma StoredNumber(db: Database, id: RunID, t: TaskRun, number: int)
    requires RepresentsHistory(db, id, t)
    ensures AttemptID(id, t.key, number) in db.attempts <==> 1 <= number <= |t.attempts|
    ensures 1 <= number <= |t.attempts| ==> t.attempts[number - 1].number == number
  {
  }

  lemma {:induction false} AttemptRowsSimulate(db: Database, id: RunID, s: RunSnapshot, rows: seq<AttemptChange>)
    requires Mirrors(db, id, s)
    ensures var r := ApplyAttemptRows(s, id, rows);
      && (r.Ok? <==> AttemptShapes(id, rows) && WriteAttempts(db, rows).Done?)
      && (r.Ok? ==> Mirrors(WriteAttempts(db, rows).db, id, r.s) && r.s == s.(tasks := r.s.tasks) && RowsKeyed(r.s, rows))
  {
    hide Mirrors, AttemptShape, WriteAttempt, ApplyAttemptRow;
    if rows != [] {
      var n := |rows| - 1;
      AttemptRowsSimulate(db, id, s, rows[..n]);
      AttemptShapesPrefix(id, rows);
      var r := ApplyAttemptRows(s, id, rows[..n]);
      if r.Ok? {
        AttemptRowSimulates(WriteAttempts(db, rows[..n]).db, id, r.s, rows[..n], rows[n]);
        assert rows[..n] + [rows[n]] == rows;
      }
    }
  }

  lemma {:induction false} AttemptShapesPrefix(id: RunID, rows: seq<AttemptChange>)
    requires rows != []
    ensures var n := |rows| - 1; AttemptShapes(id, rows) <==>
      AttemptShapes(id, rows[..n]) && AttemptShape(id, rows[n]) && !KeySeen(rows[..n], rows[n].key, rows[n].attempt.number)
  {
    hide AttemptShape, KeySeen;
    var n := |rows| - 1;
    forall k | 0 <= k < n ensures rows[..n][k] == rows[k] && rows[..n][..k] == rows[..k] {}
    if AttemptShapes(id, rows[..n]) && AttemptShape(id, rows[n]) && !KeySeen(rows[..n], rows[n].key, rows[n].attempt.number) {
      forall k | 0 <= k < |rows| ensures AttemptShape(id, rows[k]) && !KeySeen(rows[..k], rows[k].key, rows[k].attempt.number) {
        if k < n {
          assert AttemptShape(id, rows[..n][k])
            && !KeySeen(rows[..n][..k], rows[..n][k].key, rows[..n][k].attempt.number);
        }
      }
    }
  }

  // ---------- events and the run row ----------

  lemma {:induction false} EventWritten(db: Database, id: RunID, s: RunSnapshot, e: StateEvent)
    requires RepresentsEvents(db, id, s) && e.sequence == |s.events| + 1
    ensures EventID(id, e.sequence) !in db.events
    ensures RepresentsEvents(db.(events := db.events[EventID(id, e.sequence) := e]), id, s.(events := s.events + [e]))
  {
    var db', events := db.(events := db.events[EventID(id, e.sequence) := e]), s.events + [e];
    forall q: nat | 1 <= q <= |events| ensures db'.events[EventID(id, q)] == events[q - 1] && events[q - 1].sequence == q {
      if q != e.sequence { assert EventID(id, q) in db.events && events[q - 1] == s.events[q - 1]; }
    }
  }

  lemma {:induction false} EventsSimulate(db: Database, id: RunID, s: RunSnapshot, events: seq<StateEvent>)
    requires RepresentsEvents(db, id, s) && EventsFollow(events, |s.events|)
    ensures var d := InsertEvents(db, id, events);
      d.Done? && RepresentsEvents(d.db, id, s.(events := s.events + events)) && d.db == db.(events := d.db.events)
  {
    if events == [] {
      assert s.events + events == s.events;
    } else {
      var n := |events| - 1;
      EventsSimulate(db, id, s, events[..n]);
      var shorter := s.(events := s.events + events[..n]);
      assert s.events + events == shorter.events + [events[n]];
      EventWritten(InsertEvents(db, id, events[..n]).db, id, shorter, events[n]);
    }
  }

  /** The passes leave the other tables alone. */
  lemma {:induction false} TasksOnlyTable(db: Database, rows: seq<TaskRunChange>)
    ensures UpdateTasks(db, rows).Done? ==> UpdateTasks(db, rows).db == db.(tasks := UpdateTasks(db, rows).db.tasks)
  {
    if rows != [] { TasksOnlyTable(db, rows[..|rows| - 1]); }
  }

  lemma {:induction false} AttemptsOnlyTable(db: Database, rows: seq<AttemptChange>)
    ensures WriteAttempts(db, rows).Done? ==> WriteAttempts(db, rows).db == db.(attempts := WriteAttempts(db, rows).db.attempts)
  {
    if rows != [] { AttemptsOnlyTable(db, rows[..|rows| - 1]); }
  }

  /** The change set keeps the columns the relational update never writes. */
  predicate KeepsDefinition(s: RunSnapshot, change: ChangeSet) {
    change.row.Some? ==>
      change.row.value.definitionID == s.row.definitionID && change.row.value.definitionVersion == s.row.definitionVersion
  }

  /** The events and the run row fit the stored sequence numbers, in both forms. */
  lemma {:induction false} SequenceChecksAgree(s: RunSnapshot, change: ChangeSet)
    requires s.row.lastEventSequence == |s.events| == LastEventSequence(s) && change.row.Some?
    ensures EventsFollow(change.events, |s.events|) && change.row.value.lastEventSequence == |s.events| + |change.events|
      <==> EventShape(change.row.value, change.events)
           && |s.events| == (if |change.events| > 0 then change.events[0].sequence - 1 else change.row.value.lastEventSequence)
  {
  }

  lemma RepresentedLast(db: Database, s: RunSnapshot)
    requires Represents(db, s)
    ensures s.row.lastEventSequence == |s.events| == LastEventSequence(s)
    ensures s.row.id != "" && s.row.id in db.runs && db.runs[s.row.id].row == s.row && |s.tasks| == |s.remaining|
    ensures Mirrors(db, s.row.id, s) && RepresentsEvents(db, s.row.id, s)
  {
    if |s.events| > 0 { assert EventID(s.row.id, |s.events|) in db.events; }
  }

  /** The refinement: on tables that represent a snapshot, the row by row update succeeds if and only if the change
      set applies to the snapshot, and then the tables represent the new snapshot. */
  lemma {:induction false} RowsRefineApply(db: Database, s: RunSnapshot, change: ChangeSet)
    requires Represents(db, s) && change.run == s.row.id && KeepsDefinition(s, change)
    ensures ApplyRows(db, change).Done? <==> Apply(s, change).Ok?
    ensures ApplyRows(db, change).Done? ==> Represents(ApplyRows(db, change).db, Apply(s, change).s)
  {
    hide Represents, Mirrors, TaskShapes, AttemptShapes, EventShape, RepresentsEvents;
    RepresentedLast(db, s);
    if change.row.Some? && change.row.value.id == change.run && change.row.value.revision == change.expected + 1
      && change.expected == s.row.revision {
      SequenceChecksAgree(s, change);
      PassesAgree(db, s, change);
    }
  }

  // ---------- the columns the update leaves out ----------

  function WithRow(r: Applied, row: RunRow): Applied {
    match r
    case Ok(t) => Ok(t.(row := row))
    case Err(e) => Err(e)
  }

  lemma {:induction false} TaskRowsIgnoreRow(s: RunSnapshot, row: RunRow, run: RunID, rows: seq<TaskRunChange>)
    requires |s.tasks| == |s.remaining|
    ensures ApplyTaskRows(s.(row := row), run, rows) == WithRow(ApplyTaskRows(s, run, rows), row)
  {
    hide TaskSeen;
    if rows != [] { TaskRowsIgnoreRow(s, row, run, rows[..|rows| - 1]); }
  }

  lemma {:induction false} AttemptRowsIgnoreRow(s: RunSnapshot, row: RunRow, run: RunID, rows: seq<AttemptChange>)
    ensures ApplyAttemptRows(s.(row := row), run, rows) == WithRow(ApplyAttemptRows(s, run, rows), row)
  {
    hide AttemptSeen;
    if rows != [] { AttemptRowsIgnoreRow(s, row, run, rows[..|rows| - 1]); }
  }

  /** The change set with the stored definition columns instead of its own. */
  function WithStoredColumns(s: RunSnapshot, change: ChangeSet): ChangeSet
    requires change.row.Some?
  {
    change.(row := Some(StoredColumns(s, change.row.value)))
  }

  function StoredColumns(s: RunSnapshot, row: RunRow): RunRow {
    row.(definitionID := s.row.definitionID, definitionVersion := s.row.definitionVersion)
  }

  lemma {:induction false} ApplyIgnoresColumns(s: RunSnapshot, change: ChangeSet)
    requires change.row.Some?
    ensures Apply(s, WithStoredColumns(s, change)) ==
      (match Apply(s, change) case Ok(t) => Ok(t.(row := StoredColumns(s, t.row))) case Err(e) => Err(e))
  {
    hide ApplyTaskRows, ApplyAttemptRows, EventsFollow;
    if |s.tasks| == |s.remaining| {
      var a, b := change.row.value, StoredColumns(s, change.row.value);
      TaskRowsIgnoreRow(s, a, change.run, change.tasks);
      TaskRowsIgnoreRow(s, b, change.run, change.tasks);
      var r := ApplyTaskRows(s, change.run, change.tasks);
      if r.Ok? {
        AttemptRowsIgnoreRow(r.s, a, change.run, change.attempts);
        AttemptRowsIgnoreRow(r.s, b, change.run, change.attempts);
      }
    }
  }

  lemma {:induction false} RowsIgnoreColumns(db: Database, s: RunSnapshot, change: ChangeSet)
    requires Represents(db, s) && change.run == s.row.id && change.row.Some?
    ensures ApplyRows(db, WithStoredColumns(s, change)) == ApplyRows(db, change)
  {
    hide UpdateTasks, WriteAttempts, InsertEvents, TaskShapes, AttemptShapes, EventsFollow;
  }

  /** Whatever columns a change set carries, both forms accept the same ones; but the tables represent the new snapshot
      exactly if it left the definition of the run alone, because the relational update never writes that. */
  lemma {:induction false} RowsRefineExactly(db: Database, s: RunSnapshot, change: ChangeSet)
    requires Represents(db, s) && change.run == s.row.id
    ensures ApplyRows(db, change).Done? <==> Apply(s, change).Ok?
    ensures ApplyRows(db, change).Done? ==> (Represents(ApplyRows(db, change).db, Apply(s, change).s)
      <==> KeepsDefinition(s, change))
  {
    hide ApplyRows, Apply, RepresentsTasks, RepresentsAttempts, RepresentsEvents;
    if change.row.None? {
      RowsRefineApply(db, s, change);
    } else {
      RowsIgnoreColumns(db, s, change);
      ApplyIgnoresColumns(s, change);
      RowsRefineApply(db, s, WithStoredColumns(s, change));
      if Apply(s, change).Ok? { AppliedRow(s, change); }
    }
  }

  /** They do part: any accepted change set is accepted by both forms with another definition version as well, and then the
      tables no longer represent the snapshot. */
  lemma {:induction false} OtherVersionParts(db: Database, s: RunSnapshot, change: ChangeSet)
    requires Represents(db, s) && change.run == s.row.id && Apply(s, change).Ok?
    ensures change.row.Some?
    ensures var other := change.(row := Some(change.row.value.(definitionVersion := s.row.definitionVersion + 1)));
      Apply(s, other).Ok? && ApplyRows(db, other).Done? && !Represents(ApplyRows(db, other).db, Apply(s, other).s)
  {
    hide ApplyRows, Apply, Represents;
    AppliedRow(s, change);
    var other := change.(row := Some(change.row.value.(definitionVersion := s.row.definitionVersion + 1)));
    ApplyIgnoresColumns(s, change);
    ApplyIgnoresColumns(s, other);
    SameStoredColumns(s, change.row.value, s.row.definitionVersion + 1);
    RowsRefineExactly(db, s, other);
  }

  lemma SameStoredColumns(s: RunSnapshot, row: RunRow, version: int)
    ensures StoredColumns(s, row.(definitionVersion := version)) == StoredColumns(s, row)
  {
  }

  lemma AppliedRow(s: RunSnapshot, change: ChangeSet)
    requires Apply(s, change).Ok?
    ensures change.row.Some? && Apply(s, change).s.row == change.row.value
  {
  }

  lemma {:induction false} PassesAgree(db: Database, s: RunSnapshot, change: ChangeSet)
    requires Represents(db, s) && change.run == s.row.id && KeepsDefinition(s, change)
    requires change.row.Some? && change.row.value.id == change.run && change.row.value.revision == change.expected + 1
    requires change.expected == s.row.revision
    ensures ApplyRows(db, change).Done? <==> Apply(s, change).Ok?
    ensures ApplyRows(db, change).Done? ==> Represents(ApplyRows(db, change).db, Apply(s, change).s)
  {
    hide Mirrors, TaskShapes, AttemptShapes, EventShape, RepresentsEvents, LastEventSequence, EventsFollow, UpdateTasks,
      WriteAttempts, InsertEvents, ApplyTaskRows, ApplyAttemptRows;
    RepresentedLast(db, s);
    SequenceChecksAgree(s, change);
    var id := s.row.id;
    var db1 := db.(runs := db.runs[id := RunTableRow(s.version, change.row.value)]);
    var s1 := s.(row := change.row.value);
    MirrorsFrame(db, db1, id, s, s1);
    TaskRowsSimulate(db1, id, s1, change.tasks);
    TasksOnlyTable(db1, change.tasks);
    if ApplyTaskRows(s1, id, change.tasks).Ok? {
      var s2, db2 := ApplyTaskRows(s1, id, change.tasks).s, UpdateTasks(db1, change.tasks).db;
      AttemptRowsSimulate(db2, id, s2, change.attempts);
      AttemptsOnlyTable(db2, change.attempts);
      if ApplyAttemptRows(s2, id, change.attempts).Ok? && EventsFollow(change.events, |s.events|) {
        var s3, db3 := ApplyAttemptRows(s2, id, change.attempts).s, WriteAttempts(db2, change.attempts).db;
        EventsFrame(db, db3, id, s, s3);
        EventsSimulate(db3, id, s3, change.events);
        var db4 := InsertEvents(db3, id, change.events).db;
        MirrorsFrame(db3, db4, id, s3, s3.(events := s3.events + change.events));
      }
    }
  }

  lemma MirrorsFrame(a: Database, b: Database, id: RunID, s: RunSnapshot, t: RunSnapshot)
    requires Mirrors(a, id, s) && b.tasks == a.tasks && b.attempts == a.attempts
    requires t.tasks == s.tasks && t.remaining == s.remaining
    ensures Mirrors(b, id, t)
  {
    forall i | 0 <= i < |t.tasks| ensures RepresentsHistory(b, id, t.tasks[i]) {
      assert RepresentsHistory(a, id, s.tasks[i]);
      HistoryFrame(a, b, id, s.tasks[i], t.tasks[i]);
    }
    forall i | 0 <= i < |t.tasks| ensures TaskTableRowOf(t, i) == TaskTableRowOf(s, i) {}
  }

  lemma EventsFrame(a: Database, b: Database, id: RunID, s: RunSnapshot, t: RunSnapshot)
    requires RepresentsEvents(a, id, s) && t.events == s.events
    requires forall q: nat :: EventID(id, q) in b.events <==> EventID(id, q) in a.events
    requires forall q: nat :: EventID(id, q) in a.events ==> b.events[EventID(id, q)] == a.events[EventID(id, q)]
    ensures RepresentsEvents(b, id, t)
  {
    forall q: nat | 1 <= q <= |t.events| ensures b.events[EventID(id, q)] == t.events[q - 1] && t.events[q - 1].sequence == q {
      assert EventID(id, q) in a.events && a.events[EventID(id, q)] == s.events[q - 1];
    }
  }

  // ---------- other runs ----------

  lemma {:induction false} TasksKeepOthers(db: Database, id: RunID, rows: seq<TaskRunChange>)
    requires forall k :: 0 <= k < |rows| ==> rows[k].run == id
    ensures UpdateTasks(db, rows).Done? ==> OthersKept(db, UpdateTasks(db, rows).db, id)
  {
    if rows != [] { TasksKeepOthers(db, id, rows[..|rows| - 1]); }
  }

  lemma {:induction false} AttemptsKeepOthers(db: Database, id: RunID, rows: seq<AttemptChange>)
    requires forall k :: 0 <= k < |rows| ==> rows[k].run == id
    ensures WriteAttempts(db, rows).Done? ==> OthersKept(db, WriteAttempts(db, rows).db, id)
  {
    if rows != [] { AttemptsKeepOthers(db, id, rows[..|rows| - 1]); }
  }

  lemma {:induction false} EventsKeepOthers(db: Database, id: RunID, events: seq<StateEvent>)
    ensures InsertEvents(db, id, events).Done? ==> OthersKept(db, InsertEvents(db, id, events).db, id)
  {
    if events != [] { EventsKeepOthers(db, id, events[..|events| - 1]); }
  }

  /** A committed change set touches the rows of its own run only. */
  lemma {:induction false} ApplyKeepsOthers(db: Database, change: ChangeSet)
    ensures ApplyRows(db, change).Done? ==> OthersKept(db, ApplyRows(db, change).db, change.run)
  {
    hide UpdateTasks, WriteAttempts, InsertEvents;
    if ApplyRows(db, change).Done? {
      var id := change.run;
      var db1 := UpdateRun(db, change).db;
      TasksKeepOthers(db1, id, change.tasks);
      var db2 := UpdateTasks(db1, change.tasks).db;
      AttemptsKeepOthers(db2, id, change.attempts);
      var db3 := WriteAttempts(db2, change.attempts).db;
      EventsKeepOthers(db3, id, change.events);
      OthersTransitive(db, db1, db2, id);
      OthersTransitive(db, db2, db3, id);
      OthersTransitive(db, db3, ApplyRows(db, change).db, id);
    }
  }

  lemma OthersTransitive(a: Database, b: Database, c: Database, id: RunID)
    requires OthersKept(a, b, id) && OthersKept(b, c, id)
    ensures OthersKept(a, c, id)
  {
  }

  lemma {:induction false} OthersStayRepresented(a: Database, b: Database, id: RunID, t: RunSnapshot)
    requires OthersKept(a, b, id) && Represents(a, t) && t.row.id != id
    ensures Represents(b, t)
  {
    var r := t.row.id;
    assert forall k :: TaskID(r, k).run != id;
    assert forall k, n :: AttemptID(r, k, n).run != id;
    assert forall q :: EventID(r, q).run != id;
    forall i | 0 <= i < |t.tasks| ensures RepresentsHistory(b, r, t.tasks[i]) {
      assert RepresentsHistory(a, r, t.tasks[i]);
      HistoryFrame(a, b, r, t.tasks[i], t.tasks[i]);
    }
    EventsFrame(a, b, r, t, t);
  }
}
