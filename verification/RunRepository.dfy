/** The repository over the tables: transactions that update rows in loops and leave nothing behind when they
    fail, and loading a run from its ordered rows. */
module RunRepository {
  import opened Domain
  import opened Finite
  import opened RunTheorems
  import opened ChangeSets
  import opened Relational
  import opened RunTables

  datatype LoadResult = Found(s: RunSnapshot) | Broken(error: StoreError)

  function ErrorOf(r: Stored): Option<StoreError> {
    match r
    case Done(_) => None
    case Failed(e) => Some(e)
  }

  // ---------- query results ----------

  /** SELECT ... FROM task_runs WHERE run_id = id ORDER BY task_index. */
  ghost predicate TaskQuery(db: Database, id: RunID, rows: seq<TaskID>) {
    && NoDuplicates(rows)
    && (forall k :: 0 <= k < |rows| ==> rows[k] in db.tasks && rows[k].run == id)
    && (forall t :: t in db.tasks && t.run == id ==> t in rows)
    && (forall j, k :: 0 <= j < k < |rows| ==> db.tasks[rows[j]].index <= db.tasks[rows[k]].index)
  }

  /** SELECT ... FROM attempts JOIN task_runs ... WHERE run_id = id ORDER BY task_index, attempt_number. */
  ghost predicate AttemptQuery(db: Database, id: RunID, rows: seq<AttemptID>) {
    && NoDuplicates(rows)
    && (forall k :: 0 <= k < |rows| ==> rows[k] in db.attempts && rows[k].run == id && Owner(rows[k]) in db.tasks)
    && (forall a :: a in db.attempts && a.run == id && Owner(a) in db.tasks ==> a in rows)
    && (forall j, k :: 0 <= j < k < |rows| ==>
          var p, q := db.tasks[Owner(rows[j])].index, db.tasks[Owner(rows[k])].index;
          p < q || (p == q && rows[j].number <= rows[k].number))
  }

  /** SELECT ... FROM state_events WHERE run_id = id ORDER BY sequence. */
  ghost predicate EventQuery(db: Database, id: RunID, rows: seq<EventID>) {
    && NoDuplicates(rows)
    && (forall k :: 0 <= k < |rows| ==> rows[k] in db.events && rows[k].run == id)
    && (forall e :: e in db.events && e.run == id ==> e in rows)
    && (forall j, k :: 0 <= j < k < |rows| ==> rows[j].sequence <= rows[k].sequence)
  }

  // ---------- a represented run is determined by its rows ----------

  lemma {:induction false} SameTasks(db: Database, id: RunID, s: RunSnapshot, t: RunSnapshot)
    requires RepresentsTasks(db, id, s) && RepresentsTasks(db, id, t)
    ensures |s.tasks| == |t.tasks| && s.remaining == t.remaining
    ensures forall i :: 0 <= i < |s.tasks| ==> SameTaskRow(s.tasks[i], t.tasks[i])
  {
    forall i | 0 <= i < |s.tasks| ensures i < |t.tasks| && t.tasks[i].key == s.tasks[i].key
      && TaskTableRowOf(s, i) == TaskTableRowOf(t, i) {
      assert TaskID(id, s.tasks[i].key) in db.tasks;
    }
    if |t.tasks| > 0 { assert db.tasks[TaskID(id, t.tasks[|t.tasks| - 1].key)].index == |t.tasks| - 1; }
    if |s.tasks| > 0 { assert db.tasks[TaskID(id, s.tasks[|s.tasks| - 1].key)].index == |s.tasks| - 1; }
    forall i | 0 <= i < |s.tasks| ensures s.remaining[i] == t.remaining[i] {
      assert TaskTableRowOf(s, i) == TaskTableRowOf(t, i);
    }
  }

  lemma {:induction false} SameHistory(db: Database, id: RunID, t: TaskRun, u: TaskRun)
    requires t.key == u.key && RepresentsHistory(db, id, t) && RepresentsHistory(db, id, u)
    ensures t.attempts == u.attempts
  {
    assert AttemptID(id, t.key, |t.attempts|) in db.attempts <==> 1 <= |t.attempts|;
    assert AttemptID(id, t.key, |u.attempts|) in db.attempts <==> 1 <= |u.attempts|;
    forall k | 0 <= k < |t.attempts| ensures t.attempts[k] == u.attempts[k] {
      assert db.attempts[AttemptID(id, t.key, k + 1)] == t.attempts[k];
    }
  }

  lemma {:induction false} SameEvents(db: Database, id: RunID, s: RunSnapshot, t: RunSnapshot)
    requires RepresentsEvents(db, id, s) && RepresentsEvents(db, id, t)
    ensures s.events == t.events
  {
    assert EventID(id, |s.events|) in db.events <==> 1 <= |s.events|;
    assert EventID(id, |t.events|) in db.events <==> 1 <= |t.events|;
    forall k | 0 <= k < |s.events| ensures s.events[k] == t.events[k] {
      assert db.events[EventID(id, k + 1)] == s.events[k];
    }
  }

  /** The tables determine the run: no two snapshots with the same id are represented. */
  lemma {:induction false} RepresentsUnique(db: Database, s: RunSnapshot, t: RunSnapshot)
    requires Represents(db, s) && Represents(db, t) && s.row.id == t.row.id
    ensures s == t
  {
    var id := s.row.id;
    SameTasks(db, id, s, t);
    SameEvents(db, id, s, t);
    forall i | 0 <= i < |s.tasks| ensures s.tasks[i] == t.tasks[i] {
      assert SameTaskRow(s.tasks[i], t.tasks[i]);
      assert RepresentsHistory(db, id, s.tasks[i]) && RepresentsHistory(db, id, t.tasks[i]);
      SameHistory(db, id, s.tasks[i], t.tasks[i]);
    }
  }

  // ---------- ordered rows ----------

  /** A sorted listing of exactly 0, ..., n-1 has k at position k. */
  lemma {:induction false} SortedAll(index: seq<nat>, n: nat, k: nat)
    requires NoDuplicates(index) && (forall v :: v in index <==> 0 <= v < n)
    requires forall i, j :: 0 <= i < j < |index| ==> index[i] <= index[j]
    requires k < |index|
    ensures index[k] == k
  {
    forall j | 0 <= j < k ensures index[j] == j { SortedAll(index, n, j); }
    if k > 0 { assert index[k - 1] != index[k]; }
    assert index[k] in index;
    assert k in index;
    var p :| 0 <= p < |index| && index[p] == k;
  }

  lemma {:induction false} SortedAllLength(index: seq<nat>, n: nat)
    requires NoDuplicates(index) && (forall v :: v in index <==> 0 <= v < n)
    ensures |index| == n
  {
    AtMostAll(index, n);
  }

  function Indices(db: Database, rows: seq<TaskID>): seq<nat>
    requires forall k :: 0 <= k < |rows| ==> rows[k] in db.tasks
  {
    if rows == [] then [] else Indices(db, rows[..|rows| - 1]) + [db.tasks[rows[|rows| - 1]].index]
  }

  lemma {:induction false} IndicesAt(db: Database, rows: seq<TaskID>)
    requires forall k :: 0 <= k < |rows| ==> rows[k] in db.tasks
    ensures |Indices(db, rows)| == |rows| && forall k :: 0 <= k < |rows| ==> Indices(db, rows)[k] == db.tasks[rows[k]].index
  {
    if rows != [] { IndicesAt(db, rows[..|rows| - 1]); }
  }

  lemma {:induction false} TaskQueryExact(db: Database, id: RunID, rows: seq<TaskID>, s: RunSnapshot)
    requires TaskQuery(db, id, rows) && RepresentsTasks(db, id, s)
    ensures |rows| == |s.tasks|
    ensures forall k :: 0 <= k < |rows| ==> rows[k] == TaskID(id, s.tasks[k].key) && db.tasks[rows[k]] == TaskTableRowOf(s, k)
  {
    var index := Indices(db, rows);
    IndicesAt(db, rows);
    forall k | 0 <= k < |rows| ensures rows[k] == TaskID(id, rows[k].key) && index[k] < |s.tasks|
      && s.tasks[index[k]].key == rows[k].key {
      assert rows[k] == TaskID(id, rows[k].key);
    }
    forall v: nat | v < |s.tasks| ensures v in index {
      var t := TaskID(id, s.tasks[v].key);
      assert t in db.tasks && t in rows;
      var k :| 0 <= k < |rows| && rows[k] == t;
      assert index[k] == v;
    }
    SortedAllLength(index, |s.tasks|);
    forall k | 0 <= k < |rows| ensures rows[k] == TaskID(id, s.tasks[k].key) && db.tasks[rows[k]] == TaskTableRowOf(s, k) {
      SortedAll(index, |s.tasks|, k);
    }
  }

  lemma {:induction false} EventQueryExact(db: Database, id: RunID, rows: seq<EventID>, s: RunSnapshot, k: nat)
    requires EventQuery(db, id, rows) && RepresentsEvents(db, id, s) && k < |rows|
    ensures rows[k] == EventID(id, k + 1) && k < |s.events| && db.events[rows[k]] == s.events[k]
  {
    forall j: nat | j < k ensures rows[j] == EventID(id, j + 1) { EventQueryExact(db, id, rows, s, j); }
    assert rows[k] == EventID(id, rows[k].sequence);
    var q := rows[k].sequence;
    assert 1 <= q <= |s.events|;
    if k > 0 { assert rows[k - 1] != rows[k]; }
    assert q >= k + 1;
    var e := EventID(id, k + 1);
    assert e in db.events && e in rows;
    var p :| 0 <= p < |rows| && rows[p] == e;
  }

  lemma {:induction false} EventQueryLength(db: Database, id: RunID, rows: seq<EventID>, s: RunSnapshot)
    requires EventQuery(db, id, rows) && RepresentsEvents(db, id, s)
    ensures |rows| == |s.events|
  {
    if |rows| > 0 { EventQueryExact(db, id, rows, s, |rows| - 1); }
    if |rows| < |s.events| {
      var e := EventID(id, |rows| + 1);
      assert e in db.events && e in rows;
      var p: nat :| 0 <= p < |rows| && rows[p] == e;
      EventQueryExact(db, id, rows, s, p);
    }
  }

  /** What the attempt loop has read after the rows before `k`: a prefix of every history. */
  ghost predicate HistoriesRead(id: RunID, rows: seq<AttemptID>, k: nat, s: RunSnapshot, tasks: seq<TaskRun>)
    requires k <= |rows|
  {
    && |tasks| == |s.tasks|
    && forall i :: 0 <= i < |tasks| ==> HistoryRead(id, rows[..k], s.tasks[i], tasks[i])
  }

  ghost predicate HistoryRead(id: RunID, before: seq<AttemptID>, t: TaskRun, u: TaskRun) {
    && u == t.(attempts := u.attempts) && |u.attempts| <= |t.attempts| && u.attempts == t.attempts[..|u.attempts|]
    && forall n :: AttemptID(id, t.key, n) in before <==> 1 <= n <= |u.attempts|
  }

  lemma {:induction false} NextAttemptRow(db: Database, id: RunID, rows: seq<AttemptID>, k: nat, s: RunSnapshot,
      tasks: seq<TaskRun>)
    requires Mirrors(db, id, s) && AttemptQuery(db, id, rows) && k < |rows| && HistoriesRead(id, rows, k, s, tasks)
    ensures var i := db.tasks[Owner(rows[k])].index;
      && i < |tasks| && tasks[i].key == rows[k].key && rows[k].number == |tasks[i].attempts| + 1
      && rows[k].number <= |s.tasks[i].attempts| && db.attempts[rows[k]] == s.tasks[i].attempts[rows[k].number - 1]
      && db.attempts[rows[k]].number == rows[k].number
  {
    var i := db.tasks[Owner(rows[k])].index;
    assert Owner(rows[k]) == TaskID(id, rows[k].key);
    assert i < |s.tasks| && s.tasks[i].key == rows[k].key;
    var n, m := rows[k].number, |tasks[i].attempts|;
    assert rows[k] == AttemptID(id, s.tasks[i].key, n);
    assert RepresentsHistory(db, id, s.tasks[i]) && HistoryRead(id, rows[..k], s.tasks[i], tasks[i]);
    NextIsFirstUnread(db, id, rows, k, s.tasks[i], tasks[i]);
  }

  lemma {:induction false} NextIsFirstUnread(db: Database, id: RunID, rows: seq<AttemptID>, k: nat, t: TaskRun, u: TaskRun)
    requires AttemptQuery(db, id, rows) && k < |rows| && rows[k] == AttemptID(id, t.key, rows[k].number)
    requires RepresentsHistory(db, id, t) && HistoryRead(id, rows[..k], t, u)
    ensures rows[k].number == |u.attempts| + 1 && rows[k].number <= |t.attempts|
  {
    assert forall j :: 0 <= j < k ==> rows[..k][j] == rows[j];
    assert rows[k] !in rows[..k];
    var next := AttemptID(id, t.key, |u.attempts| + 1);
    assert next in db.attempts && Owner(next) == Owner(rows[k]);
    assert next in rows;
    var p :| 0 <= p < |rows| && rows[p] == next;
    assert next !in rows[..k];
  }

  lemma {:induction false} NextHistories(db: Database, id: RunID, rows: seq<AttemptID>, k: nat, s: RunSnapshot,
      tasks: seq<TaskRun>)
    requires Mirrors(db, id, s) && AttemptQuery(db, id, rows) && k < |rows| && HistoriesRead(id, rows, k, s, tasks)
    ensures var i := db.tasks[Owner(rows[k])].index;
      && i < |tasks|
      && HistoriesRead(id, rows, k + 1, s, tasks[i := tasks[i].(attempts := tasks[i].attempts + [db.attempts[rows[k]]])])
  {
    NextAttemptRow(db, id, rows, k, s, tasks);
    var i := db.tasks[Owner(rows[k])].index;
    assert rows[..k + 1] == rows[..k] + [rows[k]];
    assert rows[k] == AttemptID(id, s.tasks[i].key, rows[k].number);
    var tasks' := tasks[i := tasks[i].(attempts := tasks[i].attempts + [db.attempts[rows[k]]])];
    forall j | 0 <= j < |tasks| ensures HistoryRead(id, rows[..k + 1], s.tasks[j], tasks'[j]) {
      assert HistoryRead(id, rows[..k], s.tasks[j], tasks[j]);
      if j != i { KeysDiffer(db, id, s, i, j); }
    }
  }

  lemma {:induction false} AllHistories(db: Database, id: RunID, rows: seq<AttemptID>, s: RunSnapshot, tasks: seq<TaskRun>)
    requires Mirrors(db, id, s) && AttemptQuery(db, id, rows) && HistoriesRead(id, rows, |rows|, s, tasks)
    ensures tasks == s.tasks
  {
    assert rows[..|rows|] == rows;
    forall i | 0 <= i < |tasks| ensures tasks[i] == s.tasks[i] {
      var t := s.tasks[i];
      assert RepresentsHistory(db, id, t) && HistoryRead(id, rows, t, tasks[i]);
      if |t.attempts| > 0 {
        var last := AttemptID(id, t.key, |t.attempts|);
        assert last in db.attempts && Owner(last) in db.tasks;
        assert last in rows;
      }
      assert t.attempts[..|t.attempts|] == t.attempts;
    }
  }

  // ---------- what was loaded is represented ----------

  /** `tasks` and `remaining` are the task rows in order. */
  ghost predicate TasksRead(db: Database, rows: seq<TaskID>, tasks: seq<TaskRun>, remaining: seq<int>)
    requires forall k :: 0 <= k < |rows| ==> rows[k] in db.tasks
  {
    && |tasks| == |remaining| <= |rows|
    && forall k :: 0 <= k < |tasks| ==>
         var row := db.tasks[rows[k]];
         row.index == k && remaining[k] == row.remaining
           && tasks[k] == TaskRun(rows[k].key, row.status, [], row.readyAt, row.finishedAt)
  }

  /** The history of `t` is what the attempt rows read so far say. */
  ghost predicate ReadSoFar(db: Database, id: RunID, before: seq<AttemptID>, t: TaskRun) {
    && (forall n :: AttemptID(id, t.key, n) in before <==> 1 <= n <= |t.attempts|)
    && forall n :: 1 <= n <= |t.attempts| ==> StoredAttempt(db, AttemptID(id, t.key, n), t.attempts[n - 1])
  }

  predicate StoredAttempt(db: Database, a: AttemptID, attempt: Attempt) {
    a in db.attempts && db.attempts[a] == attempt && attempt.number == a.number
  }

  /** Apart from their histories the tasks are as they were, and the histories are what was read. */
  ghost predicate AttemptsRead(db: Database, id: RunID, before: seq<AttemptID>, bare: seq<TaskRun>, tasks: seq<TaskRun>) {
    && |tasks| == |bare|
    && forall i :: 0 <= i < |tasks| ==> tasks[i] == bare[i].(attempts := tasks[i].attempts) && ReadSoFar(db, id, before, tasks[i])
  }

  lemma NothingRead(db: Database, id: RunID, bare: seq<TaskRun>)
    requires forall i :: 0 <= i < |bare| ==> bare[i].attempts == []
    ensures AttemptsRead(db, id, [], bare, bare)
  {
  }

  lemma NoHistoryRead(id: RunID, rows: seq<AttemptID>, s: RunSnapshot, bare: seq<TaskRun>)
    requires |bare| == |s.tasks| && forall i :: 0 <= i < |bare| ==> bare[i] == s.tasks[i].(attempts := [])
    ensures HistoriesRead(id, rows, 0, s, bare)
  {
  }

  lemma {:induction false} OneMoreAttempt(db: Database, id: RunID, rows: seq<AttemptID>, k: nat, bare: seq<TaskRun>,
      tasks: seq<TaskRun>, i: nat)
    requires AttemptQuery(db, id, rows) && KeyColumns(db) && k < |rows| && AttemptsRead(db, id, rows[..k], bare, tasks)
    requires forall a, b :: 0 <= a < b < |bare| ==> bare[a].key != bare[b].key
    requires i < |tasks| && tasks[i].key == rows[k].key && db.attempts[rows[k]].number == |tasks[i].attempts| + 1
    ensures AttemptsRead(db, id, rows[..k
      + 1], bare, tasks[i := tasks[i].(attempts := tasks[i].attempts + [db.attempts[rows[k]]])])
  {
    var tasks' := tasks[i := tasks[i].(attempts := tasks[i].attempts + [db.attempts[rows[k]]])];
    assert rows[..k + 1] == rows[..k] + [rows[k]];
    forall j | 0 <= j < |tasks| ensures ReadSoFar(db, id, rows[..k + 1], tasks'[j]) {
      assert ReadSoFar(db, id, rows[..k], tasks[j]) && tasks[j].key == bare[j].key;
      if j == i {
        HistoryGrows(db, id, rows[..k], rows[k], tasks[i]);
      } else {
        assert tasks'[j] == tasks[j] && tasks[j].key != rows[k].key;
        HistoryWaits(db, id, rows[..k], rows[k], tasks[j]);
      }
    }
  }

  lemma {:induction false} HistoryGrows(db: Database, id: RunID, before: seq<AttemptID>, a: AttemptID, t: TaskRun)
    requires ReadSoFar(db, id, before, t) && KeyColumns(db) && a in db.attempts && a.run == id && a.key == t.key
    requires db.attempts[a].number == |t.attempts| + 1
    ensures ReadSoFar(db, id, before + [a], t.(attempts := t.attempts + [db.attempts[a]]))
  {
    assert a == AttemptID(id, t.key, |t.attempts| + 1);
    forall n | 1 <= n <= |t.attempts| ensures StoredAttempt(db, AttemptID(id, t.key, n), (t.attempts + [db.attempts[a]])[n - 1]) {
      assert StoredAttempt(db, AttemptID(id, t.key, n), t.attempts[n - 1]);
    }
  }

  lemma {:induction false} HistoryWaits(db: Database, id: RunID, before: seq<AttemptID>, a: AttemptID, t: TaskRun)
    requires ReadSoFar(db, id, before, t) && a.key != t.key
    ensures ReadSoFar(db, id, before + [a], t)
  {
  }

  /** A snapshot that was loaded from consistent tables is represented by them. */
  lemma {:induction false} LoadedIsRepresented(db: Database, id: RunID, taskRows: seq<TaskID>,
      attemptRows: seq<AttemptID>, eventRows: seq<EventID>, bare: seq<TaskRun>, s: RunSnapshot)
    requires Consistent(db) && TaskQuery(db, id, taskRows) && AttemptQuery(db, id, attemptRows) && EventQuery(db, id, eventRows)
    requires TasksRead(db, taskRows, bare, s.remaining) && |bare| == |taskRows|
    requires AttemptsRead(db, id, attemptRows, bare, s.tasks)
    requires |s.events| == |eventRows| == s.row.lastEventSequence && |s.tasks| == |s.definition.tasks|
    requires forall k :: 0 <= k < |eventRows| ==> eventRows[k].sequence == k + 1 && s.events[k] == db.events[eventRows[k]]
    requires id in db.runs && db.runs[id] == RunTableRow(s.version, s.row)
    requires VersionID(s.row.definitionID, s.row.definitionVersion) in db.versions
    requires db.versions[VersionID(s.row.definitionID, s.row.definitionVersion)] == s.definition
    ensures s.row.id == id && Represents(db, s)
  {
    LoadedTasks(db, id, taskRows, bare, s);
    LoadedAttempts(db, id, attemptRows, bare, s);
    LoadedEvents(db, id, eventRows, s);
  }

  lemma {:induction false} LoadedTasks(db: Database, id: RunID, rows: seq<TaskID>, bare: seq<TaskRun>, s: RunSnapshot)
    requires Consistent(db) && TaskQuery(db, id, rows) && TasksRead(db, rows, bare, s.remaining) && |bare| == |rows| == |s.tasks|
    requires forall i :: 0 <= i < |bare| ==> s.tasks[i] == bare[i].(attempts := s.tasks[i].attempts)
    ensures RepresentsTasks(db, id, s)
  {
    forall i | 0 <= i < |s.tasks|
      ensures s.tasks[i].key != "" && TaskID(id, s.tasks[i].key) in db.tasks
        && db.tasks[TaskID(id, s.tasks[i].key)] == TaskTableRowOf(s, i)
    {
      assert rows[i] == TaskID(id, bare[i].key);
    }
    forall k | TaskID(id, k) in db.tasks ensures var i := db.tasks[TaskID(id, k)].index; i < |s.tasks| && s.tasks[i].key == k {
      assert TaskID(id, k) in rows;
    }
  }

  lemma {:induction false} LoadedAttempts(db: Database, id: RunID, rows: seq<AttemptID>, bare: seq<TaskRun>, s: RunSnapshot)
    requires Consistent(db) && AttemptQuery(db, id, rows) && AttemptsRead(db, id, rows, bare, s.tasks)
    ensures RepresentsAttempts(db, id, s)
  {
    forall i | 0 <= i < |s.tasks| ensures RepresentsHistory(db, id, s.tasks[i]) {
      var t := s.tasks[i];
      assert ReadSoFar(db, id, rows, t);
      forall n ensures AttemptID(id, t.key, n) in db.attempts <==> 1 <= n <= |t.attempts| {
        if AttemptID(id, t.key, n) in db.attempts { assert Owner(AttemptID(id, t.key, n)) in db.tasks; }
      }
      forall n | 1 <= n <= |t.attempts| ensures db.attempts[AttemptID(id, t.key, n)] == t.attempts[n - 1]
        && t.attempts[n - 1].number == n {
        assert StoredAttempt(db, AttemptID(id, t.key, n), t.attempts[n - 1]);
      }
    }
    forall k, n | AttemptID(id, k, n) in db.attempts ensures TaskID(id, k) in db.tasks {
      assert Owner(AttemptID(id, k, n)) in db.tasks;
    }
  }

  lemma {:induction false} LoadedEvents(db: Database, id: RunID, rows: seq<EventID>, s: RunSnapshot)
    requires Consistent(db) && EventQuery(db, id, rows) && |s.events| == |rows|
    requires forall k :: 0 <= k < |rows| ==> rows[k].sequence == k + 1 && s.events[k] == db.events[rows[k]]
    ensures RepresentsEvents(db, id, s)
  {
    forall k | 0 <= k < |rows| ensures rows[k] == EventID(id, k + 1) {}
    forall q: nat ensures EventID(id, q) in db.events <==> 1 <= q <= |s.events| {
      if EventID(id, q) in db.events { assert EventID(id, q) in rows; }
      if 1 <= q <= |s.events| { assert rows[q - 1] == EventID(id, q); }
    }
    forall q: nat | 1 <= q <= |s.events| ensures db.events[EventID(id, q)] == s.events[q - 1] && s.events[q - 1].sequence == q {
      assert rows[q - 1] == EventID(id, q);
    }
  }

  lemma {:induction false} TaskKeysDiffer(db: Database, id: RunID, rows: seq<TaskID>, tasks: seq<TaskRun>, remaining: seq<int>)
    requires TaskQuery(db, id, rows) && TasksRead(db, rows, tasks, remaining)
    ensures forall a, b :: 0 <= a < b < |tasks| ==> tasks[a].key != tasks[b].key
  {
    forall a, b | 0 <= a < b < |tasks| ensures tasks[a].key != tasks[b].key {
      assert rows[a] != rows[b];
    }
  }

  // ---------- a first snapshot ----------

  predicate ValidInitial(s: RunSnapshot) {
    && s.version > 0 && s.row.id != "" && s.row.definitionID == s.definition.id && s.row.definitionVersion > 0
    && s.row.status.WorkflowPending? && s.row.revision == 0
    && |s.tasks| == |s.definition.tasks| == |s.remaining|
    && (forall i :: 0 <= i < |s.tasks| ==> s.tasks[i].key == s.definition.tasks[i].key && s.remaining[i] >= 0)
    && EventsFollow(s.events, 0) && s.row.lastEventSequence == |s.events|
  }

  predicate DistinctTaskKeys(tasks: seq<TaskRun>) {
    && (forall i :: 0 <= i < |tasks| ==> tasks[i].key != "")
    && (forall i, j :: 0 <= i < j < |tasks| ==> tasks[i].key != tasks[j].key)
  }

  /** Exactly when a run can be created. */
  predicate InitialAccepted(db: Database, s: RunSnapshot) {
    && ValidInitial(s) && s.row.id !in db.runs && AttemptsNumbered(s)
    && VersionID(s.row.definitionID, s.row.definitionVersion) in db.versions
    && db.versions[VersionID(s.row.definitionID, s.row.definitionVersion)] == s.definition
  }

  /** `s` with its first `n` tasks only. */
  function FirstTasks(s: RunSnapshot, n: nat): RunSnapshot
    requires n <= |s.tasks| == |s.remaining|
  {
    s.(tasks := s.tasks[..n], remaining := s.remaining[..n])
  }

  /** `s` with its first `n` tasks and the first `m` attempts of the next. */
  function FirstAttempts(s: RunSnapshot, n: nat, m: nat): RunSnapshot
    requires n < |s.tasks| == |s.remaining| && m <= |s.tasks[n].attempts|
  {
    s.(tasks := s.tasks[..n] + [s.tasks[n].(attempts := s.tasks[n].attempts[..m])], remaining := s.remaining[..n + 1])
  }

  lemma {:induction false} TaskInserted(db: Database, id: RunID, s: RunSnapshot, i: nat)
    requires i < |s.tasks| == |s.remaining| && DistinctTaskKeys(s.tasks)
    requires Mirrors(db, id, FirstTasks(s, i)) && AttemptsNumbered(FirstTasks(s, i))
    ensures TaskID(id, s.tasks[i].key) !in db.tasks
    ensures Mirrors(db.(tasks := db.tasks[TaskID(id, s.tasks[i].key) := TaskTableRowOf(s, i)]), id, FirstAttempts(s, i, 0))
    ensures AttemptsNumbered(FirstAttempts(s, i, 0))
  {
    var db' := db.(tasks := db.tasks[TaskID(id, s.tasks[i].key) := TaskTableRowOf(s, i)]);
    var before, after := FirstTasks(s, i), FirstAttempts(s, i, 0);
    forall j | 0 <= j < i ensures after.tasks[j] == before.tasks[j] && TaskTableRowOf(after, j) == TaskTableRowOf(before, j) {}
    forall j | 0 <= j <= i ensures RepresentsHistory(db', id, after.tasks[j]) {
      if j < i { assert RepresentsHistory(db, id, before.tasks[j]); }
    }
  }

  /** Inserting attempt `k` of task `i` goes ahead exactly when it carries the next number. */
  lemma {:induction false} NextInsert(db: Database, id: RunID, s: RunSnapshot, i: nat, k: nat)
    requires i < |s.tasks| == |s.remaining| && k < |s.tasks[i].attempts|
    requires Mirrors(db, id, FirstAttempts(s, i, k)) && AttemptsNumbered(FirstAttempts(s, i, k))
    ensures var a := s.tasks[i].attempts[k];
      && (IsNextNumber(db, id, s.tasks[i].key, a.number) <==> a.number == k + 1)
      && (a.number == k + 1 ==>
            Mirrors(db.(attempts := db.attempts[AttemptID(id, s.tasks[i].key, a.number) := a]), id, FirstAttempts(s, i, k + 1))
            && AttemptsNumbered(FirstAttempts(s, i, k + 1)))
  {
    var t, a, mid := s.tasks[i], s.tasks[i].attempts[k], FirstAttempts(s, i, k);
    assert RepresentsHistory(db, id, mid.tasks[i]);
    NextNumber(db, id, mid.tasks[i], a.number);
    assert t.attempts[..k + 1] == t.attempts[..k] + [a];
    if a.number == k + 1 {
      AttemptWritten(db, id, mid, i, t.attempts[..k + 1], a);
      var next := FirstAttempts(s, i, k + 1);
      assert next == mid.(tasks := mid.tasks[i := mid.tasks[i].(attempts := t.attempts[..k + 1])]);
      forall j, n | 0 <= j < |next.tasks| && 0 <= n < |next.tasks[j].attempts| ensures next.tasks[j].attempts[n].number == n + 1 {
        if j < i { assert next.tasks[j] == mid.tasks[j]; } else if n < k { assert mid.tasks[i].attempts[n] == t.attempts[n]; }
      }
    }
  }

  lemma AllTasksFirst(s: RunSnapshot)
    requires |s.tasks| == |s.remaining|
    ensures FirstTasks(s, |s.tasks|) == s
  {
    assert s.tasks[..|s.tasks|] == s.tasks && s.remaining[..|s.tasks|] == s.remaining;
  }

  lemma AllAttemptsFirst(s: RunSnapshot, i: nat)
    requires i < |s.tasks| == |s.remaining|
    ensures FirstAttempts(s, i, |s.tasks[i].attempts|) == FirstTasks(s, i + 1)
  {
    var t := s.tasks[i];
    assert t.attempts[..|t.attempts|] == t.attempts;
  }

  lemma UnnumberedTask(s: RunSnapshot, i: nat)
    requires i < |s.tasks| && exists k :: 0 <= k < |s.tasks[i].attempts| && s.tasks[i].attempts[k].number != k + 1
    ensures !AttemptsNumbered(s)
  {
  }

  lemma NoRowsYet(a: Database, b: Database, id: RunID, s: RunSnapshot)
    requires ForeignKeys(a) && id !in a.runs && b == a.(runs := b.runs) && |s.tasks| == |s.remaining|
    ensures Mirrors(b, id, FirstTasks(s, 0)) && AttemptsNumbered(FirstTasks(s, 0))
  {
  }

  lemma NoEventsYet(a: Database, b: Database, id: RunID, s: RunSnapshot)
    requires ForeignKeys(a) && id !in a.runs && b.events == a.events
    ensures RepresentsEvents(b, id, s.(events := []))
  {
  }

  lemma NumberedFromOne(s: RunSnapshot)
    requires ValidInitial(s)
    ensures EventsFollow(s.events, |s.(events := []).events|)
  {
  }

  // ---------- the repository ----------

  class Repository {
    var db: Database

    constructor (start: Database)
      ensures db == start
    {
      db := start;
    }

    // ---------- creating a run ----------

    /** Checks a first snapshot, then inserts its rows in one transaction. */
    method Create(s: RunSnapshot) returns (err: Option<StoreError>)
      requires Consistent(db)
      modifies this
      ensures Consistent(db)
      ensures err.None? <==> InitialAccepted(old(db), s)
      ensures err.None? ==> Represents(db, s) && OthersKept(old(db), db, s.row.id)
      ensures err.Some? ==> db == old(db)
      ensures s.row.id in old(db).runs && ValidInitial(s) ==> err == Some(RunExists) || err == Some(DefinitionNotFound)
    {
      if !ValidInitial(s) { return Some(StoreInvalid); }
      var version := VersionID(s.row.definitionID, s.row.definitionVersion);
      if version !in db.versions || db.versions[version] != s.definition { return Some(DefinitionNotFound); }
      var id := s.row.id;
      if id in db.runs { return Some(RunExists); }
      var r := InsertTaskLoop(db.(runs := db.runs[id := RunTableRow(s.version, s.row)]), s);
      if r.Failed? { return ErrorOf(r); }
      NumberedFromOne(s);
      NoEventsYet(db, r.db, id, s);
      assert s.events == [] + s.events;
      EventsSimulate(r.db, id, s.(events := []), s.events);
      EventsKeepOthers(r.db, id, s.events);
      MirrorsFrame(r.db, InsertEvents(r.db, id, s.events).db, id, s, s);
      r := InsertEventLoop(r.db, id, s.events);
      if r.Failed? { return ErrorOf(r); }
      CreateKeepsConsistent(db, r.db, s);
      db := r.db;
      return None;
    }

    method InsertTaskLoop(start: Database, s: RunSnapshot) returns (r: Stored)
      requires ForeignKeys(db) && s.row.id !in db.runs && |s.tasks| == |s.remaining|
      requires start == db.(runs := start.runs) && OthersKept(db, start, s.row.id)
      requires DistinctTaskKeys(s.tasks)
      ensures r.Done? <==> AttemptsNumbered(s)
      ensures r.Done? ==> Mirrors(r.db, s.row.id, s) && OthersKept(db, r.db, s.row.id)
      ensures r.Done? ==> r.db == start.(tasks := r.db.tasks, attempts := r.db.attempts)
    {
      hide Mirrors, AttemptsNumbered, FirstTasks, FirstAttempts, DistinctTaskKeys;
      var id := s.row.id;
      NoRowsYet(db, start, id, s);
      r := Done(start);
      var i := 0;
      while i < |s.tasks|
        invariant 0 <= i <= |s.tasks| && r.Done?
        invariant r.db == start.(tasks := r.db.tasks, attempts := r.db.attempts) && OthersKept(db, r.db, id)
        invariant Mirrors(r.db, id, FirstTasks(s, i)) && AttemptsNumbered(FirstTasks(s, i))
      {
        var t := s.tasks[i];
        TaskInserted(r.db, id, s, i);
        var tx := r.db.(tasks := r.db.tasks[TaskID(id, t.key) := TaskTableRowOf(s, i)]);
        r := InsertAttemptLoop(tx, s, i);
        if r.Failed? {
          UnnumberedTask(s, i);
          return;
        }
        OthersTransitive(db, tx, r.db, id);
        i := i + 1;
      }
      AllTasksFirst(s);
    }

    method InsertAttemptLoop(start: Database, s: RunSnapshot, i: nat) returns (r: Stored)
      requires i < |s.tasks| == |s.remaining| && DistinctTaskKeys(s.tasks)
      requires Mirrors(start, s.row.id, FirstAttempts(s, i, 0)) && AttemptsNumbered(FirstAttempts(s, i, 0))
      ensures r.Failed? ==> exists k :: 0 <= k < |s.tasks[i].attempts| && s.tasks[i].attempts[k].number != k + 1
      ensures r.Done? ==> r.db == start.(attempts := r.db.attempts) && OthersKept(start, r.db, s.row.id)
      ensures r.Done? ==> Mirrors(r.db, s.row.id, FirstTasks(s, i + 1)) && AttemptsNumbered(FirstTasks(s, i + 1))
    {
      hide Mirrors, AttemptsNumbered, FirstAttempts, FirstTasks, DistinctTaskKeys, IsNextNumber;
      var id, t := s.row.id, s.tasks[i];
      var tx := start;
      var k := 0;
      while k < |t.attempts|
        invariant 0 <= k <= |t.attempts|
        invariant tx == start.(attempts := tx.attempts) && OthersKept(start, tx, id)
        invariant Mirrors(tx, id, FirstAttempts(s, i, k)) && AttemptsNumbered(FirstAttempts(s, i, k))
      {
        var a := t.attempts[k];
        NextInsert(tx, id, s, i, k);
        if !IsNextNumber(tx, id, t.key, a.number) { return Failed(StoreInvalid); }
        tx := tx.(attempts := tx.attempts[AttemptID(id, t.key, a.number) := a]);
        k := k + 1;
      }
      AllAttemptsFirst(s, i);
      return Done(tx);
    }

    // ---------- committing a change set ----------

    method ShapeOfTasks(run: RunID, rows: seq<TaskRunChange>) returns (ok: bool)
      ensures ok <==> TaskShapes(run, rows)
    {
      var seen: set<int> := {};
      var k := 0;
      while k < |rows|
        invariant 0 <= k <= |rows| && seen == set j | 0 <= j < k :: rows[j].index
        invariant forall j :: 0 <= j < k ==> TaskShape(run, rows[j]) && !TaskSeen(rows[..j], rows[j].index)
      {
        var t := rows[k];
        if t.run != run || t.index < 0 || t.task.key == "" || |t.task.attempts| != 0 || t.remaining < 0 { return false; }
        assert t.index in seen <==> TaskSeen(rows[..k], t.index);
        if t.index in seen { return false; }
        seen := seen + {t.index};
        k := k + 1;
      }
      return true;
    }

    method ShapeOfAttempts(run: RunID, rows: seq<AttemptChange>) returns (ok: bool)
      ensures ok <==> AttemptShapes(run, rows)
    {
      var seen: set<(TaskKey, int)> := {};
      var k := 0;
      while k < |rows|
        invariant 0 <= k <= |rows| && seen == set j | 0 <= j < k :: (rows[j].key, rows[j].attempt.number)
        invariant forall j :: 0 <= j < k ==>
          AttemptShape(run, rows[j]) && !KeySeen(rows[..j], rows[j].key, rows[j].attempt.number)
      {
        var a := rows[k];
        if a.run != run || a.index < 0 || a.key == "" || a.attempt.number <= 0 { return false; }
        assert (a.key, a.attempt.number) in seen <==> KeySeen(rows[..k], a.key, a.attempt.number);
        if (a.key, a.attempt.number) in seen { return false; }
        seen := seen + {(a.key, a.attempt.number)};
        k := k + 1;
      }
      return true;
    }

    method ValidateChangeSetShape(change: ChangeSet) returns (ok: bool)
      ensures ok <==> Shaped(change)
    {
      if change.run == "" || change.row.None? { return false; }
      var row := change.row.value;
      if row.id != change.run { return false; }
      if row.revision != change.expected + 1 { return false; }
      ok := ShapeOfTasks(change.run, change.tasks);
      if !ok { return; }
      ok := ShapeOfAttempts(change.run, change.attempts);
      if !ok { return; }
      if |change.events| > 0 {
        var expected := change.events[0].sequence;
        if expected == 0 { return false; }
        var k := 0;
        while k < |change.events|
          invariant 0 <= k <= |change.events| && expected == change.events[0].sequence + k
          invariant EventsFollow(change.events[..k], change.events[0].sequence - 1)
        {
          if change.events[k].sequence != expected { return false; }
          expected, k := expected + 1, k + 1;
        }
        assert change.events[..k] == change.events;
        if row.lastEventSequence != expected - 1 { return false; }
      }
      return true;
    }

    /** The transaction: the run row, then task rows, attempt rows and events in loops on a working copy; an
        error rolls everything back. */
    method ApplyChange(change: ChangeSet) returns (err: Option<StoreError>)
      modifies this
      ensures Consistent(old(db)) ==> Consistent(db)
      ensures match ApplyRows(old(db), change)
              case Done(d) => err.None? && db == d
              case Failed(e) => err == Some(e) && db == old(db)
    {
      if Consistent(db) { ApplyKeepsConsistent(db, change); }
      var ok := ValidateChangeSetShape(change);
      if !ok { return Some(StoreInvalid); }
      var tx := db;
      var r := UpdateRun(tx, change);
      if r.Failed? { return ErrorOf(r); }
      r := UpdateTaskLoop(r.db, change.tasks);
      if r.Failed? { return ErrorOf(r); }
      r := WriteAttemptLoop(r.db, change.attempts);
      if r.Failed? { return ErrorOf(r); }
      r := InsertEventLoop(r.db, change.run, change.events);
      if r.Failed? { return ErrorOf(r); }
      db := r.db;
      return None;
    }

    method UpdateTaskLoop(tx: Database, rows: seq<TaskRunChange>) returns (r: Stored)
      ensures r == UpdateTasks(tx, rows)
    {
      r := Done(tx);
      var k := 0;
      while k < |rows|
        invariant 0 <= k <= |rows| && r.Done? && r == UpdateTasks(tx, rows[..k])
      {
        TasksStop(tx, rows, k + 1);
        assert rows[..k + 1][..k] == rows[..k];
        r := UpdateTask(r.db, rows[k]);
        if r.Failed? { return; }
        k := k + 1;
      }
      assert rows[..k] == rows;
    }

    method WriteAttemptLoop(tx: Database, rows: seq<AttemptChange>) returns (r: Stored)
      ensures r == WriteAttempts(tx, rows)
    {
      r := Done(tx);
      var k := 0;
      while k < |rows|
        invariant 0 <= k <= |rows| && r.Done? && r == WriteAttempts(tx, rows[..k])
      {
        AttemptsStop(tx, rows, k + 1);
        assert rows[..k + 1][..k] == rows[..k];
        r := WriteAttempt(r.db, rows[k]);
        if r.Failed? { return; }
        k := k + 1;
      }
      assert rows[..k] == rows;
    }

    method InsertEventLoop(tx: Database, run: RunID, events: seq<StateEvent>) returns (r: Stored)
      ensures r == InsertEvents(tx, run, events)
    {
      r := Done(tx);
      var k := 0;
      while k < |events|
        invariant 0 <= k <= |events| && r.Done? && r == InsertEvents(tx, run, events[..k])
      {
        EventsStop(tx, run, events, k + 1);
        assert events[..k + 1][..k] == events[..k];
        var id := EventID(run, events[k].sequence);
        if id in r.db.events { return Failed(StoreInvalid); }
        r := Done(r.db.(events := r.db.events[id := events[k]]));
        k := k + 1;
      }
      assert events[..k] == events;
    }

    /** On a represented run the transaction is the application of the change set: it commits exactly what can be
        applied to the snapshot, and the tables then represent the result, exactly if the definition was left alone. */
    method ApplyToRun(change: ChangeSet, ghost s: RunSnapshot) returns (err: Option<StoreError>)
      requires Represents(db, s) && change.run == s.row.id
      modifies this
      ensures err.None? <==> Apply(s, change).Ok?
      ensures err.None? ==> (Represents(db, Apply(s, change).s) <==> KeepsDefinition(s, change))
      ensures err.Some? ==> db == old(db)
      ensures change.expected != s.row.revision ==> err.Some?
      ensures forall t :: Represents(old(db), t) && t.row.id != s.row.id ==> Represents(db, t)
    {
      RowsRefineExactly(db, s, change);
      ApplyKeepsOthers(db, change);
      forall t | Represents(db, t) && t.row.id != s.row.id && ApplyRows(db, change).Done?
        ensures Represents(ApplyRows(db, change).db, t)
      {
        OthersStayRepresented(db, ApplyRows(db, change).db, s.row.id, t);
      }
      err := ApplyChange(change);
    }

    // ---------- loading ----------

    /** Rebuilds a run from its ordered rows: on consistent tables it finds exactly the snapshot they represent, if any. */
    method LoadSnapshot(id: RunID, taskRows: seq<TaskID>, attemptRows: seq<AttemptID>, eventRows: seq<EventID>)
      returns (r: LoadResult)
      requires TaskQuery(db, id, taskRows) && AttemptQuery(db, id, attemptRows) && EventQuery(db, id, eventRows)
      ensures forall s :: Represents(db, s) && s.row.id == id ==> r == Found(s)
      ensures Consistent(db) && r.Found? ==> Represents(db, r.s) && r.s.row.id == id
      ensures id !in db.runs ==> r == Broken(RunNotFound)
    {
      if id !in db.runs { return Broken(RunNotFound); }
      var stored := db.runs[id];
      var version := VersionID(stored.row.definitionID, stored.row.definitionVersion);
      if version !in db.versions { return Broken(RunNotFound); }
      ghost var known := exists s :: Represents(db, s) && s.row.id == id;
      ghost var s := RunSnapshot(stored.version, db.versions[version], stored.row, [], [], []);
      if known { s :| Represents(db, s) && s.row.id == id; }
      var bare, remaining, ok := LoadTasks(id, taskRows, known, s);
      if !ok || |bare| != |db.versions[version].tasks| { return Broken(TaskRowsBroken); }
      TaskKeysDiffer(db, id, taskRows, bare, remaining);
      var tasks;
      tasks, ok := LoadAttempts(id, attemptRows, bare, known, s);
      if !ok { return Broken(AttemptRowsBroken); }
      var events;
      events, ok := LoadEvents(id, eventRows, known, s);
      if !ok || stored.row.lastEventSequence != |events| { return Broken(EventRowsBroken); }
      r := Found(RunSnapshot(stored.version, db.versions[version], stored.row, tasks, remaining, events));
      if Consistent(db) { LoadedIsRepresented(db, id, taskRows, attemptRows, eventRows, bare, r.s); }
      if known {
        assert r.s == s;
        forall t | Represents(db, t) && t.row.id == id ensures t == s { RepresentsUnique(db, s, t); }
      }
    }

    method LoadTasks(id: RunID, rows: seq<TaskID>, ghost known: bool, ghost s: RunSnapshot)
      returns (tasks: seq<TaskRun>, remaining: seq<int>, ok: bool)
      requires TaskQuery(db, id, rows) && (known ==> RepresentsTasks(db, id, s))
      ensures TasksRead(db, rows, tasks, remaining) && (ok ==> |tasks| == |rows|)
      ensures known ==> ok && remaining == s.remaining && |tasks| == |s.tasks|
      ensures known ==> forall i :: 0 <= i < |tasks| ==> tasks[i] == s.tasks[i].(attempts := [])
    {
      tasks, remaining := [], [];
      if known { TaskQueryExact(db, id, rows, s); }
      var k := 0;
      while k < |rows|
        invariant 0 <= k <= |rows| && |tasks| == k && TasksRead(db, rows, tasks, remaining)
        invariant known ==> forall i :: 0 <= i < k ==> tasks[i] == s.tasks[i].(attempts := []) && remaining[i] == s.remaining[i]
      {
        var row := db.tasks[rows[k]];
        if row.index != |tasks| { return tasks, remaining, false; }
        tasks := tasks + [TaskRun(rows[k].key, row.status, [], row.readyAt, row.finishedAt)];
        remaining := remaining + [row.remaining];
        k := k + 1;
      }
      return tasks, remaining, true;
    }

    method LoadAttempts(id: RunID, rows: seq<AttemptID>, bare: seq<TaskRun>, ghost known: bool, ghost s: RunSnapshot)
      returns (tasks: seq<TaskRun>, ok: bool)
      requires AttemptQuery(db, id, rows) && forall a, b :: 0 <= a < b < |bare| ==> bare[a].key != bare[b].key
      requires forall i :: 0 <= i < |bare| ==> bare[i].attempts == []
      requires known ==> Mirrors(db, id, s) && |bare| == |s.tasks| && forall i :: 0 <= i < |bare| ==>
        bare[i] == s.tasks[i].(attempts := [])
      ensures known ==> ok && tasks == s.tasks
      ensures KeyColumns(db) && ok ==> AttemptsRead(db, id, rows, bare, tasks)
    {
      hide KeyColumns, ReadSoFar, HistoryRead;
      tasks := bare;
      NothingRead(db, id, bare);
      if known { NoHistoryRead(id, rows, s, bare); }
      var k := 0;
      while k < |rows|
        invariant 0 <= k <= |rows| && (known ==> HistoriesRead(id, rows, k, s, tasks))
        invariant KeyColumns(db) ==> AttemptsRead(db, id, rows[..k], bare, tasks)
      {
        if known {
          NextAttemptRow(db, id, rows, k, s, tasks);
          NextHistories(db, id, rows, k, s, tasks);
        }
        var index := db.tasks[Owner(rows[k])].index;
        if index >= |tasks| || tasks[index].key != rows[k].key { return tasks, false; }
        var attempt := db.attempts[rows[k]];
        if attempt.number != |tasks[index].attempts| + 1 { return tasks, false; }
        if KeyColumns(db) { OneMoreAttempt(db, id, rows, k, bare, tasks, index); }
        tasks := tasks[index := tasks[index].(attempts := tasks[index].attempts + [attempt])];
        k := k + 1;
      }
      assert rows[..k] == rows;
      if known { AllHistories(db, id, rows, s, tasks); }
      return tasks, true;
    }

    method LoadEvents(id: RunID, rows: seq<EventID>, ghost known: bool, ghost s: RunSnapshot)
      returns (events: seq<StateEvent>, ok: bool)
      requires EventQuery(db, id, rows) && (known ==> RepresentsEvents(db, id, s))
      ensures known ==> ok && events == s.events
      ensures ok ==> |events| == |rows| && forall k :: 0 <= k < |rows| ==>
        rows[k].sequence == k + 1 && events[k] == db.events[rows[k]]
    {
      events := [];
      if known { EventQueryLength(db, id, rows, s); }
      var k := 0;
      while k < |rows|
        invariant 0 <= k <= |rows| && |events| == k && (known ==> k <= |s.events| && events == s.events[..k])
        invariant forall j :: 0 <= j < k ==> rows[j].sequence == j + 1 && events[j] == db.events[rows[j]]
      {
        if known { EventQueryExact(db, id, rows, s, k); }
        if rows[k].sequence != |events| + 1 { return events, false; }
        events := events + [db.events[rows[k]]];
        k := k + 1;
      }
      return events, true;
    }

    // ---------- cancellation ----------

    /** Records the first cancellation request of an unfinished run, in the run row alone, and gives the run back. A run
        that cannot be loaded again keeps the request from being recorded. */
    method RequestCancel(id: RunID, at: Time, taskRows: seq<TaskID>, attemptRows: seq<AttemptID>, eventRows: seq<EventID>)
      returns (row: Option<RunRow>, err: Option<StoreError>)
      requires TaskQuery(db, id, taskRows) && AttemptQuery(db, id, attemptRows) && EventQuery(db, id, eventRows)
      modifies this
      ensures id !in old(db).runs ==> err == Some(RunNotFound)
      ensures err.Some? ==> db == old(db) && row.None?
      ensures Consistent(old(db)) ==> Consistent(db)
      ensures forall s :: Represents(old(db), s) && s.row.id == id ==>
        var after := RequestedSnapshot(s, at); err.None? && Represents(db, after) && row == Some(after.row)
      ensures Consistent(old(db)) && err.None? ==> exists s :: Represents(old(db), s) && s.row.id == id
    {
      hide Consistent, Represents, TaskQuery, AttemptQuery, EventQuery, RequestedSnapshot;
      RepresentedRuns(db);
      if id !in db.runs { return None, Some(RunNotFound); }
      var before := db;
      var row' := db.runs[id].row;
      if !WorkflowTerminal(row'.status) && row'.cancelRequestedAt.None? {
        row' := row'.(cancelRequestedAt := Some(at), revision := row'.revision + 1);
        db := db.(runs := db.runs[id := db.runs[id].(row := row')]);
      }
      RowSwapped(before, db, id, row', taskRows, attemptRows, eventRows);
      forall s | Represents(before, s) && s.row.id == id ensures Represents(db, RequestedSnapshot(s, at))
        && RequestedSnapshot(s, at).row == row' {
        RequestedRow(before, s, at);
        RequestRepresented(before, db, id, s, at);
      }
      var r := LoadSnapshot(id, taskRows, attemptRows, eventRows);
      forall s | Represents(before, s) && s.row.id == id ensures r == Found(RequestedSnapshot(s, at)) {
        RequestedRow(before, s, at);
        assert Represents(db, RequestedSnapshot(s, at));
      }
      match r {
        case Broken(e) =>
          db := before;
          return None, Some(e);
        case Found(found) =>
          if Consistent(before) { RequestUndone(before, db, id, found, before.runs[id].row); }
          return Some(found.row), None;
      }
    }
  }

  /** Only the row of run `id` differs: the tables stay consistent, and queries of the other tables give the same. */
  lemma RowSwapped(a: Database, b: Database, id: RunID, row: RunRow, taskRows: seq<TaskID>, attemptRows: seq<AttemptID>,
      eventRows: seq<EventID>)
    requires RowReplaced(a, b, id, row) && row.id == a.runs[id].row.id
    ensures Consistent(a) ==> Consistent(b) && row.id == id
    ensures TaskQuery(a, id, taskRows) ==> TaskQuery(b, id, taskRows)
    ensures AttemptQuery(a, id, attemptRows) ==> AttemptQuery(b, id, attemptRows)
    ensures EventQuery(a, id, eventRows) ==> EventQuery(b, id, eventRows)
  {
    if Consistent(a) { RowKeepsConsistent(a, id, row); }
  }

  /** The requested row is that of the requested snapshot. */
  lemma RequestedRow(db: Database, s: RunSnapshot, at: Time)
    requires Represents(db, s)
    ensures var row := s.row;
      RequestedSnapshot(s, at).row == (if !WorkflowTerminal(row.status) && row.cancelRequestedAt.None?
        then row.(cancelRequestedAt := Some(at), revision := row.revision + 1) else row)
    ensures s.row.id in db.runs && db.runs[s.row.id].row == s.row && RequestedSnapshot(s, at).row.id == s.row.id
  {
  }

  lemma RepresentedRuns(db: Database)
    ensures forall s :: Represents(db, s) ==> s.row.id in db.runs
  {
  }

  /** The tables with another row for run `id`. */
  ghost predicate RowReplaced(a: Database, b: Database, id: RunID, row: RunRow) {
    id in a.runs && b == a.(runs := a.runs[id := a.runs[id].(row := row)])
  }

  lemma {:induction false} RequestRepresented(a: Database, b: Database, id: RunID, s: RunSnapshot, at: Time)
    requires Represents(a, s) && s.row.id == id && RowReplaced(a, b, id, RequestedSnapshot(s, at).row)
    ensures Represents(b, RequestedSnapshot(s, at))
  {
    var t := RequestedSnapshot(s, at);
    MirrorsFrame(a, b, id, s, t);
    EventsFrame(a, b, id, s, t);
  }

  /** What could be loaded with the request could be loaded without it. */
  lemma {:induction false} RequestUndone(a: Database, b: Database, id: RunID, t: RunSnapshot, row: RunRow)
    requires Represents(b, t) && t.row.id == id && id in a.runs && a.runs[id].row == row && row.id == id
    requires exists row' ::
      RowReplaced(a, b, id, row') && row' == row.(cancelRequestedAt := row'.cancelRequestedAt, revision := row'.revision)
    ensures Represents(a, t.(row := row)) && t.(row := row).row.id == id
  {
    MirrorsFrame(b, a, id, t, t.(row := row));
    EventsFrame(b, a, id, t, t.(row := row));
  }

  lemma {:induction false} TasksStop(db: Database, rows: seq<TaskRunChange>, n: nat)
    requires n <= |rows|
    ensures UpdateTasks(db, rows[..n]).Failed? ==> UpdateTasks(db, rows) == UpdateTasks(db, rows[..n])
    decreases |rows|
  {
    if n < |rows| {
      assert rows[..|rows| - 1][..n] == rows[..n];
      TasksStop(db, rows[..|rows| - 1], n);
    } else {
      assert rows[..n] == rows;
    }
  }

  lemma {:induction false} AttemptsStop(db: Database, rows: seq<AttemptChange>, n: nat)
    requires n <= |rows|
    ensures WriteAttempts(db, rows[..n]).Failed? ==> WriteAttempts(db, rows) == WriteAttempts(db, rows[..n])
    decreases |rows|
  {
    if n < |rows| {
      assert rows[..|rows| - 1][..n] == rows[..n];
      AttemptsStop(db, rows[..|rows| - 1], n);
    } else {
      assert rows[..n] == rows;
    }
  }

  lemma {:induction false} EventsStop(db: Database, run: RunID, rows: seq<StateEvent>, n: nat)
    requires n <= |rows|
    ensures InsertEvents(db, run, rows[..n]).Failed? ==> InsertEvents(db, run, rows) == InsertEvents(db, run, rows[..n])
    decreases |rows|
  {
    if n < |rows| {
      assert rows[..|rows| - 1][..n] == rows[..n];
      EventsStop(db, run, rows[..|rows| - 1], n);
    } else {
      assert rows[..n] == rows;
    }
  }
}
