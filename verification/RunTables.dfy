/** What holds of the tables themselves, whatever runs they hold: rows belong to rows that exist, key columns agree with the
    keys, and stored definitions are compiled ones. Every transaction keeps it. */
module RunTables {
  import opened Domain
  import opened ChangeSets
  import opened Relational

  function Owner(a: AttemptID): TaskID { TaskID(a.run, a.key) }

  /** Rows belong to rows that exist: the foreign keys. */
  ghost predicate ForeignKeys(db: Database) {
    && (forall t :: t in db.tasks ==> t.run in db.runs)
    && (forall a :: a in db.attempts ==> a.run in db.runs && Owner(a) in db.tasks)
    && (forall e :: e in db.events ==> e.run in db.runs)
  }

  /** The key columns of a row are its key. */
  ghost predicate KeyColumns(db: Database) {
    && (forall r :: r in db.runs ==> r != "" && db.runs[r].row.id == r)
    && (forall t :: t in db.tasks ==> t.key != "")
    && (forall a :: a in db.attempts ==> db.attempts[a].number == a.number)
    && (forall e :: e in db.events ==> db.events[e].sequence == e.sequence)
  }

  /** Only compiled definitions are stored, so their keys are present and distinct. */
  ghost predicate VersionsCompiled(db: Database) {
    forall v :: v in db.versions ==>
      && (forall i :: 0 <= i < |db.versions[v].tasks| ==> db.versions[v].tasks[i].key != "")
      && (forall i, j :: 0 <= i < j < |db.versions[v].tasks| ==> db.versions[v].tasks[i].key != db.versions[v].tasks[j].key)
  }

  ghost predicate Consistent(db: Database) {
    ForeignKeys(db) && KeyColumns(db) && VersionsCompiled(db)
  }

  // ---------- change sets ----------

  lemma TaskConsistent(db: Database, t: TaskRunChange)
    requires Consistent(db)
    ensures UpdateTask(db, t).Done? ==> Consistent(UpdateTask(db, t).db)
  {
    hide VersionsCompiled;
    SameVersions(db, UpdateTask(db, t));
  }

  lemma {:induction false} TasksConsistent(db: Database, rows: seq<TaskRunChange>)
    requires Consistent(db)
    ensures UpdateTasks(db, rows).Done? ==> Consistent(UpdateTasks(db, rows).db)
  {
    hide Consistent, UpdateTask;
    if rows != [] {
      var n := |rows| - 1;
      TasksConsistent(db, rows[..n]);
      if UpdateTasks(db, rows[..n]).Done? { TaskConsistent(UpdateTasks(db, rows[..n]).db, rows[n]); }
    }
  }

  lemma SameVersions(db: Database, r: Stored)
    requires VersionsCompiled(db) && (r.Done? ==> r.db.versions == db.versions)
    ensures r.Done? ==> VersionsCompiled(r.db)
  {
  }

  lemma AttemptConsistent(db: Database, a: AttemptChange)
    requires Consistent(db)
    ensures WriteAttempt(db, a).Done? ==> Consistent(WriteAttempt(db, a).db)
  {
    hide VersionsCompiled, IsNextNumber;
    SameVersions(db, WriteAttempt(db, a));
  }

  lemma {:induction false} AttemptsConsistent(db: Database, rows: seq<AttemptChange>)
    requires Consistent(db)
    ensures WriteAttempts(db, rows).Done? ==> Consistent(WriteAttempts(db, rows).db)
  {
    hide Consistent, WriteAttempt;
    if rows != [] {
      var n := |rows| - 1;
      AttemptsConsistent(db, rows[..n]);
      if WriteAttempts(db, rows[..n]).Done? { AttemptConsistent(WriteAttempts(db, rows[..n]).db, rows[n]); }
    }
  }

  lemma {:induction false} EventsConsistent(db: Database, run: RunID, events: seq<StateEvent>)
    requires Consistent(db) && run in db.runs
    ensures InsertEvents(db, run, events).Done? ==>
      Consistent(InsertEvents(db, run, events).db) && InsertEvents(db, run, events).db.versions == db.versions
        && run in InsertEvents(db, run, events).db.runs
  {
    hide VersionsCompiled;
    if events != [] {
      EventsConsistent(db, run, events[..|events| - 1]);
      SameVersions(db, InsertEvents(db, run, events));
    }
  }

  /** An applied change set keeps the tables consistent. */
  lemma {:induction false} ApplyKeepsConsistent(db: Database, change: ChangeSet)
    requires Consistent(db)
    ensures ApplyRows(db, change).Done? ==> Consistent(ApplyRows(db, change).db)
  {
    hide UpdateTasks, WriteAttempts, InsertEvents, TaskShapes, AttemptShapes, EventShape, VersionsCompiled;
    if ApplyRows(db, change).Done? {
      var d1 := UpdateRun(db, change).db;
      SameVersions(db, UpdateRun(db, change));
      assert Consistent(d1);
      TasksConsistent(d1, change.tasks);
      TasksOnlyTable(d1, change.tasks);
      var d2 := UpdateTasks(d1, change.tasks).db;
      AttemptsConsistent(d2, change.attempts);
      AttemptsOnlyTable(d2, change.attempts);
      EventsConsistent(WriteAttempts(d2, change.attempts).db, change.run, change.events);
    }
  }

  // ---------- new runs and requests ----------

  /** So does a new run, whatever its rows are, if they represent a snapshot. */
  lemma {:induction false} CreateKeepsConsistent(before: Database, after: Database, s: RunSnapshot)
    requires Consistent(before) && Represents(after, s) && OthersKept(before, after, s.row.id)
    ensures Consistent(after)
  {
    var id := s.row.id;
    assert RepresentsTasks(after, id, s) && RepresentsAttempts(after, id, s) && RepresentsEvents(after, id, s);
    forall t | t in after.tasks ensures t.run in after.runs && t.key != "" {
      assert t == TaskID(t.run, t.key);
    }
    forall a | a in after.attempts ensures a.run in after.runs && Owner(a) in after.tasks
      && after.attempts[a].number == a.number {
      assert a == AttemptID(a.run, a.key, a.number);
      if a.run == id {
        var i := after.tasks[TaskID(id, a.key)].index;
        assert RepresentsHistory(after, id, s.tasks[i]);
      } else {
        assert Owner(a).run != id;
      }
    }
    forall e | e in after.events ensures e.run in after.runs && after.events[e].sequence == e.sequence {
      assert e == EventID(e.run, e.sequence);
    }
  }

  /** And an update of one run row that leaves its id. */
  lemma RowKeepsConsistent(db: Database, id: RunID, row: RunRow)
    requires Consistent(db) && id in db.runs && row.id == id
    ensures Consistent(db.(runs := db.runs[id := db.runs[id].(row := row)]))
  {
  }
}
