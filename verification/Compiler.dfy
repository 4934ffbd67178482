/** Compilation of a keyed workflow definition into adjacency tables, with Kahn's cycle test. */
module Compiler {
  import opened Domain
  import opened Finite
  import opened Graph

  const MAX_WORKFLOW_TASKS: nat := 10_000

  datatype CompileError =
    | MissingID | InvalidID | BadConcurrency | NoTasks | TooManyTasks
    | InvalidKey(task: nat) | DuplicateKey(task: nat) | MissingAction(task: nat) | UnsupportedExecutor(task: nat)
    | BadTimeout(task: nat) | BadRetry(task: nat)
    | MissingDependency(task: nat, key: TaskKey) | RepeatedDependency(task: nat, key: TaskKey)
    | CyclicDependencies

  datatype Result<+T> = Ok(value: T) | Err(error: CompileError)

  // ---------- what a definition has to satisfy ----------

  predicate IdentifierChar(c: char) {
    'a' <= c <= 'z' || '0' <= c <= '9' || c == '_' || c == '-'
  }

  predicate ValidIdentifier(s: string) {
    1 <= |s| <= 64 && forall k :: 0 <= k < |s| ==> IdentifierChar(s[k])
  }

  /** Unicode White_Space, what trimming removes. */
  predicate SpaceChar(c: char) {
    var u := c as int;
    9 <= u <= 13 || u == 32 || u == 0x85 || u == 0xA0 || u == 0x1680 || 0x2000 <= u <= 0x200A
    || u == 0x2028 || u == 0x2029 || u == 0x202F || u == 0x205F || u == 0x3000
  }

  predicate Blank(s: string) {
    forall k :: 0 <= k < |s| ==> SpaceChar(s[k])
  }

  function NormalizeTask(t: TaskDefinition): TaskDefinition {
    t.(executor := if t.executor == "" then EXECUTOR_MOCK else t.executor,
       retry := t.retry.(maxAttempts := if t.retry.maxAttempts == 0 then 1 else t.retry.maxAttempts))
  }

  function Normalize(def: WorkflowDefinition): WorkflowDefinition {
    def.(tasks := seq(|def.tasks|, i requires 0 <= i < |def.tasks| => NormalizeTask(def.tasks[i])))
  }

  /** The per-task checks of the first pass. */
  predicate TaskAccepted(t: TaskDefinition) {
    && ValidIdentifier(t.key)
    && !Blank(t.action)
    && t.executor in {"", EXECUTOR_MOCK, EXECUTOR_CONTAINER}
    && t.timeoutMillis > 0
    && t.retry.maxAttempts >= 0 && t.retry.intervalMillis >= 0
  }

  predicate HeaderAccepted(def: WorkflowDefinition) {
    ValidIdentifier(def.id) && def.concurrency > 0 && 0 < |def.tasks| <= MAX_WORKFLOW_TASKS
  }

  predicate DistinctKeys(tasks: seq<TaskDefinition>) {
    forall i, j :: 0 <= i < j < |tasks| ==> tasks[i].key != tasks[j].key
  }

  /** The dependency list of `t` names existing tasks, each once. */
  predicate Resolved(tasks: seq<TaskDefinition>, t: TaskDefinition) {
    && (forall k :: 0 <= k < |t.dependsOn| ==> exists d :: 0 <= d < |tasks| && tasks[d].key == t.dependsOn[k])
    && NoDuplicates(t.dependsOn)
  }

  /** Everything `Compile` checks apart from cycles. */
  predicate ChecksPass(def: WorkflowDefinition) {
    && HeaderAccepted(def)
    && (forall i :: 0 <= i < |def.tasks| ==> TaskAccepted(def.tasks[i]))
    && DistinctKeys(def.tasks)
    && (forall i :: 0 <= i < |def.tasks| ==> Resolved(def.tasks, def.tasks[i]))
  }

  /** Task `v` names task `u` as a dependency. */
  predicate DependsOn(tasks: seq<TaskDefinition>, v: nat, u: nat) {
    u < |tasks| && v < |tasks| && tasks[u].key in tasks[v].dependsOn
  }

  /** A closed chain of dependencies, read from upstream to downstream. */
  ghost predicate IsDependencyCycle(tasks: seq<TaskDefinition>, p: seq<nat>) {
    |p| >= 2 && p[0] == p[|p| - 1] && forall k :: 0 <= k < |p| - 1 ==> DependsOn(tasks, p[k + 1], p[k])
  }

  ghost predicate HasDependencyCycle(tasks: seq<TaskDefinition>) {
    exists p :: IsDependencyCycle(tasks, p)
  }

  // ---------- what a compiled workflow satisfies ----------

  ghost predicate IndexIsBijection(c: Compiled) {
    && (forall i :: 0 <= i < c.Size() ==> c.definition.tasks[i].key in c.index && c.index[c.definition.tasks[i].key] == i)
    && (forall k :: k in c.index ==> c.index[k] < c.Size() && c.definition.tasks[c.index[k]].key == k)
  }

  ghost predicate Ranked(c: Compiled) {
    exists rank :: Ranks(c.successors, rank)
  }

  /** What holds of every workflow `Compile` accepts; the only constructor of one is `Compile`. */
  ghost predicate ValidCompiled(c: Compiled) {
    && c.definition.concurrency > 0 && c.Size() > 0
    && |c.dependencies| == c.Size()
    && Transposes(c.successors, c.dependencies)
    && Ranked(c)
    && IndexIsBijection(c)
    && (forall i :: 0 <= i < c.Size() ==>
          c.MaxAttempts(i) >= 1 && c.definition.tasks[i].retry.intervalMillis >= 0 && c.definition.tasks[i].timeoutMillis > 0)
  }

  /** The adjacency tables say exactly what the definition says. */
  ghost predicate GraphOfDefinition(c: Compiled, tasks: seq<TaskDefinition>) {
    && |c.dependencies| == |tasks|
    && (forall i, k :: 0 <= i < |tasks| && 0 <= k < |c.dependencies[i]| ==> c.dependencies[i][k] < |tasks|)
    && (forall i :: 0 <= i < |tasks| ==> Translated(tasks, i, c.dependencies[i], |tasks[i].dependsOn|))
  }

  /** `row` holds the positions of the first `n` dependency keys of task `i`, in order. */
  predicate Translated(tasks: seq<TaskDefinition>, i: nat, row: seq<nat>, n: nat)
    requires i < |tasks|
  {
    |row| == n <= |tasks[i].dependsOn|
    && forall k :: 0 <= k < n ==> row[k] < |tasks| && tasks[row[k]].key == tasks[i].dependsOn[k]
  }

  // ---------- first pass: tasks and index ----------

  predicate IndexUpTo(tasks: seq<TaskDefinition>, index: map<TaskKey, nat>, n: nat)
  {
    n <= |tasks|
    && (forall i :: 0 <= i < n ==> tasks[i].key in index && index[tasks[i].key] == i)
    && (forall k :: k in index ==> index[k] < n && tasks[index[k]].key == k)
  }

  method CheckTasks(tasks: seq<TaskDefinition>)
    returns (normalized: seq<TaskDefinition>, index: map<TaskKey, nat>, err: Option<CompileError>)
    ensures err.None? <==> (forall i :: 0 <= i < |tasks| ==> TaskAccepted(tasks[i])) && DistinctKeys(tasks)
    ensures err.None? ==> |normalized| == |tasks| && forall i :: 0 <= i < |tasks| ==> normalized[i] == NormalizeTask(tasks[i])
    ensures err.None? ==> IndexUpTo(tasks, index, |tasks|)
    ensures err != Some(CyclicDependencies)
  {
    hide ValidIdentifier, Blank;
    normalized, index, err := [], map[], None;
    var i := 0;
    while i < |tasks|
      invariant 0 <= i <= |tasks| && |normalized| == i && err.None?
      invariant IndexUpTo(tasks, index, i)
      invariant forall j :: 0 <= j < i ==> TaskAccepted(tasks[j]) && normalized[j] == NormalizeTask(tasks[j])
      invariant DistinctKeys(tasks[..i])
    {
      var task := tasks[i];
      if !ValidIdentifier(task.key) { return normalized, index, Some(InvalidKey(i)); }
      if task.key in index {
        assert tasks[index[task.key]].key == tasks[i].key;
        return normalized, index, Some(DuplicateKey(i));
      }
      if Blank(task.action) { return normalized, index, Some(MissingAction(i)); }
      if task.executor == "" { task := task.(executor := EXECUTOR_MOCK); }
      if task.executor != EXECUTOR_MOCK && task.executor != EXECUTOR_CONTAINER {
        return normalized, index, Some(UnsupportedExecutor(i));
      }
      if task.timeoutMillis <= 0 { return normalized, index, Some(BadTimeout(i)); }
      if task.retry.maxAttempts == 0 { task := task.(retry := task.retry.(maxAttempts := 1)); }
      if task.retry.maxAttempts < 1 || task.retry.intervalMillis < 0 { return normalized, index, Some(BadRetry(i)); }
      index := index[task.key := i];
      normalized := normalized + [task];
      i := i + 1;
    }
    assert tasks[..i] == tasks;
  }

  // ---------- second pass: adjacency ----------

  /** Both tables after the first `i` tasks and the first `k` dependencies of task `i` were entered. */
  ghost predicate TablesUpTo(tasks: seq<TaskDefinition>, deps: Adjacency, succs: Adjacency, i: nat, k: nat) {
    && |deps| == |tasks| == |succs| && InRange(deps) && InRange(succs) && i <= |tasks|
    && (forall j :: 0 <= j < i ==> Translated(tasks, j, deps[j], |tasks[j].dependsOn|))
    && (i < |tasks| ==> Translated(tasks, i, deps[i], k))
    && (forall j :: i < j < |tasks| ==> deps[j] == [])
    && (forall j :: 0 <= j < |tasks| ==> NoDuplicates(deps[j]) && NoDuplicates(succs[j]))
    && (forall u: nat, v: nat :: u < |tasks| && v < |tasks| ==> (Edge(succs, u, v) <==> Edge(deps, v, u)))
  }

  lemma EnterEdge(tasks: seq<TaskDefinition>, deps: Adjacency, succs: Adjacency, i: nat, k: nat, d: nat)
    requires TablesUpTo(tasks, deps, succs, i, k) && i < |tasks| && k < |tasks[i].dependsOn|
    requires d < |tasks| && tasks[d].key == tasks[i].dependsOn[k] && d !in deps[i]
    ensures TablesUpTo(tasks, deps[i := deps[i] + [d]], succs[d := succs[d] + [i]], i, k + 1)
  {
    var deps', succs' := deps[i := deps[i] + [d]], succs[d := succs[d] + [i]];
    assert !Edge(deps, i, d) && !Edge(succs, d, i);
    forall u: nat, v: nat | u < |tasks| && v < |tasks|
      ensures Edge(succs', u, v) <==> Edge(deps', v, u)
    {
      assert Edge(succs, u, v) <==> Edge(deps, v, u);
      assert Edge(succs', u, v) <==> Edge(succs, u, v) || (u == d && v == i);
      assert Edge(deps', v, u) <==> Edge(deps, v, u) || (u == d && v == i);
    }
  }

  lemma RepeatedKeyRefused(tasks: seq<TaskDefinition>, i: nat, row: seq<nat>, k: nat, d: nat)
    requires i < |tasks| && Translated(tasks, i, row, k) && k < |tasks[i].dependsOn|
    requires d in row && d < |tasks| && tasks[d].key == tasks[i].dependsOn[k]
    ensures !NoDuplicates(tasks[i].dependsOn)
  {
    var j :| 0 <= j < k && row[j] == d;
    assert tasks[i].dependsOn[j] == tasks[i].dependsOn[k];
  }

  /** Every row entry is a distinct position, so every key read so far is distinct. */
  lemma RowResolves(tasks: seq<TaskDefinition>, i: nat, row: seq<nat>)
    requires i < |tasks| && Translated(tasks, i, row, |tasks[i].dependsOn|) && NoDuplicates(row) && DistinctKeys(tasks)
    ensures Resolved(tasks, tasks[i])
  {
    var keys := tasks[i].dependsOn;
    forall j | 0 <= j < |keys| ensures exists d :: 0 <= d < |tasks| && tasks[d].key == keys[j] {
      assert tasks[row[j]].key == keys[j];
    }
    forall j, k | 0 <= j < k < |keys| ensures keys[j] != keys[k] {
      assert row[j] != row[k];
    }
  }

  method BuildAdjacency(tasks: seq<TaskDefinition>, index: map<TaskKey, nat>)
    returns (deps: Adjacency, succs: Adjacency, err: Option<CompileError>)
    requires IndexUpTo(tasks, index, |tasks|)
    ensures err.None? <==> forall i :: 0 <= i < |tasks| ==> Resolved(tasks, tasks[i])
    ensures err.None? ==> TablesUpTo(tasks, deps, succs, |tasks|, 0)
    ensures err != Some(CyclicDependencies)
  {
    IndexedKeysDiffer(tasks, index);
    deps, succs, err := seq(|tasks|, i => []), seq(|tasks|, i => []), None;
    var i := 0;
    while i < |tasks|
      invariant 0 <= i <= |tasks| && err.None?
      invariant TablesUpTo(tasks, deps, succs, i, 0)
      invariant forall j :: 0 <= j < i ==> Resolved(tasks, tasks[j])
    {
      deps, succs, err := EnterTask(tasks, index, deps, succs, i);
      if err.Some? { return; }
      RowResolves(tasks, i, deps[i]);
      i := i + 1;
    }
  }

  lemma IndexedKeysDiffer(tasks: seq<TaskDefinition>, index: map<TaskKey, nat>)
    requires IndexUpTo(tasks, index, |tasks|)
    ensures DistinctKeys(tasks)
  {
    forall i, j | 0 <= i < j < |tasks| ensures tasks[i].key != tasks[j].key {
      assert index[tasks[i].key] == i;
    }
  }

  /** The inner loop: the dependencies of task `i`. */
  method EnterTask(tasks: seq<TaskDefinition>, index: map<TaskKey, nat>, deps0: Adjacency, succs0: Adjacency, i: nat)
    returns (deps: Adjacency, succs: Adjacency, err: Option<CompileError>)
    requires IndexUpTo(tasks, index, |tasks|) && TablesUpTo(tasks, deps0, succs0, i, 0) && i < |tasks|
    ensures err.None? ==> TablesUpTo(tasks, deps, succs, i, |tasks[i].dependsOn|) && TablesUpTo(tasks, deps, succs, i + 1, 0)
    ensures err.Some? ==> !Resolved(tasks, tasks[i]) && err.value != CyclicDependencies
  {
    deps, succs, err := deps0, succs0, None;
    var keys := tasks[i].dependsOn;
    var seen: set<nat> := {};
    var k := 0;
    while k < |keys|
      invariant 0 <= k <= |keys| && err.None?
      invariant TablesUpTo(tasks, deps, succs, i, k)
      invariant seen == Elements(deps[i])
    {
      if keys[k] !in index {
        return deps, succs, Some(MissingDependency(i, keys[k]));
      }
      var d := index[keys[k]];
      if d in seen {
        RepeatedKeyRefused(tasks, i, deps[i], k, d);
        return deps, succs, Some(RepeatedDependency(i, keys[k]));
      }
      EnterEdge(tasks, deps, succs, i, k, d);
      seen := seen + {d};
      deps, succs := deps[i := deps[i] + [d]], succs[d := succs[d] + [i]];
      k := k + 1;
    }
  }

  // ---------- third pass: Kahn's algorithm ----------

  /** How many entries of `row` are outside `done`. */
  function CountOutside(row: seq<nat>, done: set<nat>): nat {
    if row == [] then 0
    else CountOutside(row[..|row| - 1], done) + (if row[|row| - 1] in done then 0 else 1)
  }

  lemma {:induction false} CountAfterVisit(row: seq<nat>, done: set<nat>, u: nat)
    requires NoDuplicates(row) && u !in done
    ensures CountOutside(row, done) == CountOutside(row, done + {u}) + (if u in row then 1 else 0)
  {
    if row != [] {
      CountAfterVisit(row[..|row| - 1], done, u);
    }
  }

  lemma {:induction false} CountNothingDone(row: seq<nat>)
    ensures CountOutside(row, {}) == |row|
  {
    if row != [] { CountNothingDone(row[..|row| - 1]); }
  }

  lemma {:induction false} CountZeroOrWitness(row: seq<nat>, done: set<nat>)
    ensures CountOutside(row, done) == 0 <==> forall u :: u in row ==> u in done
  {
    if row != [] {
      CountZeroOrWitness(row[..|row| - 1], done);
      assert row == row[..|row| - 1] + [row[|row| - 1]];
    }
  }

  ghost function Outstanding(deps: Adjacency, done: set<nat>, pending: seq<nat>, v: nat): nat
    requires v < |deps|
  {
    CountOutside(deps[v], done) + if v in pending then 1 else 0
  }

  /** `done` was visited, `queue` waits, and every count is right except that the nodes of `pending`
      still await one decrement; between two queue pops `pending` is empty. */
  ghost predicate KahnState(deps: Adjacency, indegree: seq<int>, done: seq<nat>, queue: seq<nat>, pending: seq<nat>) {
    && |indegree| == |deps|
    && NoDuplicates(done) && NoDuplicates(queue)
    && (forall v :: v in done ==> v < |deps| && v !in queue)
    && (forall v :: v in queue ==> v < |deps| && indegree[v] == 0)
    && (forall v :: 0 <= v < |deps| ==> indegree[v] == Outstanding(deps, Elements(done), pending, v))
    && (forall v: nat :: v < |deps| && indegree[v] == 0 ==> v in done || v in queue)
    && TopologicalOrder(deps, done)
  }

  /** Every dependency of a visited node was visited before it. */
  ghost predicate TopologicalOrder(deps: Adjacency, done: seq<nat>) {
    forall j, u :: 0 <= j < |done| && done[j] < |deps| && u in deps[done[j]] ==> u in done[..j]
  }

  lemma VisitHead(deps: Adjacency, succs: Adjacency, indegree: seq<int>, done: seq<nat>, queue: seq<nat>)
    requires Transposes(succs, deps) && KahnState(deps, indegree, done, queue, []) && queue != []
    ensures queue[0] < |succs| && KahnState(deps, indegree, done + [queue[0]], queue[1..], succs[queue[0]])
  {
    var current: nat := queue[0];
    assert current in queue;
    var done': seq<nat> := done + [current];
    assert Elements(done') == Elements(done) + {current};
    assert forall v :: v in queue[1..] ==> v in queue;
    forall v | 0 <= v < |deps|
      ensures indegree[v] == Outstanding(deps, Elements(done'), succs[current], v)
    {
      assert indegree[v] == Outstanding(deps, Elements(done), [], v);
      CountAfterVisit(deps[v], Elements(done), current);
      assert Edge(succs, current, v) <==> Edge(deps, v, current);
    }
    CountZeroOrWitness(deps[current], Elements(done));
    forall j, u | 0 <= j < |done'| && done'[j] < |deps| && u in deps[done'[j]] ensures u in done'[..j] {
      if j < |done| {
        assert done'[j] == done[j] && done'[..j] == done[..j];
      } else {
        assert done'[..j] == done && u in Elements(done);
      }
    }
  }

  /** A successor still waiting for its decrement was neither visited nor queued. */
  lemma StillPending(deps: Adjacency, indegree: seq<int>, done: seq<nat>, queue: seq<nat>, pending: seq<nat>, v: nat)
    requires KahnState(deps, indegree, done, queue, pending) && v in pending && v < |deps|
    requires done != [] && done[|done| - 1] in deps[v]
    ensures v !in done && v !in queue
  {
    var last := done[|done| - 1];
    forall j | 0 <= j < |done| ensures last !in done[..j] {}
  }

  /** One pass through the successor loop: `next` loses a count and joins the queue when it reaches zero. */
  lemma Decrement(deps: Adjacency, indegree: seq<int>, done: seq<nat>, queue: seq<nat>, pending: seq<nat>)
    requires KahnState(deps, indegree, done, queue, pending) && pending != [] && NoDuplicates(pending)
    requires pending[0] < |deps| && done != [] && done[|done| - 1] in deps[pending[0]]
    ensures var left := indegree[pending[0]] - 1;
            KahnState(deps, indegree[pending[0] := left], done, if left == 0 then queue + [pending[0]] else queue, pending[1..])
  {
    var next := pending[0];
    StillPending(deps, indegree, done, queue, pending, next);
    assert pending == [next] + pending[1..];
    assert next !in pending[1..];
  }

  method CountDependencies(deps: Adjacency) returns (indegree: array<int>, queue: seq<nat>)
    ensures fresh(indegree) && KahnState(deps, indegree[..], [], queue, [])
  {
    indegree := new int[|deps|](i requires 0 <= i < |deps| => |deps[i]|);
    queue := [];
    var i := 0;
    while i < |deps|
      invariant 0 <= i <= |deps|
      invariant forall v :: 0 <= v < |deps| ==> indegree[v] == |deps[v]|
      invariant NoDuplicates(queue) && forall v: nat :: v in queue <==> v < i && indegree[v] == 0
    {
      if indegree[i] == 0 { queue := queue + [i]; }
      i := i + 1;
    }
    forall v | 0 <= v < |deps| ensures indegree[v] == Outstanding(deps, Elements([]), [], v) {
      CountNothingDone(deps[v]);
      assert Elements<nat>([]) == {};
    }
  }

  /** The successor loop of one pop: `current` is the node just visited. */
  method DecrementSuccessors(deps: Adjacency, succs: Adjacency, indegree: array<int>, ghost order: seq<nat>,
      queue0: seq<nat>, current: nat)
    returns (queue: seq<nat>)
    requires Transposes(succs, deps) && current < |succs| && order != [] && order[|order| - 1] == current
    requires KahnState(deps, indegree[..], order, queue0, succs[current])
    modifies indegree
    ensures KahnState(deps, indegree[..], order, queue, [])
  {
    queue := queue0;
    var row := succs[current];
    assert row[0..] == row;
    var k := 0;
    while k < |row|
      invariant 0 <= k <= |row|
      invariant KahnState(deps, indegree[..], order, queue, row[k..])
    {
      var next := row[k];
      assert Edge(succs, current, next) && Edge(deps, next, current);
      ghost var before := indegree[..];
      Decrement(deps, before, order, queue, row[k..]);
      assert row[k..][1..] == row[k + 1..];
      indegree[next] := indegree[next] - 1;
      assert indegree[..] == before[next := before[next] - 1];
      if indegree[next] == 0 {
        queue := queue + [next];
      }
      k := k + 1;
    }
    assert row[k..] == [];
  }

  method TopologicalVisit(deps: Adjacency, succs: Adjacency) returns (visited: nat, ghost order: seq<nat>)
    requires Transposes(succs, deps)
    ensures visited == |order| && NoDuplicates(order) && (forall v :: v in order ==> v < |deps|)
    ensures TopologicalOrder(deps, order)
    ensures forall v: nat :: v < |deps| && v !in order ==> exists u :: u in deps[v] && u !in order
  {
    var indegree, queue := CountDependencies(deps);
    visited, order := 0, [];
    while |queue| > 0
      invariant KahnState(deps, indegree[..], order, queue, []) && visited == |order|
      decreases |deps| - |order|
    {
      VisitHead(deps, succs, indegree[..], order, queue);
      var current := queue[0];
      order := order + [queue[0]];
      AtMostAll(order, |deps|);
      visited := visited + 1;
      queue := DecrementSuccessors(deps, succs, indegree, order, queue[1..], current);
    }
    QueueExhausted(deps, indegree[..], order);
  }

  lemma QueueExhausted(deps: Adjacency, indegree: seq<int>, order: seq<nat>)
    requires KahnState(deps, indegree, order, [], [])
    ensures forall v: nat :: v < |deps| && v !in order ==> exists u :: u in deps[v] && u !in order
  {
    forall v: nat | v < |deps| && v !in order ensures exists u :: u in deps[v] && u !in order {
      assert indegree[v] == Outstanding(deps, Elements(order), [], v);
      CountZeroOrWitness(deps[v], Elements(order));
    }
  }

  // ---------- from the visit order to ranks or a cycle ----------

  function PositionIn(order: seq<nat>, v: nat): (p: nat)
    requires v in order
    ensures p < |order| && order[p] == v
  {
    if order[|order| - 1] == v then |order| - 1
    else
      assert v in order[..|order| - 1];
      PositionIn(order[..|order| - 1], v)
  }

  lemma CompleteOrderRanks(deps: Adjacency, succs: Adjacency, order: seq<nat>) returns (rank: seq<nat>)
    requires Transposes(succs, deps) && NoDuplicates(order) && |order| == |deps|
    requires (forall v :: v in order ==> v < |deps|) && TopologicalOrder(deps, order)
    ensures Ranks(succs, rank)
  {
    AtMostAll(order, |deps|);
    rank := seq(|deps|, v requires 0 <= v < |deps| => PositionIn(order, v));
    forall u: nat, v: nat | Edge(succs, u, v) && v < |succs| ensures rank[u] < rank[v] {
      assert Edge(deps, v, u);
      var j := PositionIn(order, v);
      assert u in order[..j];
      var m :| 0 <= m < j && order[m] == u;
      assert order[PositionIn(order, u)] == order[m];
    }
  }

  lemma IncompleteOrderCycles(deps: Adjacency, succs: Adjacency, order: seq<nat>)
    requires Transposes(succs, deps) && NoDuplicates(order) && |order| != |deps|
    requires forall v :: v in order ==> v < |deps|
    requires forall v: nat :: v < |deps| && v !in order ==> exists u :: u in deps[v] && u !in order
    ensures !Acyclic(succs)
  {
    var stuck := set v: nat | v < |deps| && v !in order;
    AtMostAll(order, |deps|);
    var missing: nat :| missing < |deps| && missing !in order;
    assert missing in stuck;
    forall v {:trigger HasSourceIn(succs, stuck, v)} | v in stuck ensures HasSourceIn(succs, stuck, v) {
      var u :| u in deps[v] && u !in order;
      assert Edge(deps, v, u) && Edge(succs, u, v);
    }
    NoSourceMeansCycle(succs, stuck);
  }

  /** A cycle in the successor table is a cycle of `dependsOn` keys and the other way round. */
  lemma CyclesAgree(tasks: seq<TaskDefinition>, deps: Adjacency, succs: Adjacency)
    requires DistinctKeys(tasks) && TablesUpTo(tasks, deps, succs, |tasks|, 0)
    ensures Acyclic(succs) <==> !HasDependencyCycle(tasks)
  {
    forall u: nat, v: nat | u < |tasks| && v < |tasks| ensures Edge(succs, u, v) <==> DependsOn(tasks, v, u) {
      if DependsOn(tasks, v, u) {
        var k :| 0 <= k < |tasks[v].dependsOn| && tasks[v].dependsOn[k] == tasks[u].key;
        assert tasks[deps[v][k]].key == tasks[u].key;
        assert Edge(deps, v, u);
      }
      if Edge(deps, v, u) {
        var k :| 0 <= k < |deps[v]| && deps[v][k] == u;
        assert tasks[v].dependsOn[k] == tasks[u].key;
      }
    }
    if !Acyclic(succs) {
      var u: nat :| u < |succs| && Reaches(succs, u, u);
      var p :| PathFromTo(succs, p, u, u);
      forall k | 0 <= k < |p| - 1 ensures DependsOn(tasks, p[k + 1], p[k]) {
        EdgeReaches(succs, p[k], p[k + 1]);
        ReachesInRange(succs, p[k], p[k + 1]);
      }
      assert IsDependencyCycle(tasks, p);
    }
    if HasDependencyCycle(tasks) {
      var p :| IsDependencyCycle(tasks, p);
      forall k | 0 <= k < |p| - 1 ensures Edge(succs, p[k], p[k + 1]) {
        assert DependsOn(tasks, p[k + 1], p[k]);
      }
      assert DependsOn(tasks, p[1], p[0]);
      assert PathFromTo(succs, p, p[0], p[0]);
      assert Reaches(succs, p[0], p[0]);
    }
  }

  // ---------- Compile ----------

  lemma TablesTranspose(tasks: seq<TaskDefinition>, deps: Adjacency, succs: Adjacency)
    requires TablesUpTo(tasks, deps, succs, |tasks|, 0)
    ensures Transposes(succs, deps) && |deps| == |tasks|
  {
    hide Translated, Edge;
  }

  lemma CompiledIsValid(def: WorkflowDefinition, normalized: seq<TaskDefinition>, index: map<TaskKey, nat>,
      deps: Adjacency, succs: Adjacency, rank: seq<nat>)
    requires HeaderAccepted(def) && forall i :: 0 <= i < |def.tasks| ==> TaskAccepted(def.tasks[i])
    requires |normalized| == |def.tasks| && forall i :: 0 <= i < |def.tasks| ==> normalized[i] == NormalizeTask(def.tasks[i])
    requires IndexUpTo(def.tasks, index, |def.tasks|) && TablesUpTo(def.tasks, deps, succs, |def.tasks|, 0) && Ranks(succs, rank)
    ensures var c := Compiled(def.(tasks := normalized), index, deps, succs);
      c.definition == Normalize(def) && ValidCompiled(c) && GraphOfDefinition(c, def.tasks)
  {
    hide Translated, Edge, Ranks, ValidIdentifier, Blank, Transposes;
    TablesTranspose(def.tasks, deps, succs);
    var c := Compiled(def.(tasks := normalized), index, deps, succs);
    assert c.definition.tasks == Normalize(def).tasks;
    assert Ranks(c.successors, rank);
  }

  /** Accepts exactly the definitions that pass the checks and have no dependency cycle. */
  method Compile(def: WorkflowDefinition) returns (r: Result<Compiled>)
    ensures r.Ok? <==> ChecksPass(def) && !HasDependencyCycle(def.tasks)
    ensures r == Err(CyclicDependencies) <==> ChecksPass(def) && HasDependencyCycle(def.tasks)
    ensures r.Ok? ==> r.value.definition == Normalize(def)
    ensures r.Ok? ==> ValidCompiled(r.value) && GraphOfDefinition(r.value, def.tasks)
  {
    hide HasDependencyCycle, Acyclic, DistinctKeys, TaskAccepted, Resolved, Normalize, NormalizeTask, ValidCompiled,
      GraphOfDefinition, IndexUpTo, TablesUpTo, Transposes;
    if def.id == "" { return Err(MissingID); }
    if !ValidIdentifier(def.id) { return Err(InvalidID); }
    if def.concurrency <= 0 { return Err(BadConcurrency); }
    if |def.tasks| == 0 { return Err(NoTasks); }
    if |def.tasks| > MAX_WORKFLOW_TASKS { return Err(TooManyTasks); }

    var normalized, index, taskError := CheckTasks(def.tasks);
    if taskError.Some? { return Err(taskError.value); }
    var deps, succs, graphError := BuildAdjacency(def.tasks, index);
    if graphError.Some? { return Err(graphError.value); }
    CyclesAgree(def.tasks, deps, succs);
    TablesTranspose(def.tasks, deps, succs);

    var visited, order := TopologicalVisit(deps, succs);
    if visited != |def.tasks| {
      IncompleteOrderCycles(deps, succs, order);
      return Err(CyclicDependencies);
    }
    ghost var rank := CompleteOrderRanks(deps, succs, order);
    RankedIsAcyclic(succs, rank);
    CompiledIsValid(def, normalized, index, deps, succs, rank);
    return Ok(Compiled(def.(tasks := normalized), index, deps, succs));
  }

  // ---------- compiling again ----------

  lemma NormalizedTask(t: TaskDefinition)
    ensures NormalizeTask(NormalizeTask(t)) == NormalizeTask(t) && (TaskAccepted(t) ==> TaskAccepted(NormalizeTask(t)))
    ensures NormalizeTask(t).key == t.key && NormalizeTask(t).dependsOn == t.dependsOn
  {
  }

  /** Transactions compile the stored definition again: what was accepted once is accepted again, and unchanged. */
  lemma {:induction false} RecompileAccepts(def: WorkflowDefinition)
    requires ChecksPass(def) && !HasDependencyCycle(def.tasks)
    ensures ChecksPass(Normalize(def)) && !HasDependencyCycle(Normalize(def).tasks) && Normalize(Normalize(def)) == Normalize(def)
  {
    hide NormalizeTask, TaskAccepted, ValidIdentifier;
    var a, b := def.tasks, Normalize(def).tasks;
    forall i | 0 <= i < |a|
      ensures b[i] == NormalizeTask(a[i]) && NormalizeTask(b[i]) == b[i] && TaskAccepted(b[i])
      ensures b[i].key == a[i].key && b[i].dependsOn == a[i].dependsOn
    {
      NormalizedTask(a[i]);
    }
    forall i | 0 <= i < |b| ensures Resolved(b, b[i]) {
      assert Resolved(a, a[i]);
      forall k | 0 <= k < |b[i].dependsOn| ensures exists d :: 0 <= d < |b| && b[d].key == b[i].dependsOn[k] {
        var d :| 0 <= d < |a| && a[d].key == a[i].dependsOn[k];
        assert b[d].key == b[i].dependsOn[k];
      }
    }
    forall p: seq<nat> ensures IsDependencyCycle(b, p) ==> IsDependencyCycle(a, p) {
      SameDependencies(a, b, p);
    }
  }

  lemma {:induction false} SameDependencies(a: seq<TaskDefinition>, b: seq<TaskDefinition>, p: seq<nat>)
    requires |a| == |b| && forall i :: 0 <= i < |a| ==> b[i].key == a[i].key && b[i].dependsOn == a[i].dependsOn
    ensures IsDependencyCycle(b, p) ==> IsDependencyCycle(a, p)
  {
    forall u: nat, v: nat ensures DependsOn(b, v, u) ==> DependsOn(a, v, u) {}
  }
}
