/** Failure propagation is exact: the breadth-first loop skips the unfinished tasks that are reachable
    from the sources by at least one edge, and touches nothing else. */
module Propagation {
  import opened Domain
  import opened Finite
  import opened Graph
  import opened Steps

  ghost function Descendants(g: Adjacency, sources: seq<nat>): set<nat> {
    set v | v in Below(|g|) && ReachedFrom(g, sources, v)
  }

  /** `after` is `before` with the unfinished tasks of `hit` moved to skipped. */
  ghost predicate SkippedWhere(before: seq<TaskRun>, after: seq<TaskRun>, hit: set<nat>, at: Time) {
    && |after| == |before|
    && forall j :: 0 <= j < |before| ==>
         after[j] == if j in hit && !Terminal(before[j].status) then MovedTask(before[j], TaskSkipped, at) else before[j]
  }

  /** `t` differs from `s` in its task rows and its audit log only. */
  ghost predicate SameApartFromTasks(s: RunSnapshot, t: RunSnapshot) {
    && t.version == s.version && t.definition == s.definition && t.remaining == s.remaining
    && t.row.(lastEventSequence := 0) == s.row.(lastEventSequence := 0)
    && |t.tasks| == |s.tasks|
  }

  /** Every unfinished task of `hit` has a legal edge into skipped. */
  ghost predicate MaySkip(tasks: seq<TaskRun>, hit: set<nat>) {
    forall v :: v in hit && v < |tasks| && !Terminal(tasks[v].status) ==> TaskEdge(tasks[v].status, TaskSkipped)
  }

  /** What a queue and a visited set have to contain for the loop to find everything. */
  ghost predicate Covers(g: Adjacency, sources: seq<nat>, visited: set<nat>, queue: seq<nat>) {
    && (forall u, w :: u in sources && Edge(g, u, w) ==> w in visited || w in queue)
    && (forall u, w :: u in visited && Edge(g, u, w) ==> w in visited || w in queue)
  }

  ghost predicate SkipResult(s: RunSnapshot, o: Outcome, hit: set<nat>, at: Time) {
    if MaySkip(s.tasks, hit)
    then o.Applied? && SkippedWhere(s.tasks, o.s.tasks, hit, at) && SameApartFromTasks(s, o.s)
    else o.Rejected?
  }

  lemma SkipLoopExact(s: RunSnapshot, g: Adjacency, sources: seq<nat>, queue: seq<nat>, visited: set<nat>, at: Time)
    requires InRange(g) && |s.tasks| == |g| && Bounded(queue, |g|)
    requires Covers(g, sources, visited, queue)
    requires forall v :: v in queue || v in visited ==> v in Descendants(g, sources)
    ensures SkipResult(s, SkipLoop(s, g, queue, visited, at), Descendants(g, sources) - visited, at)
    decreases Below(|g|) - visited, |queue|
  {
    var all := Descendants(g, sources);
    if queue == [] {
      forall v | v in all ensures v in visited {
        ClosedHoldsReached(g, sources, visited, v);
      }
      assert all - visited == {};
    } else {
      var current := queue[0];
      assert queue == [current] + queue[1..];
      assert current in queue;
      if current in visited {
        SkipLoopExact(s, g, sources, queue[1..], visited, at);
      } else {
        var queue', visited' := queue[1..] + g[current], visited + {current};
        forall v | v in g[current] ensures v in all {
          EdgeExtends(g, sources, current, v);
        }
        assert Covers(g, sources, visited', queue');
        var o := if Terminal(s.tasks[current].status) then Applied(s)
                 else MoveTask(s, current, TaskSkipped, at, "upstream task failed");
        assert current in all - visited;
        if o.Applied? {
          SkipLoopExact(o.s, g, sources, queue', visited', at);
          SkipOneMore(s.tasks, o.s.tasks, current, all - visited, at);
          assert all - visited' == all - visited - {current};
        } else {
          assert !MaySkip(s.tasks, all - visited);
        }
      }
    }
  }

  lemma EdgeExtends(g: Adjacency, sources: seq<nat>, u: nat, v: nat)
    requires InRange(g) && u in Descendants(g, sources) && v in g[u]
    ensures v in Descendants(g, sources)
  {
    var r :| r in sources && Reaches(g, r, u);
    ReachesThenEdge(g, r, u, v);
  }

  lemma SkipOneMore(s: seq<TaskRun>, t: seq<TaskRun>, v: nat, hit: set<nat>, at: Time)
    requires v < |s| && v in hit
    requires SkippedWhere(s, t, {v}, at)
    requires Terminal(s[v].status) || TaskEdge(s[v].status, TaskSkipped)
    ensures MaySkip(t, hit - {v}) <==> MaySkip(s, hit)
    ensures forall r :: SkippedWhere(t, r, hit - {v}, at) ==> SkippedWhere(s, r, hit, at)
  {
    forall u | u in hit && u < |s| && u != v ensures t[u] == s[u] {}
    if MaySkip(t, hit - {v}) {
      forall u | u in hit && u < |s| && !Terminal(s[u].status) ensures TaskEdge(s[u].status, TaskSkipped) {
        if u != v { assert u in hit - {v}; }
      }
    }
  }

  lemma {:induction false} AllSuccessorsExact(g: Adjacency, sources: seq<nat>)
    requires InRange(g) && Bounded(sources, |g|)
    ensures forall w :: w in AllSuccessors(g, sources) <==> exists u :: u in sources && Edge(g, u, w)
  {
    if sources != [] {
      var rest, last := sources[..|sources| - 1], sources[|sources| - 1];
      AllSuccessorsExact(g, rest);
      assert sources == rest + [last];
      forall w | exists u :: u in sources && Edge(g, u, w) ensures w in AllSuccessors(g, sources) {
        var u :| u in sources && Edge(g, u, w);
        assert u in rest || u == last;
      }
      forall w | w in AllSuccessors(g, sources) ensures exists u :: u in sources && Edge(g, u, w) {
        if w in g[last] {
          assert last in sources && Edge(g, last, w);
        } else {
          assert w in AllSuccessors(g, rest);
          var u :| u in rest && Edge(g, u, w);
          assert u in sources;
        }
      }
    }
  }

  /** The whole propagation, for any sources: either every unfinished descendant may be skipped and exactly
      those are, or the step is refused. */
  lemma SkipDescendantsExact(s: RunSnapshot, c: Compiled, sources: seq<nat>, at: Time)
    requires InRange(c.successors) && |s.tasks| == |c.successors| && Bounded(sources, |c.successors|)
    ensures SkipResult(s, SkipDescendantsFrom(s, c, sources, at), Descendants(c.successors, sources), at)
  {
    var g := c.successors;
    var queue := AllSuccessors(g, sources);
    AllSuccessorsExact(g, sources);
    forall w | w in queue ensures w in Descendants(g, sources) {
      var u :| u in sources && Edge(g, u, w);
      EdgeReaches(g, u, w);
    }
    SkipLoopExact(s, g, sources, queue, {}, at);
    assert Descendants(g, sources) - {} == Descendants(g, sources);
  }
}
