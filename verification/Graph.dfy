/** Directed graphs given by adjacency lists: paths, reachability, cycles and topological ranks. */
module Graph {
  import opened Finite

  type Adjacency = seq<seq<nat>>

  predicate InRange(g: Adjacency) {
    forall i, k :: 0 <= i < |g| && 0 <= k < |g[i]| ==> g[i][k] < |g|
  }

  predicate Edge(g: Adjacency, u: nat, v: nat) {
    u < |g| && v in g[u]
  }

  /** `a` and `b` hold the same edges, each listed once, in opposite directions. */
  ghost predicate Transposes(a: Adjacency, b: Adjacency) {
    && |a| == |b|
    && InRange(a) && InRange(b)
    && (forall i :: 0 <= i < |a| ==> NoDuplicates(a[i]))
    && (forall i :: 0 <= i < |b| ==> NoDuplicates(b[i]))
    && (forall u: nat, v: nat :: u < |a| && v < |a| ==> (Edge(a, u, v) <==> Edge(b, v, u)))
  }

  // ---------- paths ----------

  ghost predicate IsPath(g: Adjacency, p: seq<nat>) {
    |p| > 0 && forall k :: 0 <= k < |p| - 1 ==> Edge(g, p[k], p[k + 1])
  }

  /** A path of at least one edge from `u` to `v`. */
  ghost predicate PathFromTo(g: Adjacency, p: seq<nat>, u: nat, v: nat) {
    IsPath(g, p) && |p| >= 2 && p[0] == u && p[|p| - 1] == v
  }

  ghost predicate Reaches(g: Adjacency, u: nat, v: nat) {
    exists p :: PathFromTo(g, p, u, v)
  }

  ghost predicate ReachedFrom(g: Adjacency, sources: seq<nat>, v: nat) {
    exists u :: u in sources && Reaches(g, u, v)
  }

  ghost predicate Acyclic(g: Adjacency) {
    forall u: nat :: u < |g| ==> !Reaches(g, u, u)
  }

  lemma EdgeReaches(g: Adjacency, u: nat, v: nat)
    requires Edge(g, u, v)
    ensures Reaches(g, u, v)
  {
    assert PathFromTo(g, [u, v], u, v);
  }

  lemma ReachesThenEdge(g: Adjacency, u: nat, v: nat, w: nat)
    requires Reaches(g, u, v) && Edge(g, v, w)
    ensures Reaches(g, u, w)
  {
    var p :| PathFromTo(g, p, u, v);
    assert PathFromTo(g, p + [w], u, w);
  }

  lemma ReachesInRange(g: Adjacency, u: nat, v: nat)
    requires InRange(g) && Reaches(g, u, v)
    ensures u < |g| && v < |g|
  {
    var p :| PathFromTo(g, p, u, v);
    assert Edge(g, p[0], p[1]) && Edge(g, p[|p| - 2], p[|p| - 1]);
    var k :| 0 <= k < |g[p[|p| - 2]]| && g[p[|p| - 2]][k] == v;
  }

  /** Cutting the last edge off a path of two or more edges. */
  lemma ReachesSplit(g: Adjacency, u: nat, v: nat) returns (w: nat)
    requires Reaches(g, u, v)
    ensures Edge(g, w, v) && (w == u || Reaches(g, u, w))
  {
    var p :| PathFromTo(g, p, u, v);
    w := p[|p| - 2];
    assert Edge(g, w, p[|p| - 1]);
    if |p| > 2 {
      assert PathFromTo(g, p[..|p| - 1], u, w);
    }
  }

  /** A set holding every successor of the sources and closed under edges holds everything reachable. */
  lemma ClosedHoldsReached(g: Adjacency, sources: seq<nat>, closed: set<nat>, v: nat)
    requires forall u, w :: u in sources && Edge(g, u, w) ==> w in closed
    requires forall u, w :: u in closed && Edge(g, u, w) ==> w in closed
    requires ReachedFrom(g, sources, v)
    ensures v in closed
  {
    var u :| u in sources && Reaches(g, u, v);
    var p :| PathFromTo(g, p, u, v);
    var k := 1;
    assert Edge(g, p[0], p[1]);
    while k < |p| - 1
      invariant 1 <= k <= |p| - 1 && p[k] in closed
    {
      assert Edge(g, p[k], p[k + 1]);
      k := k + 1;
    }
  }

  // ---------- ranks ----------

  /** `rank` strictly increases along every edge: a topological numbering. */
  ghost predicate Ranks(g: Adjacency, rank: seq<nat>) {
    |rank| == |g| && forall u: nat, v: nat :: Edge(g, u, v) && v < |g| ==> rank[u] < rank[v]
  }

  lemma RankIncreases(g: Adjacency, rank: seq<nat>, p: seq<nat>)
    requires InRange(g) && Ranks(g, rank) && IsPath(g, p) && |p| >= 2
    ensures p[0] < |g| && p[|p| - 1] < |g| && rank[p[0]] < rank[p[|p| - 1]]
    decreases |p|
  {
    var q := p[..|p| - 1];
    var u, v := p[|p| - 2], p[|p| - 1];
    assert Edge(g, u, v);
    EdgeReaches(g, u, v);
    ReachesInRange(g, u, v);
    if |p| > 2 {
      RankIncreases(g, rank, q);
    }
  }

  lemma RankedIsAcyclic(g: Adjacency, rank: seq<nat>)
    requires InRange(g) && Ranks(g, rank)
    ensures Acyclic(g)
  {
    forall u: nat | u < |g| ensures !Reaches(g, u, u) {
      if Reaches(g, u, u) {
        var p :| PathFromTo(g, p, u, u);
        RankIncreases(g, rank, p);
      }
    }
  }

  // ---------- a set with no source contains a cycle ----------

  ghost predicate HasSourceIn(g: Adjacency, pool: set<nat>, v: nat) {
    exists u :: u in pool && Edge(g, u, v)
  }

  /** A path of `len` nodes inside `stuck` ending at `last`, when every node of `stuck` has a predecessor in it. */
  lemma BackwardsPath(g: Adjacency, stuck: set<nat>, last: nat, len: nat) returns (p: seq<nat>)
    requires last in stuck && len > 0
    requires forall v {:trigger HasSourceIn(g, stuck, v)} :: v in stuck ==> HasSourceIn(g, stuck, v)
    ensures IsPath(g, p) && |p| == len && p[len - 1] == last && p[0] in stuck && forall x :: x in p ==> x in stuck
  {
    if len == 1 {
      p := [last];
    } else {
      var q := BackwardsPath(g, stuck, last, len - 1);
      assert HasSourceIn(g, stuck, q[0]);
      var u :| u in stuck && Edge(g, u, q[0]);
      p := [u] + q;
      forall k | 0 <= k < |p| - 1 ensures Edge(g, p[k], p[k + 1]) {
        if k > 0 { assert Edge(g, q[k - 1], q[k]); }
      }
    }
  }

  /** Pigeonhole: a sequence longer than the set it draws from repeats an element. */
  lemma Repeats(s: seq<nat>, pool: set<nat>) returns (i: nat, j: nat)
    requires |s| > |pool| && forall x :: x in s ==> x in pool
    ensures i < j < |s| && s[i] == s[j]
    decreases |s|
  {
    var last := s[|s| - 1];
    var rest := s[..|s| - 1];
    if last in rest {
      i, j :| 0 <= i < |rest| && j == |s| - 1 && rest[i] == last;
    } else {
      assert last in pool;
      assert |pool - {last}| == |pool| - 1;
      i, j := Repeats(rest, pool - {last});
    }
  }

  lemma NoSourceMeansCycle(g: Adjacency, stuck: set<nat>)
    requires stuck != {} && (forall v :: v in stuck ==> v < |g|)
    requires forall v {:trigger HasSourceIn(g, stuck, v)} :: v in stuck ==> HasSourceIn(g, stuck, v)
    ensures !Acyclic(g)
  {
    var last :| last in stuck;
    var p := BackwardsPath(g, stuck, last, |stuck| + 1);
    var i, j := Repeats(p, stuck);
    var loop := p[i..j + 1];
    forall k | 0 <= k < |loop| - 1 ensures Edge(g, loop[k], loop[k + 1]) {
      assert Edge(g, p[i + k], p[i + k + 1]);
    }
    assert PathFromTo(g, loop, p[i], p[i]);
    assert p[i] in p;
    assert Reaches(g, p[i], p[i]);
  }
}
