/** Directed graphs as values: what a `Graph` object's vertex, edge and dependency
    lists say at one moment. Nodes are of any type, so the same theory serves node
    objects, clones of them and plain identifiers. */
module Dags {

  datatype Option<+T> = None | Some(value: T)

  ghost predicate Distinct<T>(s: seq<T>) {
    forall i, j :: 0 <= i < j < |s| ==> s[i] != s[j]
  }

  /** `vertices` in insertion order; for each node the list of its children in the
      order the edges were added, and the list of its parents. */
  datatype Dag<N> = Dag(vertices: seq<N>, edges: map<N, seq<N>>, deps: map<N, seq<N>>)

  ghost function Nodes<N>(g: Dag<N>): set<N> {
    set n | n in g.vertices
  }

  ghost predicate ListsInside<N>(nodes: set<N>, lists: map<N, seq<N>>)
    requires lists.Keys == nodes
  {
    && (forall n | n in nodes :: Distinct(lists[n]))
    && (forall n, m | n in nodes && m in lists[n] :: m in nodes)
  }

  ghost predicate Mirrored<N>(g: Dag<N>)
    requires g.edges.Keys == Nodes(g) && g.deps.Keys == Nodes(g)
  {
    forall u, v | u in g.edges && v in g.deps :: v in g.edges[u] <==> u in g.deps[v]
  }

  /** The adjacency invariant: the edge and dependency lists mirror each other, hold
      no duplicates and stay inside the vertex list. */
  ghost predicate WellFormed<N>(g: Dag<N>) {
    && Distinct(g.vertices)
    && g.edges.Keys == Nodes(g) && g.deps.Keys == Nodes(g)
    && ListsInside(Nodes(g), g.edges)
    && ListsInside(Nodes(g), g.deps)
    && Mirrored(g)
  }

  lemma ChildOf<N>(g: Dag<N>, n: N, i: nat)
    requires WellFormed(g) && n in Nodes(g) && i < |g.edges[n]|
    ensures g.edges[n][i] in Nodes(g) && n in g.deps[g.edges[n][i]]
  {
  }

  lemma ChildIn<N>(g: Dag<N>, n: N, c: N)
    requires WellFormed(g) && n in Nodes(g) && c in g.edges[n]
    ensures c in Nodes(g) && n in g.deps[c]
  {
    var i :| 0 <= i < |g.edges[n]| && g.edges[n][i] == c;
    ChildOf(g, n, i);
  }

  lemma DepIn<N>(g: Dag<N>, n: N, d: N)
    requires WellFormed(g) && n in Nodes(g) && d in g.deps[n]
    ensures d in Nodes(g) && n in g.edges[d]
  {
    var i :| 0 <= i < |g.deps[n]| && g.deps[n][i] == d;
    ParentOf(g, n, i);
  }

  lemma ParentOf<N>(g: Dag<N>, n: N, i: nat)
    requires WellFormed(g) && n in Nodes(g) && i < |g.deps[n]|
    ensures g.deps[n][i] in Nodes(g) && n in g.edges[g.deps[n][i]]
  {
  }

  /** c is the i-th child of p and has no other parent. */
  ghost predicate SoleChild<N>(g: Dag<N>, p: N, i: int, c: N) {
    p in g.edges && 0 <= i < |g.edges[p]| && g.edges[p][i] == c && c in g.deps && g.deps[c] == [p]
  }

  lemma SoleChildAt<N>(g: Dag<N>, p: N, i: nat)
    requires WellFormed(g) && p in Nodes(g) && i < |g.edges[p]|
    ensures forall p', i' {:trigger SoleChild(g, p', i', g.edges[p][i])} :: SoleChild(g, p', i', g.edges[p][i]) ==>
              p' == p && i' == i
  {
    forall p', i' | SoleChild(g, p', i', g.edges[p][i]) ensures p' == p && i' == i {
      ChildOf(g, p, i);
      assert g.deps[g.edges[p][i]] == [p'];
      assert p == p';
      assert Distinct(g.edges[p]);
    }
  }

  /** A walk of exactly k edges from a to b. */
  ghost predicate Walk<N>(g: Dag<N>, a: N, b: N, k: nat) {
    if k == 0 then a == b
    else a in g.edges && exists c | c in g.edges[a] :: Walk(g, c, b, k - 1)
  }

  ghost predicate Reaches<N>(g: Dag<N>, a: N, b: N) {
    exists k: nat :: Walk(g, a, b, k)
  }

  ghost predicate Acyclic<N>(g: Dag<N>) {
    forall n, k: nat | n in Nodes(g) && k > 0 :: !Walk(g, n, n, k)
  }

  lemma {:induction false} WalkThrough<N>(g: Dag<N>, a: N, b: N, c: N, j: nat, k: nat)
    requires Walk(g, a, b, j) && Walk(g, b, c, k)
    ensures Walk(g, a, c, j + k)
  {
    if j > 0 {
      var x :| x in g.edges[a] && Walk(g, x, b, j - 1);
      WalkThrough(g, x, b, c, j - 1, k);
    }
  }

  lemma ReachesSelf<N>(g: Dag<N>, a: N)
    ensures Reaches(g, a, a)
  {
    assert Walk(g, a, a, 0);
  }

  lemma ReachesThrough<N>(g: Dag<N>, a: N, b: N, c: N)
    requires Reaches(g, a, b) && Reaches(g, b, c)
    ensures Reaches(g, a, c)
  {
    var j: nat :| Walk(g, a, b, j);
    var k: nat :| Walk(g, b, c, k);
    WalkThrough(g, a, b, c, j, k);
  }

  lemma ReachesEdge<N>(g: Dag<N>, a: N, b: N)
    requires a in g.edges && b in g.edges[a]
    ensures Reaches(g, a, b)
  {
    assert Walk(g, b, b, 0);
    assert Walk(g, a, b, 1);
  }

  /** The same walk, split at its last edge instead of its first. */
  lemma {:induction false} WalkLastEdge<N>(g: Dag<N>, a: N, b: N, k: nat) returns (p: N)
    requires WellFormed(g) && a in Nodes(g) && k > 0 && Walk(g, a, b, k)
    ensures p in Nodes(g) && b in g.edges[p] && b in Nodes(g) && Walk(g, a, p, k - 1)
  {
    var c :| c in g.edges[a] && Walk(g, c, b, k - 1);
    if k == 1 {
      p := a;
    } else {
      p := WalkLastEdge(g, c, b, k - 1);
    }
  }

  /** Every edge of a graph goes forward in `rank`. */
  ghost predicate Ranked<N>(g: Dag<N>, rank: map<N, int>) {
    && rank.Keys == g.edges.Keys
    && forall u, v | u in g.edges && v in g.edges[u] :: v in rank && rank[u] < rank[v]
  }

  lemma {:induction false} WalkClimbs<N>(g: Dag<N>, rank: map<N, int>, a: N, b: N, k: nat)
    requires Ranked(g, rank) && a in rank && Walk(g, a, b, k)
    ensures b in rank && rank[a] + k <= rank[b]
  {
    if k > 0 {
      var c :| c in g.edges[a] && Walk(g, c, b, k - 1);
      WalkClimbs(g, rank, c, b, k - 1);
    }
  }

  lemma RankedIsAcyclic<N>(g: Dag<N>, rank: map<N, int>)
    requires Ranked(g, rank) && rank.Keys == Nodes(g)
    ensures Acyclic(g)
  {
    forall n, k: nat | n in Nodes(g) && k > 0
      ensures !Walk(g, n, n, k)
    {
      if Walk(g, n, n, k) {
        WalkClimbs(g, rank, n, n, k);
      }
    }
  }

  // ---- An acyclic graph has a first node in every non-empty set of nodes ----

  lemma {:induction false} DistinctFitsIn<T>(s: seq<T>, pool: set<T>)
    requires Distinct(s) && forall x | x in s :: x in pool
    ensures |s| <= |pool|
  {
    if s != [] {
      var x, rest := s[0], s[1..];
      assert forall y | y in rest :: y in pool - {x};
      DistinctFitsIn(rest, pool - {x});
    }
  }

  lemma Repeats<T>(s: seq<T>, pool: set<T>) returns (i: nat, j: nat)
    requires |s| > |pool| && forall x | x in s :: x in pool
    ensures i < j < |s| && s[i] == s[j]
  {
    if Distinct(s) {
      DistinctFitsIn(s, pool);
    }
    i, j :| 0 <= i < j < |s| && s[i] == s[j];
  }

  /** Consecutive elements of `trail` are joined by edges, last to first. */
  ghost predicate Backwards<N>(g: Dag<N>, trail: seq<N>) {
    forall i | 0 <= i < |trail| - 1 :: trail[i] in g.deps && trail[i + 1] in g.deps[trail[i]]
  }

  lemma {:induction false} BackwardsWalk<N>(g: Dag<N>, trail: seq<N>, i: nat, j: nat)
    requires WellFormed(g) && Backwards(g, trail) && i <= j < |trail|
    requires forall x | x in trail :: x in Nodes(g)
    ensures Walk(g, trail[j], trail[i], j - i)
    decreases j - i
  {
    if i < j {
      BackwardsWalk(g, trail, i, j - 1);
      assert trail[j - 1] in g.edges[trail[j]];
    }
  }

  ghost predicate Blocked<N>(g: Dag<N>, pool: set<N>, n: N) {
    n in g.deps && exists d | d in g.deps[n] :: d in pool
  }

  lemma {:induction false} TrailWithin<N>(g: Dag<N>, pool: set<N>, len: nat) returns (trail: seq<N>)
    requires pool != {} && forall n {:trigger Blocked(g, pool, n)} | n in pool :: Blocked(g, pool, n)
    ensures |trail| == len + 1 && Backwards(g, trail) && forall x | x in trail :: x in pool
  {
    if len == 0 {
      var n :| n in pool;
      trail := [n];
    } else {
      var shorter := TrailWithin(g, pool, len - 1);
      var last := shorter[len - 1];
      assert Blocked(g, pool, last);
      var d :| d in g.deps[last] && d in pool;
      trail := shorter + [d];
    }
  }

  lemma AllBlockedHasCycle<N>(g: Dag<N>, pool: set<N>)
    requires WellFormed(g) && pool <= Nodes(g) && pool != {}
    requires forall n {:trigger Blocked(g, pool, n)} | n in pool :: Blocked(g, pool, n)
    ensures !Acyclic(g)
  {
    var trail := TrailWithin(g, pool, |pool|);
    var i, j := Repeats(trail, pool);
    forall x | x in trail ensures x in Nodes(g) {
    }
    BackwardsWalk(g, trail, i, j);
  }

  lemma FirstInSet<N>(g: Dag<N>, pool: set<N>) returns (first: N)
    requires WellFormed(g) && Acyclic(g) && pool <= Nodes(g) && pool != {}
    ensures first in pool && forall d | d in g.deps[first] :: d !in pool
  {
    if forall n {:trigger Blocked(g, pool, n)} | n in pool :: Blocked(g, pool, n) {
      AllBlockedHasCycle(g, pool);
    }
    first :| first in pool && !Blocked(g, pool, first);
  }

  // ---- Topological orders ----

  /** `order` lists every vertex once and every edge goes forward in it. */
  ghost predicate Topological<N>(g: Dag<N>, order: seq<N>) {
    && Distinct(order)
    && (forall n | n in g.vertices :: n in order)
    && (forall n | n in order :: n in g.vertices)
    && forall i, j | 0 <= i < |order| && 0 <= j < |order| && order[i] in g.edges && order[j] in g.edges[order[i]] ::
       i < j
  }

  lemma {:induction false} DistinctCount<T>(s: seq<T>)
    requires Distinct(s)
    ensures |set x | x in s| == |s|
  {
    if s != [] {
      var rest := s[1..];
      DistinctCount(rest);
      assert (set x | x in s) == (set x | x in rest) + {s[0]};
      assert s[0] !in rest;
    }
  }

  lemma TopologicalIsPermutation<N>(g: Dag<N>, order: seq<N>)
    requires WellFormed(g) && Topological(g, order)
    ensures |order| == |g.vertices|
  {
    DistinctCount(order);
    DistinctCount(g.vertices);
    assert (set x | x in order) == (set x | x in g.vertices);
  }
}
