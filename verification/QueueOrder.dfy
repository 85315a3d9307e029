/** Which topological order Kahn's algorithm outputs: first come, first served. */
module QueueOrder {
  import opened Dags
  import opened Kahn
  import LooseUpdate

  /** The node at position m is the i-th child of the node at position j, the last of its
      dependencies. */
  ghost predicate FreedBy<N>(g: Dag<N>, order: seq<N>, m: int, j: int, i: int) {
    && 0 <= j < m < |order| && order[j] in g.edges && 0 <= i < |g.edges[order[j]]|
    && g.edges[order[j]][i] == order[m] && order[m] in g.deps
    && forall d | d in g.deps[order[m]] :: d in order[..j + 1]
  }

  ghost predicate Earlier(j: int, i: int, j': int, i': int) {
    j < j' || (j == j' && i < i')
  }

  /** The node at position m is a root, or was freed before the k-th child of position p. */
  ghost predicate Freed<N>(g: Dag<N>, order: seq<N>, m: int, p: int, k: int) {
    && 0 <= m < |order| && order[m] in g.deps
    && (g.deps[order[m]] == [] || exists j, i :: FreedBy(g, order, m, j, i) && Earlier(j, i, p, k))
  }

  /** Nodes are in the order in which they were freed. */
  ghost predicate InTurn<N>(g: Dag<N>, order: seq<N>) {
    forall m, m', j, i, j', i' {:trigger FreedBy(g, order, m, j, i), FreedBy(g, order, m', j', i')} |
      m < m' && FreedBy(g, order, m, j, i) && FreedBy(g, order, m', j', i') :: Earlier(j, i, j', i')
  }

  ghost predicate Queued<N>(g: Dag<N>, order: seq<N>, p: int, k: int) {
    Distinct(order) && (forall m | 0 <= m < |order| :: Freed(g, order, m, p, k)) && InTurn(g, order)
  }

  /** Only one node frees a node, and only once. */
  lemma FreedOnce<N>(g: Dag<N>, order: seq<N>, m: int, j: int, i: int, j': int, i': int)
    requires WellFormed(g) && Distinct(order) && FreedBy(g, order, m, j, i) && FreedBy(g, order, m, j', i')
    ensures j == j' && i == i'
  {
    ChildOf(g, order[j], i);
    ChildOf(g, order[j'], i');
    InFirst(order, j, j' + 1);
    InFirst(order, j', j + 1);
    assert Distinct(g.edges[order[j]]);
  }

  lemma InFirst<T>(s: seq<T>, j: int, k: int)
    requires Distinct(s) && 0 <= j < |s| && 0 <= k <= |s| && s[j] in s[..k]
    ensures j < k
  {
  }

  lemma FreedByStays<N>(g: Dag<N>, order: seq<N>, c: N, m: int, j: int, i: int)
    requires m < |order|
    ensures FreedBy(g, order + [c], m, j, i) <==> FreedBy(g, order, m, j, i)
  {
    if 0 <= j < m {
      assert (order + [c])[..j + 1] == order[..j + 1];
    }
  }

  /** A node that the k-th child of position p makes ready joins the end of the queue. */
  lemma QueuedNext<N>(g: Dag<N>, order: seq<N>, c: N, p: int, k: int)
    requires WellFormed(g) && Queued(g, order, p, k) && c !in order && c in g.deps
    requires 0 <= p < |order| && order[p] in g.edges && 0 <= k < |g.edges[order[p]]| && g.edges[order[p]][k] == c
    requires forall d | d in g.deps[c] :: d in order[..p + 1]
    ensures Queued(g, order + [c], p, k + 1)
  {
    hide WellFormed, FreedBy;
    var longer := order + [c];
    var l, after := |order|, k + 1;
    LastFreed(g, order, c, p, k);
    forall m | 0 <= m < l ensures Freed(g, longer, m, p, after) {
      FreedStays(g, order, c, m, p, k);
    }
    forall m, m', j, i, j', i' | m < m' && FreedBy(g, longer, m, j, i) && FreedBy(g, longer, m', j', i')
      ensures Earlier(j, i, j', i')
    {
      FreedInside(g, longer, m', j', i');
      FreedByStays(g, order, c, m, j, i);
      if m' < l {
        FreedByStays(g, order, c, m', j', i');
      } else {
        FreedOnce(g, longer, l, j', i', p, k);
        FreedInside(g, longer, m, j, i);
        assert Freed(g, order, m, p, k);
        FreedEarlier(g, order, m, p, k, j, i);
      }
    }
  }

  lemma FreedInside<N>(g: Dag<N>, order: seq<N>, m: int, j: int, i: int)
    requires FreedBy(g, order, m, j, i)
    ensures 0 <= j < m < |order| && order[m] in g.deps && order[j] in g.edges
  {
  }

  lemma LastFreed<N>(g: Dag<N>, order: seq<N>, c: N, p: int, k: int)
    requires c in g.deps && Distinct(order) && c !in order
    requires 0 <= p < |order| && order[p] in g.edges && 0 <= k < |g.edges[order[p]]| && g.edges[order[p]][k] == c
    requires forall d | d in g.deps[c] :: d in order[..p + 1]
    ensures FreedBy(g, order + [c], |order|, p, k) && Distinct(order + [c]) && Freed(g, order + [c], |order|, p, k + 1)
  {
    assert (order + [c])[..p + 1] == order[..p + 1];
  }

  lemma FreedStays<N>(g: Dag<N>, order: seq<N>, c: N, m: int, p: int, k: int)
    requires Freed(g, order, m, p, k)
    ensures Freed(g, order + [c], m, p, k + 1)
  {
    hide FreedBy;
    if g.deps[order[m]] != [] {
      var j, i :| FreedBy(g, order, m, j, i) && Earlier(j, i, p, k);
      FreedByStays(g, order, c, m, j, i);
    }
  }

  lemma FreedEarlier<N>(g: Dag<N>, order: seq<N>, m: int, p: int, k: int, j: int, i: int)
    requires WellFormed(g) && Distinct(order) && Freed(g, order, m, p, k) && FreedBy(g, order, m, j, i)
    ensures Earlier(j, i, p, k)
  {
    NotRoot(g, order, m, j, i);
    hide WellFormed, FreedBy;
    var j', i' :| FreedBy(g, order, m, j', i') && Earlier(j', i', p, k);
    FreedOnce(g, order, m, j, i, j', i');
  }

  lemma NotRoot<N>(g: Dag<N>, order: seq<N>, m: int, j: int, i: int)
    requires WellFormed(g) && FreedBy(g, order, m, j, i)
    ensures g.deps[order[m]] != []
  {
    ChildOf(g, order[j], i);
  }

  lemma QueuedLater<N>(g: Dag<N>, order: seq<N>, p: int, k: int, p': int, k': int)
    requires Queued(g, order, p, k)
    requires forall j, i :: Earlier(j, i, p, k) ==> Earlier(j, i, p', k')
    ensures Queued(g, order, p', k')
  {
    hide FreedBy;
    forall m | 0 <= m < |order| ensures Freed(g, order, m, p', k') {
      assert Freed(g, order, m, p, k);
    }
  }

  // ---- The loops ----

  /** What the counters say of a child that is about to be released. */
  lemma ChildReleased<N>(g: Dag<N>, s: Sorting<N>, out: seq<N>, node: N, k: nat)
    requires node in Nodes(g) && WellFormed(g) && k < |g.edges[node]| && node !in out
    requires Counting(g, s, out, [node], g.edges[node][..k])
    ensures var c := g.edges[node][k];
            && c in s.degree && c in g.deps && s.out == out + [node]
            && var r := Release(s, c);
               || r.out + r.ready == s.out + s.ready
               || (r.out + r.ready == s.out + s.ready + [c] && c !in s.out + s.ready
                   && forall d | d in g.deps[c] :: d in out + [node])
  {
    hide ListsInside, Mirrored, Distinct, Missing;
    var c := g.edges[node][k];
    ChildFacts(g, node, k);
    MissingLess(g.deps[c], out, node);
    MissingNone(g.deps[c], out + [node]);
    if s.degree[c] - 1 == 0 {
      var r := Release(s, c);
      assert r.out + r.ready == s.out + s.ready + [c];
    }
  }

  lemma {:induction false} ReleasesQueued<N>(g: Dag<N>, s: Sorting<N>, out: seq<N>, node: N, k: nat)
    requires node in Nodes(g) && WellFormed(g) && node in g.edges && k <= |g.edges[node]| && node !in out
    requires Shaped(g, s) && Counting(g, s, out, [node], []) && Queued(g, s.out + s.ready, |out|, 0)
    ensures var r := ReleaseChildren(g, s, node, k); Queued(g, r.out + r.ready, |out|, k)
  {
    hide *;
    ReleaseStarts(g, s, node);
    if k > 0 {
      ReleasesQueued(g, s, out, node, k - 1);
      ReleaseAllCounting(g, s, out, node, k - 1);
      ReleaseNext(g, s, node, k - 1);
      var r := ReleaseChildren(g, s, node, k - 1);
      var c := g.edges[node][k - 1];
      ChildReleased(g, r, out, node, k - 1);
      var t := ReleaseChildren(g, s, node, k);
      var queue := r.out + r.ready;
      if t.out + t.ready == queue {
        MoreFreed(g, queue, |out|, k - 1);
      } else {
        assert queue[|out|] == node && queue[..|out| + 1] == out + [node];
        QueuedNext(g, queue, c, |out|, k - 1);
      }
    }
  }

  lemma MoreFreed<N>(g: Dag<N>, order: seq<N>, p: int, k: int)
    requires Queued(g, order, p, k)
    ensures Queued(g, order, p, k + 1) && Queued(g, order, p + 1, 0)
  {
    hide Queued;
    QueuedLater(g, order, p, k, p, k + 1);
    QueuedLater(g, order, p, k, p + 1, 0);
  }

  lemma {:induction false} SortsQueued<N>(g: Dag<N>, s: Sorting<N>, steps: nat)
    requires Shaped(g, s) && Invariant(g, s) && Queued(g, s.out + s.ready, |s.out|, 0)
    ensures var r := Sort(g, s, steps); Queued(g, r.out + r.ready, |r.out|, 0)
    decreases steps
  {
    hide ListsInside, Mirrored, Distinct, Invariant, Queued, Counting, ReleaseChildren;
    if steps > 0 && s.ready != [] {
      var node := s.ready[0];
      PopCounting(g, s);
      StepInvariant(g, s);
      assert Pop(s).out + Pop(s).ready == s.out + s.ready;
      ReleasesQueued(g, Pop(s), s.out, node, |g.edges[node]|);
      var t := Step(g, s);
      MoreFreed(g, t.out + t.ready, |s.out|, |g.edges[node]|);
      SortsQueued(g, t, steps - 1);
    }
  }

  lemma BeginQueued<N>(g: Dag<N>)
    requires WellFormed(g)
    ensures var s := Begin(g); Queued(g, s.out + s.ready, 0, 0) && s.out + s.ready == Rootless(g, |g.vertices|)
  {
    hide ListsInside, Mirrored, FreedBy;
    RootlessInside(g, |g.vertices|);
    var roots := Rootless(g, |g.vertices|);
    assert [] + roots == roots;
    forall m | 0 <= m < |roots| ensures Freed(g, roots, m, 0, 0) {
      assert roots[m] in roots;
    }
    forall m, j, i ensures !FreedBy(g, roots, m, j, i) {
      if FreedBy(g, roots, m, j, i) {
        FreedInside(g, roots, m, j, i);
        assert roots[m] in roots;
        NotRoot(g, roots, m, j, i);
      }
    }
  }

  // ---- The order ----

  /** a comes before b in the vertex list. */
  ghost predicate ListedBefore<N>(g: Dag<N>, a: N, b: N) {
    exists x, y :: 0 <= x < y < |g.vertices| && g.vertices[x] == a && g.vertices[y] == b
  }

  lemma {:induction false} RootlessListed<N>(g: Dag<N>, k: nat, i: nat, j: nat)
    requires WellFormed(g) && k <= |g.vertices| && i < j < |Rootless(g, k)|
    ensures ListedBefore(g, Rootless(g, k)[i], Rootless(g, k)[j])
  {
    hide ListsInside, Mirrored;
    if j < |Rootless(g, k - 1)| {
      RootlessListed(g, k - 1, i, j);
    } else {
      RootlessInside(g, k - 1);
      assert Rootless(g, k - 1)[i] in Rootless(g, k - 1);
      var x :| 0 <= x < k - 1 && g.vertices[..k - 1][x] == Rootless(g, k)[i];
      assert g.vertices[x] == Rootless(g, k)[i] && g.vertices[k - 1] == Rootless(g, k)[j];
    }
  }

  /** The topological order, exactly: first the nodes without dependencies, as the vertex list
      has them; then every other node in the order in which its last dependency was output, and
      the nodes that have their last dependency in common as its edge list has them. On a graph
      with cycles the same holds of what is output. */
  lemma OrderExactly<N>(g: Dag<N>)
    requires WellFormed(g)
    ensures var a := TopologicalOrder(g);
            && Distinct(a) && (forall n | n in a :: n in g.deps)
            && (forall m, m' | 0 <= m < m' < |a| && g.deps[a[m']] == [] ::
                  g.deps[a[m]] == [] && ListedBefore(g, a[m], a[m']))
            && (forall m | 0 <= m < |a| && g.deps[a[m]] != [] :: exists j, i :: FreedBy(g, a, m, j, i))
            && InTurn(g, a)
  {
    hide ListsInside, Mirrored, Sort, Rootless, Sorted, Missing, Invariant, FreedBy, InTurn, ListedBefore;
    RunsOut(g);
    OutputOrdered(g);
    BeginInvariant(g);
    BeginQueued(g);
    SortsQueued(g, Begin(g), |g.vertices|);
    LooseUpdate.SortsAfter(g, Begin(g), |g.vertices|);
    var a, roots := TopologicalOrder(g), Rootless(g, |g.vertices|);
    assert a + [] == a;
    forall m | 0 <= m < |a| && g.deps[a[m]] != [] ensures exists j, i :: FreedBy(g, a, m, j, i) {
      assert Freed(g, a, m, |a|, 0);
    }
    forall m, m' | 0 <= m < m' < |a| && g.deps[a[m']] == []
      ensures g.deps[a[m]] == [] && ListedBefore(g, a[m], a[m'])
    {
      LooseUpdate.RootsFirst(g, m, m');
      RootAt(g, a, roots, m);
      RootAt(g, a, roots, m');
      RootlessListed(g, |g.vertices|, m, m');
    }
  }

  lemma RootAt<N>(g: Dag<N>, a: seq<N>, roots: seq<N>, m: nat)
    requires WellFormed(g) && roots == Rootless(g, |g.vertices|) && roots <= a && Distinct(a)
    requires m < |a| && a[m] in Nodes(g) && g.deps[a[m]] == []
    ensures m < |roots| && roots[m] == a[m]
  {
    hide ListsInside, Mirrored, Rootless;
    RootlessInside(g, |g.vertices|);
    assert g.vertices[..|g.vertices|] == g.vertices;
    assert a[m] in roots;
    var k :| 0 <= k < |roots| && roots[k] == a[m];
    assert a[k] == a[m];
  }
}
