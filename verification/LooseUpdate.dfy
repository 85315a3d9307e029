/** An update compares how many dependencies nodes have, not which, and only the nodes that
    the topological order reaches. When that is enough, and what it accepts otherwise. */
module LooseUpdate {
  import opened Dags
  import opened Kahn
  import opened Cloning

  /** What an update compares of two graphs with nodes of one kind. */
  ghost predicate SameCounts<M, N>(g: Dag<M>, h: Dag<N>)
    requires WellFormed(g) && WellFormed(h)
  {
    var a, b := TopologicalOrder(g), TopologicalOrder(h);
    |a| == |b| && forall i | 0 <= i < |a| :: a[i] in g.deps && b[i] in h.deps && |g.deps[a[i]]| == |h.deps[b[i]]|
  }

  /** The node at position i of `order` depends on the one at position j. */
  ghost predicate DependsAt<N>(g: Dag<N>, order: seq<N>, i: int, j: int) {
    0 <= i < |order| && 0 <= j < |order| && order[i] in g.deps && order[j] in g.deps[order[i]]
  }

  /** Nodes paired by position depend on nodes paired by position. */
  ghost predicate SameEdges<M, N>(g: Dag<M>, h: Dag<N>)
    requires WellFormed(g) && WellFormed(h)
  {
    var a, b := TopologicalOrder(g), TopologicalOrder(h);
    |a| == |b| && forall i, j :: DependsAt(g, a, i, j) <==> DependsAt(h, b, i, j)
  }

  /** Every node depends on none of those before it in the order, or on all of them. */
  ghost predicate AllOrNone<N>(h: Dag<N>)
    requires WellFormed(h)
  {
    var b := TopologicalOrder(h);
    forall i | 0 <= i < |b| :: b[i] in h.deps && (|h.deps[b[i]]| == 0 || |h.deps[b[i]]| == i)
  }

  // ---- Enough: all or none ----

  /** Dependencies come first in the order, so a node has at most as many as there are
      nodes before it, and with as many it depends on them all. */
  lemma DepsBefore<N>(g: Dag<N>, i: nat)
    requires WellFormed(g) && i < |TopologicalOrder(g)|
    ensures var a := TopologicalOrder(g);
            && a[i] in g.deps && |g.deps[a[i]]| <= i && (forall d | d in g.deps[a[i]] :: d in a[..i])
            && (|g.deps[a[i]]| == i ==> forall j | 0 <= j < i :: a[j] in g.deps[a[i]])
  {
    hide Mirrored, TopologicalOrder;
    OutputOrdered(g);
    var a := TopologicalOrder(g);
    assert a[i] in a;
    var before := set n | n in a[..i];
    DistinctCount(a[..i]);
    DistinctFitsIn(g.deps[a[i]], before);
    if |g.deps[a[i]]| == i {
      DistinctCount(g.deps[a[i]]);
      SubsetOfSameSize((set d | d in g.deps[a[i]]), before);
      forall j | 0 <= j < i ensures a[j] in g.deps[a[i]] {
        assert a[..i][j] == a[j];
        assert a[j] in before;
      }
    }
  }

  lemma NotLater<N>(g: Dag<N>, i: nat, j: nat)
    requires WellFormed(g) && DependsAt(g, TopologicalOrder(g), i, j)
    ensures j < i
  {
    hide WellFormed, TopologicalOrder;
    DepsBefore(g, i);
    OutputOrdered(g);
    var a := TopologicalOrder(g);
    var k :| 0 <= k < i && a[..i][k] == a[j];
    assert a[k] == a[j];
  }

  /** A graph that passes the comparisons of an update with `h` has the edges of `h` if each
      node of `h` depends on none of those before it or on all. */
  lemma AllOrNoneSuffices<M, N>(g: Dag<M>, h: Dag<N>)
    requires WellFormed(g) && WellFormed(h) && SameCounts(g, h) && AllOrNone(h)
    ensures SameEdges(g, h)
  {
    hide WellFormed, TopologicalOrder;
    var a, b := TopologicalOrder(g), TopologicalOrder(h);
    forall i, j ensures DependsAt(g, a, i, j) <==> DependsAt(h, b, i, j) {
      if 0 <= i < |a| && 0 <= j < |a| {
        DepsBefore(g, i);
        DepsBefore(h, i);
        if DependsAt(g, a, i, j) {
          NotLater(g, i, j);
        }
        if DependsAt(h, b, i, j) {
          NotLater(h, i, j);
        }
      }
    }
  }

  // ---- Nodes without dependencies come first ----

  lemma ReleaseQueues<N>(s: Sorting<N>, child: N)
    requires child in s.degree
    ensures Release(s, child).ready == s.ready || Release(s, child).ready == s.ready + [child]
  {
  }

  lemma {:induction false} ReleasesAfter<N>(g: Dag<N>, s: Sorting<N>, node: N, k: nat)
    requires Shaped(g, s) && node in Nodes(g) && node in g.edges && k <= |g.edges[node]|
    ensures s.ready <= ReleaseChildren(g, s, node, k).ready
  {
    hide *;
    ReleaseStarts(g, s, node);
    if k > 0 {
      ReleasesAfter(g, s, node, k - 1);
      ReleaseNext(g, s, node, k - 1);
      ReleaseQueues(ReleaseChildren(g, s, node, k - 1), g.edges[node][k - 1]);
    }
  }

  lemma {:induction false} SortsAfter<N>(g: Dag<N>, s: Sorting<N>, steps: nat)
    requires Shaped(g, s)
    ensures var r := Sort(g, s, steps); s.out + s.ready <= r.out + r.ready
    decreases steps
  {
    hide ListsInside, Mirrored, Distinct, ReleaseChildren;
    if steps > 0 && s.ready != [] {
      var node := s.ready[0];
      assert node in s.ready;
      ReleasesAfter(g, Pop(s), node, |g.edges[node]|);
      SortsAfter(g, Step(g, s), steps - 1);
    }
  }

  /** Once a node of the order has a dependency, so have all that follow. */
  lemma RootsFirst<N>(g: Dag<N>, i: nat, j: nat)
    requires WellFormed(g) && i <= j < |TopologicalOrder(g)|
    ensures var a := TopologicalOrder(g);
            a[i] in g.deps && a[j] in g.deps && (g.deps[a[j]] == [] ==> g.deps[a[i]] == [])
  {
    hide ListsInside, Mirrored, Sort, Rootless, Sorted, Missing, Invariant;
    RunsOut(g);
    OutputOrdered(g);
    SortsAfter(g, Begin(g), |g.vertices|);
    RootlessInside(g, |g.vertices|);
    var a, roots := TopologicalOrder(g), Rootless(g, |g.vertices|);
    assert [] + roots == roots && a + [] == a;
    assert g.vertices[..|g.vertices|] == g.vertices;
    assert a[i] in a && a[j] in a;
    if g.deps[a[j]] == [] {
      var k :| 0 <= k < |roots| && roots[k] == a[j];
      assert a[k] == roots[k];
      assert roots[i] in roots;
    }
  }

  // ---- Graphs whose nodes are ordered as they are numbered ----

  ghost predicate Rising(s: seq<int>) {
    forall i, j | 0 <= i < j < |s| :: s[i] < s[j]
  }

  /** The nodes 0 to n - 1 depend on smaller ones, a larger node on something no smaller
      than what a smaller node depends on; the remaining nodes depend on each other. */
  ghost predicate Steady(g: Dag<int>, n: nat) {
    && WellFormed(g) && n <= |g.vertices| && (forall i | 0 <= i < |g.vertices| :: g.vertices[i] == i)
    && (forall i | i in g.edges :: Rising(g.edges[i]))
    && (forall j, d | j in g.deps && d in g.deps[j] :: if j < n then d < j else n <= d)
    && (forall j | j in g.deps && n <= j :: g.deps[j] != [])
    && forall c, x, t | c in g.deps && x in g.deps && c < x < n && t in g.deps[c] :: HasFrom(g, x, t)
  }

  ghost predicate HasFrom(g: Dag<int>, x: int, t: int) {
    x in g.deps && exists d :: d in g.deps[x] && t <= d
  }

  /** The state of the sort after t nodes. */
  ghost predicate InTurn(g: Dag<int>, n: nat, s: Sorting<int>, t: nat) {
    && Shaped(g, s) && Invariant(g, s) && t <= n && |s.out| == t && (forall i | 0 <= i < t :: s.out[i] == i)
    && Rising(s.ready) && forall i | 0 <= i < |s.ready| :: t <= s.ready[i] < n
  }

  /** A node is ready exactly when it is still to be output and all it depends on is output. */
  lemma ReadyExactly<N>(g: Dag<N>, s: Sorting<N>, x: N)
    requires Invariant(g, s) && x in Nodes(g)
    ensures x in g.deps && (x in s.out + s.ready <==> forall d | d in g.deps[x] :: d in s.out)
  {
    hide ListsInside, Mirrored, Distinct, Missing, Sorted;
    MissingNone(g.deps[x], s.out);
    assert s.out + [] == s.out;
  }

  lemma SteadyNodes(g: Dag<int>, n: nat)
    requires Steady(g, n)
    ensures WellFormed(g) && n <= |g.vertices| && forall x: int :: x in Nodes(g) <==> 0 <= x < |g.vertices|
  {
    hide WellFormed, Rising, HasFrom;
    forall x: int | 0 <= x < |g.vertices| ensures x in Nodes(g) {
      assert g.vertices[x] == x;
    }
  }

  /** While nodes are left, the next one is at the head of the queue. */
  lemma NextIsReady(g: Dag<int>, n: nat, s: Sorting<int>, t: nat)
    requires Steady(g, n) && InTurn(g, n, s, t) && t < n
    ensures s.ready != [] && s.ready[0] == t
  {
    hide WellFormed, HasFrom, Invariant;
    SteadyNodes(g, n);
    ReadyExactly(g, s, t);
    forall d | d in g.deps[t] ensures d in s.out {
      InList(g, t, d);
      assert s.out[d] == d;
    }
    var k :| 0 <= k < |s.out + s.ready| && (s.out + s.ready)[k] == t;
    assert s.ready[k - t] == t;
  }

  lemma InList(g: Dag<int>, j: int, d: int)
    requires WellFormed(g) && j in Nodes(g) && j in g.deps && d in g.deps[j]
    ensures d in Nodes(g)
  {
    DepIn(g, j, d);
  }

  /** A child of t that is still to be released comes after everything that is ready. */
  lemma ReadyBefore(g: Dag<int>, n: nat, s: Sorting<int>, t: nat, e: int, child: int)
    requires Steady(g, n) && InTurn(g, n, s, t) && t < n && t in g.edges && child in g.edges[t] && e in s.ready
    ensures t < child < n && e < child
  {
    hide WellFormed, Invariant;
    SteadyNodes(g, n);
    EdgeIn(g, t, child);
    ReadyNode(g, n, s, t, e);
    assert child < e ==> HasFrom(g, e, t);
  }

  lemma EdgeIn(g: Dag<int>, t: int, child: int)
    requires WellFormed(g) && t in g.edges && child in g.edges[t]
    ensures t in Nodes(g) && child in Nodes(g) && child in g.deps && t in g.deps[child]
  {
    ChildIn(g, t, child);
  }

  lemma ReadyNode(g: Dag<int>, n: nat, s: Sorting<int>, t: nat, e: int)
    requires Steady(g, n) && InTurn(g, n, s, t) && e in s.ready
    ensures t <= e < n && e in g.deps && forall d | d in g.deps[e] :: d in s.out && d < t
  {
    hide WellFormed, Invariant, Steady;
    SteadyNodes(g, n);
    assert e in s.out + s.ready;
    ReadyExactly(g, s, e);
    forall d | d in g.deps[e] ensures d in s.out && d < t {
    }
  }

  /** What is queued after the first k children of t have been released. */
  ghost predicate Queued(g: Dag<int>, n: nat, s: Sorting<int>, t: nat, k: nat, ready: seq<int>)
    requires t in g.edges && k <= |g.edges[t]|
  {
    && Rising(ready)
    && forall e | e in ready :: t < e < n && (e in s.ready || e in g.edges[t][..k])
  }

  lemma QueuedNext(g: Dag<int>, n: nat, s: Sorting<int>, t: nat, k: nat, ready: seq<int>)
    requires Steady(g, n) && InTurn(g, n, s, t) && t < n && t in g.edges && k < |g.edges[t]|
             && Queued(g, n, s, t, k, ready)
    ensures Queued(g, n, s, t, k + 1, ready) && Queued(g, n, s, t, k + 1, ready + [g.edges[t][k]])
  {
    hide WellFormed, Invariant, InTurn;
    var child := g.edges[t][k];
    assert g.edges[t][..k + 1] == g.edges[t][..k] + [child];
    ChildAfter(g, n, s, t, child);
    forall e | e in ready ensures e < child {
      if e in s.ready {
        ReadyBefore(g, n, s, t, e, child);
      } else {
        var i :| 0 <= i < k && g.edges[t][..k][i] == e;
        assert Rising(g.edges[t]);
      }
    }
    var more := ready + [child];
    forall i | 0 <= i < |ready| ensures more[i] < child {
      assert ready[i] in ready;
    }
    assert more[|ready|] == child;
    forall e | e in more ensures t < e < n && (e in s.ready || e in g.edges[t][..k + 1]) {
      assert e == child || e in ready;
    }
  }

  lemma ChildAfter(g: Dag<int>, n: nat, s: Sorting<int>, t: nat, child: int)
    requires Steady(g, n) && t < n && t in g.edges && child in g.edges[t]
    ensures t < child < n
  {
    hide WellFormed, Rising, HasFrom;
    EdgeIn(g, t, child);
  }

  lemma {:induction false} ReleasesRising(g: Dag<int>, n: nat, s: Sorting<int>, t: nat, k: nat)
    requires Steady(g, n) && InTurn(g, n, s, t) && t < n && s.ready != [] && s.ready[0] == t
    requires t in g.edges && t in Nodes(g) && k <= |g.edges[t]| && Shaped(g, Pop(s))
    ensures Queued(g, n, s, t, k, ReleaseChildren(g, Pop(s), t, k).ready)
  {
    hide *;
    ReleaseStarts(g, Pop(s), t);
    if k == 0 {
      PoppedRising(g, n, s, t);
    } else {
      ReleasesRising(g, n, s, t, k - 1);
      ReleaseNext(g, Pop(s), t, k - 1);
      ReleaseQueues(ReleaseChildren(g, Pop(s), t, k - 1), g.edges[t][k - 1]);
      QueuedNext(g, n, s, t, k - 1, ReleaseChildren(g, Pop(s), t, k - 1).ready);
    }
  }

  lemma PoppedRising(g: Dag<int>, n: nat, s: Sorting<int>, t: nat)
    requires InTurn(g, n, s, t) && s.ready != [] && s.ready[0] == t && t in g.edges
    ensures Queued(g, n, s, t, 0, Pop(s).ready)
  {
    hide WellFormed, Invariant;
  }

  lemma StepInTurn(g: Dag<int>, n: nat, s: Sorting<int>, t: nat)
    requires Steady(g, n) && InTurn(g, n, s, t) && t < n
    ensures s.ready != [] && Shaped(g, s) && InTurn(g, n, Step(g, s), t + 1)
  {
    hide ListsInside, Mirrored, Distinct, Invariant, Steady;
    NextIsReady(g, n, s, t);
    SteadyNodes(g, n);
    StepInvariant(g, s);
    ReleasesRising(g, n, s, t, |g.edges[t]|);
    var r := Step(g, s);
    assert r.out == s.out + [t];
    forall i | 0 <= i < |r.ready| ensures t < r.ready[i] < n {
      assert r.ready[i] in r.ready;
    }
  }

  lemma {:induction false} SortsInTurn(g: Dag<int>, n: nat, s: Sorting<int>, t: nat, steps: nat)
    requires Steady(g, n) && Shaped(g, s) && InTurn(g, n, s, t) && n - t <= steps
    ensures InTurn(g, n, Sort(g, s, steps), n)
    decreases steps
  {
    hide ListsInside, Mirrored, Distinct, Invariant, Steady, Step, Rising;
    if t < n {
      StepInTurn(g, n, s, t);
      SortsInTurn(g, n, Step(g, s), t + 1, steps - 1);
    } else {
      NoneReady(g, n, s);
    }
  }

  lemma NoneReady(g: Dag<int>, n: nat, s: Sorting<int>)
    requires InTurn(g, n, s, n)
    ensures s.ready == []
  {
    hide *;
    if s.ready != [] {
      HeadInTurn(g, n, s, n);
    }
  }

  lemma HeadInTurn(g: Dag<int>, n: nat, s: Sorting<int>, t: nat)
    requires InTurn(g, n, s, t) && s.ready != []
    ensures t < n
  {
    hide WellFormed, Invariant;
    assert t <= s.ready[0] < n;
  }

  lemma {:induction false} RootlessRising(g: Dag<int>, k: nat)
    requires WellFormed(g) && k <= |g.vertices| && forall i | 0 <= i < |g.vertices| :: g.vertices[i] == i
    ensures Rising(Rootless(g, k)) && forall i | 0 <= i < |Rootless(g, k)| :: 0 <= Rootless(g, k)[i] < k
  {
    hide ListsInside, Mirrored, Distinct;
    if k > 0 {
      RootlessRising(g, k - 1);
    }
  }

  lemma BeginInTurn(g: Dag<int>, n: nat)
    requires Steady(g, n)
    ensures InTurn(g, n, Begin(g), 0)
  {
    hide ListsInside, Mirrored, Distinct, Rising, Invariant, HasFrom, Rootless;
    BeginInvariant(g);
    RootlessRising(g, |g.vertices|);
    RootlessInside(g, |g.vertices|);
    var roots := Rootless(g, |g.vertices|);
    forall i | 0 <= i < |roots| ensures roots[i] < n {
      assert roots[i] in roots;
    }
  }

  /** The topological order of such a graph is 0, 1, 2 and so on up to n - 1. */
  lemma SteadyOrder(g: Dag<int>, n: nat)
    requires Steady(g, n)
    ensures WellFormed(g) && |TopologicalOrder(g)| == n && forall i | 0 <= i < n :: TopologicalOrder(g)[i] == i
    ensures Acyclic(g) <==> n == |g.vertices|
  {
    hide WellFormed, Steady, Sort, Begin, Acyclic, Rising, Invariant;
    SteadyNodes(g, n);
    BeginInTurn(g, n);
    SortsInTurn(g, n, Begin(g), 0, |g.vertices|);
    KahnCorrect(g);
  }

  // ---- A graph with given dependency lists ----

  /** The nodes below k that depend on i, in order. */
  ghost function Children(lists: seq<seq<int>>, i: int, k: nat): (r: seq<int>)
    requires k <= |lists|
    ensures forall j :: j in r <==> 0 <= j < k && i in lists[j]
    ensures Rising(r) && forall p | 0 <= p < |r| :: 0 <= r[p] < k
  {
    if k == 0 then []
    else if i in lists[k - 1] then Children(lists, i, k - 1) + [k - 1]
    else Children(lists, i, k - 1)
  }

  ghost function Built(lists: seq<seq<int>>): Dag<int> {
    Dag(seq(|lists|, i => i),
        map i | 0 <= i < |lists| :: Children(lists, i, |lists|),
        map i | 0 <= i < |lists| :: lists[i])
  }

  lemma BuiltFormed(lists: seq<seq<int>>)
    requires forall j | 0 <= j < |lists| :: Distinct(lists[j])
    requires forall j, d | 0 <= j < |lists| && d in lists[j] :: 0 <= d < |lists|
    ensures WellFormed(Built(lists)) && forall x: int :: x in Nodes(Built(lists)) <==> 0 <= x < |lists|
  {
    hide Children;
    var g := Built(lists);
    forall x: int ensures x in Nodes(g) <==> 0 <= x < |lists| {
      if 0 <= x < |lists| {
        assert g.vertices[x] == x;
      }
    }
    assert g.edges.Keys == Nodes(g) && g.deps.Keys == Nodes(g);
  }

  /** Lists whose graph is ordered as it is numbered: each node depends on smaller ones, if
      on any then on one of the two before it, and so do all that follow. After these n
      nodes there may be two that depend on each other. */
  ghost predicate Fitting(lists: seq<seq<int>>, n: nat) {
    && n <= |lists| && (forall j | 0 <= j < n :: Distinct(lists[j]) && forall d | d in lists[j] :: 0 <= d < j)
    && (forall j | 0 <= j < n && lists[j] != [] :: Recently(lists[j], j))
    && (forall c, x | 0 <= c < x < n :: lists[c] != [] ==> lists[x] != [])
    && (|lists| == n || (|lists| == n + 2 && lists[n] == [n + 1] && lists[n + 1] == [n]))
  }

  ghost predicate Recently(list: seq<int>, j: int) {
    exists d :: d in list && j - 2 <= d
  }

  lemma FittingSteady(lists: seq<seq<int>>, n: nat)
    requires Fitting(lists, n)
    ensures Steady(Built(lists), n)
  {
    hide WellFormed, Children, Rising, HasFrom, Fitting;
    FittingFormed(lists, n);
    var g := Built(lists);
    forall j | 0 <= j < |lists| ensures n <= |lists| && (n <= j ==> lists[j] != []) && forall d | d in lists[j] ::
        if j < n then d < j else n <= d {
      FittingAt(lists, n, j);
    }
    forall c, x, t | c in g.deps && x in g.deps && c < x < n && t in g.deps[c] ensures HasFrom(g, x, t) {
      FittingHas(lists, n, c, x, t);
    }
    FittingLength(lists, n);
  }

  lemma FittingLength(lists: seq<seq<int>>, n: nat)
    requires Fitting(lists, n)
    ensures n <= |lists|
  {
  }

  lemma FittingAt(lists: seq<seq<int>>, n: nat, j: nat)
    requires Fitting(lists, n) && j < |lists|
    ensures n <= |lists| && (n <= j ==> lists[j] != []) && forall d | d in lists[j] :: if j < n then d < j else n <= d
  {
    hide Distinct, Recently;
  }

  lemma FittingFormed(lists: seq<seq<int>>, n: nat)
    requires Fitting(lists, n)
    ensures WellFormed(Built(lists))
  {
    hide Recently, WellFormed, Built;
    forall j | 0 <= j < |lists| ensures Distinct(lists[j]) && forall d | d in lists[j] :: 0 <= d < |lists| {
    }
    BuiltFormed(lists);
  }

  lemma FittingHas(lists: seq<seq<int>>, n: nat, c: int, x: int, t: int)
    requires Fitting(lists, n) && 0 <= c < x < n && t in lists[c]
    ensures HasFrom(Built(lists), x, t)
  {
    hide Children, Distinct;
    assert lists[c] != [];
    var d :| d in lists[x] && x - 2 <= d;
    assert d in Built(lists).deps[x];
  }

  // ---- What an update accepts when it is not enough ----

  /** How many dependencies the node at position i of the order has. */
  ghost function CountAt<N>(h: Dag<N>, i: nat): (c: nat)
    requires WellFormed(h) && i < |TopologicalOrder(h)|
    ensures TopologicalOrder(h)[i] in h.deps && c == |h.deps[TopologicalOrder(h)[i]]|
  {
    DepsBefore(h, i);
    |h.deps[TopologicalOrder(h)[i]]|
  }

  ghost function Counts<N>(h: Dag<N>): (c: seq<nat>)
    requires WellFormed(h)
    ensures |c| == |TopologicalOrder(h)| && forall i | 0 <= i < |c| :: c[i] == CountAt(h, i)
  {
    seq(|TopologicalOrder(h)|, i requires 0 <= i < |TopologicalOrder(h)| => CountAt(h, i))
  }

  /** At most i dependencies at position i, and none only in front. */
  ghost predicate Plausible(c: seq<nat>) {
    && (forall i | 0 <= i < |c| :: c[i] <= i)
    && forall i, j | 0 <= i < j < |c| :: c[j] == 0 ==> c[i] == 0
  }

  lemma CountsPlausible<N>(h: Dag<N>)
    requires WellFormed(h)
    ensures Plausible(Counts(h))
  {
    hide WellFormed, TopologicalOrder, Counts;
    var c := Counts(h);
    forall i | 0 <= i < |c| ensures c[i] <= i {
      DepsBefore(h, i);
    }
    forall i, j | 0 <= i < j < |c| && c[j] == 0 ensures c[i] == 0 {
      RootsFirst(h, i, j);
    }
  }

  /** The c nodes just before node j. */
  ghost function Nearest(j: nat, c: nat): (r: seq<int>)
    requires c <= j
    ensures |r| == c && forall k | 0 <= k < c :: r[k] == j - c + k
  {
    seq(c, k => j - c + k)
  }

  /** Another choice of c nodes before node j, one of the last two among them. */
  ghost function Others(j: nat, c: nat): (r: seq<int>)
    requires 0 < c < j
    ensures |r| == c && r[c - 1] == (if c == 1 then j - 2 else j - 1) && forall k | 0 <= k < c - 1 :: r[k] == k
  {
    if c == 1 then [j - 2] else seq(c - 1, k => k) + [j - 1]
  }

  lemma ChoicesDiffer(j: nat, c: nat) returns (d: nat)
    requires 0 < c < j
    ensures d < j && (d in Nearest(j, c) <==> d !in Others(j, c))
  {
    d := if c == 1 then j - 1 else 0;
    if c == 1 {
      assert Nearest(j, c)[0] == d;
    } else {
      assert Others(j, c)[0] == d;
    }
  }

  ghost function NearestLists(c: seq<nat>): (r: seq<seq<int>>)
    requires Plausible(c)
    ensures |r| == |c| && forall j | 0 <= j < |c| :: r[j] == Nearest(j, c[j])
  {
    seq(|c|, j requires 0 <= j < |c| => Nearest(j, c[j]))
  }

  /** Lists of the right lengths, each choosing the nearest nodes or the others. */
  ghost predicate Chosen(lists: seq<seq<int>>, c: seq<nat>)
    requires Plausible(c)
  {
    && |c| <= |lists|
    && forall j | 0 <= j < |c| :: lists[j] == Nearest(j, c[j]) || (0 < c[j] < j && lists[j] == Others(j, c[j]))
  }

  lemma ChosenFits(lists: seq<seq<int>>, c: seq<nat>)
    requires Plausible(c) && Chosen(lists, c)
    requires |lists| == |c| || (|lists| == |c| + 2 && lists[|c|] == [|c| + 1] && lists[|c| + 1] == [|c|])
    ensures Fitting(lists, |c|)
  {
    hide Recently;
    forall j | 0 <= j < |c| ensures Distinct(lists[j]) && (forall d | d in lists[j] :: 0 <= d < j)
        && (lists[j] != [] ==> Recently(lists[j], j)) {
      ChoiceFits(lists[j], j, c[j]);
    }
  }

  lemma ChoiceFits(list: seq<int>, j: nat, c: nat)
    requires c <= j && (list == Nearest(j, c) || (0 < c < j && list == Others(j, c)))
    ensures Distinct(list) && (forall d | d in list :: 0 <= d < j) && (list != [] ==> Recently(list, j)) && |list| == c
  {
    if c > 0 {
      assert list[c - 1] in list && j - 2 <= list[c - 1];
    }
  }

  /** The graph with such lists passes the comparisons with any graph of those counts. */
  lemma ChosenAccepted<N>(lists: seq<seq<int>>, h: Dag<N>)
    requires WellFormed(h) && Plausible(Counts(h)) && Chosen(lists, Counts(h)) && Fitting(lists, |Counts(h)|)
    ensures WellFormed(Built(lists)) && SameCounts(Built(lists), h)
    ensures Acyclic(Built(lists)) <==> |lists| == |Counts(h)|
    ensures var a := TopologicalOrder(Built(lists)); |a| == |Counts(h)| && forall i | 0 <= i < |a| :: a[i] == i
  {
    hide WellFormed, Steady, TopologicalOrder, Counts, CountAt, Acyclic, Plausible, Fitting, Children;
    FittingSteady(lists, |Counts(h)|);
    var g := Built(lists);
    SteadyOrder(g, |Counts(h)|);
    var a := TopologicalOrder(g);
    var b := TopologicalOrder(h);
    forall i | 0 <= i < |a| ensures a[i] in g.deps && b[i] in h.deps && |g.deps[a[i]]| == |h.deps[b[i]]| {
      assert a[i] == i;
      CountsFit(h, i);
      ChoiceFits(lists[i], i, Counts(h)[i]);
    }
  }

  lemma CountsFit<N>(h: Dag<N>, i: nat)
    requires WellFormed(h) && i < |Counts(h)|
    ensures Counts(h)[i] <= i
    ensures i < |TopologicalOrder(h)| && TopologicalOrder(h)[i] in h.deps
            && Counts(h)[i] == |h.deps[TopologicalOrder(h)[i]]|
  {
    hide WellFormed, TopologicalOrder, Counts, CountAt;
    DepsBefore(h, i);
    assert Counts(h)[i] == CountAt(h, i);
  }

  lemma DependsBuilt(lists: seq<seq<int>>, order: seq<int>, i: nat, j: nat)
    requires i < |order| <= |lists| && j < |order| && order[i] == i && order[j] == j
    ensures DependsAt(Built(lists), order, i, j) <==> j in lists[i]
  {
    hide Children;
  }

  /** Where a node depends on some of those before it but not on all, an update accepts an
      acyclic graph with other edges. */
  lemma SomeAccepted<N>(h: Dag<N>, i: nat) returns (g: Dag<int>)
    requires WellFormed(h) && i < |Counts(h)| && 0 < Counts(h)[i] < i
    ensures WellFormed(g) && Acyclic(g) && SameCounts(g, h) && !SameEdges(g, h)
  {
    hide WellFormed, TopologicalOrder, Counts, Acyclic, Plausible, Fitting, SameCounts, DependsAt, Built, CountAt;
    var c := Counts(h);
    CountsPlausible(h);
    var near := NearestLists(c);
    var other := near[i := Others(i, c[i])];
    ChosenFits(near, c);
    ChosenFits(other, c);
    ChosenAccepted(near, h);
    ChosenAccepted(other, h);
    var d := ChoicesDiffer(i, c[i]);
    DependsBuilt(near, TopologicalOrder(Built(near)), i, d);
    DependsBuilt(other, TopologicalOrder(Built(other)), i, d);
    g := if SameEdges(Built(near), h) then Built(other) else Built(near);
  }

  /** Exactly when an update from an acyclic graph that it accepts keeps the edges: each node
      of the executable's graph depends on none of those before it in the order, or on all. */
  lemma UpdateKeepsEdgesExactly<N>(h: Dag<N>)
    requires WellFormed(h)
    ensures (forall g: Dag<int> | WellFormed(g) && Acyclic(g) && SameCounts(g, h) :: SameEdges(g, h)) <==> AllOrNone(h)
  {
    hide WellFormed, TopologicalOrder, Acyclic, SameCounts, SameEdges, Counts;
    if AllOrNone(h) {
      forall g: Dag<int> | WellFormed(g) && Acyclic(g) && SameCounts(g, h) ensures SameEdges(g, h) {
        AllOrNoneSuffices(g, h);
      }
    } else {
      var i := SomeAt(h);
      var g := SomeAccepted(h, i);
    }
  }

  lemma SomeAt<N>(h: Dag<N>) returns (i: nat)
    requires WellFormed(h) && !AllOrNone(h)
    ensures i < |Counts(h)| && 0 < Counts(h)[i] < i
  {
    hide WellFormed, TopologicalOrder, CountAt, Counts;
    var c := Counts(h);
    forall k | 0 <= k < |c| ensures TopologicalOrder(h)[k] in h.deps && c[k] == |h.deps[TopologicalOrder(h)[k]]| {
      CountsFit(h, k);
    }
    i :| 0 <= i < |c| && c[i] != 0 && c[i] != i;
    CountsFit(h, i);
  }

  /** The result of the topological sort is not looked at: whatever the executable's graph,
      an update accepts a graph with two more nodes that depend on each other. */
  lemma CyclicAccepted<N>(h: Dag<N>) returns (g: Dag<int>)
    requires WellFormed(h)
    ensures WellFormed(g) && SameCounts(g, h) && !Acyclic(g) && |g.vertices| == |TopologicalOrder(h)| + 2
  {
    hide WellFormed, TopologicalOrder, Counts, Acyclic, Plausible, Fitting, SameCounts, CountAt;
    var c := Counts(h);
    CountsPlausible(h);
    var lists := NearestLists(c) + [[|c| + 1], [|c|]];
    ChosenFits(lists, c);
    ChosenAccepted(lists, h);
    g := Built(lists);
  }

  /** A graph accepted by the executable form of an acyclic graph is acyclic exactly when it
      has as many nodes. */
  lemma AcceptedIsWhole<M, N>(g: Dag<M>, h: Dag<N>)
    requires WellFormed(g) && WellFormed(h) && SameCounts(g, h) && Acyclic(h)
    ensures Acyclic(g) <==> |g.vertices| == |h.vertices|
  {
    hide WellFormed, TopologicalOrder, Acyclic;
    KahnCorrect(g);
    KahnCorrect(h);
  }

  // ---- The smallest case ----

  /** 0 leads to 1 and 1 to 2. */
  ghost function Chain(): Dag<int> {
    Built([[], [0], [1]])
  }

  /** 0 leads to 1 and to 2. */
  ghost function Fork(): Dag<int> {
    Built([[], [0], [0]])
  }

  lemma InOrder(lists: seq<seq<int>>)
    requires lists == [[], [0], [1]] || lists == [[], [0], [0]]
    ensures var g := Built(lists);
            && WellFormed(g) && Acyclic(g) && TopologicalOrder(g) == [0, 1, 2]
            && g.deps == map[0 := lists[0], 1 := lists[1], 2 := lists[2]] && (2 in g.edges[1] <==> lists[2] == [1])
  {
    hide WellFormed, TopologicalOrder, Acyclic, Children, Steady, Fitting;
    SmallFits(lists);
    FittingSteady(lists, 3);
    SteadyOrder(Built(lists), 3);
    assert TopologicalOrder(Built(lists)) == [0, 1, 2];
  }

  lemma SmallFits(lists: seq<seq<int>>)
    requires lists == [[], [0], [1]] || lists == [[], [0], [0]]
    ensures Fitting(lists, 3)
  {
    assert Recently(lists[1], 1) by { assert lists[1][0] in lists[1]; }
    assert Recently(lists[2], 2) by { assert lists[2][0] in lists[2]; }
  }

  /** The update passes although 1 leads to 2 in one graph and not in the other. */
  lemma UpdateMissesEdges()
    ensures WellFormed(Chain()) && WellFormed(Fork()) && Acyclic(Chain()) && Acyclic(Fork())
            && SameCounts(Chain(), Fork())
    ensures 2 in Chain().edges[1] && 2 !in Fork().edges[1] && !SameEdges(Chain(), Fork())
  {
    hide WellFormed, TopologicalOrder, Acyclic, Built;
    InOrder([[], [0], [1]]);
    InOrder([[], [0], [0]]);
    assert DependsAt(Chain(), [0, 1, 2], 2, 1) && !DependsAt(Fork(), [0, 1, 2], 2, 1);
  }

  // ---- Renaming the nodes changes nothing of this ----

  lemma CountsRenamed<L, M, N>(f: map<L, M>, g: Dag<L>, g': Dag<M>, h: Dag<N>)
    requires WellFormed(g) && WellFormed(g') && WellFormed(h) && Renamed(f, g, g') && SameCounts(g, h)
    ensures SameCounts(g', h) && (SameEdges(g', h) <==> SameEdges(g, h)) && (Acyclic(g') <==> Acyclic(g))
  {
    hide WellFormed, TopologicalOrder, Acyclic, Injective, DependsAt, Renamed;
    OrderCommutes(f, g, g');
    CloneAcyclic(f, g, g');
    var a, b := TopologicalOrder(g), TopologicalOrder(g');
    forall i | 0 <= i < |a| ensures b[i] in g'.deps && |g'.deps[b[i]]| == |g.deps[a[i]]| {
      RenamedCount(f, g, g', a[i]);
    }
    forall i, j ensures DependsAt(g', b, i, j) <==> DependsAt(g, a, i, j) {
      RenamedDepends(f, g, g', a, b, i, j);
    }
  }

  lemma RenamedCount<L, M>(f: map<L, M>, g: Dag<L>, g': Dag<M>, n: L)
    requires Renamed(f, g, g') && n in f
    ensures n in g.deps && f[n] in g'.deps && |g'.deps[f[n]]| == |g.deps[n]|
  {
    hide Injective;
  }

  lemma RenamedDepends<L, M>(f: map<L, M>, g: Dag<L>, g': Dag<M>, a: seq<L>, b: seq<M>, i: int, j: int)
    requires Renamed(f, g, g') && |a| == |b| && forall k | 0 <= k < |a| :: a[k] in f && b[k] == f[a[k]]
    ensures DependsAt(g', b, i, j) <==> DependsAt(g, a, i, j)
  {
    if 0 <= i < |a| && 0 <= j < |a| {
      ImageMember(f, g.deps[a[i]], a[j]);
    }
  }
}
