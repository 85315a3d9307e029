/** The topological order of a graph by repeatedly removing nodes without remaining
    dependencies. */
module Kahn {
  import opened Dags

  /** Nodes ready to be output, remaining in-degree of every node, nodes output so far. */
  datatype Sorting<N> = Sorting(ready: seq<N>, degree: map<N, int>, out: seq<N>)

  ghost predicate Shaped<N>(g: Dag<N>, s: Sorting<N>) {
    && WellFormed(g)
    && s.degree.Keys == Nodes(g)
    && forall n | n in s.ready :: n in Nodes(g)
  }

  /** The vertices without dependencies among the first k, in vertex order. */
  ghost function Rootless<N>(g: Dag<N>, k: nat): seq<N>
    requires WellFormed(g) && k <= |g.vertices|
  {
    if k == 0 then []
    else if g.deps[g.vertices[k - 1]] == [] then Rootless(g, k - 1) + [g.vertices[k - 1]]
    else Rootless(g, k - 1)
  }

  ghost function Begin<N>(g: Dag<N>): (s: Sorting<N>)
    requires WellFormed(g)
    ensures Shaped(g, s)
  {
    RootlessInside(g, |g.vertices|);
    Sorting(Rootless(g, |g.vertices|), map n | n in Nodes(g) :: |g.deps[n]|, [])
  }

  /** Lowering the in-degree of one child, which becomes ready at zero. */
  ghost function Release<N>(s: Sorting<N>, child: N): Sorting<N>
    requires child in s.degree
  {
    var d := s.degree[child] - 1;
    s.(degree := s.degree[child := d], ready := if d == 0 then s.ready + [child] else s.ready)
  }

  /** Releasing the first k children of `node`. */
  ghost function ReleaseChildren<N>(g: Dag<N>, s: Sorting<N>, node: N, k: nat): (r: Sorting<N>)
    requires Shaped(g, s) && node in Nodes(g) && k <= |g.edges[node]|
    ensures Shaped(g, r) && r.out == s.out
  {
    if k == 0 then s
    else
      ChildOf(g, node, k - 1);
      Release(ReleaseChildren(g, s, node, k - 1), g.edges[node][k - 1])
  }

  ghost function Pop<N>(s: Sorting<N>): Sorting<N>
    requires s.ready != []
  {
    s.(ready := s.ready[1..], out := s.out + [s.ready[0]])
  }

  ghost function Step<N>(g: Dag<N>, s: Sorting<N>): (r: Sorting<N>)
    requires Shaped(g, s) && s.ready != []
    ensures Shaped(g, r)
  {
    var node := s.ready[0];
    ReleaseChildren(g, Pop(s), node, |g.edges[node]|)
  }

  /** At most `steps` iterations of the loop. */
  ghost function Sort<N>(g: Dag<N>, s: Sorting<N>, steps: nat): (r: Sorting<N>)
    requires Shaped(g, s)
    ensures Shaped(g, r)
    decreases steps
  {
    if steps == 0 || s.ready == [] then s else Sort(g, Step(g, s), steps - 1)
  }

  lemma {:induction false} RootlessInside<N>(g: Dag<N>, k: nat)
    requires WellFormed(g) && k <= |g.vertices|
    ensures forall n | n in Rootless(g, k) :: n in Nodes(g)
    ensures forall n | n in Nodes(g) :: n in Rootless(g, k) <==> g.deps[n] == [] && n in g.vertices[..k]
    ensures Distinct(Rootless(g, k))
  {
    hide ListsInside, Mirrored;
    if k > 0 {
      RootlessInside(g, k - 1);
      assert g.vertices[..k] == g.vertices[..k - 1] + [g.vertices[k - 1]];
    }
  }

  /** The order `TopologicalOrder` outputs. */
  ghost function TopologicalOrder<N>(g: Dag<N>): seq<N>
    requires WellFormed(g)
  {
    Sort(g, Begin(g), |g.vertices|).out
  }

  // ---- The loop invariant ----

  /** How many of `ds` are not in `out`. */
  ghost function Missing<N>(ds: seq<N>, out: seq<N>): nat {
    if ds == [] then 0 else (if ds[0] in out then 0 else 1) + Missing(ds[1..], out)
  }

  lemma {:induction false} MissingNone<N>(ds: seq<N>, out: seq<N>)
    ensures Missing(ds, out) == 0 <==> forall d | d in ds :: d in out
  {
    if ds != [] {
      MissingNone(ds[1..], out);
      assert forall d | d in ds :: d == ds[0] || d in ds[1..];
    }
  }

  lemma {:induction false} MissingAll<N>(ds: seq<N>)
    ensures Missing(ds, []) == |ds|
  {
    if ds != [] {
      MissingAll(ds[1..]);
    }
  }

  lemma {:induction false} MissingSame<N>(ds: seq<N>, out: seq<N>, n: N)
    requires n !in ds
    ensures Missing(ds, out + [n]) == Missing(ds, out)
  {
    if ds != [] {
      MissingSame(ds[1..], out, n);
    }
  }

  lemma {:induction false} MissingLess<N>(ds: seq<N>, out: seq<N>, n: N)
    requires n in ds && Distinct(ds) && n !in out
    ensures Missing(ds, out + [n]) == Missing(ds, out) - 1
  {
    if ds[0] == n {
      assert n !in ds[1..];
      MissingSame(ds[1..], out, n);
    } else {
      MissingLess(ds[1..], out, n);
    }
  }

  /** With the children in `counted` measured against `out + more` and all others against
      `out`: in-degrees count missing dependencies, and exactly the nodes at zero are
      output or ready, each once. */
  ghost predicate Counting<N>(g: Dag<N>, s: Sorting<N>, out: seq<N>, more: seq<N>, counted: seq<N>) {
    && Shaped(g, s) && s.out == out + more
    && Distinct(s.out + s.ready)
    && (forall n | n in s.out :: n in Nodes(g))
    && (forall n | n in Nodes(g) :: s.degree[n] == Missing(g.deps[n], if n in counted then out + more else out))
    && (forall n | n in Nodes(g) :: n in s.out + s.ready <==> s.degree[n] == 0)
  }

  /** Every node is output after its dependencies. */
  ghost predicate Sorted<N>(g: Dag<N>, out: seq<N>) {
    forall i | 0 <= i < |out| && out[i] in g.deps :: forall d | d in g.deps[out[i]] :: d in out[..i]
  }

  ghost predicate Invariant<N>(g: Dag<N>, s: Sorting<N>) {
    Counting(g, s, s.out, [], []) && Sorted(g, s.out)
  }

  lemma BeginInvariant<N>(g: Dag<N>)
    requires WellFormed(g)
    ensures Invariant(g, Begin(g))
  {
    hide ListsInside, Mirrored;
    RootlessInside(g, |g.vertices|);
    assert g.vertices[..|g.vertices|] == g.vertices;
    var s := Begin(g);
    assert s.out + [] == s.out && s.out + s.ready == s.ready;
    forall n | n in Nodes(g) ensures s.degree[n] == Missing(g.deps[n], s.out) {
      MissingAll(g.deps[n]);
    }
  }

  lemma PopCounting<N>(g: Dag<N>, s: Sorting<N>)
    requires Invariant(g, s) && s.ready != []
    ensures Counting(g, Pop(s), s.out, [s.ready[0]], []) && s.ready[0] !in s.out && s.degree[s.ready[0]] == 0
    ensures Sorted(g, Pop(s).out)
  {
    hide ListsInside, Mirrored;
    var node := s.ready[0];
    var t := Pop(s);
    assert t.out + t.ready == s.out + s.ready;
    HeadNew(s.out, s.ready);
    assert s.out + [] == s.out;
    MissingNone(g.deps[node], s.out);
    PopSorted(g, s.out, node);
  }

  lemma HeadNew<T>(a: seq<T>, b: seq<T>)
    requires Distinct(a + b) && b != []
    ensures b[0] !in a && b[0] in a + b
  {
    assert (a + b)[|a|] == b[0];
    forall i | 0 <= i < |a| ensures a[i] != b[0] {
      assert (a + b)[i] == a[i];
    }
  }

  lemma PopSorted<N>(g: Dag<N>, out: seq<N>, node: N)
    requires Sorted(g, out) && node in g.deps && forall d | d in g.deps[node] :: d in out
    ensures Sorted(g, out + [node])
  {
    var more := out + [node];
    forall i | 0 <= i < |more| && more[i] in g.deps ensures forall d | d in g.deps[more[i]] :: d in more[..i] {
      assert more[..i] == out[..i];
    }
  }

  lemma ReleaseCounting<N>(g: Dag<N>, s: Sorting<N>, out: seq<N>, node: N, k: nat)
    requires node in Nodes(g) && WellFormed(g) && k < |g.edges[node]| && node !in out
    requires Counting(g, s, out, [node], g.edges[node][..k])
    ensures g.edges[node][k] in s.degree
            && Counting(g, Release(s, g.edges[node][k]), out, [node], g.edges[node][..k + 1])
  {
    ChildFacts(g, node, k);
    var child := g.edges[node][k];
    MissingLess(g.deps[child], out, node);
    assert g.edges[node][..k + 1] == g.edges[node][..k] + [child];
    ReleaseOne(g, s, out, [node], g.edges[node][..k], child);
  }

  lemma ReleaseOne<N>(g: Dag<N>, s: Sorting<N>, out: seq<N>, more: seq<N>, done: seq<N>, child: N)
    requires Counting(g, s, out, more, done) && child in Nodes(g) && child !in done
    requires Missing(g.deps[child], out + more) == Missing(g.deps[child], out) - 1
    ensures Counting(g, Release(s, child), out, more, done + [child])
  {
    hide ListsInside, Mirrored, Missing;
    var t := Release(s, child);
    assert child !in s.out + s.ready;
    assert t.out + t.ready == if t.degree[child] == 0 then (s.out + s.ready) + [child] else s.out + s.ready;
  }

  lemma ChildFacts<N>(g: Dag<N>, node: N, k: nat)
    requires WellFormed(g) && node in Nodes(g) && k < |g.edges[node]|
    ensures var c := g.edges[node][k];
            c in Nodes(g) && node in g.deps[c] && Distinct(g.deps[c]) && c !in g.edges[node][..k]
  {
  }

  lemma {:induction false} ReleaseAllCounting<N>(g: Dag<N>, s: Sorting<N>, out: seq<N>, node: N, k: nat)
    requires node in Nodes(g) && WellFormed(g) && k <= |g.edges[node]| && node !in out
    requires Shaped(g, s) && Counting(g, s, out, [node], [])
    ensures Counting(g, ReleaseChildren(g, s, node, k), out, [node], g.edges[node][..k])
  {
    hide ListsInside, Mirrored, Distinct, Counting, Release;
    if k > 0 {
      ReleaseAllCounting(g, s, out, node, k - 1);
      ReleaseCounting(g, ReleaseChildren(g, s, node, k - 1), out, node, k - 1);
    } else {
      assert g.edges[node][..0] == [];
    }
  }

  lemma SettledCounting<N>(g: Dag<N>, s: Sorting<N>, out: seq<N>, node: N)
    requires node in Nodes(g) && WellFormed(g)
    requires Counting(g, s, out, [node], g.edges[node])
    ensures Counting(g, s, s.out, [], [])
  {
    forall n | n in Nodes(g) && n !in g.edges[node]
        ensures Missing(g.deps[n], out + [node]) == Missing(g.deps[n], out) {
      MissingSame(g.deps[n], out, node);
    }
    assert s.out + [] == s.out;
  }

  lemma StepInvariant<N>(g: Dag<N>, s: Sorting<N>)
    requires Invariant(g, s) && s.ready != []
    ensures Invariant(g, Step(g, s)) && |Step(g, s).out| == |s.out| + 1
  {
    hide ListsInside, Mirrored, Distinct, Sorted, Missing;
    var node := s.ready[0];
    var all := |g.edges[node]|;
    PopCounting(g, s);
    ReleaseAllCounting(g, Pop(s), s.out, node, all);
    assert g.edges[node][..all] == g.edges[node];
    SettledCounting(g, Step(g, s), s.out, node);
  }

  lemma {:induction false} SortInvariant<N>(g: Dag<N>, s: Sorting<N>, steps: nat)
    requires Shaped(g, s) && Invariant(g, s)
    ensures var r := Sort(g, s, steps); Invariant(g, r) && (r.ready == [] || |r.out| == |s.out| + steps)
    decreases steps
  {
    hide ListsInside, Mirrored, Distinct, Invariant;
    if steps > 0 && s.ready != [] {
      StepInvariant(g, s);
      SortInvariant(g, Step(g, s), steps - 1);
    }
  }

  // ---- Soundness and completeness ----

  lemma RunsOut<N>(g: Dag<N>)
    requires WellFormed(g)
    ensures var r := Sort(g, Begin(g), |g.vertices|); Invariant(g, r) && r.ready == []
  {
    hide ListsInside, Mirrored, Missing;
    BeginInvariant(g);
    SortInvariant(g, Begin(g), |g.vertices|);
    var r := Sort(g, Begin(g), |g.vertices|);
    DistinctFitsIn(r.out + r.ready, Nodes(g));
    DistinctCount(g.vertices);
  }

  lemma OutputClosed<N>(g: Dag<N>, n: N)
    requires WellFormed(g) && n in Nodes(g)
    ensures n in TopologicalOrder(g) <==> forall d | d in g.deps[n] :: d in TopologicalOrder(g)
  {
    hide ListsInside, Mirrored, Distinct, Missing, Sort;
    RunsOut(g);
    var out := TopologicalOrder(g);
    MissingNone(g.deps[n], out);
    assert out + [] == out;
  }

  lemma OutputOrdered<N>(g: Dag<N>)
    requires WellFormed(g)
    ensures var out := TopologicalOrder(g); Distinct(out) && (forall n | n in out :: n in Nodes(g)) && Sorted(g, out)
  {
    hide ListsInside, Mirrored, Missing, Sort, Sorted;
    RunsOut(g);
    var r := Sort(g, Begin(g), |g.vertices|);
    assert r.out + r.ready == r.out;
  }

  lemma SortedIsTopological<N>(g: Dag<N>, out: seq<N>)
    requires WellFormed(g) && Distinct(out) && Sorted(g, out) && (forall n | n in out :: n in Nodes(g))
    requires forall n | n in Nodes(g) :: n in out
    ensures Topological(g, out)
  {
    hide ListsInside;
    forall i, j | 0 <= i < |out| && 0 <= j < |out| && out[i] in g.edges && out[j] in g.edges[out[i]] ensures i < j {
      assert out[i] in g.deps[out[j]];
      assert out[i] in out[..j];
    }
  }

  lemma FullOutput<N>(g: Dag<N>, out: seq<N>)
    requires WellFormed(g) && Distinct(out) && (forall n | n in out :: n in Nodes(g)) && |out| == |g.vertices|
    ensures forall n | n in Nodes(g) :: n in out
  {
    hide ListsInside, Mirrored;
    DistinctCount(out);
    DistinctCount(g.vertices);
    SubsetOfSameSize((set n | n in out), Nodes(g));
  }

  lemma SubsetOfSameSize<T>(a: set<T>, b: set<T>)
    requires a <= b && |a| == |b|
    ensures a == b
  {
    assert b == a + (b - a);
  }

  /** Kahn's algorithm on any well-formed graph: it outputs as many nodes as there are
      vertices exactly when the graph is acyclic, and then the output is a topological
      order: every vertex once, every edge forward. */
  lemma KahnCorrect<N>(g: Dag<N>)
    requires WellFormed(g)
    ensures |TopologicalOrder(g)| == |g.vertices| <==> Acyclic(g)
    ensures Acyclic(g) ==> Topological(g, TopologicalOrder(g))
  {
    hide ListsInside, Mirrored, Distinct, Sorted, TopologicalOrder, Acyclic, Topological;
    var out := TopologicalOrder(g);
    OutputOrdered(g);
    if |out| == |g.vertices| {
      FullOutput(g, out);
      SortedIsTopological(g, out);
      TopologicalIsAcyclic(g, out);
    }
    if Acyclic(g) {
      AcyclicAllOutput(g);
      SortedIsTopological(g, out);
      TopologicalIsPermutation(g, out);
    }
  }

  lemma AcyclicAllOutput<N>(g: Dag<N>)
    requires WellFormed(g) && Acyclic(g)
    ensures forall n | n in Nodes(g) :: n in TopologicalOrder(g)
  {
    hide ListsInside, Mirrored, Distinct, TopologicalOrder, Acyclic;
    var out := TopologicalOrder(g);
    var left := set n | n in Nodes(g) && n !in out;
    if left != {} {
      var n := FirstInSet(g, left);
      OutputClosed(g, n);
      forall d | d in g.deps[n] ensures d in out {
        DepIn(g, n, d);
      }
    }
    forall n | n in Nodes(g) ensures n in out {
      assert n !in left;
    }
  }

  lemma TopologicalIsAcyclic<N>(g: Dag<N>, out: seq<N>)
    requires WellFormed(g) && Topological(g, out)
    ensures Acyclic(g)
  {
    hide Mirrored;
    var rank := map n | n in Nodes(g) :: IndexOf(out, n);
    RankedIsAcyclic(g, rank);
  }

  ghost function IndexOf<T>(s: seq<T>, x: T): (i: int)
    ensures x in s ==> 0 <= i < |s| && s[i] == x
  {
    if x in s then var i :| 0 <= i < |s| && s[i] == x; i else -1
  }

  // ---- The loop, one iteration at a time ----

  /** One iteration in terms of the popped node, and why another step is left for it. */
  lemma StepParts<N>(g: Dag<N>, s: Sorting<N>, left: nat)
    requires Shaped(g, s) && Invariant(g, s) && s.ready != [] && left + |s.out| == |g.vertices|
    ensures left > 0 && s.ready[0] in Nodes(g) && s.ready[0] in g.edges
    ensures var node := s.ready[0]; var popped := Sorting(s.ready[1..], s.degree, s.out + [node]);
            && Shaped(g, popped) && Step(g, s) == ReleaseChildren(g, popped, node, |g.edges[node]|)
            && Shaped(g, Step(g, s)) && Invariant(g, Step(g, s)) && Step(g, s).out == s.out + [node]
            && Sort(g, s, left) == Sort(g, Step(g, s), left - 1)
  {
    hide ListsInside, Mirrored, Missing, Sorted;
    StepInvariant(g, s);
    DistinctFitsIn(s.out + s.ready, Nodes(g));
    DistinctCount(g.vertices);
  }

  lemma ReleaseStarts<N>(g: Dag<N>, s: Sorting<N>, node: N)
    requires Shaped(g, s) && node in Nodes(g)
    ensures ReleaseChildren(g, s, node, 0) == s
  {
  }

  lemma ReleaseNext<N>(g: Dag<N>, s: Sorting<N>, node: N, k: nat)
    requires Shaped(g, s) && node in Nodes(g) && node in g.edges && k < |g.edges[node]|
    ensures var r := ReleaseChildren(g, s, node, k);
            && Shaped(g, r) && r.out == s.out && g.edges[node][k] in r.degree && g.edges[node][k] in Nodes(g)
            && ReleaseChildren(g, s, node, k + 1) == Release(r, g.edges[node][k])
  {
    hide ListsInside, Mirrored, Distinct;
    ChildOf(g, node, k);
  }

  lemma SortEnds<N>(g: Dag<N>, s: Sorting<N>, left: nat)
    requires Shaped(g, s) && s.ready == []
    ensures Sort(g, s, left) == s
  {
  }

  lemma OrderIsOutput<N>(g: Dag<N>)
    requires WellFormed(g)
    ensures TopologicalOrder(g) == Sort(g, Begin(g), |g.vertices|).out
  {
  }
}
