/** Renaming the nodes of a graph, as cloning does, and what it keeps. */
module Cloning {
  import opened Dags
  import opened Kahn

  ghost predicate Covers<N, M>(f: map<N, M>, s: seq<N>) {
    forall n | n in s :: n in f
  }

  ghost function Image<N, M>(f: map<N, M>, s: seq<N>): (r: seq<M>)
    requires Covers(f, s)
    ensures |r| == |s| && forall i | 0 <= i < |s| :: r[i] == f[s[i]]
  {
    seq(|s|, i requires 0 <= i < |s| => assert s[i] in s; f[s[i]])
  }

  ghost predicate Injective<N, M>(f: map<N, M>) {
    forall a, b | a in f && b in f && f[a] == f[b] :: a == b
  }

  /** `f` sends the first k originals, and nothing else, to the copies. */
  ghost predicate Pairs<N, M>(f: map<N, M>, originals: seq<N>, copies: seq<M>, k: nat) {
    && |copies| == k <= |originals|
    && Injective(f)
    && (forall n | n in f :: n in originals[..k] && f[n] in copies)
    && (forall i | 0 <= i < k :: originals[i] in f && f[originals[i]] == copies[i])
  }

  lemma PairsNext<N, M>(f: map<N, M>, originals: seq<N>, copies: seq<M>, k: nat, copy: M)
    requires Pairs(f, originals, copies, k) && k < |originals| && Distinct(originals) && copy !in copies
    ensures Pairs(f[originals[k] := copy], originals, copies + [copy], k + 1)
  {
    var g := f[originals[k] := copy];
    forall n | n in g ensures n in originals[..k + 1] && g[n] in copies + [copy] {
      if n != originals[k] {
        assert n in originals[..k];
        assert f[n] in copies;
      } else {
        assert originals[..k + 1][k] == n;
        assert (copies + [copy])[k] == copy;
      }
    }
  }

  lemma PairsLength<N, M>(f: map<N, M>, originals: seq<N>, copies: seq<M>, k: nat)
    requires Pairs(f, originals, copies, k)
    ensures |copies| == k
  {
  }

  /** `h` is `g` with every node n replaced by f[n]: same vertex order, same edge and
      dependency order. */
  ghost predicate Renamed<N, M>(f: map<N, M>, g: Dag<N>, h: Dag<M>) {
    && Injective(f) && f.Keys == Nodes(g)
    && g.edges.Keys == Nodes(g) && g.deps.Keys == Nodes(g)
    && h.edges.Keys == Nodes(h) && h.deps.Keys == Nodes(h)
    && Covers(f, g.vertices) && h.vertices == Image(f, g.vertices)
    && (forall n | n in Nodes(g) :: Covers(f, g.edges[n]) && f[n] in h.edges && h.edges[f[n]] == Image(f, g.edges[n]))
    && (forall n | n in Nodes(g) :: Covers(f, g.deps[n]) && f[n] in h.deps && h.deps[f[n]] == Image(f, g.deps[n]))
  }

  lemma ImageMember<N, M>(f: map<N, M>, s: seq<N>, n: N)
    requires Injective(f) && Covers(f, s) && n in f
    ensures f[n] in Image(f, s) <==> n in s
  {
    if n in s {
      var i :| 0 <= i < |s| && s[i] == n;
      assert Image(f, s)[i] == f[n];
    }
  }

  lemma ImageDistinct<N, M>(f: map<N, M>, s: seq<N>)
    requires Injective(f) && Covers(f, s) && Distinct(s)
    ensures Distinct(Image(f, s))
  {
  }

  lemma RenamedNode<N, M>(f: map<N, M>, g: Dag<N>, h: Dag<M>, m: M) returns (n: N)
    requires Renamed(f, g, h) && m in Nodes(h)
    ensures n in Nodes(g) && f[n] == m
  {
    var i :| 0 <= i < |h.vertices| && h.vertices[i] == m;
    n := g.vertices[i];
  }

  lemma RenamedNodes<N, M>(f: map<N, M>, g: Dag<N>, h: Dag<M>, n: N)
    requires Renamed(f, g, h) && n in Nodes(g)
    ensures f[n] in Nodes(h)
  {
    ImageMember(f, g.vertices, n);
  }

  lemma RenamedList<N, M>(f: map<N, M>, g: Dag<N>, h: Dag<M>, n: N)
    requires Renamed(f, g, h) && WellFormed(g) && n in Nodes(g)
    ensures Distinct(h.edges[f[n]]) && Distinct(h.deps[f[n]])
    ensures forall m | m in h.edges[f[n]] :: m in Nodes(h)
    ensures forall m | m in h.deps[f[n]] :: m in Nodes(h)
  {
    hide Mirrored;
    ImageDistinct(f, g.edges[n]);
    ImageDistinct(f, g.deps[n]);
    forall m | m in h.edges[f[n]] ensures m in Nodes(h) {
      var i :| 0 <= i < |g.edges[n]| && f[g.edges[n][i]] == m;
      RenamedNodes(f, g, h, g.edges[n][i]);
    }
    forall m | m in h.deps[f[n]] ensures m in Nodes(h) {
      var i :| 0 <= i < |g.deps[n]| && f[g.deps[n][i]] == m;
      RenamedNodes(f, g, h, g.deps[n][i]);
    }
  }

  lemma RenamedMirror<N, M>(f: map<N, M>, g: Dag<N>, h: Dag<M>, u: M, v: M)
    requires Renamed(f, g, h) && WellFormed(g) && u in Nodes(h) && v in Nodes(h)
    ensures v in h.edges[u] <==> u in h.deps[v]
  {
    hide ListsInside, Distinct;
    var a := RenamedNode(f, g, h, u);
    var b := RenamedNode(f, g, h, v);
    ImageMember(f, g.edges[a], b);
    ImageMember(f, g.deps[b], a);
  }

  lemma RenamedInside<N, M>(f: map<N, M>, g: Dag<N>, h: Dag<M>)
    requires Renamed(f, g, h) && WellFormed(g) && h.edges.Keys == Nodes(h) && h.deps.Keys == Nodes(h)
    ensures ListsInside(Nodes(h), h.edges) && ListsInside(Nodes(h), h.deps)
  {
    hide WellFormed, Distinct, Renamed;
    forall m | m in Nodes(h)
      ensures Distinct(h.edges[m]) && Distinct(h.deps[m])
      ensures forall x | x in h.edges[m] :: x in Nodes(h)
      ensures forall x | x in h.deps[m] :: x in Nodes(h)
    {
      var n := RenamedNode(f, g, h, m);
      RenamedList(f, g, h, n);
    }
  }

  /** A renamed well-formed graph is well-formed. */
  lemma RenamedWellFormed<N, M>(f: map<N, M>, g: Dag<N>, h: Dag<M>)
    requires Renamed(f, g, h) && WellFormed(g)
    ensures WellFormed(h)
  {
    hide ListsInside, Distinct;
    ImageDistinct(f, g.vertices);
    RenamedInside(f, g, h);
    forall u, v | u in Nodes(h) && v in Nodes(h) ensures v in h.edges[u] <==> u in h.deps[v] {
      RenamedMirror(f, g, h, u, v);
    }
  }

  // ---- Ordering commutes with renaming ----

  /** `t` is `s` with nodes renamed. */
  ghost predicate SameSorting<N, M>(f: map<N, M>, s: Sorting<N>, t: Sorting<M>) {
    && Injective(f) && f.Keys == s.degree.Keys
    && Covers(f, s.ready) && t.ready == Image(f, s.ready)
    && Covers(f, s.out) && t.out == Image(f, s.out)
    && forall n | n in f :: f[n] in t.degree && t.degree[f[n]] == s.degree[n]
  }

  lemma RenamedVertices<N, M>(f: map<N, M>, g: Dag<N>, h: Dag<M>)
    requires Renamed(f, g, h)
    ensures |h.vertices| == |g.vertices|
    ensures forall i | 0 <= i < |g.vertices| ::
              && g.vertices[i] in f && h.vertices[i] == f[g.vertices[i]] && g.vertices[i] in g.deps
              && h.vertices[i] in h.deps
              && (g.deps[g.vertices[i]] == [] <==> h.deps[h.vertices[i]] == [])
  {
    hide Injective;
    forall i | 0 <= i < |g.vertices| ensures g.vertices[i] in Nodes(g) {
      assert g.vertices[i] in g.vertices;
    }
  }

  lemma {:induction false} RootlessCommutes<N, M>(f: map<N, M>, g: Dag<N>, h: Dag<M>, k: nat)
    requires Renamed(f, g, h) && WellFormed(g) && WellFormed(h) && k <= |g.vertices|
    ensures Covers(f, Rootless(g, k)) && Rootless(h, k) == Image(f, Rootless(g, k))
  {
    hide WellFormed, Renamed;
    RenamedVertices(f, g, h);
    if k > 0 {
      RootlessCommutes(f, g, h, k - 1);
      var n := g.vertices[k - 1];
      if g.deps[n] == [] {
        assert Image(f, Rootless(g, k)) == Image(f, Rootless(g, k - 1)) + [f[n]];
      }
    }
  }

  lemma BeginCommutes<N, M>(f: map<N, M>, g: Dag<N>, h: Dag<M>)
    requires Renamed(f, g, h) && WellFormed(g) && WellFormed(h)
    ensures SameSorting(f, Begin(g), Begin(h))
  {
    hide ListsInside, Mirrored, Distinct, Rootless;
    RootlessCommutes(f, g, h, |g.vertices|);
    assert Image(f, []) == [];
    forall n | n in f ensures f[n] in Nodes(h) {
      RenamedNodes(f, g, h, n);
    }
  }

  lemma ReleaseCommutes<N, M>(f: map<N, M>, s: Sorting<N>, t: Sorting<M>, n: N)
    requires SameSorting(f, s, t) && n in f
    ensures SameSorting(f, Release(s, n), Release(t, f[n]))
  {
    var s', t' := Release(s, n), Release(t, f[n]);
    if s.degree[n] - 1 == 0 {
      assert Covers(f, s'.ready);
      assert Image(f, s'.ready) == Image(f, s.ready) + [f[n]];
    }
  }

  lemma RenamedChild<N, M>(f: map<N, M>, g: Dag<N>, h: Dag<M>, n: N, k: nat)
    requires Renamed(f, g, h) && n in Nodes(g) && k <= |g.edges[n]|
    ensures n in f && f[n] in h.edges && |h.edges[f[n]]| == |g.edges[n]|
    ensures k > 0 ==> g.edges[n][k - 1] in f && h.edges[f[n]][k - 1] == f[g.edges[n][k - 1]]
  {
    hide Injective;
    assert k > 0 ==> g.edges[n][k - 1] in g.edges[n];
  }

  lemma {:induction false} ReleaseChildrenCommutes<N, M>(f: map<N, M>, g: Dag<N>, h: Dag<M>, s: Sorting<N>,
        t: Sorting<M>, n: N, k: nat)
    requires Renamed(f, g, h) && Shaped(g, s) && Shaped(h, t) && SameSorting(f, s, t) && n in Nodes(g)
             && f[n] in Nodes(h)
    requires k <= |g.edges[n]|
    ensures k <= |h.edges[f[n]]| && SameSorting(f, ReleaseChildren(g, s, n, k), ReleaseChildren(h, t, f[n], k))
  {
    hide ListsInside, Mirrored, Distinct, SameSorting, Injective, Release, Renamed, Covers, Image;
    RenamedChild(f, g, h, n, k);
    if k > 0 {
      ReleaseChildrenCommutes(f, g, h, s, t, n, k - 1);
      ChildOf(g, n, k - 1);
      ReleaseCommutes(f, ReleaseChildren(g, s, n, k - 1), ReleaseChildren(h, t, f[n], k - 1), g.edges[n][k - 1]);
    }
  }

  lemma PopCommutes<N, M>(f: map<N, M>, s: Sorting<N>, t: Sorting<M>)
    requires SameSorting(f, s, t) && s.ready != []
    ensures t.ready != [] && s.ready[0] in f && t.ready[0] == f[s.ready[0]] && SameSorting(f, Pop(s), Pop(t))
  {
    assert s.ready[0] in s.ready;
    assert Covers(f, Pop(s).ready) && Covers(f, Pop(s).out);
    assert Image(f, s.ready[1..]) == Image(f, s.ready)[1..];
    assert Image(f, s.out + [s.ready[0]]) == Image(f, s.out) + [f[s.ready[0]]];
  }

  lemma SameEnd<N, M>(f: map<N, M>, s: Sorting<N>, t: Sorting<M>)
    requires SameSorting(f, s, t)
    ensures s.ready == [] <==> t.ready == []
  {
  }

  lemma StepCommutes<N, M>(f: map<N, M>, g: Dag<N>, h: Dag<M>, s: Sorting<N>, t: Sorting<M>)
    requires Renamed(f, g, h) && Shaped(g, s) && Shaped(h, t) && SameSorting(f, s, t) && s.ready != [] && t.ready != []
    ensures SameSorting(f, Step(g, s), Step(h, t))
  {
    hide ListsInside, Mirrored, Distinct, Injective, SameSorting, Renamed, ReleaseChildren;
    PopCommutes(f, s, t);
    var n := s.ready[0];
    RenamedChild(f, g, h, n, 0);
    ReleaseChildrenCommutes(f, g, h, Pop(s), Pop(t), n, |g.edges[n]|);
  }

  lemma {:induction false} SortCommutes<N, M>(f: map<N, M>, g: Dag<N>, h: Dag<M>, s: Sorting<N>, t: Sorting<M>,
        steps: nat)
    requires Renamed(f, g, h) && Shaped(g, s) && Shaped(h, t) && SameSorting(f, s, t)
    ensures SameSorting(f, Sort(g, s, steps), Sort(h, t, steps))
    decreases steps
  {
    hide ListsInside, Mirrored, Distinct, Injective, Renamed, Step, SameSorting;
    SameEnd(f, s, t);
    if steps > 0 && s.ready != [] {
      StepCommutes(f, g, h, s, t);
      SortCommutes(f, g, h, Step(g, s), Step(h, t), steps - 1);
    }
  }

  /** The topological order of a clone is the clone of the topological order, so pairing
      the two index by index pairs every node with its own clone. */
  lemma OrderCommutes<N, M>(f: map<N, M>, g: Dag<N>, h: Dag<M>)
    requires Renamed(f, g, h) && WellFormed(g)
    ensures WellFormed(h)
    ensures var a, b := TopologicalOrder(g), TopologicalOrder(h);
            |a| == |b| && forall i | 0 <= i < |a| :: a[i] in f && b[i] == f[a[i]]
  {
    hide ListsInside, Mirrored, Distinct, Injective, Sort, Begin;
    RenamedWellFormed(f, g, h);
    BeginCommutes(f, g, h);
    SortCommutes(f, g, h, Begin(g), Begin(h), |g.vertices|);
    assert forall i | 0 <= i < |TopologicalOrder(g)| :: TopologicalOrder(g)[i] in TopologicalOrder(g);
  }

  /** A clone is acyclic exactly when its original is. */
  lemma CloneAcyclic<N, M>(f: map<N, M>, g: Dag<N>, h: Dag<M>)
    requires Renamed(f, g, h) && WellFormed(g)
    ensures WellFormed(h) && (Acyclic(g) <==> Acyclic(h))
  {
    hide ListsInside, Mirrored, Distinct, Injective, TopologicalOrder, Acyclic, Topological;
    OrderCommutes(f, g, h);
    KahnCorrect(g);
    KahnCorrect(h);
  }
}
