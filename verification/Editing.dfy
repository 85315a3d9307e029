/** Graph edits as functions on graph values, and what every sequence of them keeps. */
module Editing {
  import opened Dags

  /** `s` without any occurrence of x, as erase-remove leaves it. */
  function Erase<T(==)>(s: seq<T>, x: T): (r: seq<T>)
    ensures |r| <= |s|
  {
    if s == [] then [] else (if s[0] == x then [] else [s[0]]) + Erase(s[1..], x)
  }

  lemma {:induction false} EraseMembers<T>(s: seq<T>, x: T)
    ensures forall y | y in Erase(s, x) :: y in s && y != x
    ensures forall y | y in s && y != x :: y in Erase(s, x)
  {
    if s != [] {
      EraseMembers(s[1..], x);
      assert forall y | y in s :: y == s[0] || y in s[1..];
    }
  }

  lemma {:induction false} EraseDistinct<T>(s: seq<T>, x: T)
    requires Distinct(s)
    ensures Distinct(Erase(s, x)) && |Erase(s, x)| == if x in s then |s| - 1 else |s|
  {
    if s != [] {
      EraseDistinct(s[1..], x);
      EraseMembers(s[1..], x);
      assert s[0] !in s[1..];
      assert s == [s[0]] + s[1..];
    }
  }

  lemma {:induction false} EraseAbsent<T>(s: seq<T>, x: T)
    requires x !in s
    ensures Erase(s, x) == s
  {
    if s != [] {
      EraseAbsent(s[1..], x);
      assert s == [s[0]] + s[1..];
    }
  }

  lemma {:induction false} EraseLast<T>(s: seq<T>, x: T)
    requires x !in s
    ensures Erase(s + [x], x) == s
  {
    if s == [] {
      assert [x][1..] == [];
    } else {
      assert (s + [x])[1..] == s[1..] + [x];
      EraseLast(s[1..], x);
      assert s == [s[0]] + s[1..];
    }
  }

  // ---- Single edits ----

  ghost function AddVertex<N>(g: Dag<N>, n: N): Dag<N> {
    Dag(g.vertices + [n], g.edges[n := []], g.deps[n := []])
  }

  ghost function AddEdge<N>(g: Dag<N>, u: N, v: N): Dag<N>
    requires u in g.edges && v in g.deps
  {
    g.(edges := g.edges[u := g.edges[u] + [v]], deps := g.deps[v := g.deps[v] + [u]])
  }

  ghost function RemoveEdge<N>(g: Dag<N>, u: N, v: N): Dag<N>
    requires u in g.edges && v in g.deps
  {
    g.(edges := g.edges[u := Erase(g.edges[u], v)], deps := g.deps[v := Erase(g.deps[v], u)])
  }

  ghost function RemoveVertex<N>(g: Dag<N>, n: N): Dag<N> {
    Dag(Erase(g.vertices, n),
        map m | m in g.edges && m != n :: Erase(g.edges[m], n),
        map m | m in g.deps && m != n :: Erase(g.deps[m], n))
  }

  lemma AddVertexWellFormed<N>(g: Dag<N>, n: N)
    requires WellFormed(g) && n !in Nodes(g)
    ensures WellFormed(AddVertex(g, n)) && Nodes(AddVertex(g, n)) == Nodes(g) + {n}
  {
    hide WellFormed, ListsInside, Mirrored;
    var h := AddVertex(g, n);
    AddVertexNodes(g, n);
    assert ListsInside(Nodes(h), h.edges) && ListsInside(Nodes(h), h.deps) by {
      AddVertexInside(g, n);
    }
    assert Mirrored(h) by {
      AddVertexMirrored(g, n);
    }
    FormedParts(h);
  }

  lemma AddVertexNodes<N>(g: Dag<N>, n: N)
    requires WellFormed(g) && n !in Nodes(g)
    ensures var h := AddVertex(g, n); Nodes(h) == h.edges.Keys == h.deps.Keys == Nodes(g) + {n} && Distinct(h.vertices)
  {
    hide ListsInside, Mirrored;
  }

  lemma AddVertexInside<N>(g: Dag<N>, n: N)
    requires WellFormed(g) && n !in Nodes(g)
    ensures var h := AddVertex(g, n); var all := Nodes(g) + {n};
            h.edges.Keys == h.deps.Keys == all && ListsInside(all, h.edges) && ListsInside(all, h.deps)
  {
    hide Mirrored, Distinct;
    assert Distinct<N>([]) by { EmptyDistinct<N>(); }
  }

  lemma EmptyDistinct<N>()
    ensures Distinct<N>([])
  {
  }

  lemma AddVertexMirrored<N>(g: Dag<N>, n: N)
    requires WellFormed(g) && n !in Nodes(g)
    ensures var h := AddVertex(g, n); h.edges.Keys == h.deps.Keys == Nodes(h) && Mirrored(h)
  {
    hide Distinct;
    AddVertexNodes(g, n);
  }

  lemma AddEdgeWellFormed<N>(g: Dag<N>, u: N, v: N)
    requires WellFormed(g) && u in Nodes(g) && v in Nodes(g) && v !in g.edges[u]
    ensures WellFormed(AddEdge(g, u, v)) && Nodes(AddEdge(g, u, v)) == Nodes(g)
  {
    hide WellFormed, AddEdge;
    AddEdgeKeys(g, u, v);
    var h := AddEdge(g, u, v);
    forall m | m in Nodes(g)
      ensures Distinct(h.edges[m]) && Distinct(h.deps[m])
      ensures forall x | x in h.edges[m] :: x in Nodes(g)
      ensures forall x | x in h.deps[m] :: x in Nodes(g)
    {
      AddEdgeLists(g, u, v, m);
    }
    forall a, b | a in Nodes(g) && b in Nodes(g) ensures b in h.edges[a] <==> a in h.deps[b] {
      AddEdgeMirrors(g, u, v, a, b);
    }
    FormedParts(h);
  }

  lemma FormedParts<N>(h: Dag<N>)
    requires Distinct(h.vertices) && h.edges.Keys == h.deps.Keys == Nodes(h)
    requires ListsInside(Nodes(h), h.edges) && ListsInside(Nodes(h), h.deps) && Mirrored(h)
    ensures WellFormed(h)
  {
  }

  lemma AddEdgeKeys<N>(g: Dag<N>, u: N, v: N)
    requires WellFormed(g) && u in Nodes(g) && v in Nodes(g)
    ensures var h := AddEdge(g, u, v);
            && u in g.edges && v in g.deps && h.vertices == g.vertices && Nodes(h) == Nodes(g) && Distinct(h.vertices)
            && h.edges.Keys == h.deps.Keys == g.edges.Keys == g.deps.Keys == Nodes(g)
  {
    hide ListsInside, Mirrored, Distinct;
  }

  lemma AddEdgeLists<N>(g: Dag<N>, u: N, v: N, m: N)
    requires WellFormed(g) && u in Nodes(g) && v in Nodes(g) && v !in g.edges[u] && m in Nodes(g)
    ensures var h := AddEdge(g, u, v);
            && m in h.edges && m in h.deps && Distinct(h.edges[m]) && Distinct(h.deps[m])
            && (forall x | x in h.edges[m] :: x in Nodes(g)) && (forall x | x in h.deps[m] :: x in Nodes(g))
  {
    AddEdgeMirrors(g, u, v, u, v);
    hide Mirrored;
  }

  lemma AddEdgeMirrors<N>(g: Dag<N>, u: N, v: N, a: N, b: N)
    requires WellFormed(g) && u in Nodes(g) && v in Nodes(g) && v !in g.edges[u] && a in Nodes(g) && b in Nodes(g)
    ensures var h := AddEdge(g, u, v); a in h.edges && b in h.deps && (b in h.edges[a] <==> a in h.deps[b])
    ensures u !in g.deps[v]
  {
    hide ListsInside, Distinct;
  }

  lemma RemoveEdgeLists<N>(g: Dag<N>, u: N, v: N, m: N)
    requires WellFormed(g) && u in Nodes(g) && v in Nodes(g) && m in Nodes(g)
    ensures var h := RemoveEdge(g, u, v);
            && Distinct(h.edges[m]) && Distinct(h.deps[m])
            && (forall x | x in h.edges[m] :: x in g.edges[m] && !(m == u && x == v))
            && (forall x | x in g.edges[m] && !(m == u && x == v) :: x in h.edges[m])
            && (forall x | x in h.deps[m] :: x in g.deps[m] && !(m == v && x == u))
            && (forall x | x in g.deps[m] && !(m == v && x == u) :: x in h.deps[m])
            && (forall x | x in h.edges[m] :: x in Nodes(g))
            && (forall x | x in h.deps[m] :: x in Nodes(g))
  {
    hide Mirrored;
    EraseMembers(g.edges[u], v);
    EraseMembers(g.deps[v], u);
    EraseDistinct(g.edges[u], v);
    EraseDistinct(g.deps[v], u);
    Neighbours(g, m);
  }

  lemma Neighbours<N>(g: Dag<N>, m: N)
    requires WellFormed(g) && m in Nodes(g)
    ensures forall x | x in g.edges[m] :: x in Nodes(g)
    ensures forall x | x in g.deps[m] :: x in Nodes(g)
  {
    hide ListsInside, Mirrored, Distinct;
    forall x | x in g.edges[m] ensures x in Nodes(g) {
      ChildIn(g, m, x);
    }
    forall x | x in g.deps[m] ensures x in Nodes(g) {
      DepIn(g, m, x);
    }
  }

  lemma RemoveEdgeInside<N>(g: Dag<N>, u: N, v: N)
    requires WellFormed(g) && u in Nodes(g) && v in Nodes(g)
    ensures var h := RemoveEdge(g, u, v);
            ListsInside(Nodes(g), h.edges) && ListsInside(Nodes(g), h.deps)
  {
    hide Mirrored, Distinct;
    var h := RemoveEdge(g, u, v);
    forall m | m in Nodes(g)
      ensures Distinct(h.edges[m]) && Distinct(h.deps[m])
      ensures forall x | x in h.edges[m] :: x in Nodes(g)
      ensures forall x | x in h.deps[m] :: x in Nodes(g)
    {
      RemoveEdgeLists(g, u, v, m);
    }
  }

  lemma RemoveEdgeWellFormed<N>(g: Dag<N>, u: N, v: N)
    requires WellFormed(g) && u in Nodes(g) && v in Nodes(g)
    ensures WellFormed(RemoveEdge(g, u, v)) && Nodes(RemoveEdge(g, u, v)) == Nodes(g)
  {
    hide Distinct, ListsInside;
    var h := RemoveEdge(g, u, v);
    RemoveEdgeInside(g, u, v);
    forall a, b | a in Nodes(h) && b in Nodes(h) ensures b in h.edges[a] <==> a in h.deps[b] {
      RemoveEdgeLists(g, u, v, a);
      RemoveEdgeLists(g, u, v, b);
    }
  }

  lemma RemoveVertexLists<N>(g: Dag<N>, n: N, m: N)
    requires WellFormed(g) && m in Nodes(g) && m != n
    ensures var h := RemoveVertex(g, n);
            && m in h.edges && m in h.deps
            && Distinct(h.edges[m]) && Distinct(h.deps[m])
            && (forall x | x in h.edges[m] :: x in g.edges[m] && x != n)
            && (forall x | x in g.edges[m] && x != n :: x in h.edges[m])
            && (forall x | x in h.deps[m] :: x in g.deps[m] && x != n)
            && (forall x | x in g.deps[m] && x != n :: x in h.deps[m])
            && (forall x | x in h.edges[m] :: x in Nodes(g) - {n})
            && (forall x | x in h.deps[m] :: x in Nodes(g) - {n})
  {
    hide Mirrored;
    Neighbours(g, m);
    EraseMembers(g.edges[m], n);
    EraseMembers(g.deps[m], n);
    EraseDistinct(g.edges[m], n);
    EraseDistinct(g.deps[m], n);
  }

  lemma RemoveVertexWellFormed<N>(g: Dag<N>, n: N)
    requires WellFormed(g) && n in Nodes(g)
    ensures WellFormed(RemoveVertex(g, n)) && Nodes(RemoveVertex(g, n)) == Nodes(g) - {n}
  {

    var h := RemoveVertex(g, n);
    EraseMembers(g.vertices, n);
    EraseDistinct(g.vertices, n);
    assert Nodes(h) == Nodes(g) - {n};
    RemoveVertexInside(g, n);
    forall u, v | u in Nodes(h) && v in Nodes(h) ensures v in h.edges[u] <==> u in h.deps[v] {
      RemoveVertexLists(g, n, u);
      RemoveVertexLists(g, n, v);
    }
  }

  lemma RemoveVertexInside<N>(g: Dag<N>, n: N)
    requires WellFormed(g) && n in Nodes(g)
    ensures var h := RemoveVertex(g, n); var left := Nodes(g) - {n};
            h.edges.Keys == left && h.deps.Keys == left && ListsInside(left, h.edges) && ListsInside(left, h.deps)
  {
    hide Mirrored, Distinct;
    var h := RemoveVertex(g, n);
    forall m | m in Nodes(g) - {n}
      ensures Distinct(h.edges[m]) && Distinct(h.deps[m])
      ensures forall x | x in h.edges[m] :: x in Nodes(g) - {n}
      ensures forall x | x in h.deps[m] :: x in Nodes(g) - {n}
    {
      RemoveVertexLists(g, n, m);
    }
  }

  // ---- The editing calls ----

  /** The graph a call leaves behind and whether it reports success. */
  datatype Edited<N> = Edited(g: Dag<N>, ok: bool)

  ghost predicate Known<N>(g: Dag<N>, n: Option<N>) {
    n.Some? && n.value in Nodes(g)
  }

  /** Adding edges from the first k of `parents` to n; a parent that is not a node of the
      graph, or is named twice, stops the call and keeps the edges added so far. */
  ghost function Attach<N>(g: Dag<N>, n: N, parents: seq<Option<N>>, k: nat): (r: Edited<N>)
    requires WellFormed(g) && n in Nodes(g) && k <= |parents|
    ensures r.g.vertices == g.vertices && r.g.edges.Keys == Nodes(g) && r.g.deps.Keys == Nodes(g)
  {
    if k == 0 then Edited(g, true)
    else
      var r := Attach(g, n, parents, k - 1);
      var p := parents[k - 1];
      if !r.ok then r
      else if !Known(g, p) || p in parents[..k - 1] then Edited(r.g, false)
      else Edited(AddEdge(r.g, p.value, n), true)
  }

  ghost function AddNode<N>(g: Dag<N>, n: N, parents: seq<Option<N>>): Edited<N>
    requires WellFormed(g) && n !in Nodes(g)
  {
    AddVertexWellFormed(g, n);
    Attach(AddVertex(g, n), n, parents, |parents|)
  }

  /** Every pair names two different nodes of the graph. */
  ghost predicate Connectable<N>(g: Dag<N>, from: seq<Option<N>>, to: seq<Option<N>>)
    requires |from| == |to|
  {
    forall i | 0 <= i < |from| :: Known(g, from[i]) && Known(g, to[i]) && from[i] != to[i]
  }

  /** Adding the first k edges; an edge that exists already stops the call. */
  ghost function ConnectUpTo<N>(g: Dag<N>, from: seq<Option<N>>, to: seq<Option<N>>, k: nat): (r: Edited<N>)
    requires WellFormed(g) && |from| == |to| && k <= |from| && Connectable(g, from, to)
    ensures r.g.vertices == g.vertices && r.g.edges.Keys == Nodes(g) && r.g.deps.Keys == Nodes(g)
  {
    if k == 0 then Edited(g, true)
    else
      var r := ConnectUpTo(g, from, to, k - 1);
      var u, v := from[k - 1].value, to[k - 1].value;
      if !r.ok then r
      else if v in r.g.edges[u] then Edited(r.g, false)
      else Edited(AddEdge(r.g, u, v), true)
  }

  /** All pairs are validated before the first edge is added. */
  ghost function Connect<N>(g: Dag<N>, from: seq<Option<N>>, to: seq<Option<N>>): Edited<N>
    requires WellFormed(g) && |from| == |to|
  {
    if Connectable(g, from, to) then ConnectUpTo(g, from, to, |from|) else Edited(g, false)
  }

  /** Removing the first k edges; pairs are validated one by one. */
  ghost function Disconnect<N>(g: Dag<N>, from: seq<N>, to: seq<N>, k: nat): (r: Edited<N>)
    requires WellFormed(g) && |from| == |to| && k <= |from|
    ensures r.g.vertices == g.vertices && r.g.edges.Keys == Nodes(g) && r.g.deps.Keys == Nodes(g)
  {
    if k == 0 then Edited(g, true)
    else
      var r := Disconnect(g, from, to, k - 1);
      var u, v := from[k - 1], to[k - 1];
      if !r.ok then r
      else if v !in Nodes(g) || u !in Nodes(g) || v !in r.g.edges[u] then Edited(r.g, false)
      else Edited(RemoveEdge(r.g, u, v), true)
  }

  // ---- Every sequence of edits keeps the adjacency invariant ----

  /** After k parents: n is a child of exactly the parents attached so far. */
  lemma {:induction false} AttachWellFormed<N>(g: Dag<N>, n: N, parents: seq<Option<N>>, k: nat)
    requires WellFormed(g) && n in Nodes(g) && k <= |parents|
    requires forall m | m in Nodes(g) :: n !in g.edges[m]
    ensures var r := Attach(g, n, parents, k);
            WellFormed(r.g) && forall m | m in Nodes(g) && n in r.g.edges[m] :: Some(m) in parents[..k]
  {
    hide *;
    AttachUnfolds(g, n, parents, k);
    if k > 0 {
      AttachWellFormed(g, n, parents, k - 1);
      assert parents[..k] == parents[..k - 1] + [parents[k - 1]];
      var r := Attach(g, n, parents, k - 1);
      var p := parents[k - 1];
      if r.ok && Known(g, p) && p !in parents[..k - 1] {
        KnownNode(g, r.g, p);
        KnownNode(g, r.g, Some(n));
        AttachEdge(r.g, n, p.value, parents[..k - 1]);
      }
    }
  }

  lemma AttachUnfolds<N>(g: Dag<N>, n: N, parents: seq<Option<N>>, k: nat)
    requires WellFormed(g) && n in Nodes(g) && k <= |parents|
    ensures k == 0 ==> Attach(g, n, parents, k) == Edited(g, true)
    ensures k > 0 ==>
              var r := Attach(g, n, parents, k - 1); var p := parents[k - 1];
              Attach(g, n, parents, k) ==
              if !r.ok then r
              else if !Known(g, p) || p in parents[..k - 1] then Edited(r.g, false)
              else assert p.value in r.g.edges && n in r.g.deps; Edited(AddEdge(r.g, p.value, n), true)
  {
    hide ListsInside, Mirrored, Distinct, AddEdge;
  }

  lemma KnownNode<N>(g: Dag<N>, h: Dag<N>, p: Option<N>)
    requires h.vertices == g.vertices
    ensures Nodes(h) == Nodes(g) && (Known(g, p) <==> p.Some? && p.value in Nodes(h))
  {
  }

  lemma AttachEdge<N>(g: Dag<N>, n: N, p: N, done: seq<Option<N>>)
    requires WellFormed(g) && n in Nodes(g) && p in Nodes(g) && Some(p) !in done
    requires forall m | m in Nodes(g) && n in g.edges[m] :: Some(m) in done
    ensures var h := AddEdge(g, p, n);
            WellFormed(h) && forall m | m in Nodes(g) && n in h.edges[m] :: Some(m) in done + [Some(p)]
  {
    hide ListsInside, Mirrored, Distinct;
    AddEdgeWellFormed(g, p, n);
  }

  // ---- The loop over the parents of a new node ----

  /** `h` is `g` with the first i parents attached to n, and `seen` holds those parents. */
  ghost predicate Attaching<N>(g: Dag<N>, n: N, parents: seq<Option<N>>, i: int, seen: set<N>, h: Dag<N>) {
    && WellFormed(g) && WellFormed(h) && n in Nodes(g) && h.vertices == g.vertices
    && 0 <= i <= |parents| && Attach(g, n, parents, i) == Edited(h, true)
    && (forall m | m in h.edges && n in h.edges[m] :: m in seen)
    && (forall p | p in seen :: Some(p) in parents[..i])
    && (forall o | o in parents[..i] :: o.Some? && o.value in seen)
  }

  lemma AttachingStarts<N>(g: Dag<N>, n: N, parents: seq<Option<N>>)
    requires WellFormed(g) && n in Nodes(g) && forall m | m in Nodes(g) :: n !in g.edges[m]
    ensures Attaching(g, n, parents, 0, {}, g)
  {
    hide ListsInside, Mirrored, Distinct;
  }

  lemma AttachingNext<N>(g: Dag<N>, n: N, parents: seq<Option<N>>, i: int, seen: set<N>, h: Dag<N>, p: N)
    requires Attaching(g, n, parents, i, seen, h) && i < |parents| && parents[i] == Some(p) && p in h.vertices
             && p !in seen
    ensures p in h.edges && n in h.deps && n !in h.edges[p]
            && Attaching(g, n, parents, i + 1, seen + {p}, AddEdge(h, p, n))
  {
    hide *;
    AttachingParts(g, n, parents, i, seen, h);
    AsNodes(h);
    AddEdgeKeys(h, p, n);
    AddEdgeWellFormed(h, p, n);
    AddEdgeChildren(h, p, n);
    SeenNext(parents, i, seen, p);
    KnownNode(g, h, Some(p));
    AttachUnfolds(g, n, parents, i + 1);
    NowAttaching(g, n, parents, i + 1, seen + {p}, AddEdge(h, p, n));
  }

  lemma AttachingParts<N>(g: Dag<N>, n: N, parents: seq<Option<N>>, i: int, seen: set<N>, h: Dag<N>)
    requires Attaching(g, n, parents, i, seen, h)
    ensures WellFormed(g) && WellFormed(h) && n in Nodes(g) && n in Nodes(h) && h.vertices == g.vertices
    ensures 0 <= i <= |parents| && Attach(g, n, parents, i) == Edited(h, true)
    ensures forall m | m in h.edges && n in h.edges[m] :: m in seen
    ensures forall p | p in seen :: Some(p) in parents[..i]
    ensures forall o | o in parents[..i] :: o.Some? && o.value in seen
  {
    hide WellFormed, Attach;
  }

  lemma NowAttaching<N>(g: Dag<N>, n: N, parents: seq<Option<N>>, i: int, seen: set<N>, h: Dag<N>)
    requires WellFormed(g) && WellFormed(h) && n in Nodes(g) && h.vertices == g.vertices
    requires 0 <= i <= |parents| && Attach(g, n, parents, i) == Edited(h, true)
    requires forall m | m in h.edges && n in h.edges[m] :: m in seen
    requires forall p | p in seen :: Some(p) in parents[..i]
    requires forall o | o in parents[..i] :: o.Some? && o.value in seen
    ensures Attaching(g, n, parents, i, seen, h)
  {
  }

  lemma SeenNext<N>(parents: seq<Option<N>>, i: nat, seen: set<N>, p: N)
    requires i < |parents| && parents[i] == Some(p) && p !in seen
    requires (forall q | q in seen :: Some(q) in parents[..i]) && forall o | o in parents[..i] ::
             o.Some? && o.value in seen
    ensures Some(p) !in parents[..i]
    ensures forall q | q in seen + {p} :: Some(q) in parents[..i + 1]
    ensures forall o | o in parents[..i + 1] :: o.Some? && o.value in seen + {p}
  {
    PrefixNext(parents, i, Some(p));
  }

  lemma AsNodes<N>(g: Dag<N>)
    ensures forall m | m in g.vertices :: m in Nodes(g)
  {
  }

  lemma AddEdgeChildren<N>(g: Dag<N>, u: N, v: N)
    requires u in g.edges && v in g.deps
    ensures var h := AddEdge(g, u, v);
            h.vertices == g.vertices && forall m | m in h.edges && v in h.edges[m] ::
              m == u || (m in g.edges && v in g.edges[m])
  {
  }

  lemma PrefixNext<T>(s: seq<T>, i: nat, x: T)
    requires i < |s| && s[i] == x
    ensures s[..i + 1] == s[..i] + [x]
    ensures forall o | o in s[..i + 1] :: o in s[..i] || o == x
    ensures forall o | o in s[..i] || o == x :: o in s[..i + 1]
  {
  }

  lemma AttachingRefused<N>(g: Dag<N>, n: N, parents: seq<Option<N>>, i: int, seen: set<N>, h: Dag<N>)
    requires Attaching(g, n, parents, i, seen, h) && i < |parents|
    requires parents[i].Some? && parents[i].value in h.vertices ==> parents[i].value in seen
    ensures Attach(g, n, parents, |parents|) == Edited(h, false)
  {
    hide WellFormed, Attach, AddEdge;
    KnownNode(g, h, parents[i]);
    AttachUnfolds(g, n, parents, i + 1);
    RefusedStays(g, n, parents, i + 1, |parents|);
  }

  /** Once a parent is refused, the rest of the list changes nothing. */
  lemma {:induction false} RefusedStays<N>(g: Dag<N>, n: N, parents: seq<Option<N>>, i: nat, k: nat)
    requires WellFormed(g) && n in Nodes(g) && i <= k <= |parents| && !Attach(g, n, parents, i).ok
    ensures Attach(g, n, parents, k) == Attach(g, n, parents, i)
    decreases k
  {
    hide *;
    AttachUnfolds(g, n, parents, k);
    if i < k {
      RefusedStays(g, n, parents, i, k - 1);
    }
  }

  lemma AttachingDone<N>(g: Dag<N>, n: N, parents: seq<Option<N>>, seen: set<N>, h: Dag<N>)
    requires Attaching(g, n, parents, |parents|, seen, h)
    ensures WellFormed(g) && n in Nodes(g) && Attach(g, n, parents, |parents|) == Edited(h, true)
  {
  }

  /** The graph into which a fresh node has just been put is ready for its parents. */
  lemma PlacedIsReady<N>(g: Dag<N>, n: N, parents: seq<Option<N>>)
    requires WellFormed(g) && n !in Nodes(g)
    ensures Attaching(AddVertex(g, n), n, parents, 0, {}, AddVertex(g, n))
    ensures AddNode(g, n, parents) == Attach(AddVertex(g, n), n, parents, |parents|)
  {
    hide ListsInside, Mirrored, Distinct, AddVertex;
    FreshHasNoParents(g, n);
    AttachingStarts(AddVertex(g, n), n, parents);
  }

  // ---- The loops that detach a node about to be destroyed ----

  /** `h` is `g` with n taken out of the dependencies of its first i children and out of
      the children of the first j of `parents`. */
  ghost predicate Detaching<N>(g: Dag<N>, n: N, parents: seq<N>, i: int, j: int, h: Dag<N>) {
    && WellFormed(g) && n in Nodes(g) && h.vertices == g.vertices
    && 0 <= i <= |g.edges[n]| && Struck(g.deps, n, g.edges[n][..i], h.deps)
    && 0 <= j <= |parents| && Struck(g.edges, n, parents[..j], h.edges)
  }

  /** The lists of the nodes in `done` have lost n; all others are as they were. */
  ghost predicate Struck<N>(lists: map<N, seq<N>>, n: N, done: seq<N>, left: map<N, seq<N>>) {
    && left.Keys == lists.Keys
    && forall m | m in lists :: left[m] == if m in done then Erase(lists[m], n) else lists[m]
  }

  lemma StruckNext<N>(lists: map<N, seq<N>>, n: N, done: seq<N>, left: map<N, seq<N>>, c: N)
    requires Struck(lists, n, done, left) && c in lists && c !in done
    ensures c in left && left[c] == lists[c] && Struck(lists, n, done + [c], left[c := Erase(left[c], n)])
  {
    hide Erase;
  }

  lemma DetachChild<N>(g: Dag<N>, n: N, i: int, h: Dag<N>)
    requires Detaching(g, n, [], i, 0, h) && i < |g.edges[n]|
    ensures var c := g.edges[n][i];
            && c in h.deps && c in Nodes(g) && |h.deps[c]| == |Erase(h.deps[c], n)| + 1
            && Detaching(g, n, [], i + 1, 0, h.(deps := h.deps[c := Erase(h.deps[c], n)]))
  {
    hide WellFormed, Struck, Nodes;
    NodeKeys(g, n);
    var c := g.edges[n][i];
    ChildOf(g, n, i);
    NodeKeys(g, c);
    PrefixNext(g.edges[n], i, c);
    Lists(g, n);
    Lists(g, c);
    NotBefore(g.edges[n], i);
    EraseDistinct(g.deps[c], n);
    StruckNext(g.deps, n, g.edges[n][..i], h.deps, c);
  }

  lemma NodeKeys<N>(g: Dag<N>, n: N)
    requires WellFormed(g) && n in Nodes(g)
    ensures n in g.edges && n in g.deps
  {
    hide ListsInside, Mirrored, Distinct;
  }

  lemma Lists<N>(g: Dag<N>, n: N)
    requires WellFormed(g) && n in Nodes(g)
    ensures Distinct(g.edges[n]) && Distinct(g.deps[n])
  {
  }

  lemma DetachParent<N>(g: Dag<N>, n: N, j: int, h: Dag<N>)
    requires WellFormed(g) && n in Nodes(g) && Detaching(g, n, Erase(g.deps[n], n), |g.edges[n]|, j, h)
             && j < |Erase(g.deps[n], n)|
    ensures var d := Erase(g.deps[n], n)[j];
            && d in h.edges && d in Nodes(g) && |h.edges[d]| == |Erase(h.edges[d], n)| + 1
            && Detaching(g, n, Erase(g.deps[n], n), |g.edges[n]|, j + 1,
               h.(edges := h.edges[d := Erase(h.edges[d], n)]))
  {
    hide WellFormed, Struck, Nodes, Erase;
    NodeKeys(g, n);
    var parents := Erase(g.deps[n], n);
    var d := parents[j];
    EraseMembers(g.deps[n], n);
    assert d in parents;
    DepIn(g, n, d);
    NodeKeys(g, d);
    PrefixNext(parents, j, d);
    Lists(g, n);
    Lists(g, d);
    EraseDistinct(g.deps[n], n);
    NotBefore(parents, j);
    EraseDistinct(g.edges[d], n);
    StruckNext(g.edges, n, parents[..j], h.edges, d);
  }

  lemma NotBefore<T>(s: seq<T>, j: int)
    requires Distinct(s) && 0 <= j < |s|
    ensures s[j] !in s[..j]
  {
  }

  lemma SelfLoop<N>(g: Dag<N>, n: N)
    requires WellFormed(g) && n in Nodes(g)
    ensures n in g.edges && n in g.deps && (n in g.edges[n] <==> n in g.deps[n])
  {
    hide ListsInside, Distinct;
  }

  /** The dependency list of n itself, once its children are detached. */
  lemma OwnParents<N>(g: Dag<N>, n: N, h: Dag<N>)
    requires WellFormed(g) && n in Nodes(g) && Detaching(g, n, [], |g.edges[n]|, 0, h)
    ensures n in h.deps && h.deps[n] == Erase(g.deps[n], n) && Detaching(g, n, Erase(g.deps[n], n), |g.edges[n]|, 0, h)
  {
    hide WellFormed, Erase;
    SelfLoop(g, n);
    if n !in g.edges[n] {
      EraseAbsent(g.deps[n], n);
    }
    assert g.edges[n][..|g.edges[n]|] == g.edges[n];
  }

  lemma Detached<N>(g: Dag<N>, n: N, h: Dag<N>)
    requires WellFormed(g) && n in Nodes(g)
             && Detaching(g, n, Erase(g.deps[n], n), |g.edges[n]|, |Erase(g.deps[n], n)|, h)
    ensures RemoveVertex(g, n) == Dag(Erase(g.vertices, n), h.edges - {n}, h.deps - {n})
    ensures forall m | m in Erase(g.vertices, n) :: m in g.vertices && m != n
    ensures forall m | m in g.vertices && m != n :: m in Erase(g.vertices, n)
  {
    hide WellFormed, Detaching, Erase;
    EraseMembers(g.vertices, n);
    DetachedEdges(g, n, h);
    DetachedDeps(g, n, h);
  }

  lemma DetachedKeys<N>(g: Dag<N>, n: N, h: Dag<N>)
    requires WellFormed(g) && n in Nodes(g)
             && Detaching(g, n, Erase(g.deps[n], n), |g.edges[n]|, |Erase(g.deps[n], n)|, h)
    ensures h.edges.Keys == g.edges.Keys == h.deps.Keys == g.deps.Keys == Nodes(g)
  {
    hide ListsInside, Mirrored, Distinct, Erase;
  }

  lemma DetachedEdges<N>(g: Dag<N>, n: N, h: Dag<N>)
    requires WellFormed(g) && n in Nodes(g)
             && Detaching(g, n, Erase(g.deps[n], n), |g.edges[n]|, |Erase(g.deps[n], n)|, h)
    ensures RemoveVertex(g, n).edges == h.edges - {n}
  {
    hide WellFormed, Detaching, Erase;
    DetachedKeys(g, n, h);
    forall m | m in g.edges && m != n ensures h.edges[m] == Erase(g.edges[m], n) {
      DetachedLists(g, n, h, m);
    }
  }

  lemma DetachedDeps<N>(g: Dag<N>, n: N, h: Dag<N>)
    requires WellFormed(g) && n in Nodes(g)
             && Detaching(g, n, Erase(g.deps[n], n), |g.edges[n]|, |Erase(g.deps[n], n)|, h)
    ensures RemoveVertex(g, n).deps == h.deps - {n}
  {
    hide WellFormed, Detaching, Erase;
    DetachedKeys(g, n, h);
    forall m | m in g.deps && m != n ensures h.deps[m] == Erase(g.deps[m], n) {
      DetachedLists(g, n, h, m);
    }
  }

  lemma DetachedLists<N>(g: Dag<N>, n: N, h: Dag<N>, m: N)
    requires WellFormed(g) && n in Nodes(g) && m in Nodes(g) && m != n
    requires Detaching(g, n, Erase(g.deps[n], n), |g.edges[n]|, |Erase(g.deps[n], n)|, h)
    ensures h.edges[m] == Erase(g.edges[m], n) && h.deps[m] == Erase(g.deps[m], n)
  {
    hide ListsInside, Distinct;
    EraseMembers(g.deps[n], n);
    assert g.edges[n][..|g.edges[n]|] == g.edges[n];
    assert Erase(g.deps[n], n)[..|Erase(g.deps[n], n)|] == Erase(g.deps[n], n);
    if n !in g.deps[m] {
      EraseAbsent(g.deps[m], n);
    }
    if n !in g.edges[m] {
      EraseAbsent(g.edges[m], n);
    }
  }

  // ---- The loops over edge lists ----

  /** `h` is `g` with the first i edges added. */
  ghost predicate Connecting<N>(g: Dag<N>, from: seq<Option<N>>, to: seq<Option<N>>, i: int, h: Dag<N>) {
    && WellFormed(g) && WellFormed(h) && h.vertices == g.vertices && |from| == |to| && 0 <= i <= |from|
    && Connectable(g, from, to)
    && ConnectUpTo(g, from, to, i) == Edited(h, true)
  }

  lemma ConnectingNext<N>(g: Dag<N>, from: seq<Option<N>>, to: seq<Option<N>>, i: int, h: Dag<N>, u: N, v: N)
    requires Connecting(g, from, to, i, h) && i < |from| && from[i] == Some(u) && to[i] == Some(v)
    ensures u in h.vertices && v in h.vertices && u in h.edges && v in h.deps
    ensures v !in h.edges[u] ==> Connecting(g, from, to, i + 1, AddEdge(h, u, v))
    ensures v in h.edges[u] ==> Connect(g, from, to) == Edited(h, false)
  {
    hide WellFormed, AddEdge;
    ConnectingPair(g, from, to, i, h, u, v);
    if v in h.edges[u] {
      ConnectStays(g, from, to, i + 1, |from|);
    } else {
      AddEdgeWellFormed(h, u, v);
      AddEdgeKeeps(h, u, v);
    }
  }

  lemma ConnectingPair<N>(g: Dag<N>, from: seq<Option<N>>, to: seq<Option<N>>, i: int, h: Dag<N>, u: N, v: N)
    requires Connecting(g, from, to, i, h) && i < |from| && from[i] == Some(u) && to[i] == Some(v)
    ensures WellFormed(h) && u in h.vertices && v in h.vertices && u in Nodes(h) && v in Nodes(h) && u in h.edges
            && v in h.deps
  {
    hide ListsInside, Mirrored, Distinct;
    assert Known(g, from[i]) && Known(g, to[i]);
  }

  lemma WellFormedKeys<N>(g: Dag<N>)
    requires WellFormed(g)
    ensures g.edges.Keys == Nodes(g) && g.deps.Keys == Nodes(g)
  {
  }

  lemma RemoveEdgeKeeps<N>(g: Dag<N>, u: N, v: N)
    requires u in g.edges && v in g.deps
    ensures RemoveEdge(g, u, v).vertices == g.vertices
  {
  }

  lemma AddEdgeKeeps<N>(g: Dag<N>, u: N, v: N)
    requires u in g.edges && v in g.deps
    ensures AddEdge(g, u, v).vertices == g.vertices
  {
  }

  lemma {:induction false} ConnectStays<N>(g: Dag<N>, from: seq<Option<N>>, to: seq<Option<N>>, i: nat, k: nat)
    requires WellFormed(g) && |from| == |to| && i <= k <= |from| && Connectable(g, from, to)
    requires !ConnectUpTo(g, from, to, i).ok
    ensures ConnectUpTo(g, from, to, k) == ConnectUpTo(g, from, to, i)
    decreases k
  {
    hide WellFormed;
    if i < k {
      ConnectStays(g, from, to, i, k - 1);
    }
  }

  lemma ConnectingStarts<N>(g: Dag<N>, from: seq<Option<N>>, to: seq<Option<N>>)
    requires WellFormed(g) && |from| == |to| && Connectable(g, from, to)
    ensures Connecting(g, from, to, 0, g)
  {
  }

  lemma ConnectingDone<N>(g: Dag<N>, from: seq<Option<N>>, to: seq<Option<N>>, h: Dag<N>)
    requires Connecting(g, from, to, |from|, h)
    ensures WellFormed(g) && |from| == |to| && Connect(g, from, to) == Edited(h, true)
  {
    hide WellFormed;
  }

  /** `h` is `g` with the first i edges removed. */
  ghost predicate Disconnecting<N>(g: Dag<N>, from: seq<N>, to: seq<N>, i: int, h: Dag<N>) {
    && WellFormed(g) && WellFormed(h) && h.vertices == g.vertices && |from| == |to| && 0 <= i <= |from|
    && Disconnect(g, from, to, i) == Edited(h, true)
  }

  lemma RemoveEdgeCounts<N>(h: Dag<N>, u: N, v: N)
    requires WellFormed(h) && u in Nodes(h) && v in Nodes(h)
    ensures v in h.edges[u] ==>
              && u in h.deps[v] && |Erase(h.edges[u], v)| + 1 == |h.edges[u]|
              && |Erase(h.deps[v], u)| + 1 == |h.deps[v]|
              && WellFormed(RemoveEdge(h, u, v)) && RemoveEdge(h, u, v).vertices == h.vertices
  {
    hide ListsInside, Mirrored, Distinct;
    if v in h.edges[u] {
      ChildIn(h, u, v);
      RemoveEdgeWellFormed(h, u, v);
      Lists(h, u);
      Lists(h, v);
      EraseDistinct(h.edges[u], v);
      EraseDistinct(h.deps[v], u);
    }
  }

  lemma DisconnectingNext<N>(g: Dag<N>, from: seq<N>, to: seq<N>, i: int, h: Dag<N>)
    requires Disconnecting(g, from, to, i, h) && i < |from|
    ensures var u, v := from[i], to[i];
            if u in h.vertices && v in h.vertices && u in h.edges && v in h.edges[u]
            then v in h.deps && Disconnecting(g, from, to, i + 1, RemoveEdge(h, u, v))
            else Disconnect(g, from, to, |from|) == Edited(h, false)
  {
    hide WellFormed, RemoveEdge;
    WellFormedKeys(h);
    var u, v := from[i], to[i];
    if u in h.vertices && v in h.vertices && v in h.edges[u] {
      RemoveEdgeWellFormed(h, u, v);
      RemoveEdgeKeeps(h, u, v);
    } else {
      DisconnectStays(g, from, to, i + 1, |from|);
    }
  }

  lemma DisconnectUnfolds<N>(g: Dag<N>, from: seq<N>, to: seq<N>, k: nat)
    requires WellFormed(g) && 0 < k <= |from| == |to|
    ensures var r := Disconnect(g, from, to, k - 1); var u, v := from[k - 1], to[k - 1];
            && r.g.edges.Keys == r.g.deps.Keys == Nodes(g)
            && Disconnect(g, from, to, k) ==
               if !r.ok then r
               else if v !in Nodes(g) || u !in Nodes(g) || v !in r.g.edges[u] then Edited(r.g, false)
               else Edited(RemoveEdge(r.g, u, v), true)
  {
    hide ListsInside, Mirrored, Distinct, RemoveEdge;
  }

  lemma {:induction false} DisconnectStays<N>(g: Dag<N>, from: seq<N>, to: seq<N>, i: nat, k: nat)
    requires WellFormed(g) && |from| == |to| && i <= k <= |from| && !Disconnect(g, from, to, i).ok
    ensures Disconnect(g, from, to, k) == Disconnect(g, from, to, i)
    decreases k
  {
    hide *;
    if i < k {
      DisconnectUnfolds(g, from, to, k);
      DisconnectStays(g, from, to, i, k - 1);
    }
  }

  lemma DisconnectingStarts<N>(g: Dag<N>, from: seq<N>, to: seq<N>)
    requires WellFormed(g) && |from| == |to|
    ensures Disconnecting(g, from, to, 0, g)
  {
  }

  lemma DisconnectingDone<N>(g: Dag<N>, from: seq<N>, to: seq<N>, h: Dag<N>)
    requires Disconnecting(g, from, to, |from|, h)
    ensures WellFormed(g) && |from| == |to| && Disconnect(g, from, to, |from|) == Edited(h, true)
  {
    hide WellFormed;
  }

  lemma FreshHasNoParents<N>(g: Dag<N>, n: N)
    requires WellFormed(g) && n !in Nodes(g)
    ensures WellFormed(AddVertex(g, n)) && n in Nodes(AddVertex(g, n))
    ensures forall m | m in Nodes(AddVertex(g, n)) :: n !in AddVertex(g, n).edges[m]
  {
    hide Mirrored, Distinct;
    AddVertexWellFormed(g, n);
    forall m | m in Nodes(g) ensures n !in g.edges[m] {
    }
  }

  lemma {:induction false} ConnectWellFormed<N>(g: Dag<N>, from: seq<Option<N>>, to: seq<Option<N>>, k: nat)
    requires WellFormed(g) && |from| == |to| && k <= |from| && Connectable(g, from, to)
    ensures WellFormed(ConnectUpTo(g, from, to, k).g)
  {
    hide ListsInside, Mirrored, Distinct;
    if k > 0 {
      ConnectWellFormed(g, from, to, k - 1);
      var r := ConnectUpTo(g, from, to, k - 1);
      if r.ok && to[k - 1].value !in r.g.edges[from[k - 1].value] {
        AddEdgeWellFormed(r.g, from[k - 1].value, to[k - 1].value);
      }
    }
  }

  lemma {:induction false} DisconnectWellFormed<N>(g: Dag<N>, from: seq<N>, to: seq<N>, k: nat)
    requires WellFormed(g) && |from| == |to| && k <= |from|
    ensures WellFormed(Disconnect(g, from, to, k).g)
  {
    hide ListsInside, Mirrored, Distinct;
    if k > 0 {
      DisconnectWellFormed(g, from, to, k - 1);
      var r := Disconnect(g, from, to, k - 1);
      if r.ok && from[k - 1] in Nodes(g) && to[k - 1] in Nodes(g) {
        RemoveEdgeWellFormed(r.g, from[k - 1], to[k - 1]);
      }
    }
  }

  datatype Edit<N> =
    | Add(node: N, parents: seq<Option<N>>)
    | Connects(froms: seq<Option<N>>, tos: seq<Option<N>>)
    | Disconnects(from: seq<N>, to: seq<N>)
    | Destroy(node: N)

  /** Added nodes are new objects; edge calls come with lists of one length. */
  ghost predicate Callable<N>(g: Dag<N>, e: Edit<N>) {
    match e
    case Add(n, _) => n !in Nodes(g)
    case Connects(from, to) => |from| == |to|
    case Disconnects(from, to) => |from| == |to|
    case Destroy(_) => true
  }

  ghost function Apply<N>(g: Dag<N>, e: Edit<N>): Edited<N>
    requires WellFormed(g) && Callable(g, e)
  {
    match e
    case Add(n, parents) => AddNode(g, n, parents)
    case Connects(from, to) => Connect(g, from, to)
    case Disconnects(from, to) => Disconnect(g, from, to, |from|)
    case Destroy(n) => if n in Nodes(g) then Edited(RemoveVertex(g, n), true) else Edited(g, false)
  }

  lemma ApplyWellFormed<N>(g: Dag<N>, e: Edit<N>)
    requires WellFormed(g) && Callable(g, e)
    ensures WellFormed(Apply(g, e).g)
  {
    hide WellFormed, Attach, ConnectUpTo, Disconnect, RemoveVertex, AddVertex;
    match e {
      case Add(n, parents) =>
        FreshHasNoParents(g, n);
        AttachWellFormed(AddVertex(g, n), n, parents, |parents|);
      case Connects(from, to) =>
        if Connectable(g, from, to) {
          ConnectWellFormed(g, from, to, |from|);
        }
      case Disconnects(from, to) =>
        DisconnectWellFormed(g, from, to, |from|);
      case Destroy(n) =>
        if n in Nodes(g) {
          RemoveVertexWellFormed(g, n);
        }
    }
  }

  /** The graph after a run of edits; calls that report an error keep what they did. */
  ghost function After<N>(g: Dag<N>, edits: seq<Edit<N>>): Dag<N>
    requires WellFormed(g) && Run(g, edits)
    decreases |edits|
  {
    if edits == [] then g
    else
      ApplyWellFormed(g, edits[0]);
      After(Apply(g, edits[0]).g, edits[1..])
  }

  ghost predicate Run<N>(g: Dag<N>, edits: seq<Edit<N>>)
    requires WellFormed(g)
    decreases |edits|
  {
    edits == [] || (Callable(g, edits[0]) && (ApplyWellFormed(g, edits[0]); Run(Apply(g, edits[0]).g, edits[1..])))
  }

  /** Over every run of edits, failing calls included, the adjacency invariant holds. */
  lemma {:induction false} EditsWellFormed<N>(g: Dag<N>, edits: seq<Edit<N>>)
    requires WellFormed(g) && Run(g, edits)
    ensures WellFormed(After(g, edits))
    decreases |edits|
  {
    hide WellFormed, Apply;
    if edits != [] {
      ApplyWellFormed(g, edits[0]);
      EditsWellFormed(Apply(g, edits[0]).g, edits[1..]);
    }
  }
}
