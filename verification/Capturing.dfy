/** Stream capture: building a graph through dependencies remembered per stream, and the
    test at the end of capture that all streams have joined. */
module Capturing {
  import opened Dags
  import opened Editing
  import Kahn
  import Scheduling

  // ---- What adding a node with parents does ----

  ghost function Values<N>(s: seq<Option<N>>): (r: seq<N>)
    requires forall i | 0 <= i < |s| :: s[i].Some?
    ensures |r| == |s| && forall i | 0 <= i < |s| :: r[i] == s[i].value
  {
    seq(|s|, i requires 0 <= i < |s| => s[i].value)
  }

  /** The first k parents are nodes of the graph and named once. */
  ghost predicate Attachable<N>(g: Dag<N>, parents: seq<Option<N>>, k: nat)
    requires k <= |parents|
  {
    (forall i | 0 <= i < k :: Known(g, parents[i])) && Distinct(parents[..k])
  }

  ghost predicate Attached<N>(g: Dag<N>, n: N, parents: seq<Option<N>>, k: nat, h: Dag<N>)
    requires k <= |parents| && Attachable(g, parents, k)
  {
    && h.vertices == g.vertices && h.edges.Keys == g.edges.Keys && h.deps.Keys == g.deps.Keys && n in g.deps
    && (forall m | m in g.edges :: h.edges[m] == if Some(m) in parents[..k] then g.edges[m] + [n] else g.edges[m])
    && (forall m | m in g.deps :: h.deps[m] == if m == n then g.deps[n] + Values(parents[..k]) else g.deps[m])
  }

  lemma {:induction false} AttachExact<N>(g: Dag<N>, n: N, parents: seq<Option<N>>, k: nat)
    requires WellFormed(g) && n in Nodes(g) && k <= |parents|
    ensures Attach(g, n, parents, k).ok <==> Attachable(g, parents, k)
    ensures Attachable(g, parents, k) ==> Attached(g, n, parents, k, Attach(g, n, parents, k).g)
  {
    hide ListsInside, Mirrored, Distinct, Attach, Attached, Attachable, AddEdge;
    AttachUnfolds(g, n, parents, k);
    if k == 0 {
      AttachedNone(g, n, parents);
    } else {
      AttachExact(g, n, parents, k - 1);
      AttachableNext(g, parents, k - 1);
      if Attachable(g, parents, k) {
        AttachedNext(g, n, parents, k - 1, Attach(g, n, parents, k - 1).g);
      }
    }
  }

  lemma AttachedNone<N>(g: Dag<N>, n: N, parents: seq<Option<N>>)
    requires n in g.deps
    ensures Attachable(g, parents, 0) && Attached(g, n, parents, 0, g)
  {
    assert g.deps[n] + [] == g.deps[n];
  }

  lemma AttachableNext<N>(g: Dag<N>, parents: seq<Option<N>>, k: nat)
    requires k < |parents|
    ensures Attachable(g, parents, k + 1)
            <==> Attachable(g, parents, k) && Known(g, parents[k]) && parents[k] !in parents[..k]
  {
    assert parents[..k + 1] == parents[..k] + [parents[k]];
    assert forall i | 0 <= i < k :: parents[..k][i] == parents[..k + 1][i];
  }

  lemma AttachedNext<N>(g: Dag<N>, n: N, parents: seq<Option<N>>, k: nat, h: Dag<N>)
    requires k < |parents| && Attachable(g, parents, k + 1) && Attachable(g, parents, k)
    requires Attached(g, n, parents, k, h) && parents[k].value in g.edges && parents[k] !in parents[..k]
    ensures Attached(g, n, parents, k + 1, AddEdge(h, parents[k].value, n))
  {
    hide Distinct;
    assert Known(g, parents[k]);
    var p := parents[k].value;
    assert parents[k] == Some(p);
    assert parents[..k + 1] == parents[..k] + [parents[k]];
    assert Values(parents[..k + 1]) == Values(parents[..k]) + [p];
    assert g.deps[n] + Values(parents[..k]) + [p] == g.deps[n] + Values(parents[..k + 1]);
  }

  /** A failing call leaves the graph of the longest prefix that could be attached. */
  lemma {:induction false} AttachStops<N>(g: Dag<N>, n: N, parents: seq<Option<N>>, k: nat) returns (j: nat)
    requires WellFormed(g) && n in Nodes(g) && k <= |parents|
    ensures j <= k && Attachable(g, parents, j) && Attach(g, n, parents, k).g == Attach(g, n, parents, j).g
    ensures j < k ==> !Attachable(g, parents, j + 1)
  {
    hide ListsInside, Mirrored, Distinct, Attached, Attachable, Attach;
    AttachedNone(g, n, parents);
    if k == 0 || Attachable(g, parents, k) {
      j := k;
    } else {
      AttachStuck(g, n, parents, k);
      j := AttachStops(g, n, parents, k - 1);
    }
  }

  lemma AttachStuck<N>(g: Dag<N>, n: N, parents: seq<Option<N>>, k: nat)
    requires WellFormed(g) && n in Nodes(g) && 0 < k <= |parents| && !Attachable(g, parents, k)
    ensures Attach(g, n, parents, k).g == Attach(g, n, parents, k - 1).g
  {
    hide *;
    AttachUnfolds(g, n, parents, k);
    AttachExact(g, n, parents, k - 1);
    AttachableNext(g, parents, k - 1);
  }

  // ---- Adding a node and removing it again restores the graph ----

  lemma EraseAppended<N>(s: seq<N>, n: N, t: seq<N>)
    requires n !in s && (t == s || t == s + [n])
    ensures Erase(t, n) == s
  {
    if t == s {
      EraseAbsent(s, n);
    } else {
      EraseLast(s, n);
    }
  }

  /** h is g with n appended, and perhaps with n at the end of some lists. */
  ghost predicate Extended<N>(g: Dag<N>, n: N, h: Dag<N>) {
    && h.vertices == g.vertices + [n]
    && h.edges.Keys == g.edges.Keys + {n} && h.deps.Keys == g.deps.Keys + {n}
    && (forall m | m in g.edges :: h.edges[m] == g.edges[m] || h.edges[m] == g.edges[m] + [n])
    && (forall m | m in g.deps :: h.deps[m] == g.deps[m])
  }

  lemma RemoveExtended<N>(g: Dag<N>, n: N, h: Dag<N>)
    requires WellFormed(g) && n !in Nodes(g) && Extended(g, n, h)
    ensures RemoveVertex(h, n) == g
  {
    hide ListsInside, Mirrored, Distinct, Erase;
    EraseLast(g.vertices, n);
    var r := RemoveVertex(h, n);
    forall m | m in g.edges ensures Erase(h.edges[m], n) == g.edges[m] {
      Neighbours(g, m);
      EraseAppended(g.edges[m], n, h.edges[m]);
    }
    forall m | m in g.deps ensures Erase(h.deps[m], n) == g.deps[m] {
      Neighbours(g, m);
      EraseAppended(g.deps[m], n, h.deps[m]);
    }
    assert r.edges == g.edges;
    assert r.deps == g.deps;
  }

  lemma AttachedExtends<N>(g: Dag<N>, n: N, parents: seq<Option<N>>, k: nat, h: Dag<N>)
    requires WellFormed(g) && n !in Nodes(g) && k <= |parents| && Attachable(AddVertex(g, n), parents, k)
    requires Attached(AddVertex(g, n), n, parents, k, h)
    ensures Extended(g, n, h)
  {
    hide ListsInside, Mirrored, Distinct, Attachable;
  }

  /** Removing a node that was just added gives back every vertex, edge and dependency
      list, whether or not adding it succeeded. */
  lemma RemoveRestores<N>(g: Dag<N>, n: N, parents: seq<Option<N>>)
    requires WellFormed(g) && n !in Nodes(g)
    ensures RemoveVertex(AddNode(g, n, parents).g, n) == g
  {
    hide WellFormed, AddNode, RemoveVertex, Extended;
    AddExtends(g, n, parents);
    RemoveExtended(g, n, AddNode(g, n, parents).g);
  }

  lemma AddExtends<N>(g: Dag<N>, n: N, parents: seq<Option<N>>)
    requires WellFormed(g) && n !in Nodes(g)
    ensures Extended(g, n, AddNode(g, n, parents).g)
  {
    hide WellFormed, Attached, Attachable, Attach, AddVertex;
    FreshHasNoParents(g, n);
    var j := AttachStops(AddVertex(g, n), n, parents, |parents|);
    AttachExact(AddVertex(g, n), n, parents, j);
    AttachedExtends(g, n, parents, j, Attach(AddVertex(g, n), n, parents, j).g);
  }

  // ---- The join test ----

  /** The vertices without children among the first k, in vertex order. */
  ghost function Leaves<N>(g: Dag<N>, k: nat): seq<N>
    requires g.edges.Keys == Nodes(g) && k <= |g.vertices|
  {
    if k == 0 then []
    else if g.edges[g.vertices[k - 1]] == [] then Leaves(g, k - 1) + [g.vertices[k - 1]]
    else Leaves(g, k - 1)
  }

  lemma {:induction false} LeavesExact<N>(g: Dag<N>, k: nat)
    requires g.edges.Keys == Nodes(g) && k <= |g.vertices| && Distinct(g.vertices)
    ensures Distinct(Leaves(g, k))
    ensures forall n | n in Leaves(g, k) :: n in g.vertices[..k] && g.edges[n] == []
    ensures forall n | n in g.vertices[..k] && g.edges[n] == [] :: n in Leaves(g, k)
  {
    if k > 0 {
      LeavesExact(g, k - 1);
      assert g.vertices[..k] == g.vertices[..k - 1] + [g.vertices[k - 1]];
    }
  }

  /** The elements of s that are not in `out`. */
  ghost function Except<N>(s: seq<N>, out: set<N>): seq<N> {
    if s == [] then [] else (if s[0] in out then [] else [s[0]]) + Except(s[1..], out)
  }

  lemma {:induction false} ExceptExact<N>(s: seq<N>, out: set<N>)
    requires Distinct(s)
    ensures Distinct(Except(s, out))
    ensures forall n | n in Except(s, out) :: n in s && n !in out
    ensures forall n | n in s && n !in out :: n in Except(s, out)
  {
    if s != [] {
      ExceptExact(s[1..], out);
      assert forall n | n in s :: n == s[0] || n in s[1..];
      assert s[0] !in s[1..];
    }
  }

  lemma {:induction false} ExceptNone<N>(s: seq<N>)
    ensures Except(s, {}) == s
  {
    if s != [] {
      ExceptNone(s[1..]);
      assert s == [s[0]] + s[1..];
    }
  }

  lemma {:induction false} ExceptErase<N>(s: seq<N>, out: set<N>, n: N)
    ensures Erase(Except(s, out), n) == Except(s, out + {n})
  {
    if s != [] {
      ExceptErase(s[1..], out, n);
      var rest := Except(s[1..], out);
      assert ([s[0]] + rest)[1..] == rest && [] + rest == rest;
      assert [] + Except(s[1..], out + {n}) == Except(s[1..], out + {n});
    }
  }

  ghost predicate Meets<N>(s: seq<N>, t: seq<N>) {
    exists n | n in s :: n in t
  }

  lemma MeetsNext<N>(s: seq<N>, t: seq<N>, i: nat)
    requires i < |s|
    ensures Meets(s[..i + 1], t) <==> Meets(s[..i], t) || s[i] in t
  {
    PrefixNext(s, i, s[i]);
    if s[i] in t {
      assert s[i] in s[..i + 1];
    }
  }

  /** Whether the end of a capture reports streams that never joined: with a temporary
      node added after the last captured nodes, more than one leaf is left once manually
      added nodes are set aside, and none of the leaves left was taken out of a stream's
      dependencies by the application. */
  ghost predicate Unjoined<N>(g: Dag<N>, temporary: N, last: seq<Option<N>>, manual: set<N>, removed: seq<N>)
    requires WellFormed(g) && temporary !in Nodes(g)
  {
    var h := AddNode(g, temporary, last).g;
    var leaves := Leaves(h, |h.vertices|);
    var left := Except(leaves, manual);
    |leaves| > 1 && |left| > 1 && !Meets(left, removed)
  }

  lemma UnjoinedMeans<N>(g: Dag<N>, temporary: N, last: seq<Option<N>>, manual: set<N>, removed: seq<N>, leaves: seq<N>,
        left: seq<N>)
    requires WellFormed(g) && temporary !in Nodes(g)
    requires var h := AddNode(g, temporary, last).g; h.edges.Keys == Nodes(h) && leaves == Leaves(h, |h.vertices|)
    requires left == Except(leaves, manual)
    ensures Unjoined(g, temporary, last, manual, removed) <==> |leaves| > 1 && |left| > 1 && !Meets(left, removed)
  {
    hide WellFormed, Leaves, Except, AddNode;
  }

  /** A leaf of the captured graph that no stream will continue from. */
  ghost predicate Loose<N>(g: Dag<N>, last: seq<Option<N>>, n: N) {
    n in Nodes(g) && n in g.edges && g.edges[n] == [] && Some(n) !in last
  }

  lemma TemporaryGraph<N>(g: Dag<N>, temporary: N, last: seq<Option<N>>)
    requires WellFormed(g) && temporary !in Nodes(g) && Attachable(g, last, |last|)
    ensures var h := AddNode(g, temporary, last).g;
            && h.vertices == g.vertices + [temporary] && Distinct(h.vertices)
            && h.edges.Keys == Nodes(h) && h.edges[temporary] == []
            && forall m | m in Nodes(g) :: m in h.edges && (h.edges[m] == [] <==> g.edges[m] == [] && Some(m) !in last)
  {
    hide ListsInside, Mirrored, Attachable;
    FreshHasNoParents(g, temporary);
    AttachableMore(g, temporary, last);
    AttachExact(AddVertex(g, temporary), temporary, last, |last|);
    assert last[..|last|] == last;
    NotAmong(g, temporary, last);
  }

  /** With valid last captured nodes, the leaves after adding the temporary node are that
      node and the loose leaves. */
  lemma TemporaryLeaves<N>(g: Dag<N>, temporary: N, last: seq<Option<N>>)
    requires WellFormed(g) && temporary !in Nodes(g) && Attachable(g, last, |last|)
    ensures var h := AddNode(g, temporary, last).g; var leaves := Leaves(h, |h.vertices|);
            && Distinct(leaves) && temporary in leaves
            && (forall n | n in leaves && n != temporary :: Loose(g, last, n))
            && (forall n | n in Nodes(g) && Loose(g, last, n) :: n in leaves)
  {
    hide ListsInside, Mirrored, Distinct, Attachable, AddNode;
    TemporaryGraph(g, temporary, last);
    var h := AddNode(g, temporary, last).g;
    LeavesExact(h, |h.vertices|);
    assert h.vertices[..|h.vertices|] == h.vertices;
  }

  lemma AttachableMore<N>(g: Dag<N>, temporary: N, last: seq<Option<N>>)
    requires Attachable(g, last, |last|)
    ensures Attachable(AddVertex(g, temporary), last, |last|)
  {
    forall i | 0 <= i < |last| ensures Known(AddVertex(g, temporary), last[i]) {
      assert Known(g, last[i]);
    }
  }

  lemma NotAmong<N>(g: Dag<N>, temporary: N, last: seq<Option<N>>)
    requires temporary !in Nodes(g) && Attachable(g, last, |last|)
    ensures Some(temporary) !in last
  {
    forall i | 0 <= i < |last| ensures last[i] != Some(temporary) {
      assert Known(g, last[i]);
    }
  }

  /** Exactly when the end of capture reports unjoined streams: some loose leaf was not
      added manually, and no such leaf was removed from a stream's dependencies. One
      removed leaf excuses all the others. */
  lemma JoinVerdict<N>(g: Dag<N>, temporary: N, last: seq<Option<N>>, manual: set<N>, removed: seq<N>)
    requires WellFormed(g) && temporary !in Nodes(g) && Attachable(g, last, |last|)
    requires temporary !in manual && temporary !in removed
    ensures Unjoined(g, temporary, last, manual, removed) <==>
            && (exists n :: n in Nodes(g) && Loose(g, last, n) && n !in manual)
            && !(exists n :: n in Nodes(g) && Loose(g, last, n) && n !in manual && n in removed)
  {
    hide ListsInside, Mirrored, Distinct, Attachable, AddNode, Leaves, Except;
    var left := LeftLeaves(g, temporary, last, manual);
    MoreThanOne(left, temporary);
    if |left| > 1 {
      var n :| n in left && n != temporary;
      assert Loose(g, last, n) && n in Nodes(g);
    }
  }

  /** The leaves the verdict looks at: the temporary node and the loose leaves that were
      not added manually. */
  lemma LeftLeaves<N>(g: Dag<N>, temporary: N, last: seq<Option<N>>, manual: set<N>) returns (left: seq<N>)
    requires WellFormed(g) && temporary !in Nodes(g) && Attachable(g, last, |last|) && temporary !in manual
    ensures var h := AddNode(g, temporary, last).g;
            h.edges.Keys == Nodes(h) && left == Except(Leaves(h, |h.vertices|), manual)
            && (|left| > 1 ==> |Leaves(h, |h.vertices|)| > 1)
    ensures Distinct(left) && temporary in left
    ensures forall n | n in left && n != temporary :: n in Nodes(g) && Loose(g, last, n) && n !in manual
    ensures forall n | n in Nodes(g) && Loose(g, last, n) && n !in manual :: n in left
  {
    hide ListsInside, Mirrored, Distinct, Attachable, AddNode, Leaves, Except;
    TemporaryGraph(g, temporary, last);
    TemporaryLeaves(g, temporary, last);
    var h := AddNode(g, temporary, last).g;
    var leaves := Leaves(h, |h.vertices|);
    left := Except(leaves, manual);
    ExceptExact(leaves, manual);
    MoreThanOne(left, temporary);
    MoreThanOne(leaves, temporary);
  }

  /** A duplicate-free list holding x is longer than one exactly when it holds another. */
  lemma MoreThanOne<N>(s: seq<N>, x: N)
    requires Distinct(s) && x in s
    ensures |s| > 1 <==> exists n :: n in s && n != x
  {
    var i :| 0 <= i < |s| && s[i] == x;
    if |s| > 1 {
      var j := if i == 0 then 1 else 0;
      assert s[j] in s && s[j] != x;
    }
  }

  // ---- One leaf means joined ----

  /** n is a last captured node or leads to one. */
  ghost predicate Joins<N>(g: Dag<N>, last: seq<Option<N>>, n: N) {
    exists l :: l in Nodes(g) && Some(l) in last && Reaches(g, n, l)
  }

  lemma {:induction false} ReachesLeaf<N>(g: Dag<N>, order: seq<N>, i: nat) returns (leaf: N)
    requires WellFormed(g) && Topological(g, order) && i < |order|
    ensures leaf in Nodes(g) && g.edges[leaf] == [] && Reaches(g, order[i], leaf)
    decreases |order| - i
  {
    hide ListsInside, Mirrored, Distinct, Reaches;
    var n := order[i];
    ReachesSelf(g, n);
    if g.edges[n] == [] {
      leaf := n;
    } else {
      var c := g.edges[n][0];
      ChildIn(g, n, c);
      var j :| 0 <= j < |order| && order[j] == c;
      leaf := ReachesLeaf(g, order, j);
      ReachesEdge(g, n, c);
      ReachesThrough(g, n, c, leaf);
    }
  }

  lemma LeafReachesOnlyItself<N>(g: Dag<N>, n: N, l: N)
    requires n in g.edges && g.edges[n] == [] && Reaches(g, n, l)
    ensures n == l
  {
    var k: nat :| Walk(g, n, l, k);
  }

  lemma JoinsFromLeaves<N>(g: Dag<N>, last: seq<Option<N>>, n: N)
    requires WellFormed(g) && Acyclic(g) && n in Nodes(g)
    requires forall m | m in Nodes(g) :: !Loose(g, last, m)
    ensures Joins(g, last, n)
  {
    hide ListsInside, Mirrored, Distinct, Reaches, Acyclic;
    Kahn.KahnCorrect(g);
    var order := Kahn.TopologicalOrder(g);
    var i :| 0 <= i < |order| && order[i] == n;
    var leaf := ReachesLeaf(g, order, i);
    assert !Loose(g, last, leaf);
  }

  /** The leaf count of an acyclic captured graph with the temporary node is one exactly
      when every node is a last captured node or has a path to one. */
  lemma OneLeafIffJoined<N>(g: Dag<N>, temporary: N, last: seq<Option<N>>)
    requires WellFormed(g) && Acyclic(g) && temporary !in Nodes(g) && Attachable(g, last, |last|)
    ensures var h := AddNode(g, temporary, last).g;
            h.edges.Keys == Nodes(h) && (|Leaves(h, |h.vertices|)| == 1
              <==> forall n | n in Nodes(g) :: Joins(g, last, n))
  {
    hide ListsInside, Mirrored, Distinct, Attachable, AddNode, Leaves, Reaches, Acyclic, Joins, Loose;
    TemporaryGraph(g, temporary, last);
    TemporaryLeaves(g, temporary, last);
    var h := AddNode(g, temporary, last).g;
    var leaves := Leaves(h, |h.vertices|);
    MoreThanOne(leaves, temporary);
    if |leaves| == 1 {
      forall n | n in Nodes(g) ensures Joins(g, last, n) {
        JoinsFromLeaves(g, last, n);
      }
    } else {
      var n :| n in leaves && n != temporary;
      LooseDoesNotJoin(g, last, n);
    }
  }

  lemma LooseDoesNotJoin<N>(g: Dag<N>, last: seq<Option<N>>, n: N)
    requires Loose(g, last, n)
    ensures n in Nodes(g) && !Joins(g, last, n)
  {
    hide Reaches;
    forall l | l in Nodes(g) && Some(l) in last ensures !Reaches(g, n, l) {
      if Reaches(g, n, l) {
        LeafReachesOnlyItself(g, n, l);
      }
    }
  }

  // ---- Runs of a capture ----

  /** Every dependency comes earlier in the vertex list. */
  ghost predicate InsertionOrdered<N>(g: Dag<N>) {
    Kahn.Sorted(g, g.vertices)
  }

  lemma InsertionOrderedIsAcyclic<N>(g: Dag<N>)
    requires WellFormed(g) && InsertionOrdered(g)
    ensures Acyclic(g) && Scheduling.ParentFirst(g)
  {
    hide ListsInside, Mirrored, Acyclic;
    Kahn.SortedIsTopological(g, g.vertices);
    Kahn.TopologicalIsAcyclic(g, g.vertices);
    forall j | 0 <= j < |g.vertices| && g.vertices[j] in g.deps && |g.deps[g.vertices[j]]| == 1
      ensures g.deps[g.vertices[j]][0] in g.vertices[..j]
    {
      assert g.deps[g.vertices[j]][0] in g.deps[g.vertices[j]];
    }
  }

  /** Adding a node, successfully or not, keeps dependencies ahead of their nodes. */
  lemma AddInsertionOrdered<N>(g: Dag<N>, n: N, parents: seq<Option<N>>)
    requires WellFormed(g) && InsertionOrdered(g) && n !in Nodes(g) && Some(n) !in parents
    ensures WellFormed(AddNode(g, n, parents).g) && InsertionOrdered(AddNode(g, n, parents).g)
    ensures Nodes(AddNode(g, n, parents).g) == Nodes(g) + {n}
  {
    hide ListsInside, Mirrored, Distinct, Attach, InsertionOrdered, Attachable, Attached;
    FreshHasNoParents(g, n);
    var v := AddVertex(g, n);
    AttachWellFormed(v, n, parents, |parents|);
    var j := AttachStops(v, n, parents, |parents|);
    AttachExact(v, n, parents, j);
    OrderedAttached(g, n, parents, j, Attach(v, n, parents, j).g);
  }

  lemma OrderedAttached<N>(g: Dag<N>, n: N, parents: seq<Option<N>>, k: nat, h: Dag<N>)
    requires WellFormed(g) && InsertionOrdered(g) && n !in Nodes(g) && Some(n) !in parents && k <= |parents|
    requires Attachable(AddVertex(g, n), parents, k) && Attached(AddVertex(g, n), n, parents, k, h)
    ensures InsertionOrdered(h)
  {
    hide WellFormed, Attachable;
    forall i | 0 <= i < |h.vertices| && h.vertices[i] in h.deps
        ensures forall d | d in h.deps[h.vertices[i]] :: d in h.vertices[..i] {
      if i < |g.vertices| {
        assert h.vertices[i] in Nodes(g);
        assert h.vertices[..i] == g.vertices[..i];
      } else {
        assert h.vertices[..i] == g.vertices;
        ParentsBefore(g, n, parents, k);
      }
    }
  }

  lemma ParentsBefore<N>(g: Dag<N>, n: N, parents: seq<Option<N>>, k: nat)
    requires n !in Nodes(g) && Some(n) !in parents && k <= |parents| && Attachable(AddVertex(g, n), parents, k)
    ensures forall d | d in Values(parents[..k]) :: d in g.vertices
  {
    hide Distinct;
    forall d | d in Values(parents[..k]) ensures d in g.vertices {
      var m :| 0 <= m < k && Values(parents[..k])[m] == d;
      assert Known(AddVertex(g, n), parents[m]);
      assert parents[m] in parents && parents[m] == Some(d);
    }
  }

  // ---- The state of a capture ----

  /** A graph under capture: for each stream its last captured nodes and the nodes taken
      out of its dependencies, and for each event the nodes it was recorded after. */
  datatype Capture<N> = Capture(g: Dag<N>, last: map<int, seq<N>>, removed: map<int, seq<N>>, events: map<int, seq<N>>)

  datatype Action<N> =
    | Enqueue(stream: int, node: N)
    | Record(stream: int, event: int)
    | Wait(stream: int, event: int)
    | Update(stream: int, nodes: seq<N>, replace: bool)
    | Manual(node: N, parents: seq<Option<N>>)

  ghost function Lookup<N>(m: map<int, seq<N>>, key: int): seq<N> {
    if key in m then m[key] else []
  }

  ghost function Somes<N>(s: seq<N>): (r: seq<Option<N>>)
    ensures |r| == |s| && forall i | 0 <= i < |s| :: r[i] == Some(s[i])
  {
    seq(|s|, i requires 0 <= i < |s| => Some(s[i]))
  }

  /** Appending the first k of `nodes`, skipping those already in the list. */
  ghost function Merge<N>(last: seq<N>, nodes: seq<N>, k: nat): seq<N>
    requires k <= |nodes|
  {
    if k == 0 then last
    else
      var m := Merge(last, nodes, k - 1);
      if nodes[k - 1] in m then m else m + [nodes[k - 1]]
  }

  /** What AddCrossCapturedNode does to a stream's lists. */
  ghost function Cross<N>(c: Capture<N>, stream: int, nodes: seq<N>, replace: bool): Capture<N> {
    var last := Lookup(c.last, stream);
    if replace then
      c.(last := c.last[stream := Merge([], nodes, |nodes|)],
         removed := c.removed[stream := Lookup(c.removed, stream) + last])
    else c.(last := c.last[stream := Merge(last, nodes, |nodes|)])
  }

  ghost predicate Performable<N>(c: Capture<N>, a: Action<N>) {
    match a
    case Enqueue(_, n) => n !in Nodes(c.g)
    case Manual(n, parents) => n !in Nodes(c.g) && Some(n) !in parents
    case _ => true
  }

  /** One capture action. Nodes handed to Update are checked against the graph first, and an
      event recorded on a stream that remembers nothing keeps what it noted before. */
  ghost function Perform<N>(c: Capture<N>, a: Action<N>): Capture<N>
    requires WellFormed(c.g) && Performable(c, a)
  {
    match a
    case Enqueue(s, n) =>
      var r := AddNode(c.g, n, Somes(Lookup(c.last, s)));
      if r.ok then c.(g := r.g, last := c.last[s := [n]]) else c.(g := r.g)
    case Record(s, e) => if Lookup(c.last, s) == [] then c else c.(events := c.events[e := Lookup(c.last, s)])
    case Wait(s, e) => Cross(c, s, Lookup(c.events, e), false)
    case Update(s, nodes, replace) =>
      if |nodes| <= |c.g.vertices| && forall n | n in nodes :: n in c.g.vertices then Cross(c, s, nodes, replace) else c
    case Manual(n, parents) => c.(g := AddNode(c.g, n, parents).g)
  }

  ghost predicate Listed<N>(g: Dag<N>, s: seq<N>) {
    Distinct(s) && forall n | n in s :: n in Nodes(g)
  }

  /** Lists remembered per stream and event are duplicate-free and inside the graph, and
      dependencies precede their nodes. */
  ghost predicate Capturable<N>(c: Capture<N>) {
    && WellFormed(c.g) && InsertionOrdered(c.g)
    && (forall s | s in c.last :: Listed(c.g, c.last[s]))
    && (forall e | e in c.events :: Listed(c.g, c.events[e]))
  }

  lemma {:induction false} MergeListed<N>(g: Dag<N>, last: seq<N>, nodes: seq<N>, k: nat)
    requires Listed(g, last) && k <= |nodes| && forall n | n in nodes :: n in Nodes(g)
    ensures Listed(g, Merge(last, nodes, k))
    ensures forall n | n in last || n in nodes[..k] :: n in Merge(last, nodes, k)
  {
    if k > 0 {
      MergeListed(g, last, nodes, k - 1);
      assert nodes[..k] == nodes[..k - 1] + [nodes[k - 1]];
    }
  }

  /** Merging appends to the list, and adds exactly the nodes that are not in it. */
  lemma {:induction false} MergeExactly<N>(last: seq<N>, nodes: seq<N>, k: nat)
    requires k <= |nodes|
    ensures last <= Merge(last, nodes, k)
    ensures forall n :: n in Merge(last, nodes, k) <==> n in last || n in nodes[..k]
    ensures Distinct(last) ==> Distinct(Merge(last, nodes, k))
  {
    if k > 0 {
      MergeExactly(last, nodes, k - 1);
      assert nodes[..k] == nodes[..k - 1] + [nodes[k - 1]];
    }
  }

  lemma ListedAttachable<N>(g: Dag<N>, s: seq<N>)
    requires Listed(g, s)
    ensures Attachable(g, Somes(s), |s|)
  {
    assert Somes(s)[..|s|] == Somes(s);
  }

  lemma EnqueueSucceeds<N>(c: Capture<N>, s: int, n: N)
    requires Capturable(c) && n !in Nodes(c.g)
    ensures AddNode(c.g, n, Somes(Lookup(c.last, s))).ok
    ensures Capturable(Perform(c, Enqueue(s, n)))
  {
    hide ListsInside, Mirrored, Distinct, InsertionOrdered, Attachable, Attached, Attach, Listed;
    var last := Lookup(c.last, s);
    LookupListed(c, c.last, s);
    ListedAttachable(c.g, last);
    AttachableMore(c.g, n, Somes(last));
    FreshHasNoParents(c.g, n);
    AttachExact(AddVertex(c.g, n), n, Somes(last), |last|);
    NotAmong(c.g, n, Somes(last));
    AddInsertionOrdered(c.g, n, Somes(last));
    ListedMore(c, AddNode(c.g, n, Somes(last)).g);
    ListedSingle(AddNode(c.g, n, Somes(last)).g, n);
  }

  lemma LookupListed<N>(c: Capture<N>, m: map<int, seq<N>>, key: int)
    requires forall s | s in m :: Listed(c.g, m[s])
    ensures Listed(c.g, Lookup(m, key))
  {
  }

  lemma ListedMore<N>(c: Capture<N>, h: Dag<N>)
    requires Capturable(c) && Nodes(c.g) <= Nodes(h)
    ensures forall s | s in c.last :: Listed(h, c.last[s])
    ensures forall e | e in c.events :: Listed(h, c.events[e])
  {
    hide WellFormed, InsertionOrdered, Distinct;
  }

  lemma ListedSingle<N>(g: Dag<N>, n: N)
    requires n in Nodes(g)
    ensures Listed(g, [n])
  {
  }

  lemma CrossCapturable<N>(c: Capture<N>, s: int, nodes: seq<N>, replace: bool)
    requires Capturable(c) && forall n | n in nodes :: n in Nodes(c.g)
    ensures Capturable(Cross(c, s, nodes, replace))
  {
    hide WellFormed, InsertionOrdered, Distinct;
    LookupListed(c, c.last, s);
    MergeListed(c.g, Lookup(c.last, s), nodes, |nodes|);
    EmptyListed(c.g);
    MergeListed(c.g, [], nodes, |nodes|);
  }

  lemma EmptyListed<N>(g: Dag<N>)
    ensures Listed(g, [])
  {
  }

  lemma PerformCapturable<N>(c: Capture<N>, a: Action<N>)
    requires Capturable(c) && Performable(c, a)
    ensures Capturable(Perform(c, a))
    ensures a.Enqueue? ==> AddNode(c.g, a.node, Somes(Lookup(c.last, a.stream))).ok
  {
    hide WellFormed, InsertionOrdered, Listed, AddNode, Cross;
    match a {
      case Enqueue(s, n) => EnqueueSucceeds(c, s, n);
      case Record(s, e) => LookupListed(c, c.last, s);
      case Wait(s, e) =>
        LookupListed(c, c.events, e);
        ListedInside(c.g, Lookup(c.events, e));
        CrossCapturable(c, s, Lookup(c.events, e), false);
      case Update(s, nodes, replace) =>
        if forall n | n in nodes :: n in c.g.vertices {
          CrossCapturable(c, s, nodes, replace);
        }
      case Manual(n, parents) =>
        AddInsertionOrdered(c.g, n, parents);
        ListedMore(c, AddNode(c.g, n, parents).g);
    }
  }

  lemma ListedInside<N>(g: Dag<N>, s: seq<N>)
    requires Listed(g, s)
    ensures forall n | n in s :: n in Nodes(g)
  {
  }

  ghost predicate Captures<N>(c: Capture<N>, actions: seq<Action<N>>)
    requires Capturable(c)
    decreases |actions|
  {
    actions == [] || (Performable(c, actions[0])
      && (PerformCapturable(c, actions[0]); Captures(Perform(c, actions[0]), actions[1..])))
  }

  ghost function Captured<N>(c: Capture<N>, actions: seq<Action<N>>): Capture<N>
    requires Capturable(c) && Captures(c, actions)
    decreases |actions|
  {
    if actions == [] then c
    else
      PerformCapturable(c, actions[0]);
      Captured(Perform(c, actions[0]), actions[1..])
  }

  /** Over every run of capture actions the captured graph is well-formed and acyclic,
      and single parents come first in it. */
  lemma {:induction false} CaptureAcyclic<N>(c: Capture<N>, actions: seq<Action<N>>)
    requires Capturable(c) && Captures(c, actions)
    ensures var d := Captured(c, actions);
            Capturable(d) && Acyclic(d.g) && Scheduling.ParentFirst(d.g)
    decreases |actions|
  {
    hide WellFormed, InsertionOrdered, Listed, Perform, Acyclic, Scheduling.ParentFirst;
    if actions == [] {
      InsertionOrderedIsAcyclic(c.g);
    } else {
      PerformCapturable(c, actions[0]);
      CaptureAcyclic(Perform(c, actions[0]), actions[1..]);
    }
  }

  /** After any run, the next captured node is never refused its dependencies. */
  lemma CaptureNeverRefuses<N>(c: Capture<N>, actions: seq<Action<N>>, stream: int, n: N)
    requires Capturable(c) && Captures(c, actions) && n !in Nodes(Captured(c, actions).g)
    ensures var d := Captured(c, actions);
            WellFormed(d.g) && AddNode(d.g, n, Somes(Lookup(d.last, stream))).ok
  {
    hide WellFormed, InsertionOrdered, Listed, Perform, AddNode, Acyclic, Scheduling.ParentFirst;
    CaptureAcyclic(c, actions);
    EnqueueSucceeds(Captured(c, actions), stream, n);
  }

  /** A capture starts from an empty graph. */
  lemma CaptureStarts<N>(c: Capture<N>)
    requires c == Capture(Dag([], map[], map[]), map[], map[], map[])
    ensures Capturable(c)
  {
  }
}
