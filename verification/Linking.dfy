/** Exactly which edges the calls that add and remove edges leave behind, in which order, and
    that removing what was added restores the graph. */
module Linking {
  import opened Dags
  import opened Editing
  import opened Capturing

  /** The second members of the first k pairs whose first member is n, in order. */
  ghost function Partners<N>(from: seq<N>, to: seq<N>, k: nat, n: N): seq<N>
    requires k <= |from| == |to|
  {
    if k == 0 then []
    else Partners(from, to, k - 1, n) + if from[k - 1] == n then [to[k - 1]] else []
  }

  lemma {:induction false} PartnersHave<N>(from: seq<N>, to: seq<N>, k: nat, n: N, m: N)
    requires k <= |from| == |to|
    ensures m in Partners(from, to, k, n) <==> exists i :: 0 <= i < k && from[i] == n && to[i] == m
  {
    if k > 0 {
      PartnersHave(from, to, k - 1, n, m);
    }
  }

  /** None of the first k pairs repeats an earlier one. */
  ghost predicate NoRepeats<N>(from: seq<N>, to: seq<N>, k: nat)
    requires k <= |from| == |to|
  {
    forall i, j | 0 <= i < j < k :: from[i] != from[j] || to[i] != to[j]
  }

  /** None of the first k pairs is an edge yet. */
  ghost predicate NoEdges<N>(g: Dag<N>, from: seq<N>, to: seq<N>, k: nat)
    requires k <= |from| == |to|
  {
    forall i | 0 <= i < k && from[i] in g.edges :: to[i] !in g.edges[from[i]]
  }

  /** All of the first k pairs are edges. */
  ghost predicate AllEdges<N>(g: Dag<N>, from: seq<N>, to: seq<N>, k: nat)
    requires k <= |from| == |to|
  {
    forall i | 0 <= i < k :: from[i] in g.edges && to[i] in g.edges[from[i]]
  }

  /** `h` is `g` with the first k pairs as further edges, behind the ones that were there. */
  ghost predicate Linked<N>(g: Dag<N>, from: seq<N>, to: seq<N>, k: nat, h: Dag<N>)
    requires k <= |from| == |to|
  {
    && h.vertices == g.vertices && h.edges.Keys == g.edges.Keys && h.deps.Keys == g.deps.Keys
    && (forall n | n in g.edges :: h.edges[n] == g.edges[n] + Partners(from, to, k, n))
    && forall n | n in g.deps :: h.deps[n] == g.deps[n] + Partners(to, from, k, n)
  }

  /** `h` is `g` without the first k pairs. */
  ghost predicate Unlinked<N>(g: Dag<N>, from: seq<N>, to: seq<N>, k: nat, h: Dag<N>)
    requires k <= |from| == |to|
  {
    && h.vertices == g.vertices && h.edges.Keys == g.edges.Keys && h.deps.Keys == g.deps.Keys
    && (forall n | n in g.edges :: h.edges[n] == Except(g.edges[n], Among(Partners(from, to, k, n))))
    && forall n | n in g.deps :: h.deps[n] == Except(g.deps[n], Among(Partners(to, from, k, n)))
  }

  ghost function Among<N>(s: seq<N>): set<N> {
    set n | n in s
  }

  // ---- Adding ----

  lemma LinkNext<N>(g: Dag<N>, from: seq<N>, to: seq<N>, k: nat, h: Dag<N>)
    requires k < |from| == |to| && Linked(g, from, to, k, h) && from[k] in g.edges && to[k] in g.deps
    ensures Linked(g, from, to, k + 1, AddEdge(h, from[k], to[k]))
  {
    var r := AddEdge(h, from[k], to[k]);
    forall n | n in g.edges ensures r.edges[n] == g.edges[n] + Partners(from, to, k + 1, n) {
      assert g.edges[n] + Partners(from, to, k, n) + [] == g.edges[n] + Partners(from, to, k, n);
    }
    forall n | n in g.deps ensures r.deps[n] == g.deps[n] + Partners(to, from, k + 1, n) {
      assert g.deps[n] + Partners(to, from, k, n) + [] == g.deps[n] + Partners(to, from, k, n);
    }
  }

  lemma LinkStarts<N>(g: Dag<N>, from: seq<N>, to: seq<N>)
    requires |from| == |to|
    ensures Linked(g, from, to, 0, g)
  {
    forall n | n in g.edges ensures g.edges[n] == g.edges[n] + Partners(from, to, 0, n) {
      assert g.edges[n] + [] == g.edges[n];
    }
    forall n | n in g.deps ensures g.deps[n] == g.deps[n] + Partners(to, from, 0, n) {
      assert g.deps[n] + [] == g.deps[n];
    }
  }

  lemma IsLinked<N>(g: Dag<N>, from: seq<N>, to: seq<N>, k: nat, h: Dag<N>)
    requires k < |from| == |to| && Linked(g, from, to, k, h) && from[k] in g.edges
    requires NoRepeats(from, to, k) && NoEdges(g, from, to, k)
    ensures from[k] in h.edges
    ensures to[k] !in h.edges[from[k]] <==> NoRepeats(from, to, k + 1) && NoEdges(g, from, to, k + 1)
  {
    PartnersHave(from, to, k, from[k], to[k]);
  }

  lemma ConnectUnfolds<N>(g: Dag<N>, from: seq<Option<N>>, to: seq<Option<N>>, k: nat)
    requires WellFormed(g) && 0 < k <= |from| == |to| && Connectable(g, from, to)
    ensures from[k - 1].Some? && to[k - 1].Some?
    ensures var r := ConnectUpTo(g, from, to, k - 1); var u, v := from[k - 1].value, to[k - 1].value;
            && u in g.edges && v in g.deps && u in r.g.edges && v in r.g.deps
            && ConnectUpTo(g, from, to, k) ==
               if !r.ok then r
               else if v in r.g.edges[u] then Edited(r.g, false)
               else Edited(AddEdge(r.g, u, v), true)
  {
    hide ListsInside, Mirrored, Distinct, AddEdge;
    assert Known(g, from[k - 1]) && Known(g, to[k - 1]);
  }

  lemma ConnectNone<N>(g: Dag<N>, from: seq<Option<N>>, to: seq<Option<N>>)
    requires WellFormed(g) && |from| == |to| && Connectable(g, from, to)
    ensures ConnectUpTo(g, from, to, 0) == Edited(g, true)
  {
  }

  lemma {:induction false} ConnectLinks<N>(g: Dag<N>, from: seq<Option<N>>, to: seq<Option<N>>, k: nat)
    requires WellFormed(g) && k <= |from| == |to| && Connectable(g, from, to)
    requires (forall i | 0 <= i < |from| :: from[i].Some?) && forall i | 0 <= i < |to| :: to[i].Some?
    ensures var r := ConnectUpTo(g, from, to, k); var us, vs := Values(from), Values(to);
            && (r.ok <==> NoRepeats(us, vs, k) && NoEdges(g, us, vs, k))
            && (r.ok ==> Linked(g, us, vs, k, r.g))
  {
    hide *;
    var us, vs := Values(from), Values(to);
    if k == 0 {
      ConnectNone(g, from, to);
      LinkStarts(g, us, vs);
      NoPairs(g, us, vs);
    } else {
      ConnectLinks(g, from, to, k - 1);
      var r := ConnectUpTo(g, from, to, k - 1);
      ConnectUnfolds(g, from, to, k);
      if r.ok {
        IsLinked(g, us, vs, k - 1, r.g);
        LinkNext(g, us, vs, k - 1, r.g);
      } else {
        FewerPairs(g, us, vs, k - 1, k);
      }
    }
  }

  lemma NoPairs<N>(g: Dag<N>, from: seq<N>, to: seq<N>)
    requires |from| == |to|
    ensures NoRepeats(from, to, 0) && NoEdges(g, from, to, 0) && AllEdges(g, from, to, 0)
  {
  }

  lemma FewerPairs<N>(g: Dag<N>, from: seq<N>, to: seq<N>, j: nat, k: nat)
    requires j <= k <= |from| == |to|
    ensures NoRepeats(from, to, k) ==> NoRepeats(from, to, j)
    ensures NoEdges(g, from, to, k) ==> NoEdges(g, from, to, j)
    ensures AllEdges(g, from, to, k) ==> AllEdges(g, from, to, j)
  {
  }

  /** The call succeeds exactly when every pair names two different nodes of the graph, none is
      an edge and none is repeated. It adds nothing at all if a pair does not name two different
      nodes, and otherwise exactly the pairs before the first that is an edge or repeated, each
      behind the edges and dependencies that were there. */
  lemma ConnectExactly<N>(g: Dag<N>, from: seq<Option<N>>, to: seq<Option<N>>) returns (k: nat)
    requires WellFormed(g) && |from| == |to|
    ensures var r := Connect(g, from, to);
            var valid := forall i | 0 <= i < |from| ::
                           from[i].Some? && from[i].value in g.vertices && to[i].Some? && to[i].value in g.vertices
                           && from[i] != to[i];
            && (!valid ==> r == Edited(g, false))
            && (valid ==> var us, vs := Values(from), Values(to);
                  && k <= |us| == |vs| && (r.ok <==> k == |us|)
                  && NoRepeats(us, vs, k) && NoEdges(g, us, vs, k) && Linked(g, us, vs, k, r.g)
                  && (k < |us| ==> !NoRepeats(us, vs, k + 1) || !NoEdges(g, us, vs, k + 1)))
  {
    hide ListsInside, Mirrored, Distinct, Linked, NoRepeats, NoEdges, ConnectUpTo;
    k := 0;
    if Connectable(g, from, to) {
      forall i | 0 <= i < |from| ensures Known(g, from[i]) && Known(g, to[i]) {
      }
      k := ConnectStops(g, from, to, |from|);
    } else {
      var i :| 0 <= i < |from| && !(Known(g, from[i]) && Known(g, to[i]) && from[i] != to[i]);
    }
  }

  /** Where adding the first k edges stops. */
  lemma {:induction false} ConnectStops<N>(g: Dag<N>, from: seq<Option<N>>, to: seq<Option<N>>, k: nat) returns (j: nat)
    requires WellFormed(g) && k <= |from| == |to| && Connectable(g, from, to)
    requires (forall i | 0 <= i < |from| :: from[i].Some?) && forall i | 0 <= i < |to| :: to[i].Some?
    ensures var r := ConnectUpTo(g, from, to, k); var us, vs := Values(from), Values(to);
            && j <= k && (r.ok <==> j == k) && Linked(g, us, vs, j, r.g)
            && NoRepeats(us, vs, j) && NoEdges(g, us, vs, j)
            && (j < k ==> !NoRepeats(us, vs, j + 1) || !NoEdges(g, us, vs, j + 1))
  {
    hide *;
    var us, vs := Values(from), Values(to);
    ConnectLinks(g, from, to, k);
    if k == 0 {
      ConnectNone(g, from, to);
      j := 0;
    } else if ConnectUpTo(g, from, to, k).ok {
      j := k;
    } else {
      j := ConnectStops(g, from, to, k - 1);
      ConnectUnfolds(g, from, to, k);
      if j == k - 1 {
        var r := ConnectUpTo(g, from, to, k - 1);
        IsLinked(g, us, vs, k - 1, r.g);
      }
    }
  }

  // ---- Removing ----

  lemma UnlinkNext<N>(g: Dag<N>, from: seq<N>, to: seq<N>, k: nat, h: Dag<N>)
    requires k < |from| == |to| && Unlinked(g, from, to, k, h) && from[k] in g.edges && to[k] in g.deps
    ensures Unlinked(g, from, to, k + 1, RemoveEdge(h, from[k], to[k]))
  {
    hide Except, Erase, Partners;
    var r := RemoveEdge(h, from[k], to[k]);
    forall n | n in g.edges
      ensures r.edges[n] == Except(g.edges[n], Among(Partners(from, to, k + 1, n)))
    {
      AmongNext(from, to, k, n);
      if n == from[k] {
        ExceptErase(g.edges[n], Among(Partners(from, to, k, n)), to[k]);
      }
    }
    forall n | n in g.deps
      ensures r.deps[n] == Except(g.deps[n], Among(Partners(to, from, k + 1, n)))
    {
      AmongNext(to, from, k, n);
      if n == to[k] {
        ExceptErase(g.deps[n], Among(Partners(to, from, k, n)), from[k]);
      }
    }
  }

  lemma AmongNext<N>(from: seq<N>, to: seq<N>, k: nat, n: N)
    requires k < |from| == |to|
    ensures Among(Partners(from, to, k + 1, n)) ==
            if from[k] == n then Among(Partners(from, to, k, n)) + {to[k]} else Among(Partners(from, to, k, n))
  {
  }

  lemma UnlinkStarts<N>(g: Dag<N>, from: seq<N>, to: seq<N>)
    requires |from| == |to|
    ensures Unlinked(g, from, to, 0, g)
  {
    hide Except;
    forall n | n in g.edges ensures g.edges[n] == Except(g.edges[n], Among(Partners(from, to, 0, n))) {
      NoneAmong(from, to, n);
      ExceptNone(g.edges[n]);
    }
    forall n | n in g.deps ensures g.deps[n] == Except(g.deps[n], Among(Partners(to, from, 0, n))) {
      NoneAmong(to, from, n);
      ExceptNone(g.deps[n]);
    }
  }

  lemma NoneAmong<N>(from: seq<N>, to: seq<N>, n: N)
    requires |from| == |to|
    ensures Among(Partners(from, to, 0, n)) == {}
  {
  }

  lemma IsUnlinked<N>(g: Dag<N>, from: seq<N>, to: seq<N>, k: nat, h: Dag<N>)
    requires WellFormed(g) && k < |from| == |to| && Unlinked(g, from, to, k, h)
    requires NoRepeats(from, to, k) && AllEdges(g, from, to, k)
    ensures h.edges.Keys == g.edges.Keys == Nodes(g)
    ensures from[k] in g.edges && to[k] in h.edges[from[k]] <==>
            NoRepeats(from, to, k + 1) && AllEdges(g, from, to, k + 1)
  {
    hide Mirrored, Except, Partners;
    if from[k] in g.edges {
      ExceptExact(g.edges[from[k]], Among(Partners(from, to, k, from[k])));
      PartnersHave(from, to, k, from[k], to[k]);
    }
  }

  lemma DisconnectNone<N>(g: Dag<N>, from: seq<N>, to: seq<N>)
    requires WellFormed(g) && |from| == |to|
    ensures Disconnect(g, from, to, 0) == Edited(g, true)
  {
  }

  lemma {:induction false} DisconnectUnlinks<N>(g: Dag<N>, from: seq<N>, to: seq<N>, k: nat) returns (j: nat)
    requires WellFormed(g) && k <= |from| == |to|
    ensures var r := Disconnect(g, from, to, k);
            && j <= k && (r.ok <==> j == k) && Unlinked(g, from, to, j, r.g)
            && NoRepeats(from, to, j) && AllEdges(g, from, to, j)
            && (j < k ==> !NoRepeats(from, to, j + 1) || !AllEdges(g, from, to, j + 1))
  {
    hide *;
    if k == 0 {
      j := 0;
      DisconnectNone(g, from, to);
      UnlinkStarts(g, from, to);
      NoPairs(g, from, to);
    } else {
      j := DisconnectUnlinks(g, from, to, k - 1);
      var r := Disconnect(g, from, to, k - 1);
      DisconnectUnfolds(g, from, to, k);
      WellFormedKeys(g);
      if j == k - 1 {
        var u, v := from[k - 1], to[k - 1];
        IsUnlinked(g, from, to, k - 1, r.g);
        EdgeInside(g, from, to, k - 1, r.g);
        if u in Nodes(g) && v in Nodes(g) && v in r.g.edges[u] {
          UnlinkNext(g, from, to, k - 1, r.g);
          j := k;
        }
      }
    }
  }

  /** What is still an edge leads to a node of the graph. */
  lemma EdgeInside<N>(g: Dag<N>, from: seq<N>, to: seq<N>, k: nat, h: Dag<N>)
    requires WellFormed(g) && k < |from| == |to| && Unlinked(g, from, to, k, h)
    ensures from[k] in g.edges && to[k] in h.edges[from[k]] ==> to[k] in Nodes(g)
  {
    hide Mirrored, Except, Partners;
    if from[k] in g.edges {
      ExceptExact(g.edges[from[k]], Among(Partners(from, to, k, from[k])));
    }
  }

  /** The call succeeds exactly when every pair is an edge and none is repeated. It removes
      exactly the pairs before the first that is no edge or repeated; what is left of every list
      keeps its order. */
  lemma DisconnectExactly<N>(g: Dag<N>, from: seq<N>, to: seq<N>) returns (k: nat)
    requires WellFormed(g) && |from| == |to|
    ensures var r := Disconnect(g, from, to, |from|);
            && k <= |from| && (r.ok <==> k == |from|) && Unlinked(g, from, to, k, r.g)
            && NoRepeats(from, to, k) && AllEdges(g, from, to, k)
            && (k < |from| ==> !NoRepeats(from, to, k + 1) || !AllEdges(g, from, to, k + 1))
  {
    hide *;
    k := DisconnectUnlinks(g, from, to, |from|);
  }

  // ---- Removing what was added ----

  lemma {:induction false} ExceptAdded<N>(s: seq<N>, added: seq<N>, out: set<N>)
    requires (forall n | n in s :: n !in out) && forall n | n in added :: n in out
    ensures Except(s + added, out) == s
  {
    if s == [] {
      assert s + added == added;
      ExceptAll(added, out);
    } else {
      assert (s + added)[1..] == s[1..] + added;
      ExceptAdded(s[1..], added, out);
      assert s == [s[0]] + s[1..];
    }
  }

  lemma {:induction false} ExceptAll<N>(s: seq<N>, out: set<N>)
    requires forall n | n in s :: n in out
    ensures Except(s, out) == []
  {
    if s != [] {
      ExceptAll(s[1..], out);
    }
  }

  /** Edges that a successful call added can be removed again, and the graph is then as it was,
      down to the order of its lists. */
  lemma DisconnectRestores<N>(g: Dag<N>, from: seq<Option<N>>, to: seq<Option<N>>)
    requires WellFormed(g) && |from| == |to| && Connect(g, from, to).ok
    ensures (forall i | 0 <= i < |from| :: from[i].Some?) && forall i | 0 <= i < |to| :: to[i].Some?
    ensures var h := Connect(g, from, to).g;
            WellFormed(h) && Disconnect(h, Values(from), Values(to), |from|) == Edited(g, true)
  {
    hide WellFormed, Linked, Unlinked, NoRepeats, NoEdges, AllEdges, ConnectUpTo, Disconnect;
    var k := ConnectExactly(g, from, to);
    forall i | 0 <= i < |from| ensures Known(g, from[i]) && Known(g, to[i]) {
    }
    ConnectWellFormed(g, from, to, |from|);
    var us, vs := Values(from), Values(to);
    var h := Connect(g, from, to).g;
    var j := DisconnectExactly(h, us, vs);
    WellFormedKeys(g);
    LinkedEdges(g, us, vs, h);
    FewerPairs(h, us, vs, if j < |us| then j + 1 else j, |us|);
    UnlinkLinked(g, us, vs, h, Disconnect(h, us, vs, |us|).g);
  }

  lemma LinkedEdges<N>(g: Dag<N>, from: seq<N>, to: seq<N>, h: Dag<N>)
    requires |from| == |to| && Linked(g, from, to, |from|, h)
    requires forall i | 0 <= i < |from| :: from[i] in g.edges
    ensures AllEdges(h, from, to, |from|)
  {
    forall i | 0 <= i < |from| ensures to[i] in h.edges[from[i]] {
      PartnersHave(from, to, |from|, from[i], to[i]);
    }
  }

  lemma UnlinkLinked<N>(g: Dag<N>, from: seq<N>, to: seq<N>, h: Dag<N>, r: Dag<N>)
    requires WellFormed(g) && |from| == |to| && Linked(g, from, to, |from|, h) && Unlinked(h, from, to, |from|, r)
    requires NoEdges(g, from, to, |from|)
    requires forall i | 0 <= i < |from| :: from[i] in g.vertices && to[i] in g.vertices
    ensures r == g
  {
    hide ListsInside, Mirrored, Distinct, Except, Partners, NoEdges;
    var k := |from|;
    forall n | n in g.edges ensures r.edges[n] == g.edges[n] {
      NotPartners(g, from, to, n);
      ExceptAdded(g.edges[n], Partners(from, to, k, n), Among(Partners(from, to, k, n)));
    }
    forall n | n in g.deps ensures r.deps[n] == g.deps[n] {
      NotPartners(g, from, to, n);
      ExceptAdded(g.deps[n], Partners(to, from, k, n), Among(Partners(to, from, k, n)));
    }
  }

  lemma NotPartners<N>(g: Dag<N>, from: seq<N>, to: seq<N>, n: N)
    requires WellFormed(g) && |from| == |to| && NoEdges(g, from, to, |from|) && n in Nodes(g)
    ensures forall m | m in g.edges[n] :: m !in Partners(from, to, |from|, n)
    ensures forall m | m in g.deps[n] :: m !in Partners(to, from, |from|, n)
  {
    hide ListsInside, Mirrored, Distinct, Partners;
    forall m | m in g.edges[n] ensures m !in Partners(from, to, |from|, n) {
      PartnersHave(from, to, |from|, n, m);
    }
    forall m | m in g.deps[n] ensures m !in Partners(to, from, |from|, n) {
      DepIn(g, n, m);
      PartnersHave(to, from, |from|, n, m);
    }
  }
}
