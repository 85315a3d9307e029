/** In which order the scheduler comes to the nodes, and how that order alone decides every
    stream and every signal. */
module Visiting {
  import opened Arithmetic
  import opened Dags
  import opened Scheduling

  ghost predicate Precedes<N>(order: seq<N>, a: N, b: N) {
    exists i, j :: 0 <= i < j < |order| && order[i] == a && order[j] == b
  }

  /** `order` lists the scheduled nodes. */
  ghost predicate Lists<N>(s: Schedule<N>, order: seq<N>) {
    && Distinct(order) && (forall n | n in order :: n in s.stream)
    && forall n | n in s.stream :: s.stream[n] != -1 <==> n in order
  }

  /** u must signal its child v: they are on different streams, or v was visited first. */
  ghost predicate Signals<N>(s: Schedule<N>, order: seq<N>, u: N, v: N) {
    v in order && v in s.stream && u in s.stream && (s.stream[u] != s.stream[v] || Precedes(order, v, u))
  }

  ghost predicate SignalsExactly<N>(g: Dag<N>, s: Schedule<N>, order: seq<N>) {
    forall u | u in g.edges :: u in s.signals <==> exists v :: v in g.edges[u] && Signals(s, order, u, v)
  }

  // ---- One node after the other ----

  /** Every child of the nodes at positions j to k of `order` is in its first k nodes. */
  ghost predicate DoneBetween<N>(g: Dag<N>, order: seq<N>, j: int, k: int) {
    0 <= k <= |order| && forall l | 0 <= j <= l < k && order[l] in g.edges ::
      forall c | c in g.edges[order[l]] :: c in order[..k]
  }

  /** The node at position m is the first child still to be visited of the latest node that
      has one, and its place among the children gives it its stream. */
  ghost predicate AfterParent<N>(g: Dag<N>, q: nat, stream: map<N, int>, order: seq<N>, m: nat, j: nat, i: nat)
    requires q >= 1
  {
    && j < m < |order| && order[j] in g.edges && i < |g.edges[order[j]]| && g.edges[order[j]][i] == order[m]
    && (forall k | 0 <= k < i :: g.edges[order[j]][k] in order[..m])
    && DoneBetween(g, order, j + 1, m)
    && order[j] in stream && order[m] in stream && stream[order[j]] >= 0
    && stream[order[m]] == (stream[order[j]] + i) % q
  }

  ghost predicate AsChild<N>(g: Dag<N>, q: nat, stream: map<N, int>, order: seq<N>, m: nat)
    requires q >= 1
  {
    exists j: nat, i: nat :: j < m && AfterParent(g, q, stream, order, m, j, i)
  }

  /** No visited node has a child left, and the node at position m is the first vertex left. It is
      the t-th node visited in this way, and t gives it its stream. */
  ghost predicate AsVertex<N>(g: Dag<N>, q: nat, stream: map<N, int>, order: seq<N>, m: nat, t: nat)
    requires q >= 1
  {
    && m < |order| && DoneBetween(g, order, 0, m)
    && (exists k :: 0 <= k < |g.vertices| && g.vertices[k] == order[m] && forall l | 0 <= l < k ::
          g.vertices[l] in order[..m])
    && order[m] in stream && stream[order[m]] == t % q
  }

  /** How the visits begun at position `from` came about. */
  ghost predicate AllChildren<N>(g: Dag<N>, q: nat, stream: map<N, int>, order: seq<N>, from: nat)
    requires q >= 1
  {
    forall m: nat | from <= m < |order| :: AsChild(g, q, stream, order, m)
  }

  lemma AfterParentStays<N>(g: Dag<N>, q: nat, s: map<N, int>, order: seq<N>, t: map<N, int>, longer: seq<N>, m: nat,
                            j: nat, i: nat)
    requires q >= 1 && order <= longer && (forall n | n in order :: n in s && n in t && t[n] == s[n])
    requires AfterParent(g, q, s, order, m, j, i)
    ensures AfterParent(g, q, t, longer, m, j, i)
  {
    assert longer[..m] == order[..m];
  }

  lemma AsChildStays<N>(g: Dag<N>, q: nat, s: map<N, int>, order: seq<N>, t: map<N, int>, longer: seq<N>, m: nat)
    requires q >= 1 && order <= longer && (forall n | n in order :: n in s && n in t && t[n] == s[n])
    requires AsChild(g, q, s, order, m)
    ensures AsChild(g, q, t, longer, m)
  {
    hide AfterParent;
    var j: nat, i: nat :| j < m && AfterParent(g, q, s, order, m, j, i);
    AfterParentStays(g, q, s, order, t, longer, m, j, i);
  }

  lemma AsVertexStays<N>(g: Dag<N>, q: nat, s: map<N, int>, order: seq<N>, t: map<N, int>, longer: seq<N>, m: nat,
                         k: nat)
    requires q >= 1 && order <= longer && (forall n | n in order :: n in s && n in t && t[n] == s[n])
    requires AsVertex(g, q, s, order, m, k)
    ensures AsVertex(g, q, t, longer, m, k)
  {
    assert longer[..m] == order[..m];
  }

  /** The state of the visits: which nodes, which signals. */
  ghost predicate Visited<N>(g: Dag<N>, s: Schedule<N>, order: seq<N>) {
    Lists(s, order) && SignalsExactly(g, s, order)
  }

  lemma PrecedesSnoc<N>(order: seq<N>, n: N, a: N, b: N)
    ensures Precedes(order + [n], a, b) <==> Precedes(order, a, b) || (b == n && a in order)
  {
    var longer := order + [n];
    if Precedes(order, a, b) {
      var i, j :| 0 <= i < j < |order| && order[i] == a && order[j] == b;
      assert longer[i] == a && longer[j] == b;
    }
    if b == n && a in order {
      var i :| 0 <= i < |order| && order[i] == a;
      assert longer[i] == a && longer[|order|] == b;
    }
  }

  /** Giving a node its stream adds a signal exactly to the parents on other streams or on none. */
  lemma AssignVisits<N>(g: Dag<N>, q: nat, s: Schedule<N>, node: N, id: nat, order: seq<N>)
    requires WellFormed(g) && Sized(g, q, s) && node in Nodes(g) && id < q && s.stream[node] == -1
    requires Visited(g, s, order)
    ensures Visited(g, Assign(g, s, node, id), order + [node])
  {
    hide ListsInside, Distinct, Precedes;
    var t := Assign(g, s, node, id);
    AssignLists(g, q, s, node, id, order);
    forall u | u in g.edges
      ensures u in t.signals <==> exists v :: v in g.edges[u] && Signals(t, order + [node], u, v)
    {
      SignalAssigned(g, q, s, node, id, order, u);
    }
  }

  lemma AssignLists<N>(g: Dag<N>, q: nat, s: Schedule<N>, node: N, id: nat, order: seq<N>)
    requires WellFormed(g) && Sized(g, q, s) && node in Nodes(g) && id < q && s.stream[node] == -1
    requires Lists(s, order)
    ensures Lists(Assign(g, s, node, id), order + [node])
  {
    hide ListsInside, Mirrored;
  }

  lemma SignalAssigned<N>(g: Dag<N>, q: nat, s: Schedule<N>, node: N, id: nat, order: seq<N>, u: N)
    requires WellFormed(g) && Sized(g, q, s) && node in Nodes(g) && id < q && s.stream[node] == -1
    requires Visited(g, s, order) && u in g.edges
    ensures var t := Assign(g, s, node, id);
            u in t.signals <==> exists v :: v in g.edges[u] && Signals(t, order + [node], u, v)
  {
    hide ListsInside, Distinct, Precedes;
    var t := Assign(g, s, node, id);
    var longer := order + [node];
    forall v | v in g.edges[u] ensures Signals(t, longer, u, v) <==>
        Signals(s, order, u, v) || (v == node && t.stream[u] != id)
    {
      SignalKept(g, q, s, node, id, order, u, v);
    }
    assert u in t.signals <==> u in s.signals || (node in g.edges[u] && t.stream[u] != id);
  }

  lemma SignalKept<N>(g: Dag<N>, q: nat, s: Schedule<N>, node: N, id: nat, order: seq<N>, u: N, v: N)
    requires WellFormed(g) && Sized(g, q, s) && node in Nodes(g) && id < q && s.stream[node] == -1
    requires Lists(s, order) && u in g.edges && v in g.edges[u]
    ensures var t := Assign(g, s, node, id);
            Signals(t, order + [node], u, v) <==> Signals(s, order, u, v) || (v == node && t.stream[u] != id)
  {
    hide ListsInside, Mirrored, Distinct, Precedes;
    PrecedesSnoc(order, node, v, u);
    PrecedesListed(order, v, u);
  }

  lemma PrecedesListed<N>(order: seq<N>, a: N, b: N)
    ensures Precedes(order, a, b) ==> a in order && b in order
  {
  }

  // ---- The recursion ----

  lemma DonePrefix<N>(g: Dag<N>, order: seq<N>, longer: seq<N>, j: nat, k: nat)
    requires order <= longer && DoneBetween(g, order, j, k)
    ensures DoneBetween(g, longer, j, k)
  {
    assert longer[..k] == order[..k];
  }

  lemma DoneGrows<N>(g: Dag<N>, order: seq<N>, longer: seq<N>, j: nat)
    requires order <= longer && DoneBetween(g, order, j, |order|) && DoneBetween(g, longer, |order|, |longer|)
    ensures DoneBetween(g, longer, j, |longer|)
  {
    assert order[..|order|] == order && longer[..|longer|] == longer;
    forall l, c | j <= l < |longer| && longer[l] in g.edges && c in g.edges[longer[l]] ensures c in longer[..|longer|] {
      if l < |order| {
        assert order[l] == longer[l];
        assert c in order;
      }
    }
  }

  lemma DoneWith<N>(g: Dag<N>, order: seq<N>, j: nat)
    requires j < |order| && order[j] in g.edges && DoneBetween(g, order, j + 1, |order|)
    requires forall k | 0 <= k < |g.edges[order[j]]| :: g.edges[order[j]][k] in order
    ensures DoneBetween(g, order, j, |order|)
  {
    assert order[..|order|] == order;
  }

  lemma ChildrenGrow<N>(g: Dag<N>, q: nat, s: map<N, int>, order: seq<N>, t: map<N, int>, longer: seq<N>, from: nat)
    requires q >= 1 && order <= longer && (forall n | n in order :: n in s && n in t && t[n] == s[n])
    requires AllChildren(g, q, s, order, from) && AllChildren(g, q, t, longer, |order|)
    ensures AllChildren(g, q, t, longer, from)
  {
    hide AsChild;
    forall m: nat | from <= m < |order| ensures AsChild(g, q, t, longer, m) {
      AsChildStays(g, q, s, order, t, longer, m);
    }
  }

  /** The next child of a node is visited after it. */
  lemma ChildVisited<N>(g: Dag<N>, q: nat, s: Schedule<N>, order: seq<N>, t: Schedule<N>, longer: seq<N>, j: nat,
                          i: nat)
    requires q >= 1 && j < |order| && order[j] in g.edges && i < |g.edges[order[j]]|
    requires (forall k | 0 <= k < i :: g.edges[order[j]][k] in order) && DoneBetween(g, order, j + 1, |order|)
    requires order + [g.edges[order[j]][i]] <= longer && Lists(s, order) && Later(g, s, t)
    requires g.edges[order[j]][i] in t.stream && s.stream[order[j]] >= 0
    requires t.stream[g.edges[order[j]][i]] == Dealt(s.stream[order[j]], i, q)
    requires AllChildren(g, q, t.stream, longer, |order| + 1)
    ensures AllChildren(g, q, t.stream, longer, |order|)
  {
    hide AsChild, Distinct;
    assert longer[..|order|] == order;
    DonePrefix(g, order, longer, j + 1, |order|);
    assert AfterParent(g, q, t.stream, longer, |order|, j, i);
    assert AsChild(g, q, t.stream, longer, |order|) by {
      AsChildOf(g, q, t.stream, longer, |order|, j, i);
    }
  }

  lemma AsChildOf<N>(g: Dag<N>, q: nat, stream: map<N, int>, order: seq<N>, m: nat, j: nat, i: nat)
    requires q >= 1 && AfterParent(g, q, stream, order, m, j, i)
    ensures AsChild(g, q, stream, order, m)
  {
  }

  lemma ListedStay<N>(g: Dag<N>, s: Schedule<N>, t: Schedule<N>, order: seq<N>)
    requires Lists(s, order) && Later(g, s, t)
    ensures forall n | n in order :: n in s.stream && n in t.stream && t.stream[n] == s.stream[n]
  {
  }

  lemma {:induction false} OneVisits<N>(g: Dag<N>, q: nat, s: Schedule<N>, node: N, id: nat, order: seq<N>)
    returns (longer: seq<N>)
    requires WellFormed(g) && Sized(g, q, s) && node in Nodes(g) && id < q
    requires Coherent(g, s) && Visited(g, s, order)
    ensures var t := ScheduleOne(g, q, s, node, id);
            && Visited(g, t, longer)
            && if node in order then longer == order && t == s
               else
                 && order + [node] <= longer && t.stream[node] == id
                 && AllChildren(g, q, t.stream, longer, |order| + 1) && DoneBetween(g, longer, |order|, |longer|)
    decreases Unassigned(s), 0
  {
    hide ListsInside, Mirrored, Distinct, Coherent, SignalsExactly, Unassigned, AllChildren, DoneBetween, Later,
      Untouched, Assign;
    OneUnfolds(g, q, s, node, id);
    if s.stream[node] != -1 {
      longer := order;
    } else {
      var t := Assign(g, s, node, id);
      AssignVisits(g, q, s, node, id, order);
      AssignCoherent(g, q, s, node, id);
      AssignedAt(g, s, node, id);
      DealtRound(id, 0, q);
      NothingBetween(g, order + [node]);
      longer := EdgesVisits(g, q, t, node, 0, id, order + [node], |order|);
      EdgesCoherent(g, q, t, node, 0, id);
      StaysAssigned(g, t, ScheduleEdges(g, q, t, node, 0, id), node);
    }
  }

  lemma AssignedAt<N>(g: Dag<N>, s: Schedule<N>, node: N, id: nat)
    requires node in g.deps
    ensures var t := Assign(g, s, node, id); node in t.stream && t.stream[node] == id
  {
  }

  lemma StaysAssigned<N>(g: Dag<N>, s: Schedule<N>, t: Schedule<N>, node: N)
    requires Later(g, s, t) && node in s.stream && s.stream[node] != -1
    ensures node in t.stream && t.stream[node] == s.stream[node]
  {
  }

  lemma NothingBetween<N>(g: Dag<N>, order: seq<N>)
    ensures DoneBetween(g, order, |order|, |order|)
  {
  }

  lemma NothingVisited<N>(g: Dag<N>, q: nat, stream: map<N, int>, order: seq<N>)
    requires q >= 1
    ensures AllChildren(g, q, stream, order, |order|)
  {
  }

  lemma ListsKnown<N>(g: Dag<N>, q: nat, s: Schedule<N>, node: N, order: seq<N>)
    requires WellFormed(g) && Sized(g, q, s) && node in Nodes(g) && Visited(g, s, order)
    ensures g.edges.Keys == Nodes(g) == s.stream.Keys && q >= 1 && Lists(s, order)
  {
    hide ListsInside, Mirrored, Distinct, SignalsExactly;
  }

  lemma {:induction false} EdgesVisits<N>(g: Dag<N>, q: nat, s: Schedule<N>, node: N, i: nat, id: nat, order: seq<N>,
                                          j: nat)
    returns (longer: seq<N>)
    requires WellFormed(g) && Sized(g, q, s) && node in Nodes(g) && i <= |g.edges[node]| && id < q
    requires Coherent(g, s) && Visited(g, s, order) && j < |order| && order[j] == node
    requires s.stream[node] >= 0 && id == Dealt(s.stream[node], i, q)
    requires (forall k | 0 <= k < i :: g.edges[node][k] in order) && DoneBetween(g, order, j + 1, |order|)
    ensures var t := ScheduleEdges(g, q, s, node, i, id);
            && order <= longer && Visited(g, t, longer)
            && AllChildren(g, q, t.stream, longer, |order|) && DoneBetween(g, longer, j, |longer|)
    decreases Unassigned(s), |g.edges[node]| - i + 1
  {
    hide *;
    ListsKnown(g, q, s, node, order);
    EdgesUnfold(g, q, s, node, i, id);
    if i == |g.edges[node]| {
      longer := order;
      DoneWith(g, order, j);
      NothingVisited(g, q, s.stream, order);
    } else {
      var child := g.edges[node][i];
      var t := ScheduleOne(g, q, s, child, id);
      var mid := OneVisits(g, q, s, child, id, order);
      OneCoherent(g, q, s, child, id);
      ListedStay(g, s, t, order);
      ListsKnown(g, q, t, child, mid);
      DealtNext(s.stream[node], i, q);
      if child !in order {
        assert order + [child] <= mid && mid[|order|] == child;
        ChildVisited(g, q, s, order, t, mid, j, i);
        DoneGrows(g, order, mid, j + 1);
      } else {
        NothingVisited(g, q, t.stream, mid);
      }
      assert child in mid && forall k | 0 <= k < i :: g.edges[node][k] in mid;
      longer := EdgesVisits(g, q, t, node, i + 1, NextStream(id, q), mid, j);
      EdgesCoherent(g, q, t, node, i + 1, NextStream(id, q));
      var r := ScheduleEdges(g, q, t, node, i + 1, NextStream(id, q));
      ListedStay(g, t, r, mid);
      ChildrenGrow(g, q, t.stream, mid, r.stream, longer, |order|);
    }
  }

  // ---- The vertex loop ----

  /** Every visit came about in one of the two ways: `starts` are the positions of the nodes
      taken from the vertex list, in order, and every other node was visited as a child. */
  ghost predicate Placed<N>(g: Dag<N>, q: nat, stream: map<N, int>, order: seq<N>, starts: seq<nat>)
    requires q >= 1
  {
    && (forall t, t' | 0 <= t < t' < |starts| :: starts[t] < starts[t'])
    && (forall t: nat | t < |starts| :: AsVertex(g, q, stream, order, starts[t], t))
    && forall m: nat | m < |order| :: m in starts || AsChild(g, q, stream, order, m)
  }

  /** The first k vertices and all children of visited nodes are visited. */
  ghost predicate Reached<N>(g: Dag<N>, order: seq<N>, k: nat) {
    k <= |g.vertices| && DoneBetween(g, order, 0, |order|) && forall l | 0 <= l < k :: g.vertices[l] in order
  }

  /** A vertex taken from the list, and everything visited from it. */
  lemma PlacedNext<N>(g: Dag<N>, q: nat, s: map<N, int>, order: seq<N>, starts: seq<nat>, t: map<N, int>,
                      longer: seq<N>, k: nat)
    requires q >= 1 && k < |g.vertices| && Placed(g, q, s, order, starts) && Reached(g, order, k)
    requires g.vertices[k] !in order && order + [g.vertices[k]] <= longer
    requires (forall n | n in order :: n in s && n in t && t[n] == s[n])
    requires g.vertices[k] in t && t[g.vertices[k]] == |starts| % q
    requires AllChildren(g, q, t, longer, |order| + 1) && DoneBetween(g, longer, |order|, |longer|)
    ensures Placed(g, q, t, longer, starts + [|order|]) && Reached(g, longer, k + 1)
  {
    hide AsChild, DoneBetween;
    var next := starts + [|order|];
    forall i: nat | i < |next| ensures AsVertex(g, q, t, longer, next[i], i) {
      if i < |starts| {
        assert AsVertex(g, q, s, order, starts[i], i);
        AsVertexStays(g, q, s, order, t, longer, starts[i], i);
      } else {
        TakenNext(g, q, t, order, longer, k, |starts|);
      }
    }
    forall m: nat | m < |longer| ensures m in next || AsChild(g, q, t, longer, m) {
      if m < |order| && m !in starts {
        AsChildStays(g, q, s, order, t, longer, m);
      } else if m < |order| {
        InLonger(starts, [|order|], m);
      } else if m == |order| {
        assert next[|starts|] == m;
      }
    }
    forall i | 0 <= i < |starts| ensures starts[i] < |order| {
      assert AsVertex(g, q, s, order, starts[i], i);
    }
    DoneGrows(g, order, longer, 0);
    assert longer[|order|] == g.vertices[k];
    forall l | 0 <= l < k ensures g.vertices[l] in longer {
      InPrefix(order, longer, g.vertices[l]);
    }
  }

  lemma InLonger<T>(a: seq<T>, b: seq<T>, x: T)
    requires x in a
    ensures x in a + b
  {
  }

  lemma InPrefix<T>(a: seq<T>, b: seq<T>, x: T)
    requires x in a && a <= b
    ensures x in b
  {
    var i :| 0 <= i < |a| && a[i] == x;
    assert b[i] == x;
  }

  lemma TakenNext<N>(g: Dag<N>, q: nat, t: map<N, int>, order: seq<N>, longer: seq<N>, k: nat, i: nat)
    requires q >= 1 && k < |g.vertices| && Reached(g, order, k) && order + [g.vertices[k]] <= longer
    requires g.vertices[k] in t && t[g.vertices[k]] == i % q
    ensures AsVertex(g, q, t, longer, |order|, i)
  {
    hide DoneBetween;
    assert longer[..|order|] == order;
    DonePrefix(g, order, longer, 0, |order|);
  }

  lemma NoteRootSignals<N>(g: Dag<N>, q: nat, s: Schedule<N>, node: N, order: seq<N>)
    requires WellFormed(g) && Sized(g, q, s) && node in Nodes(g) && Visited(g, s, order) && Coherent(g, s)
    ensures Visited(g, NoteRoot(g, q, s, node), order) && Coherent(g, NoteRoot(g, q, s, node))
    ensures NoteRoot(g, q, s, node).stream == s.stream
  {
    hide ListsInside, Mirrored, Coherent, Visited;
    var t := NoteRoot(g, q, s, node);
    assert t.stream == s.stream && t.signals == s.signals && t.maxStreams == s.maxStreams;
    SameSchedule(g, s, t, order);
  }

  /** Roots apart, nothing but streams, signals and their count matters. */
  lemma SameSchedule<N>(g: Dag<N>, s: Schedule<N>, t: Schedule<N>, order: seq<N>)
    requires Visited(g, s, order) && Coherent(g, s)
    requires t.stream == s.stream && t.signals == s.signals && t.maxStreams == s.maxStreams
    ensures Visited(g, t, order) && Coherent(g, t)
  {
    hide Distinct, Precedes;
    forall u, v | u in g.edges && v in g.edges[u] ensures Signals(t, order, u, v) <==> Signals(s, order, u, v) {
    }
  }

  lemma {:induction false} FromVisits<N>(g: Dag<N>, q: nat, s: Schedule<N>, k: nat, id: nat, order: seq<N>,
                                         starts: seq<nat>)
    returns (longer: seq<N>, starts': seq<nat>)
    requires WellFormed(g) && Sized(g, q, s) && k <= |g.vertices| && id < q && Coherent(g, s)
    requires Visited(g, s, order) && Placed(g, q, s.stream, order, starts) && Reached(g, order, k)
    requires id == |starts| % q
    ensures var r := ScheduleFrom(g, q, s, k, id);
            Visited(g, r, longer) && Placed(g, q, r.stream, longer, starts') && Reached(g, longer, |g.vertices|)
    decreases |g.vertices| - k
  {
    hide *;
    if k == |g.vertices| {
      longer, starts' := order, starts;
      FromEnds(g, q, s, id);
    } else {
      var node := g.vertices[k];
      VertexIn(g, k);
      ListsKnown(g, q, s, node, order);
      FromUnfolds(g, q, s, k, id);
      VertexListed(g, q, s, order, node);
      if s.stream[node] != -1 {
        ReachedNext(g, order, k);
        longer, starts' := FromVisits(g, q, s, k + 1, id, order, starts);
      } else {
        var t := ScheduleOne(g, q, s, node, id);
        var mid := OneVisits(g, q, s, node, id, order);
        OneCoherent(g, q, s, node, id);
        ListedStay(g, s, t, order);
        ListsKnown(g, q, t, node, mid);
        PlacedNext(g, q, s.stream, order, starts, t.stream, mid, k);
        NoteRootSignals(g, q, t, node, mid);
        NextIs(|starts|, q);
        longer, starts' := FromVisits(g, q, NoteRoot(g, q, t, node), k + 1, NextStream(id, q), mid, starts + [|order|]);
      }
    }
  }

  lemma FromEnds<N>(g: Dag<N>, q: nat, s: Schedule<N>, id: nat)
    requires WellFormed(g) && Sized(g, q, s) && id < q
    ensures ScheduleFrom(g, q, s, |g.vertices|, id) == s
  {
  }

  lemma VertexIn<N>(g: Dag<N>, k: nat)
    requires k < |g.vertices|
    ensures g.vertices[k] in Nodes(g)
  {
  }

  lemma VertexListed<N>(g: Dag<N>, q: nat, s: Schedule<N>, order: seq<N>, node: N)
    requires Lists(s, order) && node in s.stream
    ensures s.stream[node] != -1 <==> node in order
  {
  }

  lemma ReachedNext<N>(g: Dag<N>, order: seq<N>, k: nat)
    requires Reached(g, order, k) && k < |g.vertices| && g.vertices[k] in order
    ensures Reached(g, order, k + 1)
  {
    hide DoneBetween;
  }

  lemma NextIs(t: nat, q: nat)
    requires q >= 1
    ensures NextStream(t % q, q) == (t + 1) % q
  {
    DealtNext(0, t, q);
  }

  /** The schedule, exactly. The visits go on to the first child left of the latest node that
      has one, which runs as many streams after that node as it has elder siblings there,
      counting round; when there is none, to the first vertex left, and these run on the
      streams in turn. A node carries a signal exactly if it has a child that runs on another
      stream or was visited before it. */
  lemma ScheduleExactly<N>(g: Dag<N>, q: nat) returns (order: seq<N>, starts: seq<nat>)
    requires WellFormed(g) && q >= 1
    ensures var r := ScheduleAll(g, q);
            && Distinct(order) && (forall n :: n in order <==> n in g.vertices)
            && Placed(g, q, r.stream, order, starts)
            && forall u | u in Nodes(g) :: u in r.stream && u in g.edges && (u in r.signals <==>
                 exists v :: v in g.edges[u] && v in r.stream && (r.stream[u] != r.stream[v] || Precedes(order, v, u)))
  {
    hide ListsInside, Mirrored, Distinct, Coherent, AsChild, AsVertex, DoneBetween, Precedes, ScheduleFrom;
    UnscheduledSwept(g, q);
    var s := Unscheduled(g, q);
    assert s.stream.Keys == Nodes(g);
    NoneVisited(g, s);
    order, starts := FromVisits(g, q, s, 0, 0, [], []);
    var r := ScheduleAll(g, q);
    forall n ensures n in order <==> n in g.vertices {
      if n in g.vertices {
        var l :| 0 <= l < |g.vertices| && g.vertices[l] == n;
        assert g.vertices[l] in order;
      }
    }
    forall u | u in Nodes(g) ensures u in r.signals <==>
        exists v :: v in g.edges[u] && v in r.stream && (r.stream[u] != r.stream[v] || Precedes(order, v, u)) {
      forall v | v in g.edges[u] ensures Signals(r, order, u, v) <==>
          v in r.stream && (r.stream[u] != r.stream[v] || Precedes(order, v, u)) {
        ChildIn(g, u, v);
      }
    }
  }

  lemma NoneVisited<N>(g: Dag<N>, s: Schedule<N>)
    requires s.signals == {} && forall n | n in s.stream :: s.stream[n] == -1
    ensures Visited(g, s, []) && Reached(g, [], 0)
  {
  }

  // ---- Where nodes have one parent at most ----

  /** The parent of a sole child is visited before it. */
  lemma ParentEarlier<N>(g: Dag<N>, q: nat, stream: map<N, int>, order: seq<N>, starts: seq<nat>, m: nat, u: N)
    requires WellFormed(g) && q >= 1 && ParentFirst(g) && Placed(g, q, stream, order, starts)
    requires m < |order| && order[m] in g.deps && g.deps[order[m]] == [u]
    ensures u in order[..m]
  {
    hide WellFormed, ParentFirst, AsChild, AsVertex;
    if AsChild(g, q, stream, order, m) {
      ParentAt(g, q, stream, order, m, u);
    } else {
      var t: nat :| t < |starts| && starts[t] == m;
      ParentTaken(g, q, stream, order, m, t, u);
    }
  }

  lemma ParentAt<N>(g: Dag<N>, q: nat, stream: map<N, int>, order: seq<N>, m: nat, u: N)
    requires WellFormed(g) && q >= 1 && m < |order| && AsChild(g, q, stream, order, m)
    requires order[m] in g.deps && g.deps[order[m]] == [u]
    ensures u in order[..m]
  {
    var j: nat, i: nat :| j < m && AfterParent(g, q, stream, order, m, j, i);
    ChildOf(g, order[j], i);
    assert order[..m][j] == u;
  }

  lemma ParentTaken<N>(g: Dag<N>, q: nat, stream: map<N, int>, order: seq<N>, m: nat, t: nat, u: N)
    requires WellFormed(g) && q >= 1 && ParentFirst(g) && m < |order|
    requires AsVertex(g, q, stream, order, m, t) && order[m] in g.deps && g.deps[order[m]] == [u]
    ensures u in order[..m]
  {
    hide ListsInside, Mirrored, DoneBetween;
    var k :| 0 <= k < |g.vertices| && g.vertices[k] == order[m]
      && forall i | 0 <= i < k :: g.vertices[i] in order[..m];
    assert u in g.vertices[..k];
  }

  lemma ChildNotFirst<N>(g: Dag<N>, q: nat, stream: map<N, int>, order: seq<N>, starts: seq<nat>, u: N, v: N)
    requires WellFormed(g) && q >= 1 && ParentFirst(g) && Placed(g, q, stream, order, starts) && Distinct(order)
    requires v in g.deps && g.deps[v] == [u]
    ensures !Precedes(order, v, u)
  {
    hide WellFormed, ParentFirst, Placed, Distinct;
    forall m, l | 0 <= m < l < |order| && order[m] == v ensures order[l] != u {
      ParentEarlier(g, q, stream, order, starts, m, u);
      NotAgain(order, m, l, u);
    }
  }

  lemma NotAgain<T>(order: seq<T>, m: nat, l: nat, x: T)
    requires Distinct(order) && m <= l < |order| && x in order[..m]
    ensures order[l] != x
  {
  }

  /** With no more than one parent per node and parents first in the vertex list, a node
      carries a signal exactly if an edge leads from it to another stream. */
  lemma TreeSignals<N>(g: Dag<N>, q: nat, u: N)
    requires WellFormed(g) && q >= 1 && ParentFirst(g) && (forall n | n in Nodes(g) :: |g.deps[n]| <= 1)
    requires u in Nodes(g)
    ensures var r := ScheduleAll(g, q);
            && u in r.stream && (forall v | v in g.edges[u] :: v in r.stream)
            && (u in r.signals <==> exists v :: v in g.edges[u] && r.stream[u] != r.stream[v])
  {
    hide ListsInside, Mirrored, Distinct, Placed, Precedes, ParentFirst, ScheduleAll, Sized;
    var order, starts := ScheduleExactly(g, q);
    var r := ScheduleAll(g, q);
    forall v | v in g.edges[u] ensures v in r.stream && !Precedes(order, v, u) {
      ChildIn(g, u, v);
      OnlyParent(g, u, v);
      ChildNotFirst(g, q, r.stream, order, starts, u, v);
    }
  }

  lemma OnlyParent<N>(g: Dag<N>, u: N, v: N)
    requires v in g.deps && u in g.deps[v] && |g.deps[v]| <= 1
    ensures g.deps[v] == [u]
  {
  }
}
