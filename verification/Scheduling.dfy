/** How nodes are spread over virtual streams before a parallel launch. */
module Scheduling {
  import opened Arithmetic
  import opened Dags

  /** Stream of every node (-1 while unassigned), the nodes whose command must carry a
      signal, the number of streams in use and the first root of each extra stream. */
  datatype Schedule<N> = Schedule(stream: map<N, int>, signals: set<N>, maxStreams: nat, roots: seq<Option<N>>)

  function NextStream(id: nat, q: nat): (r: nat)
    requires q >= 1
    ensures r < q
  {
    (id + 1) % q
  }

  ghost predicate Sized<N>(g: Dag<N>, q: nat, s: Schedule<N>) {
    && q >= 1
    && s.stream.Keys == Nodes(g)
    && |s.roots| == q
    && forall n | n in s.stream :: -1 <= s.stream[n] < q
  }

  ghost function Unassigned<N>(s: Schedule<N>): set<N> {
    set n | n in s.stream && s.stream[n] == -1
  }

  ghost function Assign<N>(g: Dag<N>, s: Schedule<N>, node: N, id: nat): Schedule<N>
    requires node in g.deps
  {
    var stream := s.stream[node := id];
    s.(stream := stream,
       signals := s.signals + (set d | d in g.deps[node] && d in stream && stream[d] != id),
       maxStreams := if s.maxStreams < id + 1 then id + 1 else s.maxStreams)
  }

  ghost function ScheduleOne<N>(g: Dag<N>, q: nat, s: Schedule<N>, node: N, id: nat): (r: Schedule<N>)
    requires WellFormed(g) && Sized(g, q, s) && node in Nodes(g) && id < q
    ensures Sized(g, q, r) && Unassigned(r) <= Unassigned(s)
    decreases Unassigned(s), 0
  {
    if s.stream[node] != -1 then s
    else
      var t := Assign(g, s, node, id);
      assert node in Unassigned(s) && node !in Unassigned(t);
      ScheduleEdges(g, q, t, node, 0, id)
  }

  ghost function ScheduleEdges<N>(g: Dag<N>, q: nat, s: Schedule<N>, node: N, i: nat, id: nat): (r: Schedule<N>)
    requires WellFormed(g) && Sized(g, q, s) && node in Nodes(g) && i <= |g.edges[node]| && id < q
    ensures Sized(g, q, r) && Unassigned(r) <= Unassigned(s)
    decreases Unassigned(s), |g.edges[node]| - i + 1
  {
    if i == |g.edges[node]| then s
    else ScheduleEdges(g, q, ScheduleOne(g, q, s, g.edges[node][i], id), node, i + 1, NextStream(id, q))
  }

  /** Processing `vertices[k..]`, with `id` the stream offered to the next unassigned one. */
  ghost function ScheduleFrom<N>(g: Dag<N>, q: nat, s: Schedule<N>, k: nat, id: nat): (r: Schedule<N>)
    requires WellFormed(g) && Sized(g, q, s) && k <= |g.vertices| && id < q
    ensures Sized(g, q, r)
    decreases |g.vertices| - k
  {
    if k == |g.vertices| then s
    else if s.stream[g.vertices[k]] != -1 then ScheduleFrom(g, q, s, k + 1, id)
    else
      var node := g.vertices[k];
      ScheduleFrom(g, q, NoteRoot(g, q, ScheduleOne(g, q, s, node, id), node), k + 1, NextStream(id, q))
  }

  ghost function NoteRoot<N>(g: Dag<N>, q: nat, s: Schedule<N>, node: N): (r: Schedule<N>)
    requires WellFormed(g) && Sized(g, q, s) && node in Nodes(g)
    ensures Sized(g, q, r)
  {
    var id := s.stream[node];
    if g.deps[node] == [] && id > 0 && s.roots[id] == None then s.(roots := s.roots[id := Some(node)]) else s
  }

  ghost function Unscheduled<N>(g: Dag<N>, q: nat): Schedule<N> {
    Schedule(map n | n in Nodes(g) :: -1, {}, 0, seq(q, _ => None))
  }

  ghost function ScheduleAll<N>(g: Dag<N>, q: nat): (r: Schedule<N>)
    requires WellFormed(g) && q >= 1
    ensures Sized(g, q, r)
  {
    ScheduleFrom(g, q, Unscheduled(g, q), 0, 0)
  }

  // ---- The two loops, iteration by iteration ----

  lemma OneUnfolds<N>(g: Dag<N>, q: nat, s: Schedule<N>, node: N, id: nat)
    requires WellFormed(g) && Sized(g, q, s) && node in Nodes(g) && id < q
    ensures s.stream[node] != -1 ==> ScheduleOne(g, q, s, node, id) == s
    ensures s.stream[node] == -1 ==>
              var t := Assign(g, s, node, id);
              && Sized(g, q, t) && Unassigned(t) < Unassigned(s)
              && ScheduleOne(g, q, s, node, id) == ScheduleEdges(g, q, t, node, 0, id)
  {
    if s.stream[node] == -1 {
      assert node in Unassigned(s) && node !in Unassigned(Assign(g, s, node, id));
    }
  }

  lemma EdgesUnfold<N>(g: Dag<N>, q: nat, s: Schedule<N>, node: N, i: nat, id: nat)
    requires WellFormed(g) && Sized(g, q, s) && node in g.edges && i <= |g.edges[node]| && id < q
    ensures node in Nodes(g)
    ensures i == |g.edges[node]| ==> ScheduleEdges(g, q, s, node, i, id) == s
    ensures i < |g.edges[node]| ==>
              var child := g.edges[node][i];
              && child in Nodes(g)
              && var t := ScheduleOne(g, q, s, child, id);
                 && Sized(g, q, t) && Unassigned(t) <= Unassigned(s) && NextStream(id, q) < q
                 && ScheduleEdges(g, q, s, node, i, id) == ScheduleEdges(g, q, t, node, i + 1, NextStream(id, q))
  {
    hide ListsInside, Mirrored, Distinct, ScheduleOne, Unassigned;
    if i < |g.edges[node]| {
      ChildOf(g, node, i);
    }
  }

  /** The edge loop of `node` that began at `s` has reached its i-th edge in state `r`. */
  ghost predicate AtEdge<N>(g: Dag<N>, q: nat, s: Schedule<N>, node: N, id: nat, i: nat, r: Schedule<N>, next: nat) {
    && WellFormed(g) && Sized(g, q, s) && Sized(g, q, r) && node in Nodes(g) && i <= |g.edges[node]| && id < q
    && next < q
    && Unassigned(r) <= Unassigned(s)
    && ScheduleEdges(g, q, r, node, i, next) == ScheduleEdges(g, q, s, node, 0, id)
  }

  lemma EdgeStarts<N>(g: Dag<N>, q: nat, s: Schedule<N>, node: N, id: nat)
    requires WellFormed(g) && Sized(g, q, s) && node in Nodes(g) && id < q
    ensures AtEdge(g, q, s, node, id, 0, s, id)
  {
  }

  lemma EdgeEnds<N>(g: Dag<N>, q: nat, s: Schedule<N>, node: N, id: nat, r: Schedule<N>, next: nat)
    requires node in g.edges && AtEdge(g, q, s, node, id, |g.edges[node]|, r, next)
    ensures WellFormed(g) && Sized(g, q, s) && node in Nodes(g) && id < q && r == ScheduleEdges(g, q, s, node, 0, id)
  {
  }

  lemma EdgeNext<N>(g: Dag<N>, q: nat, s: Schedule<N>, node: N, id: nat, i: nat, r: Schedule<N>, next: nat)
    requires node in g.edges && AtEdge(g, q, s, node, id, i, r, next) && i < |g.edges[node]|
    ensures var child := g.edges[node][i];
            && WellFormed(g) && child in Nodes(g) && Sized(g, q, r) && next < q && Unassigned(r) <= Unassigned(s)
            && AtEdge(g, q, s, node, id, i + 1, ScheduleOne(g, q, r, child, next), NextStream(next, q))
  {
    hide ListsInside, Mirrored, Distinct;
    ChildOf(g, node, i);
  }

  /** The vertex loop has reached vertex k in state `r`. */
  ghost predicate AtVertex<N>(g: Dag<N>, q: nat, k: nat, r: Schedule<N>, next: nat) {
    && WellFormed(g) && Sized(g, q, r) && Coherent(g, r) && k <= |g.vertices| && next < q
    && ScheduleFrom(g, q, r, k, next) == ScheduleAll(g, q)
  }

  lemma VertexStarts<N>(g: Dag<N>, q: nat)
    requires WellFormed(g) && q >= 1
    ensures AtVertex(g, q, 0, Unscheduled(g, q), 0)
  {
  }

  lemma VertexEnds<N>(g: Dag<N>, q: nat, r: Schedule<N>, next: nat)
    requires AtVertex(g, q, |g.vertices|, r, next)
    ensures WellFormed(g) && q >= 1 && r == ScheduleAll(g, q)
  {
  }

  lemma VertexNext<N>(g: Dag<N>, q: nat, k: nat, r: Schedule<N>, next: nat)
    requires AtVertex(g, q, k, r, next) && k < |g.vertices|
    ensures var node := g.vertices[k];
            && node in Nodes(g) && WellFormed(g) && Sized(g, q, r) && next < q
            && (r.stream[node] != -1 ==> AtVertex(g, q, k + 1, r, next))
            && (r.stream[node] == -1 ==>
                  var t := ScheduleOne(g, q, r, node, next);
                  t.stream[node] >= 0 && AtVertex(g, q, k + 1, NoteRoot(g, q, t, node), NextStream(next, q)))
  {
    hide ListsInside, Mirrored, Distinct;
    OneCoherent(g, q, r, g.vertices[k], next);
  }

  lemma FromUnfolds<N>(g: Dag<N>, q: nat, s: Schedule<N>, k: nat, id: nat)
    requires WellFormed(g) && Sized(g, q, s) && k < |g.vertices| && id < q && g.vertices[k] in Nodes(g)
    ensures ScheduleFrom(g, q, s, k, id) ==
            if s.stream[g.vertices[k]] != -1 then ScheduleFrom(g, q, s, k + 1, id)
            else ScheduleFrom(g, q, NoteRoot(g, q, ScheduleOne(g, q, s, g.vertices[k], id), g.vertices[k]), k + 1,
              NextStream(id, q))
  {
    hide WellFormed, ScheduleOne, NoteRoot;
  }

  lemma NoteRootKeeps<N>(g: Dag<N>, q: nat, s: Schedule<N>, node: N)
    requires WellFormed(g) && Sized(g, q, s) && node in Nodes(g)
    ensures NoteRoot(g, q, s, node).stream == s.stream
  {
  }

  // ---- What assigning one node keeps ----

  /** `t` comes after `s`: no node changes stream, no signal is withdrawn, and nodes
      without dependencies other than `node` are left alone. */
  ghost predicate Later<N>(g: Dag<N>, s: Schedule<N>, t: Schedule<N>) {
    && t.roots == s.roots
    && s.signals <= t.signals
    && s.stream.Keys == t.stream.Keys
    && forall n | n in s.stream && s.stream[n] != -1 :: t.stream[n] == s.stream[n]
  }

  ghost predicate Untouched<N>(g: Dag<N>, s: Schedule<N>, t: Schedule<N>, node: N) {
    forall n | n in s.stream && n in t.stream && n in g.deps && g.deps[n] == [] && n != node ::
      t.stream[n] == s.stream[n]
  }

  /** Every edge between two streams starts at a node that carries a signal. */
  ghost predicate Signalled<N>(g: Dag<N>, s: Schedule<N>) {
    forall n, d | n in s.stream && s.stream[n] != -1 && n in g.deps && d in g.deps[n] && d in s.stream ::
      s.stream[d] == s.stream[n] || d in s.signals
  }

  /** The stream count is one more than the largest stream in use. */
  ghost predicate Counted<N>(s: Schedule<N>) {
    && (forall n | n in s.stream :: s.stream[n] < s.maxStreams)
    && (s.maxStreams == 0 || exists n :: n in s.stream && s.stream[n] == s.maxStreams - 1)
  }

  ghost predicate Coherent<N>(g: Dag<N>, s: Schedule<N>) {
    Signalled(g, s) && Counted(s)
  }

  lemma AssignCoherent<N>(g: Dag<N>, q: nat, s: Schedule<N>, node: N, id: nat)
    requires WellFormed(g) && Sized(g, q, s) && node in Nodes(g) && id < q
    requires s.stream[node] == -1 && Coherent(g, s)
    ensures Coherent(g, Assign(g, s, node, id)) && Later(g, s, Assign(g, s, node, id))
  {
    hide ListsInside, Mirrored, Distinct;
    var t := Assign(g, s, node, id);
    assert t.stream[node] == id;
    if s.maxStreams > id + 1 {
      var n :| n in s.stream && s.stream[n] == s.maxStreams - 1;
      assert t.stream[n] == t.maxStreams - 1;
    }
  }

  lemma LaterThrough<N>(g: Dag<N>, r: Schedule<N>, s: Schedule<N>, t: Schedule<N>, child: N, node: N)
    requires Later(g, r, s) && Later(g, s, t) && Untouched(g, r, s, child) && Untouched(g, s, t, node)
    requires child in g.deps && g.deps[child] != []
    ensures Later(g, r, t) && Untouched(g, r, t, node)
  {
  }

  lemma LaterSelf<N>(g: Dag<N>, s: Schedule<N>, node: N)
    ensures Later(g, s, s) && Untouched(g, s, s, node)
  {
  }

  lemma NodeLists<N>(g: Dag<N>, node: N)
    requires WellFormed(g) && node in Nodes(g)
    ensures node in g.edges && node in g.deps
  {
  }

  lemma HasParent<N>(g: Dag<N>, node: N, i: nat)
    requires WellFormed(g) && node in Nodes(g) && node in g.edges && i < |g.edges[node]|
    ensures g.edges[node][i] in g.deps && g.deps[g.edges[node][i]] != []
  {
    ChildOf(g, node, i);
  }

  lemma {:induction false} OneCoherent<N>(g: Dag<N>, q: nat, s: Schedule<N>, node: N, id: nat)
    requires WellFormed(g) && Sized(g, q, s) && node in Nodes(g) && id < q
    requires Coherent(g, s)
    ensures var r := ScheduleOne(g, q, s, node, id);
            Coherent(g, r) && Later(g, s, r) && Untouched(g, s, r, node) && r.stream[node] != -1
    decreases Unassigned(s), 0
  {
    hide ListsInside, Mirrored, Distinct, Coherent;
    if s.stream[node] == -1 {
      AssignCoherent(g, q, s, node, id);
      var t := Assign(g, s, node, id);
      assert node in Unassigned(s) && node !in Unassigned(t);
      EdgesCoherent(g, q, t, node, 0, id);
    }
  }

  lemma {:induction false} EdgesCoherent<N>(g: Dag<N>, q: nat, s: Schedule<N>, node: N, i: nat, id: nat)
    requires WellFormed(g) && Sized(g, q, s) && node in Nodes(g) && i <= |g.edges[node]| && id < q
    requires Coherent(g, s)
    ensures var r := ScheduleEdges(g, q, s, node, i, id);
            Coherent(g, r) && Later(g, s, r) && Untouched(g, s, r, node)
    decreases Unassigned(s), |g.edges[node]| - i + 1
  {
    hide *;
    NodeLists(g, node);
    EdgesUnfold(g, q, s, node, i, id);
    if i == |g.edges[node]| {
      LaterSelf(g, s, node);
    } else {
      var child := g.edges[node][i];
      HasParent(g, node, i);
      var t := ScheduleOne(g, q, s, child, id);
      OneCoherent(g, q, s, child, id);
      EdgesCoherent(g, q, t, node, i + 1, NextStream(id, q));
      LaterThrough(g, s, t, ScheduleEdges(g, q, t, node, i + 1, NextStream(id, q)), child, node);
    }
  }

  // ---- Children of one parent are dealt to successive streams ----

  function Dealt(first: nat, i: nat, q: nat): (r: nat)
    requires q >= 1
    ensures r < q
  {
    (first + i) % q
  }

  lemma DealtNext(first: nat, i: nat, q: nat)
    requires q >= 1
    ensures Dealt(first, i + 1, q) == NextStream(Dealt(first, i, q), q)
  {
    var d, m := (first + i) / q, (first + i) % q;
    assert first + i == d * q + m;
    if m + 1 < q {
      DivisionIs(first + i + 1, d, m + 1, q);
      DivisionIs(m + 1, 0, m + 1, q);
    } else {
      assert (d + 1) * q == d * q + q;
      DivisionIs(first + i + 1, d + 1, 0, q);
      DivisionIs(m + 1, 1, 0, q);
    }
  }

  lemma DealtRound(first: nat, i: nat, q: nat)
    requires q >= 1 && first < q
    ensures Dealt(first, i, q) == Dealt(first, i % q, q) && Dealt(first, 0, q) == first
  {
    var d := (first + i % q) / q;
    assert first + i % q == d * q + Dealt(first, i % q, q);
    assert i == (i / q) * q + i % q;
    assert first + i == (i / q + d) * q + Dealt(first, i % q, q) by {
      assert (i / q) * q + d * q == (i / q + d) * q;
    }
    DivisionIs(first + i, i / q + d, Dealt(first, i % q, q), q);
    DivisionIs(first, 0, first, q);
  }

  /** A scheduled sole child of p sits on the stream p deals to its position. */
  ghost predicate Fanned<N>(g: Dag<N>, q: nat, s: Schedule<N>)
    requires q >= 1
  {
    forall p, i, c {:trigger SoleChild(g, p, i, c)} | SoleChild(g, p, i, c) && p in s.stream && c in s.stream
        && s.stream[c] != -1 ::
      0 <= s.stream[p] && s.stream[c] == Dealt(s.stream[p], i, q)
  }

  /** `id` is the stream that `node`, should it be a sole child, is dealt. */
  ghost predicate Offered<N>(g: Dag<N>, q: nat, s: Schedule<N>, node: N, id: nat)
    requires q >= 1
  {
    forall p, i {:trigger SoleChild(g, p, i, node)} | SoleChild(g, p, i, node) && p in s.stream ::
      0 <= s.stream[p] && id == Dealt(s.stream[p], i, q)
  }

  /** The children of every scheduled node outside `open` are scheduled. */
  ghost predicate Closed<N>(g: Dag<N>, s: Schedule<N>, open: set<N>) {
    forall n | n in s.stream && s.stream[n] != -1 && n !in open && n in g.edges :: ChildrenDone(g, s, n, |g.edges[n]|)
  }

  ghost predicate ChildrenDone<N>(g: Dag<N>, s: Schedule<N>, n: N, k: nat)
    requires n in g.edges
  {
    forall i | 0 <= i < k && i < |g.edges[n]| :: g.edges[n][i] in s.stream && s.stream[g.edges[n][i]] != -1
  }

  ghost predicate Dealing<N>(g: Dag<N>, q: nat, s: Schedule<N>, open: set<N>)
    requires q >= 1
  {
    Fanned(g, q, s) && Closed(g, s, open)
  }

  lemma AssignDealing<N>(g: Dag<N>, q: nat, s: Schedule<N>, node: N, id: nat, open: set<N>)
    requires WellFormed(g) && Sized(g, q, s) && node in Nodes(g) && id < q
    requires s.stream[node] == -1 && Dealing(g, q, s, open) && Offered(g, q, s, node, id)
    ensures Dealing(g, q, Assign(g, s, node, id), open + {node})
  {
    hide ListsInside, Mirrored, Distinct, Dealt;
    var t := Assign(g, s, node, id);
    forall p, i, c | SoleChild(g, p, i, c) && p in t.stream && c in t.stream && t.stream[c] != -1
      ensures 0 <= t.stream[p] && t.stream[c] == Dealt(t.stream[p], i, q)
    {
    }
  }

  lemma {:induction false} OneDealing<N>(g: Dag<N>, q: nat, s: Schedule<N>, node: N, id: nat, open: set<N>)
    requires WellFormed(g) && Sized(g, q, s) && node in Nodes(g) && id < q
    requires Dealing(g, q, s, open) && (s.stream[node] == -1 ==> Offered(g, q, s, node, id))
    requires Coherent(g, s)
    ensures Dealing(g, q, ScheduleOne(g, q, s, node, id), open)
    decreases Unassigned(s), 0
  {
    hide ListsInside, Mirrored, Distinct, Dealing, Offered;
    if s.stream[node] == -1 {
      AssignDealing(g, q, s, node, id, open);
      AssignCoherent(g, q, s, node, id);
      var t := Assign(g, s, node, id);
      assert node in Unassigned(s) && node !in Unassigned(t);
      DealtRound(id, 0, q);
      EdgesDealing(g, q, t, node, 0, id, open);
    }
  }

  lemma {:induction false} EdgesDealing<N>(g: Dag<N>, q: nat, s: Schedule<N>, node: N, i: nat, id: nat, open: set<N>)
    requires WellFormed(g) && Sized(g, q, s) && node in Nodes(g) && i <= |g.edges[node]| && id < q
    requires Dealing(g, q, s, open + {node}) && s.stream[node] != -1 && ChildrenDone(g, s, node, i)
    requires id == Dealt(s.stream[node], i, q) && Coherent(g, s)
    ensures Dealing(g, q, ScheduleEdges(g, q, s, node, i, id), open)
    decreases Unassigned(s), |g.edges[node]| - i + 1
  {
    if i < |g.edges[node]| {
      OfferedAt(g, q, s, node, i, id);
      hide ListsInside, Mirrored, Distinct, Dealing, Unassigned, Coherent, ChildrenDone, Later, Untouched, Dealt,
        Offered;
      ChildOf(g, node, i);
      var child := g.edges[node][i];
      OneDealing(g, q, s, child, id, open + {node});
      OneCoherent(g, q, s, child, id);
      DealtNext(s.stream[node], i, q);
      var t := ScheduleOne(g, q, s, child, id);
      ChildDone(g, s, t, node, i);
      EdgesDealing(g, q, t, node, i + 1, NextStream(id, q), open);
    }
  }

  lemma ChildDone<N>(g: Dag<N>, s: Schedule<N>, t: Schedule<N>, node: N, i: nat)
    requires node in g.edges && i < |g.edges[node]| && ChildrenDone(g, s, node, i) && Later(g, s, t)
    requires g.edges[node][i] in t.stream && t.stream[g.edges[node][i]] != -1
    requires node in s.stream && s.stream[node] != -1
    ensures ChildrenDone(g, t, node, i + 1) && node in t.stream && t.stream[node] == s.stream[node]
  {
  }

  lemma OfferedAt<N>(g: Dag<N>, q: nat, s: Schedule<N>, p: N, i: nat, id: nat)
    requires WellFormed(g) && Sized(g, q, s) && p in Nodes(g) && i < |g.edges[p]|
    requires s.stream[p] != -1 && id == Dealt(s.stream[p], i, q)
    ensures Offered(g, q, s, g.edges[p][i], id)
  {
    SoleChildAt(g, p, i);
  }

  // ---- The whole pass over the vertex list ----

  /** The j-th vertex has no dependencies and runs on stream `id`. */
  ghost predicate RootAt<N>(g: Dag<N>, s: Schedule<N>, j: int, id: int) {
    && 0 <= j < |g.vertices|
    && var n := g.vertices[j];
       n in g.deps && n in s.stream && g.deps[n] == [] && s.stream[n] == id
  }

  /** `root` is the first dependency-free vertex on stream `id` among the first k. */
  ghost predicate FirstRoot<N>(g: Dag<N>, s: Schedule<N>, k: nat, id: int, root: Option<N>) {
    match root
    case None => forall j | 0 <= j < k :: !RootAt(g, s, j, id)
    case Some(n) => exists j :: 0 <= j < k && RootAt(g, s, j, id) && g.vertices[j] == n && forall i | 0 <= i < j ::
      !RootAt(g, s, i, id)
  }

  /** The root table: stream 0 has no entry, every other stream its first root. */
  ghost predicate RootTable<N>(g: Dag<N>, s: Schedule<N>, k: nat) {
    forall id | 0 <= id < |s.roots| ::
      if id == 0 then s.roots[id] == None else FirstRoot(g, s, k, id, s.roots[id])
  }

  /** The first k vertices are scheduled and later vertices without dependencies are not. */
  ghost predicate Swept<N>(g: Dag<N>, s: Schedule<N>, k: nat)
    requires k <= |g.vertices|
  {
    && (forall j | 0 <= j < k :: g.vertices[j] in s.stream && s.stream[g.vertices[j]] != -1)
    && (forall j | k <= j < |g.vertices| ::
       g.vertices[j] in s.stream && (g.vertices[j] in g.deps && g.deps[g.vertices[j]] == [] ==>
           s.stream[g.vertices[j]] == -1))
  }

  lemma SweepOne<N>(g: Dag<N>, q: nat, s: Schedule<N>, t: Schedule<N>, k: nat)
    requires WellFormed(g) && Sized(g, q, s) && Sized(g, q, t) && k < |g.vertices|
    requires Swept(g, s, k) && RootTable(g, s, k)
    requires Later(g, s, t) && Untouched(g, s, t, g.vertices[k]) && t.stream[g.vertices[k]] != -1
    ensures Swept(g, t, k + 1) && RootTable(g, t, k)
  {
    hide ListsInside, Mirrored;
    forall j, id | 0 <= j < k && id >= 0 ensures RootAt(g, s, j, id) <==> RootAt(g, t, j, id) {
      assert s.stream[g.vertices[j]] != -1;
    }
  }

  lemma SweepRoot<N>(g: Dag<N>, q: nat, s: Schedule<N>, k: nat)
    requires WellFormed(g) && Sized(g, q, s) && k < |g.vertices|
    requires Swept(g, s, k + 1) && RootTable(g, s, k)
    ensures var t := NoteRoot(g, q, s, g.vertices[k]);
            RootTable(g, t, k + 1) && Swept(g, t, k + 1) && (Coherent(g, s) ==> Coherent(g, t))
  {
    hide ListsInside, Mirrored, Distinct;
    var t := NoteRoot(g, q, s, g.vertices[k]);
    forall id | 1 <= id < q ensures FirstRoot(g, t, k + 1, id, t.roots[id]) {
      assert forall j :: RootAt(g, t, j, id) <==> RootAt(g, s, j, id);
      if t.roots[id] != s.roots[id] {
        assert RootAt(g, t, k, id);
      }
    }
  }

  lemma SweepSkip<N>(g: Dag<N>, q: nat, s: Schedule<N>, k: nat)
    requires WellFormed(g) && Sized(g, q, s) && k < |g.vertices| && s.stream[g.vertices[k]] != -1
    requires Swept(g, s, k) && RootTable(g, s, k)
    ensures Swept(g, s, k + 1) && RootTable(g, s, k + 1)
  {
    hide ListsInside, Mirrored, Distinct;
    assert forall id :: !RootAt(g, s, k, id);
  }

  lemma {:induction false} SweepFrom<N>(g: Dag<N>, q: nat, s: Schedule<N>, k: nat, id: nat)
    requires WellFormed(g) && Sized(g, q, s) && k <= |g.vertices| && id < q
    requires Coherent(g, s) && Swept(g, s, k) && RootTable(g, s, k)
    ensures var r := ScheduleFrom(g, q, s, k, id);
            Coherent(g, r) && Swept(g, r, |g.vertices|) && RootTable(g, r, |g.vertices|)
    decreases |g.vertices| - k
  {
    hide ListsInside, Mirrored, Distinct, Swept, RootTable, Later, Untouched, Coherent, Unassigned;
    if k < |g.vertices| {
      var node := g.vertices[k];
      if s.stream[node] != -1 {
        SweepSkip(g, q, s, k);
        SweepFrom(g, q, s, k + 1, id);
      } else {
        var t := ScheduleOne(g, q, s, node, id);
        OneCoherent(g, q, s, node, id);
        SweepOne(g, q, s, t, k);
        SweepRoot(g, q, t, k);
        SweepFrom(g, q, NoteRoot(g, q, t, node), k + 1, NextStream(id, q));
      }
    }
  }

  lemma UnscheduledSwept<N>(g: Dag<N>, q: nat)
    requires WellFormed(g) && q >= 1
    ensures var s := Unscheduled(g, q);
            Coherent(g, s) && Swept(g, s, 0) && RootTable(g, s, 0) && Dealing(g, q, s, {})
  {
    hide ListsInside, Mirrored, Distinct;
  }

  /** Scheduling gives every node one stream below q, a signal to the source of every
      edge that crosses streams, an exact stream count and an exact root table. */
  lemma ScheduleSound<N>(g: Dag<N>, q: nat)
    requires WellFormed(g) && q >= 1
    ensures var r := ScheduleAll(g, q);
            && (forall n | n in Nodes(g) :: 0 <= r.stream[n] < q)
            && (forall u, v | u in Nodes(g) && v in g.edges[u] ::
               v in Nodes(g) && (r.stream[u] == r.stream[v] || u in r.signals))
            && Counted(r)
            && RootTable(g, r, |g.vertices|)
  {
    UnscheduledSwept(g, q);
    SweepFrom(g, q, Unscheduled(g, q), 0, 0);
    var r := ScheduleAll(g, q);
    forall n | n in Nodes(g) ensures 0 <= r.stream[n] < q {
      var j :| 0 <= j < |g.vertices| && g.vertices[j] == n;
    }
  }

  /** The tables a launch indexes by stream fit the schedule: every stream is below the
      stream count, extra roots are on streams in use, and every extra stream with a
      dependency-free node has a root. */
  ghost predicate TablesMatch<N>(g: Dag<N>, r: Schedule<N>) {
    && (forall n | n in r.stream :: 0 <= r.stream[n] < r.maxStreams <= |r.roots|)
    && (forall i | 0 <= i < |r.roots| && r.roots[i].Some? :: 0 < i < r.maxStreams)
    && (forall n | n in r.stream && n in g.deps && g.deps[n] == [] && 0 < r.stream[n] < |r.roots| ::
       r.roots[r.stream[n]].Some?)
  }

  lemma StreamTables<N>(g: Dag<N>, q: nat)
    requires WellFormed(g) && q >= 1
    ensures TablesMatch(g, ScheduleAll(g, q))
    ensures g.vertices != [] <==> ScheduleAll(g, q).maxStreams >= 1
  {
    hide ListsInside, Mirrored, Distinct, ScheduleFrom;
    ScheduleSound(g, q);
    var r := ScheduleAll(g, q);
    forall i | 0 <= i < |r.roots| && r.roots[i].Some? ensures 0 < i < r.maxStreams {
      assert FirstRoot(g, r, |g.vertices|, i, r.roots[i]);
    }
    forall n | n in r.stream && g.deps[n] == [] && 0 < r.stream[n] < |r.roots| ensures r.roots[r.stream[n]].Some? {
      var j :| 0 <= j < |g.vertices| && g.vertices[j] == n;
      assert RootAt(g, r, j, r.stream[n]);
      assert FirstRoot(g, r, |g.vertices|, r.stream[n], r.roots[r.stream[n]]);
    }
    if g.vertices != [] {
      assert g.vertices[0] in r.stream;
    } else {
      assert r.stream.Keys == Nodes(g) == {};
    }
  }

  /** A node with a single parent comes after that parent in the vertex list. */
  ghost predicate ParentFirst<N>(g: Dag<N>) {
    forall j | 0 <= j < |g.vertices| && g.vertices[j] in g.deps && |g.deps[g.vertices[j]]| == 1 ::
      g.deps[g.vertices[j]][0] in g.vertices[..j]
  }

  lemma OfferedFresh<N>(g: Dag<N>, q: nat, s: Schedule<N>, k: nat, id: nat)
    requires WellFormed(g) && Sized(g, q, s) && ParentFirst(g) && k < |g.vertices|
    requires Dealing(g, q, s, {}) && Swept(g, s, k) && s.stream[g.vertices[k]] == -1
    ensures Offered(g, q, s, g.vertices[k], id)
  {
    hide ListsInside, Mirrored, Distinct;
    forall p, i | SoleChild(g, p, i, g.vertices[k]) && p in s.stream ensures false {
      ParentDone(g, q, s, k, p, i);
    }
  }

  /** A child of a node among the first k vertices is scheduled. */
  lemma ParentDone<N>(g: Dag<N>, q: nat, s: Schedule<N>, k: nat, p: N, i: nat)
    requires Sized(g, q, s) && k <= |g.vertices| && p in g.vertices[..k] && p in g.edges && i < |g.edges[p]|
    requires Dealing(g, q, s, {}) && Swept(g, s, k)
    ensures g.edges[p][i] in s.stream && s.stream[g.edges[p][i]] != -1
  {
    assert ChildrenDone(g, s, p, |g.edges[p]|);
  }

  lemma {:induction false} DealFrom<N>(g: Dag<N>, q: nat, s: Schedule<N>, k: nat, id: nat)
    requires WellFormed(g) && Sized(g, q, s) && ParentFirst(g) && k <= |g.vertices| && id < q
    requires Coherent(g, s) && Swept(g, s, k) && RootTable(g, s, k) && Dealing(g, q, s, {})
    ensures Dealing(g, q, ScheduleFrom(g, q, s, k, id), {})
    decreases |g.vertices| - k
  {
    hide ListsInside, Mirrored, Distinct, Swept, RootTable, Later, Untouched, Dealing, ParentFirst, Offered, Coherent;
    if k < |g.vertices| {
      var node := g.vertices[k];
      if s.stream[node] != -1 {
        SweepSkip(g, q, s, k);
        DealFrom(g, q, s, k + 1, id);
      } else {
        OfferedFresh(g, q, s, k, id);
        var t := ScheduleOne(g, q, s, node, id);
        OneCoherent(g, q, s, node, id);
        OneDealing(g, q, s, node, id, {});
        SweepOne(g, q, s, t, k);
        SweepRoot(g, q, t, k);
        RootKeepsDealing(g, q, t, node);
        DealFrom(g, q, NoteRoot(g, q, t, node), k + 1, NextStream(id, q));
      }
    }
  }

  lemma RootKeepsDealing<N>(g: Dag<N>, q: nat, s: Schedule<N>, node: N)
    requires WellFormed(g) && Sized(g, q, s) && node in Nodes(g) && Dealing(g, q, s, {})
    ensures Dealing(g, q, NoteRoot(g, q, s, node), {})
  {
    hide ListsInside, Mirrored, Distinct, Dealt;
  }

  /** When single parents come first in the vertex list, the i-th child of p, if p is
      its only parent, runs i streams after p, counting round. */
  lemma SoleChildrenFan<N>(g: Dag<N>, q: nat, p: N, i: nat)
    requires WellFormed(g) && q >= 1 && ParentFirst(g)
    requires p in Nodes(g) && i < |g.edges[p]| && g.edges[p][i] in Nodes(g) && g.deps[g.edges[p][i]] == [p]
    ensures var r := ScheduleAll(g, q);
            0 <= r.stream[p] && r.stream[g.edges[p][i]] == (r.stream[p] + i) % q
  {
    hide ListsInside, Mirrored, Distinct, Dealing, Coherent, Swept, RootTable, ParentFirst, Signalled, Counted,
      ScheduleFrom;
    ScheduleSound(g, q);
    UnscheduledSwept(g, q);
    DealFrom(g, q, Unscheduled(g, q), 0, 0);
    FanAt(g, q, ScheduleAll(g, q), p, i);
  }

  lemma FanAt<N>(g: Dag<N>, q: nat, s: Schedule<N>, p: N, i: nat)
    requires q >= 1 && p in g.edges && i < |g.edges[p]| && SoleChild(g, p, i, g.edges[p][i])
    requires Dealing(g, q, s, {}) && p in s.stream && g.edges[p][i] in s.stream && s.stream[g.edges[p][i]] != -1
    ensures 0 <= s.stream[p] && s.stream[g.edges[p][i]] == (s.stream[p] + i) % q
  {
  }
}
