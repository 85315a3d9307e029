/** A clone is scheduled like its original and launched in the same order, so whether its
    skipped waits are bridged is decided by the original. */
module CloneOrder {
  import opened Dags
  import opened Launching
  import opened Walking
  import opened Cloning
  import Scheduling

  // ---- Schedules ----

  /** `t` gives the image of every node the stream that `s` gives the node. */
  ghost predicate SameStreams<N, M>(f: map<N, M>, s: Scheduling.Schedule<N>, t: Scheduling.Schedule<M>) {
    && Injective(f) && s.stream.Keys == f.Keys && s.maxStreams == t.maxStreams
    && forall n | n in f :: f[n] in t.stream && t.stream[f[n]] == s.stream[n]
  }

  lemma AssignCommutes<N, M>(f: map<N, M>, g: Dag<N>, h: Dag<M>, s: Scheduling.Schedule<N>, t: Scheduling.Schedule<M>,
        n: N, id: nat)
    requires SameStreams(f, s, t) && n in f && n in g.deps && f[n] in h.deps
    ensures SameStreams(f, Scheduling.Assign(g, s, n, id), Scheduling.Assign(h, t, f[n], id))
  {
  }

  /** Two schedules of a graph and its clone that agree. */
  ghost predicate Alike<N, M>(f: map<N, M>, g: Dag<N>, h: Dag<M>, q: nat, s: Scheduling.Schedule<N>,
        t: Scheduling.Schedule<M>) {
    && Renamed(f, g, h) && WellFormed(g) && WellFormed(h)
    && Scheduling.Sized(g, q, s) && Scheduling.Sized(h, q, t) && SameStreams(f, s, t)
  }

  lemma AlikeNode<N, M>(f: map<N, M>, g: Dag<N>, h: Dag<M>, q: nat, s: Scheduling.Schedule<N>,
        t: Scheduling.Schedule<M>, n: N)
    requires Alike(f, g, h, q, s, t) && n in Nodes(g)
    ensures WellFormed(g) && WellFormed(h) && Scheduling.Sized(g, q, s) && Scheduling.Sized(h, q, t)
    ensures n in f && n in g.deps && n in g.edges && f[n] in Nodes(h) && f[n] in h.deps && f[n] in h.edges
    ensures n in s.stream && f[n] in t.stream && s.stream[n] == t.stream[f[n]]
    ensures |h.edges[f[n]]| == |g.edges[n]| && forall i | 0 <= i < |g.edges[n]| ::
              g.edges[n][i] in Nodes(g) && g.edges[n][i] in f && h.edges[f[n]][i] == f[g.edges[n][i]]
  {
    hide Mirrored, Distinct, Injective;
    RenamedNodes(f, g, h, n);
    forall i | 0 <= i < |g.edges[n]| ensures g.edges[n][i] in Nodes(g) && g.edges[n][i] in f {
      assert g.edges[n][i] in g.edges[n];
    }
  }

  lemma AlikeThen<N, M>(f: map<N, M>, g: Dag<N>, h: Dag<M>, q: nat, s: Scheduling.Schedule<N>,
        t: Scheduling.Schedule<M>,
                        s': Scheduling.Schedule<N>, t': Scheduling.Schedule<M>)
    requires Alike(f, g, h, q, s, t) && Scheduling.Sized(g, q, s') && Scheduling.Sized(h, q, t')
             && SameStreams(f, s', t')
    ensures Alike(f, g, h, q, s', t')
  {
  }

  lemma AlikeStreams<N, M>(f: map<N, M>, g: Dag<N>, h: Dag<M>, q: nat, s: Scheduling.Schedule<N>,
        t: Scheduling.Schedule<M>)
    requires Alike(f, g, h, q, s, t)
    ensures SameStreams(f, s, t) && Renamed(f, g, h) && WellFormed(g) && WellFormed(h)
    ensures Scheduling.Sized(g, q, s) && Scheduling.Sized(h, q, t) && q >= 1
  {
  }

  lemma {:induction false} ScheduleOneCommutes<N, M>(f: map<N, M>, g: Dag<N>, h: Dag<M>, q: nat,
        s: Scheduling.Schedule<N>, t: Scheduling.Schedule<M>,
        n: N, id: nat)
    requires Alike(f, g, h, q, s, t) && n in Nodes(g) && id < q
    ensures f[n] in Nodes(h) && Scheduling.Sized(g, q, s) && Scheduling.Sized(h, q, t)
    ensures Alike(f, g, h, q, Scheduling.ScheduleOne(g, q, s, n, id), Scheduling.ScheduleOne(h, q, t, f[n], id))
    decreases Scheduling.Unassigned(s), 0
  {
    hide *;
    AlikeNode(f, g, h, q, s, t, n);
    AlikeStreams(f, g, h, q, s, t);
    Scheduling.OneUnfolds(g, q, s, n, id);
    Scheduling.OneUnfolds(h, q, t, f[n], id);
    if s.stream[n] == -1 {
      AssignCommutes(f, g, h, s, t, n, id);
      var s', t' := Scheduling.Assign(g, s, n, id), Scheduling.Assign(h, t, f[n], id);
      AlikeThen(f, g, h, q, s, t, s', t');
      ScheduleEdgesCommute(f, g, h, q, s', t', n, 0, id);
    }
  }

  lemma {:induction false} ScheduleEdgesCommute<N, M>(f: map<N, M>, g: Dag<N>, h: Dag<M>, q: nat,
        s: Scheduling.Schedule<N>, t: Scheduling.Schedule<M>,
        n: N, i: nat, id: nat)
    requires Alike(f, g, h, q, s, t) && n in Nodes(g) && n in g.edges && i <= |g.edges[n]| && id < q
    ensures f[n] in Nodes(h) && f[n] in h.edges && i <= |h.edges[f[n]]| && Scheduling.Sized(g, q, s)
            && Scheduling.Sized(h, q, t)
    ensures Alike(f, g, h, q, Scheduling.ScheduleEdges(g, q, s, n, i, id),
            Scheduling.ScheduleEdges(h, q, t, f[n], i, id))
    decreases Scheduling.Unassigned(s), |g.edges[n]| - i + 1
  {
    hide WellFormed, Renamed, Alike, Scheduling.Sized, Scheduling.ScheduleOne, Scheduling.Unassigned, SameStreams;
    AlikeNode(f, g, h, q, s, t, n);
    if i < |g.edges[n]| {
      var c := g.edges[n][i];
      ScheduleOneCommutes(f, g, h, q, s, t, c, id);
      var s', t' := Scheduling.ScheduleOne(g, q, s, c, id), Scheduling.ScheduleOne(h, q, t, f[c], id);
      ScheduleEdgesCommute(f, g, h, q, s', t', n, i + 1, Scheduling.NextStream(id, q));
    }
  }

  lemma NoteRootStreams<N>(g: Dag<N>, q: nat, s: Scheduling.Schedule<N>, n: N)
    requires WellFormed(g) && Scheduling.Sized(g, q, s) && n in Nodes(g)
    ensures var t := Scheduling.NoteRoot(g, q, s, n); t.stream == s.stream && t.maxStreams == s.maxStreams
  {
  }

  lemma NotesCommute<N, M>(f: map<N, M>, g: Dag<N>, h: Dag<M>, q: nat, s: Scheduling.Schedule<N>,
        t: Scheduling.Schedule<M>, n: N)
    requires Alike(f, g, h, q, s, t) && n in Nodes(g) && n in f && f[n] in Nodes(h)
    ensures Scheduling.Sized(g, q, s) && Scheduling.Sized(h, q, t)
    ensures Alike(f, g, h, q, Scheduling.NoteRoot(g, q, s, n), Scheduling.NoteRoot(h, q, t, f[n]))
  {
    hide WellFormed, Renamed, Scheduling.NoteRoot, Scheduling.Sized;
    NoteRootStreams(g, q, s, n);
    NoteRootStreams(h, q, t, f[n]);
  }

  lemma AlikeVertex<N, M>(f: map<N, M>, g: Dag<N>, h: Dag<M>, k: nat)
    requires Renamed(f, g, h) && k <= |g.vertices|
    ensures |h.vertices| == |g.vertices| && forall i | 0 <= i < |g.vertices| ::
            g.vertices[i] in Nodes(g) && g.vertices[i] in f && h.vertices[i] == f[g.vertices[i]]
  {
    hide Injective;
    forall i | 0 <= i < |g.vertices| ensures g.vertices[i] in Nodes(g) && g.vertices[i] in f {
      assert g.vertices[i] in g.vertices;
    }
  }

  lemma {:induction false} ScheduleFromCommutes<N, M>(f: map<N, M>, g: Dag<N>, h: Dag<M>, q: nat,
        s: Scheduling.Schedule<N>, t: Scheduling.Schedule<M>,
        k: nat, id: nat)
    requires Alike(f, g, h, q, s, t) && k <= |g.vertices| && id < q
    ensures k <= |h.vertices| && WellFormed(g) && WellFormed(h) && Scheduling.Sized(g, q, s)
            && Scheduling.Sized(h, q, t)
    ensures Alike(f, g, h, q, Scheduling.ScheduleFrom(g, q, s, k, id), Scheduling.ScheduleFrom(h, q, t, k, id))
    decreases |g.vertices| - k
  {
    hide *;
    AlikeStreams(f, g, h, q, s, t);
    AlikeVertex(f, g, h, k);
    ScheduledUpTo(g, q, s, k, id);
    ScheduledUpTo(h, q, t, k, id);
    if k < |g.vertices| {
      var n := g.vertices[k];
      AlikeNode(f, g, h, q, s, t, n);
      Scheduling.FromUnfolds(g, q, s, k, id);
      Scheduling.FromUnfolds(h, q, t, k, id);
      if s.stream[n] != -1 {
        ScheduleFromCommutes(f, g, h, q, s, t, k + 1, id);
      } else {
        ScheduleOneCommutes(f, g, h, q, s, t, n, id);
        var s', t' := Scheduling.ScheduleOne(g, q, s, n, id), Scheduling.ScheduleOne(h, q, t, f[n], id);
        NotesCommute(f, g, h, q, s', t', n);
        ScheduleFromCommutes(f, g, h, q, Scheduling.NoteRoot(g, q, s', n), Scheduling.NoteRoot(h, q, t', f[n]), k + 1,
          Scheduling.NextStream(id, q));
      }
    }
  }

  lemma ScheduledUpTo<N>(g: Dag<N>, q: nat, s: Scheduling.Schedule<N>, k: nat, id: nat)
    requires WellFormed(g) && Scheduling.Sized(g, q, s) && k <= |g.vertices| && id < q
    ensures k == |g.vertices| ==> Scheduling.ScheduleFrom(g, q, s, k, id) == s
    ensures k < |g.vertices| ==> g.vertices[k] in Nodes(g)
  {
    hide ListsInside, Mirrored, Distinct;
  }

  /** The clone of a graph is scheduled as the graph itself would be. */
  lemma ScheduleCommutes<N, M>(f: map<N, M>, g: Dag<N>, h: Dag<M>, q: nat)
    requires Renamed(f, g, h) && WellFormed(g) && q >= 1
    ensures WellFormed(h) && SameStreams(f, Scheduling.ScheduleAll(g, q), Scheduling.ScheduleAll(h, q))
  {
    hide WellFormed, Renamed, Scheduling.Sized, Scheduling.ScheduleFrom, Scheduling.Unscheduled;
    RenamedWellFormed(f, g, h);
    UnscheduledAlike(f, g, h, q);
    ScheduleFromCommutes(f, g, h, q, Scheduling.Unscheduled(g, q), Scheduling.Unscheduled(h, q), 0, 0);
  }

  lemma UnscheduledAlike<N, M>(f: map<N, M>, g: Dag<N>, h: Dag<M>, q: nat)
    requires Renamed(f, g, h) && WellFormed(g) && WellFormed(h) && q >= 1
    ensures Alike(f, g, h, q, Scheduling.Unscheduled(g, q), Scheduling.Unscheduled(h, q))
  {
    hide WellFormed, Renamed, Scheduling.Sized, Scheduling.Unscheduled, SameStreams;
    UnscheduledSized(g, q);
    UnscheduledSized(h, q);
    RenamedKeys(f, g, h);
    UnscheduledStreams(f, g, h, q);
  }

  lemma UnscheduledSized<N>(g: Dag<N>, q: nat)
    requires q >= 1
    ensures Scheduling.Sized(g, q, Scheduling.Unscheduled(g, q))
  {
  }

  lemma RenamedKeys<N, M>(f: map<N, M>, g: Dag<N>, h: Dag<M>)
    requires Renamed(f, g, h)
    ensures Injective(f) && f.Keys == Nodes(g) && forall n | n in f :: f[n] in Nodes(h)
  {
    forall n | n in f ensures f[n] in Nodes(h) {
      RenamedNodes(f, g, h, n);
    }
  }

  lemma UnscheduledStreams<N, M>(f: map<N, M>, g: Dag<N>, h: Dag<M>, q: nat)
    requires Injective(f) && f.Keys == Nodes(g) && forall n | n in f :: f[n] in Nodes(h)
    ensures SameStreams(f, Scheduling.Unscheduled(g, q), Scheduling.Unscheduled(h, q))
  {
    hide Injective, Nodes;
  }

  // ---- The launch order ----

  /** `b` is the image of `a`. */
  ghost predicate Maps<N, M>(f: map<N, M>, a: seq<N>, b: seq<M>) {
    Covers(f, a) && b == Image(f, a)
  }

  ghost predicate Pair<N, M>(f: map<N, M>, g: Dag<N>, h: Dag<M>) {
    Renamed(f, g, h) && WellFormed(g) && WellFormed(h)
  }

  lemma PairNode<N, M>(f: map<N, M>, g: Dag<N>, h: Dag<M>, n: N)
    requires Pair(f, g, h) && n in Nodes(g)
    ensures WellFormed(g) && WellFormed(h) && n in f && n in g.deps && n in g.edges && f[n] in Nodes(h)
            && f[n] in h.deps && f[n] in h.edges
    ensures |h.edges[f[n]]| == |g.edges[n]| && forall i | 0 <= i < |g.edges[n]| ::
              g.edges[n][i] in Nodes(g) && g.edges[n][i] in f && h.edges[f[n]][i] == f[g.edges[n][i]]
  {
    hide Mirrored, Distinct, Injective;
    RenamedNodes(f, g, h, n);
    forall i | 0 <= i < |g.edges[n]| ensures g.edges[n][i] in Nodes(g) && g.edges[n][i] in f {
      assert g.edges[n][i] in g.edges[n];
    }
  }

  lemma MapsMember<N, M>(f: map<N, M>, a: seq<N>, b: seq<M>, n: N)
    requires Injective(f) && Maps(f, a, b) && n in f
    ensures f[n] in b <==> n in a
  {
    ImageMember(f, a, n);
  }

  lemma PassedCommutes<N, M>(f: map<N, M>, g: Dag<N>, h: Dag<M>, a: seq<N>, b: seq<M>, n: N)
    requires Pair(f, g, h) && Maps(f, a, b) && n in Nodes(g) && n in g.deps && n in f && f[n] in h.deps
    ensures Passed(h, b, f[n]) <==> Passed(g, a, n)
  {
    hide ListsInside, Mirrored, Distinct, Maps, Injective;
    MapsMember(f, a, b, n);
    forall i | 0 <= i < |g.deps[n]|
        ensures g.deps[n][i] in f && h.deps[f[n]][i] == f[g.deps[n][i]]
                && (f[g.deps[n][i]] in b <==> g.deps[n][i] in a) {
      assert g.deps[n][i] in g.deps[n];
      MapsMember(f, a, b, g.deps[n][i]);
    }
    if Passed(g, a, n) && n !in a {
      var i :| 0 <= i < |g.deps[n]| && g.deps[n][i] !in a;
      assert h.deps[f[n]][i] in h.deps[f[n]];
    }
    if Passed(h, b, f[n]) && f[n] !in b {
      var i :| 0 <= i < |h.deps[f[n]]| && h.deps[f[n]][i] !in b;
      assert g.deps[n][i] in g.deps[n];
    }
  }

  lemma MapsNext<N, M>(f: map<N, M>, a: seq<N>, b: seq<M>, n: N)
    requires Maps(f, a, b) && n in f
    ensures Maps(f, a + [n], b + [f[n]])
  {
    assert Image(f, a + [n]) == Image(f, a) + [f[n]];
  }

  lemma VisitUnfolds<N>(g: Dag<N>, seen: seq<N>, n: N)
    requires WellFormed(g) && n in Nodes(g)
    ensures n in g.deps
    ensures Passed(g, seen, n) ==> VisitOne(g, seen, n) == seen
    ensures !Passed(g, seen, n) ==>
              VisitOne(g, seen, n) == VisitEdges(g, seen + [n], n, 0) && Unseen(g, seen + [n]) < Unseen(g, seen)
  {
    hide ListsInside, Mirrored, Distinct, VisitEdges;
    if !Passed(g, seen, n) {
      assert n in Unseen(g, seen) && n !in Unseen(g, seen + [n]);
    }
  }

  lemma {:induction false} VisitOneCommutes<N, M>(f: map<N, M>, g: Dag<N>, h: Dag<M>, a: seq<N>, b: seq<M>, n: N)
    requires Pair(f, g, h) && Maps(f, a, b) && n in Nodes(g) && n in f && f[n] in Nodes(h)
    ensures WellFormed(g) && WellFormed(h) && Maps(f, VisitOne(g, a, n), VisitOne(h, b, f[n]))
    decreases Unseen(g, a), 0
  {
    hide *;
    PairNode(f, g, h, n);
    PassedCommutes(f, g, h, a, b, n);
    VisitUnfolds(g, a, n);
    VisitUnfolds(h, b, f[n]);
    if !Passed(g, a, n) {
      MapsNext(f, a, b, n);
      VisitEdgesCommute(f, g, h, a + [n], b + [f[n]], n, 0);
    }
  }

  lemma {:induction false} VisitEdgesCommute<N, M>(f: map<N, M>, g: Dag<N>, h: Dag<M>, a: seq<N>, b: seq<M>, n: N,
        i: nat)
    requires Pair(f, g, h) && Maps(f, a, b) && n in Nodes(g) && n in f && f[n] in Nodes(h)
    requires n in g.edges && f[n] in h.edges && i <= |g.edges[n]| && i <= |h.edges[f[n]]|
    ensures WellFormed(g) && WellFormed(h) && Maps(f, VisitEdges(g, a, n, i), VisitEdges(h, b, f[n], i))
    decreases Unseen(g, a), |g.edges[n]| - i + 1
  {
    hide WellFormed, Pair, Maps, VisitOne, Unseen;
    PairNode(f, g, h, n);
    if i < |g.edges[n]| {
      var c := g.edges[n][i];
      PairNode(f, g, h, c);
      VisitOneCommutes(f, g, h, a, b, c);
      VisitEdgesCommute(f, g, h, VisitOne(g, a, c), VisitOne(h, b, f[c]), n, i + 1);
    }
  }

  lemma PairVertices<N, M>(f: map<N, M>, g: Dag<N>, h: Dag<M>)
    requires Pair(f, g, h)
    ensures WellFormed(g) && WellFormed(h) && |h.vertices| == |g.vertices|
    ensures forall i | 0 <= i < |g.vertices| ::
            g.vertices[i] in Nodes(g) && g.vertices[i] in f && h.vertices[i] == f[g.vertices[i]]
  {
    hide WellFormed, Renamed;
    AlikeVertex(f, g, h, 0);
  }

  lemma {:induction false} VisitFromCommutes<N, M>(f: map<N, M>, g: Dag<N>, h: Dag<M>, a: seq<N>, b: seq<M>, k: nat)
    requires Pair(f, g, h) && Maps(f, a, b) && k <= |g.vertices|
    ensures WellFormed(g) && WellFormed(h) && k <= |h.vertices| && Maps(f, VisitFrom(g, a, k), VisitFrom(h, b, k))
    decreases |g.vertices| - k
  {
    hide WellFormed, Pair, Maps, VisitOne;
    PairVertices(f, g, h);
    if k < |g.vertices| {
      var n := g.vertices[k];
      PairNode(f, g, h, n);
      VisitOneCommutes(f, g, h, a, b, n);
      VisitFromCommutes(f, g, h, VisitOne(g, a, n), VisitOne(h, b, f[n]), k + 1);
    }
  }

  /** A launch takes the nodes of a clone in the order in which it would take the originals. */
  lemma LaunchOrderCommutes<N, M>(f: map<N, M>, g: Dag<N>, h: Dag<M>)
    requires Renamed(f, g, h) && WellFormed(g)
    ensures WellFormed(h) && Maps(f, Order(g), Order(h))
  {
    hide WellFormed, Renamed, VisitFrom;
    RenamedWellFormed(f, g, h);
    assert Image(f, []) == [];
    VisitFromCommutes(f, g, h, [], [], 0);
  }

  // ---- Skipped waits ----

  lemma SoleChildCommutes<N, M>(f: map<N, M>, g: Dag<N>, h: Dag<M>, d: N, i: int, n: N)
    requires Pair(f, g, h) && d in Nodes(g) && n in Nodes(g) && d in f && n in f
    ensures SoleChild(h, f[d], i, f[n]) <==> SoleChild(g, d, i, n)
  {
    hide ListsInside, Mirrored, Distinct;
    PairNode(f, g, h, d);
    PairNode(f, g, h, n);
    if |g.deps[n]| == 1 {
      assert g.deps[n][0] in g.deps[n];
      assert h.deps[f[n]] == [f[g.deps[n][0]]] && g.deps[n] == [g.deps[n][0]];
    }
  }

  lemma ElidedCommutes<N, M>(f: map<N, M>, p: Plan<N>, r: Plan<M>, n: N)
    requires Pair(f, p.g, r.g) && p.limit == r.limit && n in Nodes(p.g) && n in f
    ensures Elided(r, f[n]) <==> Elided(p, n)
  {
    hide WellFormed, SoleChild, Pair;
    if Elided(p, n) {
      var d, i :| d in Nodes(p.g) && SoleChild(p.g, d, i, n) && i >= p.limit;
      PairNode(f, p.g, r.g, d);
      SoleChildCommutes(f, p.g, r.g, d, i, n);
    }
    if Elided(r, f[n]) {
      var e, i :| e in Nodes(r.g) && SoleChild(r.g, e, i, f[n]) && i >= r.limit;
      var d := PairOrigin(f, p.g, r.g, e);
      SoleChildCommutes(f, p.g, r.g, d, i, n);
    }
  }

  lemma PairOrigin<N, M>(f: map<N, M>, g: Dag<N>, h: Dag<M>, m: M) returns (n: N)
    requires Pair(f, g, h) && m in Nodes(h)
    ensures n in Nodes(g) && n in f && f[n] == m
  {
    n := RenamedNode(f, g, h, m);
  }

  lemma BridgedCommutes<N, M>(f: map<N, M>, g: Dag<N>, h: Dag<M>, s: map<N, int>, t: map<M, int>, a: seq<N>, b: seq<M>,
        n: N)
    requires Pair(f, g, h) && Maps(f, a, b) && n in Nodes(g) && n in f && n in g.deps && f[n] in h.deps && n in s
             && f[n] in t
    requires s.Keys == f.Keys && forall m | m in f :: f[m] in t && t[f[m]] == s[m]
    ensures BridgedIn(h, t, b, f[n]) <==> BridgedIn(g, s, a, n)
  {
    hide ListsInside, Mirrored, Distinct;
    forall i | 0 <= i < |a| ensures a[i] in f && b[i] == f[a[i]] {
      assert a[i] in a;
    }
    forall i | 0 <= i < |a| ensures g.deps[n] == [a[i]] <==> h.deps[f[n]] == [b[i]] {
      OneDep(f, g, h, n, a[i]);
    }
  }

  lemma OneDep<N, M>(f: map<N, M>, g: Dag<N>, h: Dag<M>, n: N, d: N)
    requires Pair(f, g, h) && n in Nodes(g) && n in f && n in g.deps && f[n] in h.deps && d in f
    ensures g.deps[n] == [d] <==> h.deps[f[n]] == [f[d]]
  {
    hide ListsInside, Mirrored, Distinct;
    if |g.deps[n]| == 1 {
      assert g.deps[n][0] in g.deps[n];
      assert h.deps[f[n]] == [f[g.deps[n][0]]] && g.deps[n] == [g.deps[n][0]];
    }
  }

  /** The schedules and launch orders of a graph and its clone on q streams agree. */
  ghost predicate Twins<N, M>(f: map<N, M>, g: Dag<N>, h: Dag<M>, q: nat) {
    && Pair(f, g, h) && q >= 1 && Planned(SchedulerPlan(g, q)) && Planned(SchedulerPlan(h, q))
    && SameStreams(f, Scheduling.ScheduleAll(g, q), Scheduling.ScheduleAll(h, q)) && Maps(f, Order(g), Order(h))
  }

  lemma AreTwins<N, M>(f: map<N, M>, g: Dag<N>, h: Dag<M>, q: nat)
    requires Renamed(f, g, h) && WellFormed(g) && q >= 1
    ensures Twins(f, g, h, q)
  {
    hide WellFormed, Renamed, SchedulerPlan, Planned, SameStreams, Maps, Order, Scheduling.ScheduleAll;
    RenamedWellFormed(f, g, h);
    ScheduleCommutes(f, g, h, q);
    LaunchOrderCommutes(f, g, h);
    SchedulerPlanned(g, q);
    SchedulerPlanned(h, q);
  }

  lemma TwinNode<N, M>(f: map<N, M>, g: Dag<N>, h: Dag<M>, q: nat, n: N)
    requires Twins(f, g, h, q) && n in Nodes(g)
    ensures var p, r := SchedulerPlan(g, q), SchedulerPlan(h, q);
            && n in f && f[n] in Nodes(h) && n in g.deps && f[n] in h.deps && n in p.stream && f[n] in r.stream
            && (Elided(r, f[n]) <==> Elided(p, n))
            && (BridgedIn(h, r.stream, Order(h), f[n]) <==> BridgedIn(g, p.stream, Order(g), n))
  {
    hide WellFormed, Renamed, Planned, Maps, Order, Scheduling.ScheduleAll, BridgedIn, Elided, Pair;
    PairNode(f, g, h, n);
    ElidedCommutes(f, SchedulerPlan(g, q), SchedulerPlan(h, q), n);
    BridgedCommutes(f, g, h, SchedulerPlan(g, q).stream, SchedulerPlan(h, q).stream, Order(g), Order(h), n);
  }

  /** Whether all skipped waits of a clone are bridged is decided by its original. */
  lemma OrderlyCommutes<N, M>(f: map<N, M>, g: Dag<N>, h: Dag<M>, q: nat)
    requires Renamed(f, g, h) && WellFormed(g) && q >= 1
    ensures Orderly(h, q) <==> Orderly(g, q)
  {
    hide ListsInside, Mirrored, Distinct, Renamed, Order, Elided, BridgedIn, SameStreams, Maps, Scheduling.ScheduleAll;
    AreTwins(f, g, h, q);
    if Orderly(h, q) {
      forall n | n in Nodes(g) && Elided(SchedulerPlan(g, q), n)
          ensures BridgedIn(g, SchedulerPlan(g, q).stream, Order(g), n) {
        TwinNode(f, g, h, q, n);
      }
    }
    if Orderly(g, q) {
      forall m | m in Nodes(h) && Elided(SchedulerPlan(h, q), m)
          ensures BridgedIn(h, SchedulerPlan(h, q).stream, Order(h), m) {
        var n := PairOrigin(f, g, h, m);
        TwinNode(f, g, h, q, n);
      }
    }
  }
}
