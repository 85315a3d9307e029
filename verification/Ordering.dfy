/** What the emitted log orders: when every edge of the graph is respected, and how the
    launch is fenced from the work before and after it. */
module Ordering {
  import opened Dags
  import opened Streams
  import opened Launching
  import opened LaunchSoundness
  import Scheduling

  /** Node d's command happens before node n's. */
  ghost predicate Orders<N>(s: Launch<N>, d: N, n: N) {
    d in s.commands && n in s.commands && Before(s.log, s.commands[d], s.commands[n])
  }

  /** Every edge into a launched node whose id is below j is respected. */
  ghost predicate OrderedBelow<N>(p: Plan<N>, s: Launch<N>, j: int)
    requires Planned(p) && Fits(p, s)
  {
    forall n, d | n in Nodes(p.g) && Launched(s, n) && s.ids[n] < j && d in p.g.deps[n] :: Orders(s, d, n)
  }

  /** Every edge into a launched node is respected. */
  ghost predicate AllOrdered<N>(p: Plan<N>, s: Launch<N>)
    requires Planned(p) && Fits(p, s)
  {
    forall n, d | n in Nodes(p.g) && Launched(s, n) && d in p.g.deps[n] :: Orders(s, d, n)
  }

  /** The only parent of an elided node, or something launched after it, runs on the
      node's own stream before the node. */
  ghost predicate Bridged<N>(p: Plan<N>, s: Launch<N>, n: N)
    requires Planned(p) && Fits(p, s) && n in Nodes(p.g)
  {
    exists d, x {:trigger Bridges(p, s, n, d, x)} :: d in Nodes(p.g) && x in Nodes(p.g) && Bridges(p, s, n, d, x)
  }

  ghost predicate Bridges<N>(p: Plan<N>, s: Launch<N>, n: N, d: N, x: N)
    requires Planned(p) && Fits(p, s) && n in Nodes(p.g) && d in Nodes(p.g) && x in Nodes(p.g)
  {
    p.g.deps[n] == [d] && p.stream[x] == p.stream[n] && Launched(s, x) && s.ids[d] <= s.ids[x] < s.ids[n]
  }

  // ---- Facts a sound state gives about single nodes ----

  lemma SoundNode<N>(p: Plan<N>, base: nat, s: Launch<N>, n: N)
    requires Sound(p, base, s) && n in Nodes(p.g) && Launched(s, n)
    ensures Enqueued(p, base, s, n) && Entry(p, s, n)
  {
    hide WellFormed, Enqueued, Entry;
  }

  lemma SoundDep<N>(p: Plan<N>, base: nat, s: Launch<N>, n: N, d: N)
    requires Sound(p, base, s) && n in Nodes(p.g) && Launched(s, n) && d in p.g.deps[n]
    ensures d in Nodes(p.g) && Launched(s, d) && 0 <= s.ids[d] < s.ids[n]
  {
    hide WellFormed, Sheltered, Covered, Precise;
    SoundNode(p, base, s, n);
  }

  /** Two launched nodes on one stream are ordered by their launch ids. */
  lemma SameStream<N>(p: Plan<N>, base: nat, s: Launch<N>, d: N, n: N)
    requires Sound(p, base, s) && n in Nodes(p.g) && d in Nodes(p.g) && Launched(s, n) && Launched(s, d)
    requires p.stream[d] == p.stream[n] && s.ids[d] < s.ids[n]
    ensures Orders(s, d, n)
  {
    hide WellFormed, Entry, Before, LeafTable;
    SoundNode(p, base, s, d);
    SoundNode(p, base, s, n);
    BeforeDirect(s.log, s.commands[d], s.commands[n]);
  }

  lemma OrdersThrough<N>(s: Launch<N>, a: N, b: N, c: N)
    requires Orders(s, a, b) && Orders(s, b, c)
    ensures Orders(s, a, c)
  {
    BeforeThrough(s.log, s.commands[a], s.commands[b], s.commands[c]);
  }

  // ---- Why each edge is respected ----

  lemma CoveredOrders<N>(p: Plan<N>, base: nat, s: Launch<N>, n: N, d: N)
    requires Sound(p, base, s) && n in Nodes(p.g) && Launched(s, n) && d in p.g.deps[n] && d in Nodes(p.g)
    requires Covered(p, s, n, d)
    ensures Orders(s, d, n)
  {
    hide ListsInside, Mirrored, Distinct, Numbered, Entries, LeafTable, Before, Entry;
    SoundDep(p, base, s, n, d);
    SoundNode(p, base, s, n);
    if p.stream[d] == p.stream[n] {
      SameStream(p, base, s, d, n);
    } else {
      var e :| e in p.g.deps[n] && e in Nodes(p.g) && Stands(p, s, n, d, e);
      SoundDep(p, base, s, n, e);
      SoundNode(p, base, s, e);
      SoundNode(p, base, s, d);
      BeforeDirect(s.log, s.commands[e], s.commands[n]);
      if s.ids[d] < s.ids[e] {
        SameStream(p, base, s, d, e);
        OrdersThrough(s, d, e, n);
      }
    }
  }

  /** A walk between launched nodes is respected end to end once its edges are. */
  lemma {:induction false} WalkOrders<N>(p: Plan<N>, base: nat, s: Launch<N>, j: int, a: N, b: N, k: nat)
    requires Sound(p, base, s) && OrderedBelow(p, s, j)
    requires a in Nodes(p.g) && b in Nodes(p.g) && Launched(s, b) && s.ids[b] < j && Walk(p.g, a, b, k)
    ensures a == b || Orders(s, a, b)
  {
    hide Mirrored, Distinct, Numbered, Entries, LeafTable, Before, Orders;
    if k > 0 {
      var c := WalkLastEdge(p.g, a, b, k);
      ChildIn(p.g, c, b);
      SoundDep(p, base, s, b, c);
      WalkOrders(p, base, s, j, a, c, k - 1);
      if a != c {
        OrdersThrough(s, a, c, b);
      }
    }
  }

  lemma BridgedOrders<N>(p: Plan<N>, base: nat, s: Launch<N>, n: N)
    requires Sound(p, base, s) && n in Nodes(p.g) && Launched(s, n) && Elided(p, n) && Bridged(p, s, n)
    requires OrderedBelow(p, s, s.ids[n])
    ensures forall d | d in p.g.deps[n] :: Orders(s, d, n)
  {
    hide ListsInside, Mirrored, Distinct, Numbered, Entries, LeafTable, Before, Orders, Reaches;
    var d, x :| d in Nodes(p.g) && x in Nodes(p.g) && Bridges(p, s, n, d, x);
    SameStream(p, base, s, x, n);
    SoundNode(p, base, s, n);
    SoundDep(p, base, s, n, d);
    if x != d {
      DifferentIds(p, base, s, d, x);
      var e, i := ElidedAt(p, n);
      assert e == d;
      ReachOrders(p, base, s, s.ids[n], d, x);
      OrdersThrough(s, d, x, n);
    }
  }

  lemma DifferentIds<N>(p: Plan<N>, base: nat, s: Launch<N>, d: N, x: N)
    requires Sound(p, base, s) && d in Nodes(p.g) && x in Nodes(p.g) && Launched(s, d) && Launched(s, x) && d != x
    ensures s.ids[d] != s.ids[x]
  {
    hide WellFormed, Entry, Numbered, Entries, LeafTable;
    SoundNode(p, base, s, d);
    SoundNode(p, base, s, x);
  }

  lemma ReachOrders<N>(p: Plan<N>, base: nat, s: Launch<N>, j: int, a: N, b: N)
    requires Sound(p, base, s) && OrderedBelow(p, s, j)
    requires a in Nodes(p.g) && b in Nodes(p.g) && Launched(s, b) && s.ids[b] < j && Reaches(p.g, a, b)
    ensures a == b || Orders(s, a, b)
  {
    var k: nat :| Walk(p.g, a, b, k);
    WalkOrders(p, base, s, j, a, b, k);
  }

  // ---- Exactly when every edge is respected ----

  ghost predicate AllBridged<N>(p: Plan<N>, s: Launch<N>)
    requires Planned(p) && Fits(p, s)
  {
    forall n | n in Nodes(p.g) && Launched(s, n) && Elided(p, n) :: Bridged(p, s, n)
  }

  lemma NodeOrdered<N>(p: Plan<N>, base: nat, s: Launch<N>, n: N)
    requires Sound(p, base, s) && AllBridged(p, s) && n in Nodes(p.g) && Launched(s, n) && OrderedBelow(p, s, s.ids[n])
    ensures forall d | d in p.g.deps[n] :: Orders(s, d, n)
  {
    hide ListsInside, Mirrored, Distinct, Numbered, Entries, LeafTable, Before, Orders, Elided, Bridged, Sheltered,
      Covered, Precise, OrderedBelow;
    if Elided(p, n) {
      BridgedOrders(p, base, s, n);
    } else {
      SoundNode(p, base, s, n);
      forall d | d in p.g.deps[n] ensures Orders(s, d, n) {
        SoundDep(p, base, s, n, d);
        CoveredOrders(p, base, s, n, d);
      }
    }
  }

  lemma {:induction false} BridgedBelow<N>(p: Plan<N>, base: nat, s: Launch<N>, j: nat)
    requires Sound(p, base, s) && AllBridged(p, s)
    ensures OrderedBelow(p, s, j)
  {
    hide ListsInside, Mirrored, Distinct, Numbered, Entries, LeafTable, Orders, AllBridged;
    if j > 0 {
      BridgedBelow(p, base, s, j - 1);
      forall n, d | n in Nodes(p.g) && Launched(s, n) && s.ids[n] == j - 1 && d in p.g.deps[n] ensures Orders(s, d, n) {
        NodeOrdered(p, base, s, n);
      }
    } else {
      forall n | n in Nodes(p.g) && Launched(s, n) ensures 0 <= s.ids[n] {
        SoundNode(p, base, s, n);
      }
    }
  }

  /** Different virtual streams have different queues. */
  ghost predicate OwnQueues<N>(p: Plan<N>) {
    forall i, j | 0 <= i < j < |p.queues| && j < p.limit :: p.queues[i] != p.queues[j]
  }

  lemma OrderedBridges<N>(p: Plan<N>, base: nat, s: Launch<N>, n: N)
    requires Sound(p, base, s) && OwnQueues(p) && n in Nodes(p.g) && Launched(s, n) && Elided(p, n)
    requires forall d | d in p.g.deps[n] :: Orders(s, d, n)
    ensures Bridged(p, s, n)
  {
    hide ListsInside, Mirrored, Distinct, Entries, LeafTable, Reaches, Entry;
    var d, i := ElidedAt(p, n);
    assert d in p.g.deps[n] by { assert p.g.deps[n] == [d]; }
    SoundDep(p, base, s, n, d);
    SoundNode(p, base, s, n);
    SoundNode(p, base, s, d);
    ElidedWaitsForNothing(p, s, n);
    var m :| s.commands[d] <= m < s.commands[n] && Direct(s.log, m, s.commands[n]);
    assert Named(p, base, s, m - base);
    var x := s.log[m].work.node;
    assert Launched(s, x) && x in Nodes(p.g);
    SoundNode(p, base, s, x);
    assert Bridges(p, s, n, d, x);
  }

  lemma ElidedWaitsForNothing<N>(p: Plan<N>, s: Launch<N>, n: N)
    requires At(p, s, n) && Elided(p, n) && Entry(p, s, n)
    ensures s.commands[n] < |s.log| && s.log[s.commands[n]].waits == []
  {
  }

  /** The main ordering theorem. For any graph, any assignment of streams and any stream
      limit: the emitted log respects every edge exactly when each elided node, one whose
      wait list was skipped, shares its stream with its parent or with something launched
      between the two. Streams, launch order and edges alone decide this. */
  lemma EdgesRespectedExactly<N>(p: Plan<N>, base: nat, s: Launch<N>)
    requires Sound(p, base, s) && OwnQueues(p)
    ensures AllOrdered(p, s) <==> AllBridged(p, s)
  {
    hide WellFormed, Numbered, Entries, LeafTable, Orders, Bridged, Elided, OwnQueues;
    if AllBridged(p, s) {
      BridgedRespects(p, base, s);
    }
    if AllOrdered(p, s) {
      forall n | n in Nodes(p.g) && Launched(s, n) && Elided(p, n) ensures Bridged(p, s, n) {
        OrderedBridges(p, base, s, n);
      }
    }
  }

  lemma BridgedRespects<N>(p: Plan<N>, base: nat, s: Launch<N>)
    requires Sound(p, base, s) && AllBridged(p, s)
    ensures AllOrdered(p, s)
  {
    hide WellFormed, Entries, LeafTable, Orders, Bridged, Elided;
    BridgedBelow(p, base, s, s.next);
    forall n | n in Nodes(p.g) && Launched(s, n) ensures s.ids[n] < s.next {
      assert Enqueued(p, base, s, n);
    }
  }

  // ---- Two conditions on the graph that make every elided node bridged ----

  /** No node has more children than there are streams. */
  ghost predicate Narrow<N>(p: Plan<N>)
    requires Planned(p)
  {
    forall n | n in Nodes(p.g) :: |p.g.edges[n]| <= p.limit
  }

  lemma NarrowRespects<N>(p: Plan<N>, base: nat, s: Launch<N>)
    requires Sound(p, base, s) && Narrow(p)
    ensures AllOrdered(p, s)
  {
    hide ListsInside, Mirrored, Distinct, Numbered, Entries, LeafTable, AllOrdered, Bridged;
    BridgedRespects(p, base, s);
  }

  /** Where a node has more children than there are streams, the first `limit` of them
      have no other parent. */
  ghost predicate EldersSole<N>(p: Plan<N>)
    requires Planned(p)
  {
    forall d, k | d in Nodes(p.g) && |p.g.edges[d]| > p.limit && 0 <= k < p.limit ::
      SoleChild(p.g, d, k, p.g.edges[d][k])
  }

  lemma ElderBridges<N>(p: Plan<N>, base: nat, s: Launch<N>, n: N)
    requires Sound(p, base, s) && EldersSole(p) && Scheduling.ParentFirst(p.g)
    requires p.stream == Scheduling.ScheduleAll(p.g, p.limit).stream
    requires n in Nodes(p.g) && Launched(s, n) && Elided(p, n)
    ensures Bridged(p, s, n)
  {
    hide ListsInside, Mirrored, Distinct, Numbered, Entries, LeafTable, Reaches, Elided, Scheduling.ScheduleAll,
      Scheduling.ParentFirst, Covered, Precise;
    var d, i := ElidedAt(p, n);
    var k := i % p.limit;
    assert SoleChild(p.g, d, k, p.g.edges[d][k]);
    var x := p.g.edges[d][k];
    Scheduling.SoleChildrenFan(p.g, p.limit, d, i);
    ChildOf(p.g, d, k);
    Scheduling.SoleChildrenFan(p.g, p.limit, d, k);
    Scheduling.DealtRound(p.stream[d], i, p.limit);
    SoundNode(p, base, s, n);
    assert Launched(s, x) && s.ids[x] < s.ids[n];
    SoundDep(p, base, s, x, d);
    assert Bridges(p, s, n, d, x);
  }

  /** With the scheduler's own streams, sole elder children bridge every skipped wait. */
  lemma EldersRespect<N>(p: Plan<N>, base: nat, s: Launch<N>)
    requires Sound(p, base, s) && EldersSole(p) && Scheduling.ParentFirst(p.g)
    requires p.stream == Scheduling.ScheduleAll(p.g, p.limit).stream
    ensures AllOrdered(p, s)
  {
    hide ListsInside, Mirrored, Distinct, Numbered, Entries, LeafTable, AllOrdered, Bridged, Elided,
      Scheduling.ScheduleAll, Scheduling.ParentFirst, EldersSole;
    forall n | n in Nodes(p.g) && Launched(s, n) && Elided(p, n) ensures Bridged(p, s, n) {
      ElderBridges(p, base, s, n);
    }
    BridgedRespects(p, base, s);
  }
}
