/** A graph whose parallel launch loses an edge: on two virtual streams, node 0 has four
    children, and the second of them also waits for node 1. Nothing on the last child's
    stream stands between that child and node 0, and its wait is skipped. */
module WideFanout {
  import opened Dags
  import opened Launching
  import opened LaunchSoundness
  import opened Ordering
  import opened Fencing
  import opened Walking
  import opened Delivery
  import Scheduling

  function Wide(): Dag<int> {
    Dag([0, 1, 2, 3, 4, 5],
        map[0 := [2, 3, 4, 5], 1 := [3], 2 := [], 3 := [], 4 := [], 5 := []],
        map[0 := [], 1 := [], 2 := [0], 3 := [0, 1], 4 := [0], 5 := [0]])
  }

  lemma WideNodes()
    ensures Nodes(Wide()) == {0, 1, 2, 3, 4, 5}
  {
  }

  lemma WideLists()
    ensures ListsInside({0, 1, 2, 3, 4, 5}, Wide().edges) && ListsInside({0, 1, 2, 3, 4, 5}, Wide().deps)
  {
  }

  lemma WideMirrors(u: int, v: int)
    requires u in {0, 1, 2, 3, 4, 5} && v in {0, 1, 2, 3, 4, 5}
    ensures v in Wide().edges[u] <==> u in Wide().deps[v]
  {
  }

  lemma WideFormed()
    ensures WellFormed(Wide())
  {
    hide Wide, Nodes, ListsInside;
    WideNodes();
    WideLists();
    WideShape();
    forall u, v | u in {0, 1, 2, 3, 4, 5} && v in {0, 1, 2, 3, 4, 5}
        ensures v in Wide().edges[u] <==> u in Wide().deps[v] {
      WideMirrors(u, v);
    }
  }

  lemma WideShape()
    ensures Wide().edges.Keys == Wide().deps.Keys == {0, 1, 2, 3, 4, 5} && Distinct(Wide().vertices)
  {
  }

  lemma WideParents()
    ensures Scheduling.ParentFirst(Wide())
  {
    var g := Wide();
    forall j | 0 <= j < 6 && |g.deps[g.vertices[j]]| == 1 ensures g.deps[g.vertices[j]][0] in g.vertices[..j] {
      assert g.vertices[..j][0] == 0;
    }
  }

  lemma WideAcyclic()
    ensures Acyclic(Wide())
  {
    hide Acyclic;
    WideNodes();
    RankedIsAcyclic(Wide(), map[0 := 0, 1 := 1, 2 := 2, 3 := 3, 4 := 4, 5 := 5]);
  }

  lemma VisitsChild(seen: seq<int>, node: int, i: nat, after: seq<int>)
    requires WellFormed(Wide()) && node in {0, 1} && i < |Wide().edges[node]|
    requires Wide().edges[node][i] in Nodes(Wide()) && node in Nodes(Wide())
             && VisitOne(Wide(), seen, Wide().edges[node][i]) == after
    ensures VisitEdges(Wide(), seen, node, i) == VisitEdges(Wide(), after, node, i + 1)
  {
    hide WellFormed, VisitOne;
  }

  lemma VisitsRoot(seen: seq<int>, node: int)
    requires WellFormed(Wide()) && node in {0, 1} && node !in seen
    ensures node in Nodes(Wide()) && VisitOne(Wide(), seen, node) == VisitEdges(Wide(), seen + [node], node, 0)
    ensures VisitEdges(Wide(), seen, node, |Wide().edges[node]|) == seen
  {
    hide WellFormed;
  }

  lemma VisitsFirst()
    requires WellFormed(Wide())
    ensures 0 in Nodes(Wide()) && VisitOne(Wide(), [], 0) == [0, 2, 4, 5]
  {
    hide WellFormed, VisitOne, VisitEdges;
    WideNodes();
    VisitsRoot([], 0);
    assert [] + [0] == [0];
    VisitsLeaf([0], 2);
    VisitsChild([0], 0, 0, [0, 2]);
    Skips([0, 2]);
    VisitsChild([0, 2], 0, 1, [0, 2]);
    VisitsLeaf([0, 2], 4);
    VisitsChild([0, 2], 0, 2, [0, 2, 4]);
    VisitsLeaf([0, 2, 4], 5);
    VisitsChild([0, 2, 4], 0, 3, [0, 2, 4, 5]);
    VisitsEnd([0, 2, 4, 5], 0);
  }

  lemma VisitsEnd(seen: seq<int>, node: int)
    requires WellFormed(Wide()) && node in {0, 1}
    ensures node in Nodes(Wide()) && VisitEdges(Wide(), seen, node, |Wide().edges[node]|) == seen
  {
    hide WellFormed;
  }

  /** Node 3 is left for later while node 1 is missing. */
  lemma Skips(seen: seq<int>)
    requires WellFormed(Wide()) && 1 !in seen
    ensures 3 in Nodes(Wide()) && VisitOne(Wide(), seen, 3) == seen
  {
    hide WellFormed;
    assert 1 in Wide().deps[3];
  }

  /** The order in which the nodes are launched. */
  lemma WideVisits()
    requires WellFormed(Wide())
    ensures Order(Wide()) == [0, 2, 4, 5, 1, 3]
  {
    hide WellFormed, VisitOne, VisitEdges;
    WideNodes();
    VisitsFirst();
    VisitsRoot([0, 2, 4, 5], 1);
    assert [0, 2, 4, 5] + [1] == [0, 2, 4, 5, 1];
    VisitsLeaf([0, 2, 4, 5, 1], 3);
    VisitsChild([0, 2, 4, 5, 1], 1, 0, [0, 2, 4, 5, 1, 3]);
    VisitsEnd([0, 2, 4, 5, 1, 3], 1);
    var all := [0, 2, 4, 5, 1, 3];
    forall n | n in {2, 3, 4, 5} ensures n in Nodes(Wide()) && VisitOne(Wide(), all, n) == all {
      VisitsAgain(all, n);
    }
    RestVisited(all);
    assert Order(Wide()) == VisitFrom(Wide(), [0, 2, 4, 5], 1) == VisitFrom(Wide(), all, 2);
  }

  lemma VisitsAgain(seen: seq<int>, n: int)
    requires WellFormed(Wide()) && n in seen && n in Nodes(Wide())
    ensures VisitOne(Wide(), seen, n) == seen
  {
    hide WellFormed;
  }

  lemma RestVisited(seen: seq<int>)
    requires WellFormed(Wide()) && forall n | n in {2, 3, 4, 5} ::
             n in Nodes(Wide()) && VisitOne(Wide(), seen, n) == seen
    ensures VisitFrom(Wide(), seen, 2) == seen
  {
    hide WellFormed, VisitOne, VisitEdges;
    assert VisitFrom(Wide(), seen, 6) == seen;
    assert VisitFrom(Wide(), seen, 5) == seen;
    assert VisitFrom(Wide(), seen, 4) == seen;
    assert VisitFrom(Wide(), seen, 3) == seen;
  }

  lemma VisitsLeaf(seen: seq<int>, n: int)
    requires WellFormed(Wide()) && n in {2, 3, 4, 5} && n !in seen && forall d | d in Wide().deps[n] :: d in seen
    ensures n in Nodes(Wide()) && VisitOne(Wide(), seen, n) == seen + [n]
  {
    hide WellFormed;
  }

  /** On two streams the scheduler puts the last child off the stream of everything that
      is launched between it and its parent. */
  lemma WideStreams()
    requires WellFormed(Wide())
    ensures var t := Scheduling.ScheduleAll(Wide(), 2).stream;
            t.Keys == Nodes(Wide()) && t[5] != t[0] && t[5] != t[2] && t[5] != t[4]
  {
    hide WellFormed, Scheduling.ScheduleAll, Wide;
    WideNodes();
    Scheduling.ScheduleSound(Wide(), 2);
    FanOf(0);
    FanOf(2);
    FanOf(3);
  }

  lemma FanOf(i: nat)
    requires WellFormed(Wide()) && i < 4 && i != 1
    ensures var t := Scheduling.ScheduleAll(Wide(), 2).stream;
            0 in t && 0 <= t[0] && 2 + i in t && t[2 + i] == (t[0] + i) % 2
  {
    hide WellFormed, Scheduling.ScheduleAll, Scheduling.ParentFirst, Wide;
    WideParents();
    FanFacts(i);
    Scheduling.ScheduleSound(Wide(), 2);
    Scheduling.SoleChildrenFan(Wide(), 2, 0, i);
  }

  lemma FanFacts(i: nat)
    requires i < 4 && i != 1
    ensures 0 in Nodes(Wide()) && 2 + i in Nodes(Wide())
    ensures 0 in Wide().edges && |Wide().edges[0]| == 4 && Wide().edges[0][i] == 2 + i && 2 + i in Wide().deps
            && Wide().deps[2 + i] == [0]
  {
    WideNodes();
  }

  lemma WideUnbridged(t: map<int, int>)
    requires 5 in t && 0 in t && 2 in t && 4 in t && t[5] != t[0] && t[5] != t[2] && t[5] != t[4]
    ensures !BridgedIn(Wide(), t, [0, 2, 4, 5, 1, 3], 5)
  {
  }

  lemma WideElided(p: Plan<int>)
    requires WellFormed(Wide()) && p.g == Wide() && p.limit == 2
    ensures Elided(p, 5) && 5 in Nodes(Wide())
  {
    hide WellFormed;
    WideNodes();
    assert SoleChild(Wide(), 0, 3, 5);
  }

  /** Every finished parallel launch of this graph on two streams leaves node 5 unordered
      after its parent, node 0. */
  lemma WideFanoutLosesEdge(p: Plan<int>, roots: seq<Option<int>>, last: Option<nat>, s: Launch<int>, r: Launch<int>)
    requires Ran(p, roots, last, s, r) && OwnQueues(p)
    requires p.g == Wide() && p.limit == 2 && p.stream == Scheduling.ScheduleAll(Wide(), 2).stream
    ensures 5 in Wide().edges[0] && !Orders(r, 0, 5)
  {
    hide ListsInside, Mirrored, Distinct, Ran, Orders, OwnQueues, Order, Scheduling.ScheduleAll, BridgedIn, Elided;
    WideFormed();
    WideStreams();
    WideVisits();
    WideUnbridged(p.stream);
    WideElided(p);
    UnbridgedLosesEdge(p, roots, last, s, r, 0, 5);
  }

  /** Such a launch takes place and succeeds, on the scheduler's streams, with its root
      table and a queue for each stream. */
  lemma WideFanoutHappens() returns (p: Plan<int>, roots: seq<Option<int>>, s: Launch<int>, r: Launch<int>)
    ensures WellFormed(Wide()) && p.g == Wide() && p.limit == 2 && OwnQueues(p)
    ensures p.stream == Scheduling.ScheduleAll(Wide(), 2).stream && roots == Scheduling.ScheduleAll(Wide(), 2).roots
    ensures Planned(p) && RootsKnown(p, roots) && Ran(p, roots, None, s, r) && !Orders(r, 0, 5)
  {
    hide ListsInside, Mirrored, Distinct, Wide, Planned, OwnQueues, Orders, Acyclic, Sound, AllLaunched,
      Scheduling.ScheduleAll,
      FirstState, RunFrom, RunAll, Started, SchedulerPlan;
    WideFormed();
    WideAcyclic();
    p, roots := SchedulerPlan(Wide(), 2), Scheduling.ScheduleAll(Wide(), 2).roots;
    NoneFail(Wide(), 2);
    FirstStateIdle(p);
    s := FirstState(p);
    SchedulerCanRun(Wide(), 2, p, s);
    LaunchComplete(p, roots, None, s);
    r := RunFrom(p, Started(p, roots, None, s), 0).state;
    WideFanoutLosesEdge(p, roots, None, s, r);
  }

  lemma NoneFail<N>(g: Dag<N>, q: nat)
    requires WellFormed(g) && q >= 1
    ensures var p := SchedulerPlan(g, q);
            Planned(p) && AllCreated(p) && p == p.(failing := p.failing) && |p.queues| == q
  {
    hide WellFormed, Scheduling.ScheduleAll;
    SchedulerPlanned(g, q);
  }
}
