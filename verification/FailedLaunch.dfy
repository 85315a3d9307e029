/** What launch ids kept by a failed launch do to the next one: they compete with ids that
    start again at 0, so the wait list of a node may name a stale command in place of the
    one the node depends on. A graph with two children at most loses an edge that way. */
module FailedLaunch {
  import opened Dags
  import opened Streams
  import opened Launching
  import opened LaunchSoundness
  import opened Ordering
  import opened Fencing
  import opened Walking
  import opened Delivery
  import Scheduling

  // ---- A stale launch id hides a dependency ----

  lemma {:induction false} WaitListOnly<N>(s: Launch<N>, w: seq<Option<N>>, k: nat, c: nat)
    requires k <= |w| && forall i | 0 <= i < |w| && w[i].Some? :: w[i].value in s.commands
    requires forall i | 0 <= i < k && w[i].Some? :: s.commands[w[i].value] != c
    ensures c !in WaitList(s, w, k)
  {
    if k > 0 {
      WaitListOnly(s, w, k - 1, c);
    }
  }

  /** Of two dependencies on one foreign stream, the one with the smaller launch id is not
      waited for. */
  lemma SmallerIdHidden<N>(p: Plan<N>, s: Launch<N>, n: N, wait: bool, a: N, b: N)
    requires At(p, s, n) && a in p.g.deps[n] && b in p.g.deps[n] && a in Nodes(p.g) && b in Nodes(p.g)
    requires p.stream[a] == p.stream[b] != p.stream[n] && s.ids[b] < s.ids[a]
    requires forall d | d in p.g.deps[n] && d in Nodes(p.g) && d != b :: s.commands[d] != s.commands[b]
    ensures var log := Submit(p, s, n, wait).log; |log| == |s.log| + 1 && s.commands[b] !in log[|s.log|].waits
  {
    hide ListsInside, Mirrored, Distinct, Latest, WaitList;
    LatestSlots(p, s, n, |p.g.deps[n]|);
    var w := Latest(p, s, n, |p.g.deps[n]|);
    var i :| 0 <= i < |p.g.deps[n]| && p.g.deps[n][i] == a;
    assert Slotted(p, s, n, w, a);
    WaitListOnly(s, w, p.limit, s.commands[b]);
  }

  // ---- When the launch after a failed one delivers ----

  lemma FitsAgain<N>(p: Plan<N>, q: Plan<N>, roots: seq<Option<N>>, s: Launch<N>, t: Launch<N>)
    requires CanRun(p, roots, s) && Fits(p, t) && q == p.(failing := q.failing)
    ensures CanRun(q, roots, t) && OwnQueues(q) && Planned(q) && 0 < |q.queues| && RootsKnown(q, roots)
    ensures |roots| == q.limit && forall i | 0 < i < |roots| && roots[i].Some? :: i < |q.queues|
  {
  }

  lemma IdleAgain<N>(p: Plan<N>, q: Plan<N>, order: seq<N>, k: nat, t: Launch<N>)
    requires k < |order| && Tracks(p, t, order[..k])
    requires order[k] in p.failing && (forall j | 0 <= j < k :: order[j] !in p.failing)
    ensures Idle(q, t) <==> order[0] in p.failing
  {
    hide WellFormed;
    if k > 0 {
      assert order[..k][0] == order[0];
    }
  }

  /** After a launch from an idle state that failed, whatever can be created by then: a launch
      that reports success delivers the graph exactly when the first node of the launch order
      is where the failed one stopped, so that nothing was launched, and the skipped waits are
      bridged. */
  lemma RetryDeliversExactly<N>(p: Plan<N>, q: Plan<N>, roots: seq<Option<N>>, last: Option<nat>, s: Launch<N>,
                                again: Option<nat>)
    requires CanRun(p, roots, s) && Idle(p, s) && q == p.(failing := q.failing)
    ensures RootsKnown(p, roots) && CanRun(q, roots, RunAll(p, roots, last, s).state)
    ensures var first := RunAll(p, roots, last, s); var second := RunAll(q, roots, again, first.state);
            var end := second.state.log; var log := end + Closing(p.queues[0], |end|);
            !first.ok && second.ok ==>
              && Order(p.g) != []
              && (Delivered(p.g, p.queues[0], |first.state.log|, log, second.state.commands)
                  <==> Order(p.g)[0] in p.failing && Bridgeable(p))
  {
    hide WellFormed, RunAll, Order, Delivered, Bridgeable, OwnQueues, Acyclic, Closing, RootsKnown, Idle, Tracks;
    RootsKnownParts(p, roots);
    var first := RunAll(p, roots, last, s);
    FitsAgain(p, q, roots, s, first.state);
    if !first.ok {
      var k := FailedLaunchLeaves(p, roots, last, s);
      IdleAgain(p, q, Order(p.g), k, first.state);
      LaunchDelivers(q, roots, again, first.state);
      if Bridgeable(p) {
        SameBridgeable(q, p);
      }
      if Bridgeable(q) {
        SameBridgeable(p, q);
      }
    }
  }

  // ---- A graph that loses an edge in the launch after a failed one ----

  function Cross(): Dag<int> {
    Dag([0, 1, 2, 3, 4, 5],
        map[0 := [], 1 := [5, 4], 2 := [], 3 := [4], 4 := [], 5 := []],
        map[0 := [], 1 := [], 2 := [], 3 := [], 4 := [1, 3], 5 := [1]])
  }

  lemma CrossNodes()
    ensures Nodes(Cross()) == {0, 1, 2, 3, 4, 5}
  {
  }

  lemma CrossLists()
    ensures ListsInside({0, 1, 2, 3, 4, 5}, Cross().edges) && ListsInside({0, 1, 2, 3, 4, 5}, Cross().deps)
  {
  }

  lemma CrossMirrors(u: int, v: int)
    requires u in {0, 1, 2, 3, 4, 5} && v in {0, 1, 2, 3, 4, 5}
    ensures v in Cross().edges[u] <==> u in Cross().deps[v]
  {
  }

  lemma CrossShape()
    ensures Cross().edges.Keys == Cross().deps.Keys == {0, 1, 2, 3, 4, 5} && Distinct(Cross().vertices)
  {
  }

  lemma CrossFormed()
    ensures WellFormed(Cross())
  {
    hide Cross, Nodes, ListsInside;
    CrossNodes();
    CrossLists();
    CrossShape();
    forall u, v | u in {0, 1, 2, 3, 4, 5} && v in {0, 1, 2, 3, 4, 5}
        ensures v in Cross().edges[u] <==> u in Cross().deps[v] {
      CrossMirrors(u, v);
    }
  }

  lemma CrossAcyclic()
    ensures Acyclic(Cross())
  {
    hide Acyclic;
    CrossNodes();
    RankedIsAcyclic(Cross(), map[0 := 0, 1 := 1, 2 := 2, 3 := 3, 4 := 4, 5 := 5]);
  }

  /** What the launch walk and the schedule read. */
  lemma CrossFacts()
    requires WellFormed(Cross())
    ensures var g := Cross();
            && g.vertices == [0, 1, 2, 3, 4, 5] && Nodes(g) == g.edges.Keys == g.deps.Keys == {0, 1, 2, 3, 4, 5}
            && g.edges[1] == [5, 4] && g.edges[3] == [4] && g.edges[0] == g.edges[2] == g.edges[4] == g.edges[5] == []
            && g.deps[4] == [1, 3] && g.deps[5] == [1] && g.deps[0] == g.deps[1] == g.deps[2] == g.deps[3] == []
  {
    CrossNodes();
  }

  // ---- Its launch order ----

  lemma VisitsLeaf(seen: seq<int>, n: int)
    requires WellFormed(Cross()) && n in {0, 2, 4, 5} && n !in seen && (n in {0, 2} || 1 in seen)
             && (n == 4 ==> 3 in seen)
    ensures n in Nodes(Cross()) && VisitOne(Cross(), seen, n) == seen + [n]
  {
    hide WellFormed;
    CrossFacts();
  }

  lemma VisitsAgain(seen: seq<int>, n: int)
    requires WellFormed(Cross()) && n in Nodes(Cross()) && Passed(Cross(), seen, n)
    ensures VisitOne(Cross(), seen, n) == seen
  {
    hide WellFormed;
  }

  lemma VisitsOne(seen: seq<int>)
    requires WellFormed(Cross()) && 1 !in seen && 5 !in seen && 3 !in seen
    ensures 1 in Nodes(Cross()) && VisitOne(Cross(), seen, 1) == seen + [1, 5]
  {
    hide WellFormed, Cross, VisitOne;
    CrossFacts();
    var g := Cross();
    var a, b := seen + [1], seen + [1] + [5];
    VisitsLeaf(a, 5);
    assert 3 in g.deps[4];
    VisitsAgain(b, 4);
    assert VisitEdges(g, b, 1, 2) == b;
    assert VisitEdges(g, b, 1, 1) == b;
    assert VisitEdges(g, a, 1, 0) == b;
    VisitsParent(seen, 1);
    assert b == seen + [1, 5];
  }

  lemma VisitsParent(seen: seq<int>, n: int)
    requires WellFormed(Cross()) && n in {1, 3} && n !in seen
    ensures n in Nodes(Cross()) && VisitOne(Cross(), seen, n) == VisitEdges(Cross(), seen + [n], n, 0)
  {
    hide WellFormed, VisitEdges;
    CrossFacts();
  }

  lemma VisitsThree(seen: seq<int>)
    requires WellFormed(Cross()) && 3 !in seen && 4 !in seen && 1 in seen
    ensures 3 in Nodes(Cross()) && VisitOne(Cross(), seen, 3) == seen + [3, 4]
  {
    hide WellFormed, Cross, VisitOne;
    CrossFacts();
    var g := Cross();
    var a, b := seen + [3], seen + [3] + [4];
    VisitsLeaf(a, 4);
    assert VisitEdges(g, b, 3, 1) == b;
    assert VisitEdges(g, a, 3, 0) == b;
    VisitsParent(seen, 3);
    assert b == seen + [3, 4];
  }

  lemma VisitsNext(seen: seq<int>, k: nat, after: seq<int>)
    requires WellFormed(Cross()) && k < 6 && k in Nodes(Cross()) && VisitOne(Cross(), seen, k) == after
    ensures |Cross().vertices| == 6 && VisitFrom(Cross(), seen, k) == VisitFrom(Cross(), after, k + 1)
  {
    hide WellFormed, Cross, VisitOne;
    CrossFacts();
  }

  lemma CrossVisits()
    requires WellFormed(Cross())
    ensures Order(Cross()) == [0, 1, 5, 2, 3, 4]
  {
    hide WellFormed, Cross, VisitOne, VisitFrom, Passed;
    VisitsLeaf([], 0);
    VisitsNext([], 0, [0]);
    VisitsOne([0]);
    VisitsNext([0], 1, [0, 1, 5]);
    VisitsLeaf([0, 1, 5], 2);
    VisitsNext([0, 1, 5], 2, [0, 1, 5, 2]);
    VisitsThree([0, 1, 5, 2]);
    VisitsNext([0, 1, 5, 2], 3, [0, 1, 5, 2, 3, 4]);
    VisitsRest([0, 1, 5, 2, 3, 4]);
  }

  lemma VisitsRest(seen: seq<int>)
    requires WellFormed(Cross()) && 4 in seen && 5 in seen
    ensures |Cross().vertices| == 6 && VisitFrom(Cross(), seen, 4) == seen
  {
    hide WellFormed, Cross, VisitOne, Passed;
    CrossFacts();
    SeenPassed(seen);
    VisitsAgain(seen, 4);
    VisitsAgain(seen, 5);
    VisitsNext(seen, 4, seen);
    VisitsNext(seen, 5, seen);
  }

  lemma SeenPassed(seen: seq<int>)
    requires WellFormed(Cross()) && 4 in seen && 5 in seen
    ensures 4 in Cross().deps && 5 in Cross().deps && Passed(Cross(), seen, 4) && Passed(Cross(), seen, 5)
  {
  }

  // ---- Its schedule on two streams ----

  ghost predicate Dealing(s: Scheduling.Schedule<int>, n: int, id: nat) {
    WellFormed(Cross()) && Scheduling.Sized(Cross(), 2, s) && n in Nodes(Cross()) && n in s.stream && id < 2
  }

  lemma DealsLeaf(s: Scheduling.Schedule<int>, n: int, id: nat)
    requires Dealing(s, n, id) && n in {0, 2, 4, 5} && s.stream[n] == -1
    ensures Scheduling.ScheduleOne(Cross(), 2, s, n, id).stream == s.stream[n := id]
  {
    hide WellFormed, Cross;
    CrossFacts();
    Scheduling.OneUnfolds(Cross(), 2, s, n, id);
  }

  lemma DealsParent(s: Scheduling.Schedule<int>, n: int, id: nat) returns (t: Scheduling.Schedule<int>)
    requires Dealing(s, n, id) && s.stream[n] == -1
    ensures Dealing(t, n, id) && t.stream == s.stream[n := id]
    ensures Scheduling.ScheduleOne(Cross(), 2, s, n, id) == Scheduling.ScheduleEdges(Cross(), 2, t, n, 0, id)
  {
    hide ListsInside, Mirrored, Distinct, Cross;
    Scheduling.OneUnfolds(Cross(), 2, s, n, id);
    t := Scheduling.Assign(Cross(), s, n, id);
  }

  lemma DealsOne(s: Scheduling.Schedule<int>, id: nat)
    requires Dealing(s, 1, id) && 4 in s.stream && 5 in s.stream && s.stream[1] == s.stream[4] == s.stream[5] == -1
    ensures Scheduling.ScheduleOne(Cross(), 2, s, 1, id).stream == s.stream[1 := id][5 := id][4 := (id + 1) % 2]
  {
    hide WellFormed, Cross, Scheduling.ScheduleOne;
    CrossFacts();
    var g := Cross();
    var t := DealsParent(s, 1, id);
    DealsLeaf(t, 5, id);
    var u := Scheduling.ScheduleOne(g, 2, t, 5, id);
    DealsLeaf(u, 4, (id + 1) % 2);
    var v := Scheduling.ScheduleOne(g, 2, u, 4, (id + 1) % 2);
    assert Scheduling.ScheduleEdges(g, 2, v, 1, 2, id) == v;
    assert Scheduling.ScheduleEdges(g, 2, u, 1, 1, (id + 1) % 2) == v;
    assert Scheduling.ScheduleEdges(g, 2, t, 1, 0, id) == v;
  }

  lemma DealsThree(s: Scheduling.Schedule<int>, id: nat)
    requires Dealing(s, 3, id) && 4 in s.stream && s.stream[3] == -1 && s.stream[4] != -1
    ensures Scheduling.ScheduleOne(Cross(), 2, s, 3, id).stream == s.stream[3 := id]
  {
    hide WellFormed, Cross;
    CrossFacts();
    var g := Cross();
    var t := DealsParent(s, 3, id);
    assert Scheduling.ScheduleOne(g, 2, t, 4, id) == t;
    assert Scheduling.ScheduleEdges(g, 2, t, 3, 1, (id + 1) % 2) == t;
    assert Scheduling.ScheduleEdges(g, 2, t, 3, 0, id) == t;
  }

  lemma DealsNext(s: Scheduling.Schedule<int>, k: nat, id: nat) returns (t: Scheduling.Schedule<int>)
    requires Dealing(s, k, id) && s.stream[k] == -1 && k < 6
    ensures |Cross().vertices| == 6 && Scheduling.Sized(Cross(), 2, t) && Dealing(t, k, (id + 1) % 2)
    ensures t.stream == Scheduling.ScheduleOne(Cross(), 2, s, k, id).stream
    ensures Scheduling.ScheduleFrom(Cross(), 2, s, k, id) == Scheduling.ScheduleFrom(Cross(), 2, t, k + 1, (id + 1) % 2)
  {
    hide WellFormed, Cross, Nodes, Scheduling.ScheduleOne, Scheduling.ScheduleFrom, Scheduling.NoteRoot,
      Scheduling.Sized;
    CrossFacts();
    Scheduling.FromUnfolds(Cross(), 2, s, k, id);
    var u := Scheduling.ScheduleOne(Cross(), 2, s, k, id);
    Scheduling.NoteRootKeeps(Cross(), 2, u, k);
    t := Scheduling.NoteRoot(Cross(), 2, u, k);
    SizedKeys(t);
  }

  lemma SizedKeys(s: Scheduling.Schedule<int>)
    requires Scheduling.Sized(Cross(), 2, s)
    ensures s.stream.Keys == Nodes(Cross())
  {
  }

  lemma DealsRest(s: Scheduling.Schedule<int>)
    requires Dealing(s, 4, 0) && 5 in s.stream && s.stream[4] != -1 && s.stream[5] != -1
    ensures |Cross().vertices| == 6 && Scheduling.ScheduleFrom(Cross(), 2, s, 4, 0) == s
  {
    hide WellFormed, Cross, Scheduling.ScheduleOne;
    CrossFacts();
    assert Scheduling.ScheduleFrom(Cross(), 2, s, 6, 0) == s;
    assert Scheduling.ScheduleFrom(Cross(), 2, s, 5, 0) == s;
  }

  ghost predicate Given(s: Scheduling.Schedule<int>, streams: seq<int>) {
    && WellFormed(Cross()) && Scheduling.Sized(Cross(), 2, s)
    && |streams| == 6 && forall n | 0 <= n < 6 :: n in s.stream && s.stream[n] == streams[n]
  }

  lemma NoneGiven()
    requires WellFormed(Cross())
    ensures Given(Scheduling.Unscheduled(Cross(), 2), [-1, -1, -1, -1, -1, -1])
  {
    hide WellFormed, Cross;
    CrossFacts();
  }

  lemma GivenFirst() returns (s: Scheduling.Schedule<int>)
    requires WellFormed(Cross())
    ensures Given(s, [0, 1, -1, -1, 0, 1]) && |Cross().vertices| == 6
    ensures Scheduling.ScheduleAll(Cross(), 2) == Scheduling.ScheduleFrom(Cross(), 2, s, 2, 0)
  {
    hide WellFormed, Cross, Nodes, Scheduling.ScheduleOne, Scheduling.ScheduleFrom, Scheduling.Sized,
      Scheduling.Unscheduled;
    CrossFacts();
    NoneGiven();
    var r := Scheduling.Unscheduled(Cross(), 2);
    DealsLeaf(r, 0, 0);
    s := DealsNext(r, 0, 0);
    DealsOne(s, 1);
    s := DealsNext(s, 1, 1);
  }

  /** Nodes 1 and 3, which node 4 depends on, share a stream, and node 4 is on the other. */
  lemma CrossStreams()
    requires WellFormed(Cross())
    ensures Given(Scheduling.ScheduleAll(Cross(), 2), [0, 1, 0, 1, 0, 1])
  {
    hide WellFormed, Cross, Nodes, Scheduling.ScheduleOne, Scheduling.ScheduleFrom, Scheduling.ScheduleAll,
      Scheduling.Sized;
    CrossFacts();
    var s := GivenFirst();
    DealsLeaf(s, 2, 0);
    s := DealsNext(s, 2, 0);
    DealsThree(s, 1);
    s := DealsNext(s, 3, 1);
    DealsRest(s);
  }

  // ---- A launch that fails at node 3, and the next one ----

  /** A launch of the graph on the scheduler's streams, node 3's command failing. */
  ghost predicate Fails(p: Plan<int>, roots: seq<Option<int>>, s: Launch<int>) {
    && CanRun(p, roots, s) && Idle(p, s)
    && p.g == Cross() && p.limit == 2 && p.failing == {3} && p.stream == Scheduling.ScheduleAll(Cross(), 2).stream
  }

  /** What such a launch leaves of use to the next one. */
  ghost predicate Left(p: Plan<int>, t: Launch<int>) {
    && Planned(p) && Fits(p, t) && p.g == Cross()
    && (forall n | n in {0, 1, 2, 5} :: Launched(t, n)) && 1 in t.ids && t.ids[1] == 1 && t.commands[1] < |t.log|
    && 3 in t.ids && 4 in t.ids && t.ids[3] == t.ids[4] == -1
  }

  lemma FirstFails(p: Plan<int>, roots: seq<Option<int>>, last: Option<nat>, s: Launch<int>)
    requires Fails(p, roots, s)
    ensures RootsKnown(p, roots) && !RunAll(p, roots, last, s).ok && Left(p, RunAll(p, roots, last, s).state)
  {
    hide ListsInside, Mirrored, Distinct, Acyclic, Cross, Nodes, RunFrom, RunAll, Started, Order, OwnQueues, Tracks,
      Scheduling.ScheduleAll, Sound, Left;
    CrossFacts();
    CrossVisits();
    var k := FailedLaunchLeaves(p, roots, last, s);
    var o := RunAll(p, roots, last, s);
    assert 3 == Order(p.g)[4];
    assert k == 4;
    FirstLeaves(p, o.state);
    RunAllParts(p, roots, last, s);
    LaunchComplete(p, roots, last, s);
    SoundCommand(p, |Started(p, roots, last, s).log|, o.state, 1);
  }

  lemma FirstLeaves(p: Plan<int>, t: Launch<int>)
    requires WellFormed(Cross()) && p.g == Cross() && Tracks(p, t, [0, 1, 5, 2, 3, 4][..4])
    ensures 1 in t.commands && Launched(t, 1) && (t.commands[1] < |t.log| ==> Left(p, t))
  {
    hide WellFormed, Cross;
    CrossFacts();
    var seen := [0, 1, 5, 2, 3, 4][..4];
    assert seen == [0, 1, 5, 2];
    forall n | n in {0, 1, 2, 5} ensures Launched(t, n) {
      assert n in seen;
    }
    assert seen[1] == 1;
  }

  lemma SoundCommand<N>(p: Plan<N>, base: nat, s: Launch<N>, n: N)
    requires Sound(p, base, s) && n in Nodes(p.g) && Launched(s, n)
    ensures s.commands[n] < |s.log|
  {
    hide WellFormed, Entry;
    SoundNode(p, base, s, n);
  }

  /** The next launch has only nodes 3 and 4 to enqueue, in this order. */
  ghost function AfterTwo(p: Plan<int>, t: Launch<int>): (r: Launch<int>)
    requires Left(p, t)
    ensures Fits(p, r)
  {
    Launching.NoteLeaf(p, Submit(p, Submit(p, t, 3, true), 4, true), 4)
  }

  lemma SkipsLaunched<N>(p: Plan<N>, t: Launch<N>, k: nat)
    requires Planned(p) && Fits(p, t) && k < |p.g.vertices| && Launched(t, p.g.vertices[k])
    ensures RunFrom(p, t, k) == RunFrom(p, t, k + 1)
  {
    hide WellFormed;
  }

  /** What the two submissions read of the graph and the state. */
  lemma LeftFacts(p: Plan<int>, t: Launch<int>)
    requires Left(p, t)
    ensures At(p, t, 3) && At(p, t, 4) && Ready(p, t, 3) && !Launched(t, 3) && !Launched(t, 4)
            && t.ids[3] == t.ids[4] == -1
    ensures forall n | n in {0, 1, 2, 5} :: Launched(t, n)
    ensures p.g.vertices == [0, 1, 2, 3, 4, 5] && p.g.edges[3] == [4] && p.g.edges[4] == [] && p.g.deps[4] == [1, 3]
    ensures 1 in Nodes(p.g) && 1 in t.ids && 1 in t.commands && t.ids[1] == 1 && t.commands[1] < |t.log|
  {
    hide WellFormed, Cross;
    CrossFacts();
  }

  lemma SubmitsThree(p: Plan<int>, t: Launch<int>)
    requires Left(p, t) && p.failing == {}
    ensures At(p, t, 3) && RunOne(p, t, 3, true) == RunEdges(p, Submit(p, t, 3, true), 3, 0)
  {
    hide *;
    LeftFacts(p, t);
    OneUnfolds(p, t, 3, true);
  }

  lemma SubmittedThree(p: Plan<int>, t: Launch<int>)
    requires Left(p, t)
    ensures var u := Submit(p, t, 3, true);
            At(p, t, 3) && At(p, u, 4) && Ready(p, u, 4) && !Launched(u, 4) && u.ids[4] == -1
    ensures AfterTwo(p, t) == Launching.NoteLeaf(p, Submit(p, Submit(p, t, 3, true), 4, true), 4)
    ensures At(p, Submit(p, Submit(p, t, 3, true), 4, true), 4)
  {
    hide WellFormed, Cross, Latest, WaitList, Left;
    LeftFacts(p, t);
  }

  lemma SubmitsFour(p: Plan<int>, t: Launch<int>)
    requires Left(p, t) && p.failing == {}
    ensures var u := Submit(p, t, 3, true);
            At(p, t, 3) && At(p, u, 4) && RunOne(p, u, 4, true) == Outcome(AfterTwo(p, t), true)
  {
    hide *;
    LeftFacts(p, t);
    SubmittedThree(p, t);
    OneUnfolds(p, Submit(p, t, 3, true), 4, true);
  }

  lemma AfterTwoAll(p: Plan<int>, t: Launch<int>)
    requires Left(p, t)
    ensures forall n | n in {0, 1, 2, 3, 4, 5} :: Launched(AfterTwo(p, t), n)
  {
    hide *;
    LeftFacts(p, t);
    SubmittedThree(p, t);
    var u, v := Submit(p, t, 3, true), AfterTwo(p, t);
    SubmitFollows(p, t, 3, true);
    SubmitFollows(p, u, 4, true);
    FollowsThrough(t, u, v);
    FollowsLaunched(u, v, 3);
    FollowsLaunched(u, Submit(p, u, 4, true), 3);
    NotesLaunched(p, Submit(p, u, 4, true), 4);
    forall n | n in {0, 1, 2, 5} ensures Launched(v, n) {
      FollowsLaunched(t, v, n);
    }
  }

  lemma NotesLaunched<N>(p: Plan<N>, s: Launch<N>, n: N)
    requires At(p, s, n) && Launched(s, n)
    ensures Launched(Launching.NoteLeaf(p, s, n), n)
  {
  }

  lemma {:induction false} EdgeRuns<N>(p: Plan<N>, u: Launch<N>, v: Launch<N>, node: N, child: N)
    requires At(p, u, node) && At(p, u, child) && Fits(p, v) && p.g.edges[node] == [child] && p.limit >= 1
    requires RunOne(p, u, child, true) == Outcome(v, true)
    ensures RunEdges(p, u, node, 0) == Outcome(v, true)
  {
    hide WellFormed, RunOne;
    assert RunEdges(p, v, node, 1) == Outcome(v, true);
  }

  lemma SecondSubmits(p: Plan<int>, t: Launch<int>)
    requires Left(p, t) && p.failing == {}
    ensures Planned(p) && Fits(p, t) && RunFrom(p, t, 0) == Outcome(AfterTwo(p, t), true)
  {
    hide *;
    LeftFacts(p, t);
    AtParts(p, t, 3);
    SkipsLaunched(p, t, 0);
    SkipsLaunched(p, t, 1);
    SkipsLaunched(p, t, 2);
    ThirdRuns(p, t);
    LastSkipped(p, t);
    FromRuns(p, t, 3, AfterTwo(p, t));
  }

  lemma AtParts<N>(p: Plan<N>, s: Launch<N>, n: N)
    requires At(p, s, n)
    ensures Planned(p) && Fits(p, s) && n in Nodes(p.g) && p.limit >= 1
  {
  }

  lemma ThirdRuns(p: Plan<int>, t: Launch<int>)
    requires Left(p, t) && p.failing == {}
    ensures At(p, t, 3) && RunOne(p, t, 3, true) == Outcome(AfterTwo(p, t), true)
  {
    hide *;
    LeftFacts(p, t);
    SubmittedThree(p, t);
    AtParts(p, t, 3);
    SubmitsThree(p, t);
    SubmitsFour(p, t);
    AtThree(p, t);
    EdgeRuns(p, Submit(p, t, 3, true), AfterTwo(p, t), 3, 4);
  }

  lemma AtThree(p: Plan<int>, t: Launch<int>)
    requires At(p, t, 3)
    ensures At(p, Submit(p, t, 3, true), 3)
  {
    hide WellFormed, Submit;
  }

  lemma FromRuns<N>(p: Plan<N>, s: Launch<N>, k: nat, t: Launch<N>)
    requires Planned(p) && Fits(p, s) && Fits(p, t) && k < |p.g.vertices| && At(p, s, p.g.vertices[k])
    requires RunOne(p, s, p.g.vertices[k], true) == Outcome(t, true)
    ensures RunFrom(p, s, k) == RunFrom(p, t, k + 1)
  {
    hide WellFormed, RunOne;
  }

  lemma LastSkipped(p: Plan<int>, t: Launch<int>)
    requires Left(p, t)
    ensures var v := AfterTwo(p, t);
            Planned(p) && Fits(p, v) && |p.g.vertices| == 6 && RunFrom(p, v, 4) == Outcome(v, true)
  {
    hide WellFormed, Cross, AfterTwo, RunOne, RunEdges, Nodes, Left;
    LeftFacts(p, t);
    AfterTwoAll(p, t);
    var v := AfterTwo(p, t);
    SkipsLaunched(p, v, 4);
    SkipsLaunched(p, v, 5);
  }

  /** Node 4 is on the other stream than its two dependencies. */
  ghost predicate Apart(p: Plan<int>) {
    p.limit == 2 && 1 in p.stream && 3 in p.stream && 4 in p.stream && p.stream[1] == p.stream[3] == 1
      && p.stream[4] == 0
  }

  /** The command of node 4 waits for that of node 1, whose stale id 1 beats node 3's new
      id 0, and nothing else leads from node 3 to it. */
  lemma AfterTwoLoses(p: Plan<int>, t: Launch<int>)
    requires Left(p, t) && t.next == 0 && OwnQueues(p) && Apart(p)
    ensures var r := AfterTwo(p, t); 4 in r.commands && r.commands[4] < |r.log| && !Orders(r, 3, 4)
  {
    hide WellFormed, Cross, Latest, WaitList, Left, Ready;
    LeftFacts(p, t);
    SubmittedThree(p, t);
    var u := Submit(p, t, 3, true);
    SmallerIdHidden(p, u, 4, true, 1, 3);
    var r := AfterTwo(p, t);
    assert !Direct(r.log, |t.log|, |t.log| + 1);
  }

  lemma LeftAgain(p: Plan<int>, q: Plan<int>, roots: seq<Option<int>>, again: Option<nat>, t: Launch<int>)
    requires Left(p, t) && q == p.(failing := q.failing) && CanRun(q, roots, t)
    ensures |roots| == q.limit && (forall i | 0 < i < |roots| && roots[i].Some? :: i < |q.queues|) && 0 < |q.queues|
    ensures Left(q, Started(q, roots, again, t)) && Started(q, roots, again, t).next == 0
  {
    hide WellFormed, Cross, StartMarkers, Acyclic, OwnQueues;
    var r := Started(q, roots, again, t);
    assert r.ids == t.ids && r.commands == t.commands && |t.log| <= |r.log|;
    forall n | n in {0, 1, 2, 5} ensures Launched(r, n) {
      assert Launched(t, n);
    }
  }

  lemma CrossApart(p: Plan<int>)
    requires WellFormed(Cross()) && p.limit == 2 && p.stream == Scheduling.ScheduleAll(Cross(), 2).stream
    ensures Apart(p)
  {
    hide WellFormed, Cross, Scheduling.ScheduleAll;
    CrossStreams();
  }

  lemma CrossNarrow(p: Plan<int>)
    requires Planned(p) && p.g == Cross() && p.limit == 2
    ensures Narrow(p)
  {
    hide WellFormed;
    CrossFacts();
  }

  lemma JoinedLoses<N>(p: Plan<N>, r: Launch<N>, d: N, n: N)
    requires Planned(p) && Fits(p, r) && 0 < |p.queues| && n in r.commands && r.commands[n] < |r.log|
             && !Orders(r, d, n)
    ensures !Orders(Joined(p, r), d, n)
  {
    hide WellFormed, Joined, Before;
    JoinedKeeps(p, r);
    var t := Joined(p, r);
    if Orders(t, d, n) {
      BeforeShorter(r.log, t.log, t.commands[d], t.commands[n]);
    }
  }

  /** The launch after a failed one reports success and yet loses an edge, though no node
      has more children than there are streams: every launch of this graph from an idle
      state that fails at node 3, followed by one in which every command can be created,
      leaves node 4 unordered after node 3. */
  lemma RetryLosesEdge(p: Plan<int>, roots: seq<Option<int>>, last: Option<nat>, s: Launch<int>, again: Option<nat>)
    requires Fails(p, roots, s)
    ensures RootsKnown(p, roots) && Narrow(p) && 4 in Cross().edges[3]
    ensures var first := RunAll(p, roots, last, s); var q := p.(failing := {});
            && !first.ok && CanRun(q, roots, first.state)
            && var second := RunAll(q, roots, again, first.state);
               second.ok && !Orders(second.state, 3, 4)
  {
    hide *;
    var q := p.(failing := {});
    FailsParts(p, roots, s);
    FirstFails(p, roots, last, s);
    CrossFormed();
    CrossNarrow(p);
    var t := RunAll(p, roots, last, s).state;
    FitsAgain(p, q, roots, s, t);
    LeftAgain(p, q, roots, again, t);
    var start := Started(q, roots, again, t);
    CrossApart(q);
    SecondSubmits(q, start);
    AfterTwoLoses(q, start);
    RunAllParts(q, roots, again, t);
    JoinedLoses(q, AfterTwo(q, start), 3, 4);
    CrossFacts();
  }

  lemma FailsParts(p: Plan<int>, roots: seq<Option<int>>, s: Launch<int>)
    requires Fails(p, roots, s)
    ensures CanRun(p, roots, s) && Planned(p) && p.g == Cross() && p.limit == 2
    ensures p.stream == Scheduling.ScheduleAll(Cross(), 2).stream
    ensures Fits(p, s) && 0 < |p.queues| && |roots| == p.limit
    ensures forall i | 0 < i < |roots| && roots[i].Some? :: i < |p.queues|
  {
  }

  /** Such launches take place, with the scheduler's streams and root table. */
  lemma RetryHappens() returns (p: Plan<int>, roots: seq<Option<int>>, s: Launch<int>)
    ensures WellFormed(Cross()) && roots == Scheduling.ScheduleAll(Cross(), 2).roots && Fails(p, roots, s)
  {
    hide WellFormed, Cross, Planned, OwnQueues, RootsKnown, Acyclic, FirstState, SchedulerPlan;
    CrossFormed();
    CrossAcyclic();
    roots := Scheduling.ScheduleAll(Cross(), 2).roots;
    p := SchedulerPlan(Cross(), 2).(failing := {3});
    SchedulerPlanned(Cross(), 2);
    PlannedAnyway(SchedulerPlan(Cross(), 2), p);
    FirstStateIdle(p);
    s := FirstState(p);
    SchedulerCanRun(Cross(), 2, p, s);
  }

  lemma PlannedAnyway<N>(p: Plan<N>, q: Plan<N>)
    requires Planned(p) && q == p.(failing := q.failing)
    ensures Planned(q)
  {
  }
}
