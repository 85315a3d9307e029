/** The order in which a launch takes the nodes, read off the graph alone: streams, wait
    lists and the stream limit have no say in it. */
module Walking {
  import opened Dags
  import opened Launching
  import opened LaunchSoundness
  import opened Ordering
  import Scheduling

  ghost function Unseen<N>(g: Dag<N>, seen: seq<N>): set<N> {
    set n | n in Nodes(g) && n !in seen
  }

  /** `node` was taken before, or must wait for a dependency. */
  ghost predicate Passed<N>(g: Dag<N>, seen: seq<N>, node: N)
    requires node in g.deps
  {
    node in seen || exists d | d in g.deps[node] :: d !in seen
  }

  ghost function VisitOne<N>(g: Dag<N>, seen: seq<N>, node: N): (r: seq<N>)
    requires WellFormed(g) && node in Nodes(g)
    ensures seen <= r && Unseen(g, r) <= Unseen(g, seen)
    decreases Unseen(g, seen), 0
  {
    if Passed(g, seen, node) then seen
    else
      assert node in Unseen(g, seen) && node !in Unseen(g, seen + [node]);
      VisitEdges(g, seen + [node], node, 0)
  }

  ghost function VisitEdges<N>(g: Dag<N>, seen: seq<N>, node: N, i: nat): (r: seq<N>)
    requires WellFormed(g) && node in Nodes(g) && i <= |g.edges[node]|
    ensures seen <= r && Unseen(g, r) <= Unseen(g, seen)
    decreases Unseen(g, seen), |g.edges[node]| - i + 1
  {
    if i == |g.edges[node]| then seen
    else
      ChildOf(g, node, i);
      VisitEdges(g, VisitOne(g, seen, g.edges[node][i]), node, i + 1)
  }

  ghost function VisitFrom<N>(g: Dag<N>, seen: seq<N>, k: nat): seq<N>
    requires WellFormed(g) && k <= |g.vertices|
    decreases |g.vertices| - k
  {
    if k == |g.vertices| then seen else VisitFrom(g, VisitOne(g, seen, g.vertices[k]), k + 1)
  }

  ghost function Order<N>(g: Dag<N>): seq<N>
    requires WellFormed(g)
  {
    VisitFrom(g, [], 0)
  }

  // ---- A launch follows this order ----

  /** The launched nodes are those of `seen`, with their positions as launch ids. */
  ghost predicate Tracks<N>(p: Plan<N>, s: Launch<N>, seen: seq<N>) {
    && Planned(p) && Fits(p, s) && s.next == |seen|
    && (forall j | 0 <= j < |seen| :: seen[j] in s.ids && s.ids[seen[j]] == j)
    && forall n | n in s.ids && s.ids[n] != -1 :: 0 <= s.ids[n] < |seen| && seen[s.ids[n]] == n
  }

  lemma SeenIsLaunched<N>(p: Plan<N>, s: Launch<N>, seen: seq<N>, n: N)
    requires Tracks(p, s, seen) && n in Nodes(p.g)
    ensures n in seen <==> Launched(s, n)
  {
    hide WellFormed;
    if n in seen {
      var j :| 0 <= j < |seen| && seen[j] == n;
    }
  }

  lemma PassedIsSkipped<N>(p: Plan<N>, s: Launch<N>, seen: seq<N>, node: N)
    requires Tracks(p, s, seen) && At(p, s, node)
    ensures Passed(p.g, seen, node) <==> s.ids[node] != -1 || !Ready(p, s, node)
  {
    hide Mirrored, Distinct, Tracks;
    SeenIsLaunched(p, s, seen, node);
    forall d | d in p.g.deps[node] ensures d in Nodes(p.g) && (d in seen <==> d in s.ids && s.ids[d] != -1) {
      SeenIsLaunched(p, s, seen, d);
    }
  }

  lemma SubmitTracks<N>(p: Plan<N>, s: Launch<N>, seen: seq<N>, node: N, wait: bool)
    requires Tracks(p, s, seen) && At(p, s, node) && s.ids[node] == -1
    ensures Tracks(p, Submit(p, s, node, wait), seen + [node])
    ensures Tracks(p, Launching.NoteLeaf(p, Submit(p, s, node, wait), node), seen + [node])
  {
    hide WellFormed, Latest, WaitList;
    var t := Submit(p, s, node, wait);
    forall j | 0 <= j < |seen| + 1 ensures (seen + [node])[j] in t.ids && t.ids[(seen + [node])[j]] == j {
      if j < |seen| {
        assert s.ids[seen[j]] == j;
      }
    }
  }

  /** The launch `o` began with the nodes of `seen` launched and takes those of `all` in
      turn: it stops at position k, at the first command that cannot be created, or at the
      end if there is none. */
  ghost predicate StopsAt<N>(p: Plan<N>, seen: seq<N>, all: seq<N>, k: nat, o: Outcome<N>) {
    && |seen| <= k <= |all|
    && (forall j | |seen| <= j < k :: all[j] !in p.failing)
    && (if o.ok then k == |all| else k < |all| && all[k] in p.failing)
    && Tracks(p, o.state, all[..k])
  }

  lemma StopsHere<N>(p: Plan<N>, s: Launch<N>, seen: seq<N>, all: seq<N>, o: Outcome<N>)
    requires Tracks(p, s, seen) && o.state == s && seen <= all
    requires if o.ok then seen == all else |seen| < |all| && all[|seen|] in p.failing
    ensures StopsAt(p, seen, all, |seen|, o)
  {
    hide Tracks;
    assert all[..|seen|] == seen;
  }

  /** A part that ran to its end, followed by one that stops at k. */
  lemma StopsLater<N>(p: Plan<N>, seen: seq<N>, mid: seq<N>, all: seq<N>, k: nat, first: Outcome<N>, o: Outcome<N>)
    requires StopsAt(p, seen, mid, |mid|, first) && StopsAt(p, mid, all, k, o) && mid <= all
    ensures StopsAt(p, seen, all, k, o)
  {
    hide Tracks;
  }

  /** A part that failed is where the whole stops. */
  lemma StopsWithin<N>(p: Plan<N>, seen: seq<N>, mid: seq<N>, all: seq<N>, k: nat, o: Outcome<N>)
    requires StopsAt(p, seen, mid, k, o) && !o.ok && mid <= all
    ensures StopsAt(p, seen, all, k, o)
  {
    hide Tracks;
    assert all[..k] == mid[..k];
  }

  /** Submitting a node that can be created moves the start one position on. */
  lemma StopsAfter<N>(p: Plan<N>, seen: seq<N>, node: N, all: seq<N>, k: nat, o: Outcome<N>)
    requires StopsAt(p, seen + [node], all, k, o) && seen + [node] <= all && node !in p.failing
    ensures StopsAt(p, seen, all, k, o)
  {
    hide Tracks;
    assert all[|seen|] == node;
  }

  lemma {:induction false} OneTracks<N>(p: Plan<N>, s: Launch<N>, seen: seq<N>, node: N, wait: bool) returns (k: nat)
    requires Tracks(p, s, seen) && At(p, s, node)
    ensures StopsAt(p, seen, VisitOne(p.g, seen, node), k, RunOne(p, s, node, wait))
    decreases Unlaunched(s), 0
  {
    hide ListsInside, Mirrored, Distinct, Tracks, Passed, Ready, Submit, Unlaunched, Unseen, StopsAt;
    PassedIsSkipped(p, s, seen, node);
    OneUnfolds(p, s, node, wait);
    var all := VisitOne(p.g, seen, node);
    var o := RunOne(p, s, node, wait);
    if Passed(p.g, seen, node) || node in p.failing {
      k := |seen|;
      StopsHere(p, s, seen, all, o);
    } else {
      SubmitTracks(p, s, seen, node, wait);
      if p.g.edges[node] == [] {
        k := |seen| + 1;
        assert all == VisitEdges(p.g, seen + [node], node, 0) == seen + [node];
        StopsHere(p, o.state, seen + [node], all, o);
      } else {
        k := EdgesTrack(p, Submit(p, s, node, wait), seen + [node], node, 0);
      }
      StopsAfter(p, seen, node, all, k, o);
    }
  }

  lemma {:induction false} EdgesTrack<N>(p: Plan<N>, s: Launch<N>, seen: seq<N>, node: N, i: nat) returns (k: nat)
    requires Tracks(p, s, seen) && At(p, s, node) && i <= |p.g.edges[node]|
    ensures StopsAt(p, seen, VisitEdges(p.g, seen, node, i), k, RunEdges(p, s, node, i))
    decreases Unlaunched(s), |p.g.edges[node]| - i + 1
  {
    hide ListsInside, Mirrored, Distinct, Tracks, Passed, Ready, Submit, Unlaunched, Unseen, Waits, StopsAt, VisitOne,
      RunOne;
    var all := VisitEdges(p.g, seen, node, i);
    var o := RunEdges(p, s, node, i);
    if i == |p.g.edges[node]| {
      k := |seen|;
      StopsHere(p, s, seen, all, o);
    } else {
      ChildOf(p.g, node, i);
      var child := p.g.edges[node][i];
      var wait := Waits(p, child, i);
      k := OneTracks(p, s, seen, child, wait);
      var first := RunOne(p, s, child, wait);
      var mid := VisitOne(p.g, seen, child);
      if first.ok {
        StoppedEnd(p, seen, mid, k, first);
        k := EdgesTrack(p, first.state, mid, node, i + 1);
        StopsLater(p, seen, mid, all, k, first, o);
      } else {
        StopsWithin(p, seen, mid, all, k, o);
      }
    }
  }

  lemma StoppedEnd<N>(p: Plan<N>, seen: seq<N>, all: seq<N>, k: nat, o: Outcome<N>)
    requires StopsAt(p, seen, all, k, o) && o.ok
    ensures k == |all| && Tracks(p, o.state, all)
  {
    hide Tracks;
    assert all[..|all|] == all;
  }

  lemma VisitFromGrows<N>(g: Dag<N>, seen: seq<N>, k: nat)
    requires WellFormed(g) && k <= |g.vertices|
    ensures seen <= VisitFrom(g, seen, k)
    decreases |g.vertices| - k
  {
    hide ListsInside, Mirrored, Distinct, VisitOne;
    if k < |g.vertices| {
      VisitFromGrows(g, VisitOne(g, seen, g.vertices[k]), k + 1);
    }
  }

  lemma {:induction false} FromTracks<N>(p: Plan<N>, s: Launch<N>, seen: seq<N>, i: nat) returns (k: nat)
    requires Planned(p) && Fits(p, s) && Tracks(p, s, seen) && i <= |p.g.vertices|
    ensures StopsAt(p, seen, VisitFrom(p.g, seen, i), k, RunFrom(p, s, i))
    decreases |p.g.vertices| - i
  {
    hide ListsInside, Mirrored, Distinct, Tracks, Passed, Ready, Submit, Unseen, RunOne, VisitOne, StopsAt;
    var all := VisitFrom(p.g, seen, i);
    var o := RunFrom(p, s, i);
    if i == |p.g.vertices| {
      k := |seen|;
      StopsHere(p, s, seen, all, o);
    } else {
      k := OneTracks(p, s, seen, p.g.vertices[i], true);
      var first := RunOne(p, s, p.g.vertices[i], true);
      var mid := VisitOne(p.g, seen, p.g.vertices[i]);
      VisitFromGrows(p.g, mid, i + 1);
      if first.ok {
        StoppedEnd(p, seen, mid, k, first);
        k := FromTracks(p, first.state, mid, i + 1);
        StopsLater(p, seen, mid, all, k, first, o);
      } else {
        StopsWithin(p, seen, mid, all, k, o);
      }
    }
  }

  /** A launch from an idle state takes the nodes in `Order`, whatever the streams and wait
      lists. If some command cannot be created, the first such node in that order is where
      it stops: exactly the nodes before it are launched, and their launch ids are their
      positions. */
  lemma LaunchTakesOrder<N>(p: Plan<N>, s: Launch<N>) returns (k: nat)
    requires Planned(p) && Fits(p, s) && Idle(p, s) && s.next == 0
    ensures StopsAt(p, [], Order(p.g), k, RunFrom(p, s, 0))
  {
    hide WellFormed, VisitFrom, RunFrom, StopsAt;
    k := FromTracks(p, s, [], 0);
  }

  lemma LaunchTakesAll<N>(p: Plan<N>, s: Launch<N>)
    requires Planned(p) && Fits(p, s) && Idle(p, s) && s.next == 0 && RunFrom(p, s, 0).ok
    ensures Tracks(p, RunFrom(p, s, 0).state, Order(p.g))
  {
    hide WellFormed, VisitFrom, RunFrom, StopsAt, Tracks, Order;
    var k := LaunchTakesOrder(p, s);
    StoppedEnd(p, [], Order(p.g), k, RunFrom(p, s, 0));
  }

  /** What a failed launch leaves: the nodes before the first one that cannot be created
      stay launched, the others are as they were, and nothing is reset. */
  lemma FailedLaunchLeaves<N>(p: Plan<N>, roots: seq<Option<N>>, last: Option<nat>, s: Launch<N>) returns (k: nat)
    requires Planned(p) && Fits(p, s) && Idle(p, s) && 0 < |p.queues|
    requires |roots| == p.limit && forall i | 0 < i < |roots| && roots[i].Some? :: i < |p.queues|
    ensures var o := RunAll(p, roots, last, s); var order := Order(p.g);
            && (o.ok <==> forall n | n in order :: n !in p.failing)
            && (!o.ok ==> k < |order| && order[k] in p.failing && (forall j | 0 <= j < k :: order[j] !in p.failing))
            && (!o.ok ==> Tracks(p, o.state, order[..k]))
            && (!o.ok ==> forall n | n in Nodes(p.g) :: n in order[..k] <==> Launched(o.state, n))
  {
    hide WellFormed, RunFrom, Order, StartMarkers, Tracks;
    RunAllParts(p, roots, last, s);
    k := LaunchTakesOrder(p, Started(p, roots, last, s));
    var o := RunAll(p, roots, last, s);
    if !o.ok {
      assert Order(p.g)[k] in Order(p.g);
      forall n | n in Nodes(p.g) ensures n in Order(p.g)[..k] <==> Launched(o.state, n) {
        SeenIsLaunched(p, o.state, Order(p.g)[..k], n);
      }
    }
  }

  // ---- Skipped waits, judged before the launch ----

  /** Between the only parent of n and n itself, `order` has something on n's stream. */
  ghost predicate BridgedIn<N>(g: Dag<N>, stream: map<N, int>, order: seq<N>, n: N)
    requires n in g.deps && n in stream
  {
    exists i, j, k {:trigger order[i], order[j], order[k]} ::
      0 <= i <= j < k < |order| && g.deps[n] == [order[i]] && order[j] in stream && stream[order[j]] == stream[n]
        && order[k] == n
  }

  /** Every node whose wait is skipped is bridged in the launch order. */
  ghost predicate Bridgeable<N>(p: Plan<N>)
    requires Planned(p)
  {
    forall n | n in Nodes(p.g) && Elided(p, n) :: BridgedIn(p.g, p.stream, Order(p.g), n)
  }

  lemma BridgedAsOrdered<N>(p: Plan<N>, s: Launch<N>, order: seq<N>, n: N)
    requires Tracks(p, s, order) && At(p, s, n) && Launched(s, n)
    requires forall d | d in p.g.deps[n] :: Launched(s, d)
    ensures Bridged(p, s, n) <==> BridgedIn(p.g, p.stream, order, n)
  {
    hide ListsInside, Mirrored, Distinct;
    if Bridged(p, s, n) {
      var d, x :| d in Nodes(p.g) && x in Nodes(p.g) && Bridges(p, s, n, d, x);
      assert d in p.g.deps[n];
      assert order[s.ids[d]] == d && order[s.ids[x]] == x && order[s.ids[n]] == n;
    }
    if BridgedIn(p.g, p.stream, order, n) {
      var i, j, k :| 0 <= i <= j < k < |order| && p.g.deps[n] == [order[i]] && order[j] in p.stream
        && p.stream[order[j]] == p.stream[n] && order[k] == n;
      assert Bridges(p, s, n, order[i], order[j]);
    }
  }

  /** The exact ordering condition, stated on the graph and its streams alone. */
  lemma BridgeableExactly<N>(p: Plan<N>, base: nat, s: Launch<N>)
    requires Sound(p, base, s) && AllLaunched(p, s) && Tracks(p, s, Order(p.g))
    ensures AllBridged(p, s) <==> Bridgeable(p)
  {
    hide ListsInside, Mirrored, Distinct, Numbered, Entries, LeafTable, Order, Tracks, Elided, Bridged, BridgedIn;
    forall n | n in Nodes(p.g) && Elided(p, n)
        ensures Launched(s, n) && (Bridged(p, s, n) <==> BridgedIn(p.g, p.stream, Order(p.g), n)) {
      forall d | d in p.g.deps[n] ensures Launched(s, d) {
        SoundDep(p, base, s, n, d);
      }
      BridgedAsOrdered(p, s, Order(p.g), n);
    }
  }

  // ---- Graphs whose skipped waits are always bridged ----

  lemma NarrowBridgeable<N>(p: Plan<N>)
    requires Planned(p) && Narrow(p)
    ensures Bridgeable(p)
  {
    hide ListsInside, Mirrored, Distinct, Order, BridgedIn;
  }

  /** With the scheduler's own streams, a graph that lists single parents first and gives
      every node with more children than streams that many sole children in front has all
      its skipped waits bridged. */
  lemma EldersBridgeable<N>(p: Plan<N>)
    requires Planned(p) && Acyclic(p.g) && EldersSole(p) && Scheduling.ParentFirst(p.g)
    requires p.stream == Scheduling.ScheduleAll(p.g, p.limit).stream
    ensures Bridgeable(p)
  {
    hide ListsInside, Mirrored, Distinct, Numbered, Entries, LeafTable, Acyclic, Quiescent, RootsLaunched, RunFrom,
      Order, EldersSole, Scheduling.ParentFirst, Scheduling.ScheduleAll, Bridged, BridgedIn, Elided, Tracks, FirstState;
    var q := p.(failing := {});
    var s := FirstState(q);
    FirstStateIdle(q);
    StartSound(q, s);
    FromSound(q, |s.log|, s, 0);
    FromSucceeds(q, s, 0);
    var r := RunFrom(q, s, 0).state;
    FromSettles(q, s, 0);
    SettledIsAll(q, r);
    LaunchTakesAll(q, s);
    EldersElsewhere(p, q);
    forall n | n in Nodes(q.g) && Elided(q, n) ensures Bridged(q, r, n) {
      ElderBridges(q, |s.log|, r, n);
    }
    BridgeableExactly(q, |s.log|, r);
    SameBridgeable(p, q);
  }

  ghost function FirstState<N>(p: Plan<N>): Launch<N> {
    Launch(map n | n in Nodes(p.g) :: -1, map n | n in Nodes(p.g) :: 0, 0, [], seq(p.limit, _ => None))
  }

  lemma FirstStateIdle<N>(p: Plan<N>)
    requires Planned(p)
    ensures var s := FirstState(p);
            Fits(p, s) && Idle(p, s) && s.next == 0 && forall i | 0 <= i < |s.leafs| :: s.leafs[i] == None
  {
  }

  /** Failing commands have no say in either condition. */
  lemma EldersElsewhere<N>(p: Plan<N>, q: Plan<N>)
    requires Planned(p) && EldersSole(p) && q == p.(failing := q.failing)
    ensures Planned(q) && EldersSole(q)
  {
  }

  /** The condition depends on the graph, its streams and the stream limit only. */
  lemma SameBridgeable<N>(p: Plan<N>, q: Plan<N>)
    requires Planned(p) && Planned(q) && Bridgeable(q) && p.g == q.g && p.stream == q.stream && p.limit == q.limit
    ensures Bridgeable(p)
  {
    hide ListsInside, Mirrored, Distinct, Order, BridgedIn;
    forall n | n in Nodes(p.g) && Elided(p, n) ensures BridgedIn(p.g, p.stream, Order(p.g), n) {
      var d, i := ElidedAt(p, n);
      assert Elided(q, n);
    }
  }

  /** The scheduler's own streams, on queues of their own. */
  ghost function SchedulerPlan<N>(g: Dag<N>, q: nat): Plan<N>
    requires WellFormed(g) && q >= 1
  {
    Plan(g, Scheduling.ScheduleAll(g, q).stream, seq(q, i => i), q, {})
  }

  lemma SchedulerPlanned<N>(g: Dag<N>, q: nat)
    requires WellFormed(g) && q >= 1
    ensures Planned(SchedulerPlan(g, q))
  {
    hide ListsInside, Mirrored, Distinct, Scheduling.ScheduleAll;
    Scheduling.ScheduleSound(g, q);
  }

  /** A graph whose skipped waits are all bridged when it is scheduled on q streams. */
  ghost predicate Orderly<N>(g: Dag<N>, q: nat) {
    WellFormed(g) && q >= 1 && Planned(SchedulerPlan(g, q)) && Bridgeable(SchedulerPlan(g, q))
  }

  lemma OrderlyIsBridgeable<N>(p: Plan<N>)
    requires Planned(p) && p.stream == Scheduling.ScheduleAll(p.g, p.limit).stream
    ensures Orderly(p.g, p.limit) <==> Bridgeable(p)
  {
    hide WellFormed, Bridgeable, Scheduling.ScheduleAll;
    SchedulerPlanned(p.g, p.limit);
    var q := SchedulerPlan(p.g, p.limit);
    if Bridgeable(p) {
      SameBridgeable(q, p);
    }
    if Bridgeable(q) {
      SameBridgeable(p, q);
    }
  }

  /** A graph none of whose nodes has more than q children. */
  lemma NarrowOrderly<N>(g: Dag<N>, q: nat)
    requires WellFormed(g) && q >= 1 && forall n | n in Nodes(g) :: |g.edges[n]| <= q
    ensures Orderly(g, q)
  {
    hide ListsInside, Mirrored, Distinct, Bridgeable, Scheduling.ScheduleAll;
    SchedulerPlanned(g, q);
    NarrowBridgeable(SchedulerPlan(g, q));
  }

  /** A graph that lists single parents first, as captured graphs do, and gives every node
      with more than q children q sole children in front. */
  lemma EldersOrderly<N>(g: Dag<N>, q: nat)
    requires WellFormed(g) && Acyclic(g) && Scheduling.ParentFirst(g) && q >= 1
    requires Planned(SchedulerPlan(g, q)) && EldersSole(SchedulerPlan(g, q))
    ensures Orderly(g, q)
  {
    hide WellFormed, Acyclic, Bridgeable, Scheduling.ScheduleAll, Scheduling.ParentFirst, EldersSole;
    EldersBridgeable(SchedulerPlan(g, q));
  }
}
