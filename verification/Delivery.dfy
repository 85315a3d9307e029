/** What a caller may rely on once a graph has been enqueued, however that was done. */
module Delivery {
  import opened Dags
  import opened Streams
  import opened Launching
  import opened LaunchSoundness
  import opened Ordering
  import opened Fencing
  import opened Walking
  import Scheduling

  /** From position `from` on, the log runs every node of `g` exactly once, n at at[n]. */
  ghost predicate RunsOnce<N>(g: Dag<N>, from: nat, log: seq<Command<N>>, at: map<N, nat>) {
    && at.Keys == Nodes(g)
    && (forall n | n in at :: from <= at[n] < |log| && log[at[n]].work == Run(n))
    && forall i | from <= i < |log| && log[i].work.Run? :: log[i].work.node in at && at[log[i].work.node] == i
  }

  /** Every edge of `g` is respected. */
  ghost predicate EdgesKept<N>(g: Dag<N>, log: seq<Command<N>>, at: map<N, nat>) {
    forall n, d | n in at && n in g.deps && d in g.deps[n] :: d in at && Before(log, at[d], at[n])
  }

  /** The log ends with a command on `queue` that every node happens before. */
  ghost predicate JoinedOn<N>(queue: int, log: seq<Command<N>>, at: map<N, nat>) {
    && log != [] && log[|log| - 1].queue == queue
    && forall n | n in at :: Before(log, at[n], |log| - 1)
  }

  /** Everything enqueued on `queue` before position `from` happens before every node. */
  ghost predicate ForkedFrom<N>(queue: int, from: nat, log: seq<Command<N>>, at: map<N, nat>) {
    forall c, n | 0 <= c < from && c < |log| && log[c].queue == queue && n in at :: Before(log, c, at[n])
  }

  /** `g` was enqueued from position `from` on, and is joined on `queue`. */
  ghost predicate Delivered<N>(g: Dag<N>, queue: int, from: nat, log: seq<Command<N>>, at: map<N, nat>) {
    WellFormed(g) && RunsOnce(g, from, log, at) && EdgesKept(g, log, at) && JoinedOn(queue, log, at)
  }

  /** The two markers with which every launch ends on the launch stream. */
  function Closing<N>(queue: int, position: nat): (r: seq<Command<N>>)
    ensures |r| == 2 && r[0].queue == r[1].queue == queue
  {
    [Command(queue, Marker, []), Command(queue, Marker, [position])]
  }

  // ---- Back-to-back launches ----

  /** Launches that follow each other on one stream never overlap: every node of the
      first happens before every node of the second. */
  lemma BackToBack<N>(g: Dag<N>, h: Dag<N>, queue: int, from: nat, log: seq<Command<N>>, at: map<N, nat>,
                      from': nat, log': seq<Command<N>>, at': map<N, nat>, n: N, m: N)
    requires Delivered(g, queue, from, log, at) && ForkedFrom(queue, from', log', at')
    requires log <= log' && |log| <= from' && n in at && m in at'
    ensures Before(log', at[n], at'[m])
  {
    hide WellFormed, EdgesKept, RunsOnce, Before;
    var e := |log| - 1;
    BeforeStable(log, log', at[n], e);
    assert log'[e] == log[e];
    BeforeThrough(log', at[n], e, at'[m]);
  }

  /** The same holds for any later command of the launch stream. */
  lemma LaterWorkWaits<N>(g: Dag<N>, queue: int, from: nat, log: seq<Command<N>>, at: map<N, nat>,
        log': seq<Command<N>>, e: nat, n: N)
    requires Delivered(g, queue, from, log, at) && log <= log' && |log| <= e < |log'| && log'[e].queue == queue
             && n in at
    ensures Before(log', at[n], e)
  {
    hide WellFormed, EdgesKept, RunsOnce, Before;
    BeforeStable(log, log', at[n], |log| - 1);
    assert log'[|log| - 1] == log[|log| - 1];
    BeforeDirect(log', |log| - 1, e);
    BeforeThrough(log', at[n], |log| - 1, e);
  }

  // ---- A parallel launch delivers the graph ----

  lemma {:induction false} BeforeShorter<N>(log: seq<Command<N>>, longer: seq<Command<N>>, i: int, j: int)
    requires log <= longer && Before(longer, i, j) && j < |log|
    ensures Before(log, i, j)
    decreases j
  {
    var m :| i <= m < j && Direct(longer, m, j) && (m == i || (0 <= m && Before(longer, i, m)));
    if m != i {
      BeforeShorter(log, longer, i, m);
    }
    assert Direct(log, m, j);
  }

  /** A run of the vertex loop from `s`, in whatever state that is, that succeeded, with the
      state it reached. */
  ghost predicate Went<N>(p: Plan<N>, roots: seq<Option<N>>, last: Option<nat>, s: Launch<N>, r: Launch<N>) {
    && Planned(p) && Fits(p, s) && 0 < |p.queues|
    && |roots| == p.limit && (forall i | 0 < i < |roots| && roots[i].Some? :: i < |p.queues|)
    && Fits(p, r) && RunFrom(p, Started(p, roots, last, s), 0) == Outcome(r, true)
  }

  /** The same from an idle state, on an acyclic graph. */
  ghost predicate Ran<N>(p: Plan<N>, roots: seq<Option<N>>, last: Option<nat>, s: Launch<N>, r: Launch<N>) {
    Went(p, roots, last, s, r) && Idle(p, s) && Acyclic(p.g)
  }

  lemma RanSound<N>(p: Plan<N>, roots: seq<Option<N>>, last: Option<nat>, s: Launch<N>, r: Launch<N>)
    requires Ran(p, roots, last, s, r)
    ensures Sound(p, |Started(p, roots, last, s).log|, r) && AllLaunched(p, r)
    ensures Started(p, roots, last, s).log <= r.log && RunAll(p, roots, last, s) == Outcome(Joined(p, r), true)
  {
    hide WellFormed, Sound, AllLaunched, RunFrom, Joined;
    LaunchComplete(p, roots, last, s);
  }

  lemma {:induction false} OnlyMarkers<N>(p: Plan<N>, roots: seq<Option<N>>, last: nat, k: nat)
    requires k <= |roots| && forall i | 0 < i < |roots| && roots[i].Some? :: i < |p.queues|
    ensures forall i | 0 <= i < |StartMarkers(p, roots, last, k)| :: StartMarkers(p, roots, last, k)[i].work == Marker
  {
    if k > 0 {
      OnlyMarkers(p, roots, last, k - 1);
    }
  }

  /** The log of a finished launch: earlier commands, start markers, the node commands, at
      most one end marker and the closing markers. */
  lemma LogShape<N>(p: Plan<N>, roots: seq<Option<N>>, last: Option<nat>, s: Launch<N>, r: Launch<N>)
    requires Went(p, roots, last, s, r)
    ensures var base := |Started(p, roots, last, s).log|; var end := Joined(p, r).log;
            var log := end + Closing(p.queues[0], |end|);
            && |s.log| <= base <= |r.log| && s.log <= r.log <= end <= log
            && (forall i | |s.log| <= i < base :: log[i].work == Marker)
            && (forall i | |r.log| <= i < |log| :: log[i].work == Marker && log[i].queue == p.queues[0])
            && (forall i | 0 <= i < |r.log| :: log[i] == r.log[i])
  {
    hide WellFormed, LeafWaits, StartMarkers, RunFrom, RunAll;
    FromFollows(p, Started(p, roots, last, s), 0);
    if last.Some? {
      OnlyMarkers(p, roots, last.value, p.limit);
    }
  }

  /** A launch that starts with some node already launched never runs that node. */
  lemma StaleIsMissing<N>(p: Plan<N>, roots: seq<Option<N>>, last: Option<nat>, s: Launch<N>, r: Launch<N>,
        at: map<N, nat>, n: N)
    requires Went(p, roots, last, s, r) && n in Nodes(p.g) && Launched(s, n)
    ensures var end := Joined(p, r).log; !RunsOnce(p.g, |s.log|, end + Closing(p.queues[0], |end|), at)
  {
    hide WellFormed, Started, Joined, RunFrom, RunAll, Closing;
    LogShape(p, roots, last, s, r);
    RetrySkipsLaunched(p, roots, last, s);
    var end := Joined(p, r).log;
    var log := end + Closing(p.queues[0], |end|);
    forall i | |s.log| <= i < |log| && log[i].work.Run? ensures log[i].work.node != n {
      assert |Started(p, roots, last, s).log| <= i < |r.log| && log[i] == r.log[i];
    }
  }

  lemma RanRunsOnce<N>(p: Plan<N>, roots: seq<Option<N>>, last: Option<nat>, s: Launch<N>, r: Launch<N>)
    requires Ran(p, roots, last, s, r)
    ensures var end := Joined(p, r).log; RunsOnce(p.g, |s.log|, end + Closing(p.queues[0], |end|), r.commands)
  {
    hide WellFormed, Started, Joined, RunFrom, RunAll, Sound, AllLaunched, RunsOnce, Closing;
    RanSound(p, roots, last, s, r);
    LogShape(p, roots, last, s, r);
    var end := Joined(p, r).log;
    SoundRunsOnce(p, |Started(p, roots, last, s).log|, r, |s.log|, end + Closing(p.queues[0], |end|));
  }

  lemma SoundRunsOnce<N>(p: Plan<N>, base: nat, r: Launch<N>, from: nat, log: seq<Command<N>>)
    requires Sound(p, base, r) && AllLaunched(p, r) && from <= base <= |r.log| && r.log <= log
    requires forall i | from <= i < base || |r.log| <= i < |log| :: log[i].work == Marker
    ensures RunsOnce(p.g, from, log, r.commands)
  {
    hide WellFormed, LeafTable, Entries, Entry;
    forall n | n in r.commands ensures from <= r.commands[n] < |log| && log[r.commands[n]].work == Run(n) {
      SoundNode(p, base, r, n);
    }
    forall i | from <= i < |log| && log[i].work.Run?
        ensures log[i].work.node in r.commands && r.commands[log[i].work.node] == i {
      assert base <= i < |r.log|;
      assert Named(p, base, r, i - base);
      SoundNode(p, base, r, log[i].work.node);
    }
  }

  lemma RanJoins<N>(p: Plan<N>, roots: seq<Option<N>>, last: Option<nat>, s: Launch<N>, r: Launch<N>)
    requires Ran(p, roots, last, s, r) && AllOrdered(p, r)
    ensures var end := Joined(p, r).log; JoinedOn(p.queues[0], end + Closing(p.queues[0], |end|), r.commands)
  {
    hide WellFormed, Started, Joined, RunFrom, RunAll, Sound, AllLaunched, AllOrdered, Before, Closing;
    RanSound(p, roots, last, s, r);
    LogShape(p, roots, last, s, r);
    var end := Joined(p, r).log;
    var log := end + Closing(p.queues[0], |end|);
    forall n | n in r.commands ensures Before(log, r.commands[n], |log| - 1) {
      JoinsBefore(p, |Started(p, roots, last, s).log|, r, log, |log| - 1, n);
    }
  }

  lemma RanEdges<N>(p: Plan<N>, roots: seq<Option<N>>, last: Option<nat>, s: Launch<N>, r: Launch<N>)
    requires Ran(p, roots, last, s, r)
    ensures var end := Joined(p, r).log;
            EdgesKept(p.g, end + Closing(p.queues[0], |end|), r.commands) <==> AllOrdered(p, r)
  {
    hide ListsInside, Mirrored, Distinct, Started, Joined, RunFrom, RunAll, Before, Closing, Numbered, Entries,
      LeafTable;
    RanSound(p, roots, last, s, r);
    LogShape(p, roots, last, s, r);
    var base := |Started(p, roots, last, s).log|;
    var end := Joined(p, r).log;
    var log := end + Closing(p.queues[0], |end|);
    forall n, d | n in r.commands && d in p.g.deps[n]
      ensures d in r.commands && (Before(log, r.commands[d], r.commands[n]) <==> Orders(r, d, n))
    {
      SoundDep(p, base, r, n, d);
      SoundNode(p, base, r, n);
      if Before(log, r.commands[d], r.commands[n]) {
        BeforeShorter(r.log, log, r.commands[d], r.commands[n]);
      }
      if Orders(r, d, n) {
        BeforeStable(r.log, log, r.commands[d], r.commands[n]);
      }
    }
  }

  /** A finished parallel launch delivers its graph exactly when every skipped wait is
      bridged by something on the node's own stream. */
  lemma DeliveredExactly<N>(p: Plan<N>, roots: seq<Option<N>>, last: Option<nat>, s: Launch<N>, r: Launch<N>)
    requires Ran(p, roots, last, s, r) && OwnQueues(p)
    ensures var end := Joined(p, r).log;
            Delivered(p.g, p.queues[0], |s.log|, end + Closing(p.queues[0], |end|), r.commands) <==> AllBridged(p, r)
  {
    hide WellFormed, Started, Joined, RunFrom, RunAll, Sound, AllLaunched, AllOrdered, Before, Closing, EdgesKept,
      RunsOnce, JoinedOn, AllBridged, OwnQueues;
    RanSound(p, roots, last, s, r);
    EdgesRespectedExactly(p, |Started(p, roots, last, s).log|, r);
    RanRunsOnce(p, roots, last, s, r);
    RanEdges(p, roots, last, s, r);
    if AllOrdered(p, r) {
      RanJoins(p, roots, last, s, r);
    }
  }

  lemma RanTakesOrder<N>(p: Plan<N>, roots: seq<Option<N>>, last: Option<nat>, s: Launch<N>, r: Launch<N>)
    requires Ran(p, roots, last, s, r)
    ensures Tracks(p, r, Order(p.g))
  {
    hide WellFormed, StartMarkers, RunFrom, Order, Tracks;
    LaunchTakesAll(p, Started(p, roots, last, s));
  }

  /** The same condition, decided by the graph and its streams before anything is launched. */
  lemma DeliveredByOrder<N>(p: Plan<N>, roots: seq<Option<N>>, last: Option<nat>, s: Launch<N>, r: Launch<N>)
    requires Ran(p, roots, last, s, r) && OwnQueues(p)
    ensures var end := Joined(p, r).log;
            Delivered(p.g, p.queues[0], |s.log|, end + Closing(p.queues[0], |end|), r.commands) <==> Bridgeable(p)
  {
    hide WellFormed, Started, Joined, RunFrom, RunAll, Sound, AllLaunched, Closing, AllBridged, OwnQueues, Bridgeable,
      Tracks, Order, Delivered;
    DeliveredExactly(p, roots, last, s, r);
    RanSound(p, roots, last, s, r);
    RanTakesOrder(p, roots, last, s, r);
    BridgeableExactly(p, |Started(p, roots, last, s).log|, r);
  }

  /** A node whose wait is skipped and that nothing bridges is not ordered after its parent. */
  lemma UnbridgedLosesEdge<N>(p: Plan<N>, roots: seq<Option<N>>, last: Option<nat>, s: Launch<N>, r: Launch<N>, d: N,
        n: N)
    requires Ran(p, roots, last, s, r) && OwnQueues(p) && n in Nodes(p.g) && p.g.deps[n] == [d]
    requires Elided(p, n) && !BridgedIn(p.g, p.stream, Order(p.g), n)
    ensures !Orders(r, d, n)
  {
    hide WellFormed, Started, RunFrom, Sound, OwnQueues, Tracks, Order, Elided, Bridged, BridgedIn, Orders;
    RanSound(p, roots, last, s, r);
    RanTakesOrder(p, roots, last, s, r);
    var base := |Started(p, roots, last, s).log|;
    SoundDep(p, base, r, n, d);
    BridgedAsOrdered(p, r, Order(p.g), n);
    if Orders(r, d, n) {
      OrderedBridges(p, base, r, n);
    }
  }

  /** With the launch stream's latest command known, the launch is also held back by
      everything enqueued on the launch stream before it. */
  lemma ForkedExactly<N>(p: Plan<N>, roots: seq<Option<N>>, last: nat, s: Launch<N>, r: Launch<N>)
    requires Ran(p, roots, Some(last), s, r) && AllOrdered(p, r) && RootsKnown(p, roots)
    requires LatestOn(s.log, p.queues[0], last)
    ensures var end := Joined(p, r).log; ForkedFrom(p.queues[0], |s.log|, end + Closing(p.queues[0], |end|), r.commands)
  {
    hide *;
    RanForked(p, roots, last, s, r);
    LogShape(p, roots, Some(last), s, r);
    var base := |Started(p, roots, Some(last), s).log|;
    var end := Joined(p, r).log;
    var log := end + Closing(p.queues[0], |end|);
    forall c, n | 0 <= c < |s.log| && c < |log| && log[c].queue == p.queues[0] && n in r.commands
      ensures Before(log, c, r.commands[n])
    {
      NodeLaunched(p, r, n);
      ForksAfter(p, roots, last, s.log, base, r, n);
      BeforeStable(r.log, log, last, r.commands[n]);
      LatestLast(s.log, log, p.queues[0], last, c);
      if c < last {
        SameQueue(p.queues[0], log, c, last);
        BeforeThrough(log, c, last, r.commands[n]);
      }
    }
    NowForked(p.queues[0], |s.log|, log, r.commands);
  }

  lemma NowForked<N>(queue: int, from: nat, log: seq<Command<N>>, at: map<N, nat>)
    requires forall c, n | 0 <= c < from && c < |log| && log[c].queue == queue && n in at :: Before(log, c, at[n])
    ensures ForkedFrom(queue, from, log, at)
  {
    hide Before;
  }

  lemma NodeLaunched<N>(p: Plan<N>, r: Launch<N>, n: N)
    requires Planned(p) && Fits(p, r) && AllLaunched(p, r) && n in r.commands
    ensures n in Nodes(p.g) && Launched(r, n)
  {
    hide WellFormed;
  }

  /** What the fork theorem asks of a launch. */
  lemma RanForked<N>(p: Plan<N>, roots: seq<Option<N>>, last: nat, s: Launch<N>, r: Launch<N>)
    requires Ran(p, roots, Some(last), s, r) && RootsKnown(p, roots) && LatestOn(s.log, p.queues[0], last)
    ensures Planned(p) && Fits(p, s) && |roots| == p.limit && Went(p, roots, Some(last), s, r)
    ensures forall i | 0 < i < |roots| && roots[i].Some? :: i < |p.queues|
    ensures var base := |Started(p, roots, Some(last), s).log|;
            && Sound(p, base, r) && Fits(p, r) && AllLaunched(p, r) && 0 < |p.queues|
            && Forked(p, roots, last, s.log, r) && base == |s.log| + |StartMarkers(p, roots, last, p.limit)|
  {
    hide WellFormed, RunFrom, RunAll, Sound, AllLaunched, StartMarkers, RootsKnown, Joined;
    RanSound(p, roots, Some(last), s, r);
  }

  lemma LatestLast<N>(log: seq<Command<N>>, longer: seq<Command<N>>, queue: int, last: nat, c: nat)
    requires log <= longer && LatestOn(log, queue, last) && c < |log| && longer[c].queue == queue
    ensures c <= last < |longer| && longer[last].queue == queue
  {
  }

  /** `last` is the latest command on `queue`. */
  ghost predicate LatestOn<N>(log: seq<Command<N>>, queue: int, last: nat) {
    last < |log| && log[last].queue == queue && forall c | last < c < |log| :: log[c].queue != queue
  }

  /** What a launch finds: a plan for an acyclic graph, a root table that fits it, and a
      launch state, idle or not. */
  ghost predicate CanRun<N>(p: Plan<N>, roots: seq<Option<N>>, s: Launch<N>) {
    Planned(p) && Fits(p, s) && Acyclic(p.g) && 0 < |p.queues| && RootsKnown(p, roots) && OwnQueues(p)
  }

  /** The scheduler's own streams and root table are fit for a launch, whichever commands
      fail and whatever state the launch finds. */
  lemma SchedulerCanRun<N>(g: Dag<N>, q: nat, p: Plan<N>, s: Launch<N>)
    requires WellFormed(g) && Acyclic(g) && q >= 1 && p == SchedulerPlan(g, q).(failing := p.failing) && Fits(p, s)
    ensures CanRun(p, Scheduling.ScheduleAll(g, q).roots, s)
    ensures OwnQueues(p) && Planned(p) && RootsKnown(p, Scheduling.ScheduleAll(g, q).roots)
    ensures p.g == g && p.limit == q && p.stream == Scheduling.ScheduleAll(g, q).stream
  {
    hide ListsInside, Mirrored, Distinct, Acyclic, Scheduling.ScheduleAll;
    SchedulerPlanned(g, q);
    Scheduling.StreamTables(g, q);
  }

  /** A whole parallel launch from any state: it succeeds exactly when every command still
      to be launched can be created, and is then idle again. It delivers the graph exactly
      when it began idle, with nothing left over from a failed launch, and its skipped waits
      are bridged; it then also starts after everything earlier on the launch stream. */
  lemma LaunchDelivers<N>(p: Plan<N>, roots: seq<Option<N>>, last: Option<nat>, s: Launch<N>)
    requires CanRun(p, roots, s)
    ensures var o := RunAll(p, roots, last, s); var q := p.queues[0];
            var log := o.state.log + Closing(q, |o.state.log|); var at := o.state.commands;
            && s.log <= o.state.log
            && (o.ok <==> RestCreated(p, s))
            && (o.ok ==> Idle(p, o.state))
            && (o.ok ==> (Delivered(p.g, q, |s.log|, log, at) <==> Idle(p, s) && Bridgeable(p)))
            && (o.ok && Idle(p, s) && Bridgeable(p) && last.Some? && LatestOn(s.log, q, last.value) ==>
                  ForkedFrom(q, |s.log|, log, at))
  {
    hide WellFormed, Started, Joined, RunFrom, Sound, AllLaunched, Closing, AllBridged, OwnQueues, Bridgeable, Tracks,
      Order, Delivered,
      ForkedFrom, RootsKnown, LatestOn, Acyclic, RunsOnce, RestCreated;
    RootsKnownParts(p, roots);
    AnyLaunch(p, roots, last, s);
    RunAllParts(p, roots, last, s);
    var r := RunFrom(p, Started(p, roots, last, s), 0).state;
    JoinedKeeps(p, r);
    if RunAll(p, roots, last, s).ok {
      if Idle(p, s) {
        IdleDelivers(p, roots, last, s, r);
      } else {
        var n :| n in s.ids && s.ids[n] != -1;
        StaleIsMissing(p, roots, last, s, r, r.commands, n);
        DeliveredRuns(p.g, p.queues[0], |s.log|, Joined(p, r).log + Closing(p.queues[0], |Joined(p, r).log|),
          r.commands);
      }
    }
  }

  lemma DeliveredRuns<N>(g: Dag<N>, queue: int, from: nat, log: seq<Command<N>>, at: map<N, nat>)
    ensures Delivered(g, queue, from, log, at) ==> RunsOnce(g, from, log, at)
  {
  }

  lemma IdleDelivers<N>(p: Plan<N>, roots: seq<Option<N>>, last: Option<nat>, s: Launch<N>, r: Launch<N>)
    requires Ran(p, roots, last, s, r) && OwnQueues(p) && RootsKnown(p, roots)
    ensures var end := Joined(p, r).log; var q := p.queues[0]; var log := end + Closing(q, |end|);
            && (Delivered(p.g, q, |s.log|, log, r.commands) <==> Bridgeable(p))
            && (Bridgeable(p) && last.Some? && LatestOn(s.log, q, last.value) ==>
                 ForkedFrom(q, |s.log|, log, r.commands))
  {
    hide WellFormed, Started, Joined, RunFrom, RunAll, Sound, AllLaunched, Closing, AllBridged, OwnQueues, Bridgeable,
      Tracks, Order,
      Delivered, ForkedFrom, RootsKnown, LatestOn, Acyclic;
    DeliveredByOrder(p, roots, last, s, r);
    if Bridgeable(p) && last.Some? && LatestOn(s.log, p.queues[0], last.value) {
      RanSound(p, roots, last, s, r);
      RanTakesOrder(p, roots, last, s, r);
      BridgeableExactly(p, |Started(p, roots, last, s).log|, r);
      BridgedRespects(p, |Started(p, roots, last, s).log|, r);
      ForkedExactly(p, roots, last.value, s, r);
    }
  }

  lemma RootsKnownParts<N>(p: Plan<N>, roots: seq<Option<N>>)
    requires Planned(p) && RootsKnown(p, roots)
    ensures |roots| == p.limit && forall i | 0 < i < |roots| && roots[i].Some? :: i < |p.queues|
  {
  }

  lemma JoinedKeeps<N>(p: Plan<N>, s: Launch<N>)
    requires Planned(p) && Fits(p, s) && 0 < |p.queues|
    ensures Joined(p, s).commands == s.commands && s.log <= Joined(p, s).log
  {
  }

  // ---- A graph on a single stream ----

  /** The commands of `nodes`, one after the other, without waits. */
  ghost function InTurn<N>(queue: int, nodes: seq<N>): (r: seq<Command<N>>)
    ensures |r| == |nodes| && forall i | 0 <= i < |r| :: r[i] == Command(queue, Run(nodes[i]), [])
  {
    seq(|nodes|, i requires 0 <= i < |nodes| => Command(queue, Run(nodes[i]), []))
  }

  lemma InTurnNext<N>(queue: int, nodes: seq<N>, node: N)
    ensures InTurn(queue, nodes + [node]) == InTurn(queue, nodes) + [Command(queue, Run(node), [])]
  {
  }

  /** `at` numbers the commands of `nodes`. */
  ghost predicate Positions<N>(from: nat, nodes: seq<N>, at: map<N, nat>) {
    && (forall n | n in at :: n in nodes)
    && forall i | 0 <= i < |nodes| :: nodes[i] in at && at[nodes[i]] == from + i
  }

  lemma TopologicalEdge<N>(g: Dag<N>, topo: seq<N>, d: N, n: N) returns (i: nat, j: nat)
    requires Topological(g, topo) && d in g.vertices && n in g.vertices && d in g.edges && n in g.edges[d]
    ensures i < j < |topo| && topo[i] == d && topo[j] == n
  {
    i :| 0 <= i < |topo| && topo[i] == d;
    j :| 0 <= j < |topo| && topo[j] == n;
  }

  ghost function SingleLog<N>(queue: int, before: seq<Command<N>>, topo: seq<N>): seq<Command<N>> {
    var run := before + InTurn(queue, topo);
    run + Closing(queue, |run|)
  }

  lemma SingleLogIs<N>(queue: int, before: seq<Command<N>>, topo: seq<N>)
    ensures var run := before + InTurn(queue, topo); SingleLog(queue, before, topo) == run + Closing(queue, |run|)
  {
  }

  lemma SingleAt<N>(queue: int, before: seq<Command<N>>, topo: seq<N>, at: map<N, nat>, n: N) returns (i: nat)
    requires Positions(|before|, topo, at) && n in at
    ensures i < |topo| && topo[i] == n && at[n] == |before| + i
    ensures var log := SingleLog(queue, before, topo); at[n] < |log| - 2 && log[at[n]] == Command(queue, Run(n), [])
  {
    i :| 0 <= i < |topo| && topo[i] == n;
    assert SingleLog(queue, before, topo)[|before| + i] == InTurn(queue, topo)[i];
  }

  lemma SingleRunsOnce<N>(g: Dag<N>, queue: int, before: seq<Command<N>>, topo: seq<N>, at: map<N, nat>)
    requires Topological(g, topo) && Positions(|before|, topo, at)
    ensures RunsOnce(g, |before|, SingleLog(queue, before, topo), at)
  {
    hide Positions, Distinct, SingleLog;
    var log := SingleLog(queue, before, topo);
    assert at.Keys == Nodes(g) by {
      PositionsCover(g, |before|, topo, at);
    }
    forall n | n in at ensures |before| <= at[n] < |log| && log[at[n]].work == Run(n) {
      var i := SingleAt(queue, before, topo, at, n);
    }
    forall i | |before| <= i < |log| && log[i].work.Run? ensures log[i].work.node in at && at[log[i].work.node] == i {
      SingleEntry(queue, before, topo, at, i);
    }
  }

  lemma PositionsCover<N>(g: Dag<N>, from: nat, topo: seq<N>, at: map<N, nat>)
    requires Topological(g, topo) && Positions(from, topo, at)
    ensures at.Keys == Nodes(g)
  {
  }

  lemma SingleEntry<N>(queue: int, before: seq<Command<N>>, topo: seq<N>, at: map<N, nat>, i: nat)
    requires Positions(|before|, topo, at) && |before| <= i < |SingleLog(queue, before, topo)|
             && SingleLog(queue, before, topo)[i].work.Run?
    ensures var n := SingleLog(queue, before, topo)[i].work.node; n in at && at[n] == i
  {
    assert SingleLog(queue, before, topo)[i] == InTurn(queue, topo)[i - |before|];
  }

  lemma SameQueue<N>(queue: int, log: seq<Command<N>>, i: nat, j: nat)
    requires i < j < |log| && log[i].queue == queue && log[j].queue == queue
    ensures Before(log, i, j)
  {
    BeforeDirect(log, i, j);
  }

  /** One stream in topological order delivers the graph and waits for earlier work. */
  lemma SingleDelivered<N>(g: Dag<N>, queue: int, before: seq<Command<N>>, topo: seq<N>, at: map<N, nat>)
    requires WellFormed(g) && Topological(g, topo) && Positions(|before|, topo, at)
    ensures var log := SingleLog(queue, before, topo);
            Delivered(g, queue, |before|, log, at) && ForkedFrom(queue, |before|, log, at)
  {
    hide Distinct, ListsInside, Mirrored, Before, Positions, RunsOnce, SingleLog, Topological;
    SingleRunsOnce(g, queue, before, topo, at);
    var log := SingleLog(queue, before, topo);
    SingleEnds(queue, before, topo);
    forall n | n in at ensures Before(log, at[n], |log| - 1) {
      var i := SingleAt(queue, before, topo, at, n);
      SameQueue(queue, log, at[n], |log| - 1);
    }
    forall c, n | 0 <= c < |before| && log[c].queue == queue && n in at ensures Before(log, c, at[n]) {
      var i := SingleAt(queue, before, topo, at, n);
      SameQueue(queue, log, c, at[n]);
    }
    forall n, d | n in at && n in g.deps && d in g.deps[n] ensures d in at && Before(log, at[d], at[n]) {
      SingleEdge(g, queue, before, topo, at, d, n);
    }
  }

  lemma SingleEnds<N>(queue: int, before: seq<Command<N>>, topo: seq<N>)
    ensures var log := SingleLog(queue, before, topo); |log| >= |before| + 2 && log[|log| - 1].queue == queue
  {
  }

  lemma SingleEdge<N>(g: Dag<N>, queue: int, before: seq<Command<N>>, topo: seq<N>, at: map<N, nat>, d: N, n: N)
    requires WellFormed(g) && Topological(g, topo) && Positions(|before|, topo, at) && n in at && n in g.deps
             && d in g.deps[n]
    ensures d in at && Before(SingleLog(queue, before, topo), at[d], at[n])
  {
    hide ListsInside, Mirrored, Distinct, Before, SingleLog, Topological;
    PositionsCover(g, |before|, topo, at);
    DepIn(g, n, d);
    var i, j := TopologicalEdge(g, topo, d, n);
    var k := SingleAt(queue, before, topo, at, d);
    var l := SingleAt(queue, before, topo, at, n);
    assert at[topo[i]] == |before| + i && at[topo[j]] == |before| + j;
    SameQueue(queue, SingleLog(queue, before, topo), at[d], at[n]);
  }
}
