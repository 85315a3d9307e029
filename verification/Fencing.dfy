/** How a launch is fenced: nothing starts before the launch stream's earlier work, and
    later work on the launch stream starts after every node. */
module Fencing {
  import opened Dags
  import opened Streams
  import opened Launching
  import opened LaunchSoundness
  import opened Ordering
  import Scheduling

  // ---- Fork: the start markers ----

  lemma {:induction false} MarkerAt<N>(p: Plan<N>, roots: seq<Option<N>>, last: nat, k: nat, i: nat) returns (m: nat)
    requires k <= |roots| && (forall i | 0 < i < |roots| && roots[i].Some? :: i < |p.queues|)
    requires 0 < i < k && roots[i].Some?
    ensures m < |StartMarkers(p, roots, last, k)|
    ensures StartMarkers(p, roots, last, k)[m] == Command(p.queues[i], Marker, [last])
  {
    if i == k - 1 {
      m := |StartMarkers(p, roots, last, k - 1)|;
    } else {
      m := MarkerAt(p, roots, last, k - 1, i);
    }
  }

  /** The root table names a root on every extra stream that has one. */
  ghost predicate RootsKnown<N>(p: Plan<N>, roots: seq<Option<N>>)
    requires Planned(p)
  {
    && |roots| == p.limit
    && (forall i | 0 < i < |roots| && roots[i].Some? :: i < |p.queues|)
    && forall n | n in Nodes(p.g) && p.g.deps[n] == [] && p.stream[n] != 0 :: roots[p.stream[n]].Some?
  }

  /** The log a launch starts from, after `last`, the latest command of the launch queue. */
  ghost predicate Forked<N>(p: Plan<N>, roots: seq<Option<N>>, last: nat, before: seq<Command<N>>, s: Launch<N>)
    requires Planned(p) && RootsKnown(p, roots)
  {
    && 0 < |p.queues|
    && last < |before| && before[last].queue == p.queues[0]
    && before + StartMarkers(p, roots, last, p.limit) <= s.log
  }

  lemma RootForked<N>(p: Plan<N>, roots: seq<Option<N>>, last: nat, before: seq<Command<N>>, base: nat, s: Launch<N>,
        n: N)
    requires Sound(p, base, s) && RootsKnown(p, roots) && Forked(p, roots, last, before, s)
    requires base == |before| + |StartMarkers(p, roots, last, p.limit)|
    requires n in Nodes(p.g) && Launched(s, n) && p.g.deps[n] == []
    ensures Before(s.log, last, s.commands[n])
  {
    hide ListsInside, Mirrored, Distinct, Numbered, Entries, LeafTable, Entry, Before, StartMarkers;
    SoundNode(p, base, s, n);
    if p.stream[n] == 0 {
      BeforeDirect(s.log, last, s.commands[n]);
    } else {
      var m := MarkerAt(p, roots, last, p.limit, p.stream[n]);
      var at := |before| + m;
      assert s.log[at] == Command(p.queues[p.stream[n]], Marker, [last]);
      BeforeDirect(s.log, last, at);
      BeforeDirect(s.log, at, s.commands[n]);
      BeforeThrough(s.log, last, at, s.commands[n]);
    }
  }

  /** Fork: the launch stream's last earlier command happens before every node. */
  lemma {:induction false} ForksAfter<N>(p: Plan<N>, roots: seq<Option<N>>, last: nat, before: seq<Command<N>>,
        base: nat, s: Launch<N>, n: N)
    requires Sound(p, base, s) && AllOrdered(p, s) && RootsKnown(p, roots) && Forked(p, roots, last, before, s)
    requires base == |before| + |StartMarkers(p, roots, last, p.limit)|
    requires n in Nodes(p.g) && Launched(s, n)
    ensures Before(s.log, last, s.commands[n])
    decreases s.ids[n] + 1
  {
    hide ListsInside, Mirrored, Distinct, Numbered, Entries, LeafTable, Before, StartMarkers, RootsKnown, Forked, Entry;
    if p.g.deps[n] == [] {
      RootForked(p, roots, last, before, base, s, n);
    } else {
      var d := p.g.deps[n][0];
      SoundDep(p, base, s, n, d);
      ForksAfter(p, roots, last, before, base, s, d);
      assert Orders(s, d, n);
      BeforeThrough(s.log, last, s.commands[d], s.commands[n]);
    }
  }

  // ---- Join: the leaves and the end marker ----

  /** Every launched node is a leaf or happens before one. */
  lemma {:induction false} LeafBelow<N>(p: Plan<N>, base: nat, s: Launch<N>, n: N) returns (leaf: N)
    requires Sound(p, base, s) && AllOrdered(p, s) && AllLaunched(p, s) && n in Nodes(p.g)
    ensures leaf in Nodes(p.g) && p.g.edges[leaf] == [] && (leaf == n || Orders(s, n, leaf))
    decreases s.next - s.ids[n]
  {
    hide Mirrored, Distinct, Numbered, Entries, LeafTable, Before, Entry, Orders;
    if p.g.edges[n] == [] {
      leaf := n;
    } else {
      var c := p.g.edges[n][0];
      ChildIn(p.g, n, c);
      SoundDep(p, base, s, c, n);
      SoundNode(p, base, s, c);
      leaf := LeafBelow(p, base, s, c);
      if leaf != c {
        OrdersThrough(s, n, c, leaf);
      }
    }
  }

  lemma {:induction false} LeafWaited<N>(p: Plan<N>, s: Launch<N>, k: nat, i: nat)
    requires Planned(p) && Fits(p, s) && k <= p.limit && 0 < i < k
    requires s.leafs[i].Some? && s.leafs[i].value in s.commands
    ensures s.commands[s.leafs[i].value] in LeafWaits(p, s, k)
  {
    hide WellFormed;
    if i < k - 1 {
      LeafWaited(p, s, k - 1, i);
    }
  }

  /** `e` is a command enqueued on the launch queue once the node loop is over. */
  ghost predicate AfterLaunch<N>(p: Plan<N>, s: Launch<N>, log: seq<Command<N>>, e: nat)
    requires Planned(p) && Fits(p, s)
  {
    && 0 < |p.queues|
    && Joined(p, s).log <= log
    && |s.log| <= e < |log| && log[e].queue == p.queues[0]
  }

  lemma EndMarkerAt<N>(p: Plan<N>, s: Launch<N>, log: seq<Command<N>>, e: nat, w: nat)
    requires Planned(p) && Fits(p, s) && AfterLaunch(p, s, log, e)
    requires w in LeafWaits(p, s, p.limit) && w < |s.log|
    ensures Before(log, w, e)
  {
    hide WellFormed, Before, LeafWaits;
    var m := |s.log|;
    assert log[m] == Command(p.queues[0], Marker, LeafWaits(p, s, p.limit));
    BeforeDirect(log, w, m);
    if m < e {
      BeforeDirect(log, m, e);
      BeforeThrough(log, w, m, e);
    }
  }

  lemma LeafJoins<N>(p: Plan<N>, base: nat, s: Launch<N>, log: seq<Command<N>>, e: nat, leaf: N)
    requires Sound(p, base, s) && AllLaunched(p, s) && AfterLaunch(p, s, log, e)
    requires leaf in Nodes(p.g) && p.g.edges[leaf] == []
    ensures Before(log, s.commands[leaf], e)
  {
    hide ListsInside, Mirrored, Distinct, Numbered, Entries, Before, Entry, LeafWaits, Joined;
    SoundNode(p, base, s, leaf);
    LogKept(p, s, log, e);
    if p.stream[leaf] == 0 {
      assert s.log[s.commands[leaf]] == log[s.commands[leaf]];
      BeforeDirect(log, s.commands[leaf], e);
    } else {
      var i := p.stream[leaf];
      assert LeafKnown(p, s, leaf);
      assert LeafSlot(p, s, i);
      var latest := s.leafs[i].value;
      SoundNode(p, base, s, latest);
      LeafWaited(p, s, p.limit, i);
      EndMarkerAt(p, s, log, e, s.commands[latest]);
      if leaf != latest {
        DifferentIds(p, base, s, leaf, latest);
        SameStream(p, base, s, leaf, latest);
        BeforeStable(s.log, log, s.commands[leaf], s.commands[latest]);
        BeforeThrough(log, s.commands[leaf], s.commands[latest], e);
      }
    }
  }

  lemma LogKept<N>(p: Plan<N>, s: Launch<N>, log: seq<Command<N>>, e: nat)
    requires Planned(p) && Fits(p, s) && AfterLaunch(p, s, log, e)
    ensures s.log <= log
  {
    hide WellFormed, LeafWaits;
  }

  /** Join: every node happens before anything later on the launch stream. */
  lemma JoinsBefore<N>(p: Plan<N>, base: nat, s: Launch<N>, log: seq<Command<N>>, e: nat, n: N)
    requires Sound(p, base, s) && AllOrdered(p, s) && AllLaunched(p, s) && AfterLaunch(p, s, log, e)
    requires n in Nodes(p.g)
    ensures Before(log, s.commands[n], e)
  {
    hide ListsInside, Mirrored, Distinct, Numbered, Entries, LeafTable, Before, Joined, AllOrdered, AllLaunched;
    var leaf := LeafBelow(p, base, s, n);
    LeafJoins(p, base, s, log, e, leaf);
    if leaf != n {
      LogKept(p, s, log, e);
      BeforeStable(s.log, log, s.commands[n], s.commands[leaf]);
      BeforeThrough(log, s.commands[n], s.commands[leaf], e);
    }
  }
}
