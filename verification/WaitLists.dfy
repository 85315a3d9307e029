/** What every command of a finished launch waits for: no less, as `Ordering` and `Fencing`
    need, and no more, which is what the launch reduces wait lists for. */
module WaitLists {
  import opened Dags
  import opened Streams
  import opened Launching
  import opened LaunchSoundness
  import opened Ordering
  import opened Fencing
  import opened Delivery

  // ---- The commands of nodes ----

  /** Dependency d of n is on another stream than n, and n has no dependency on that stream
      with a larger launch id. */
  ghost predicate Awaited<N>(g: Dag<N>, stream: map<N, int>, ids: map<N, int>, n: N, d: N)
    requires n in g.deps && n in stream && forall e | e in g.deps[n] :: e in stream && e in ids
  {
    && d in g.deps[n] && stream[d] != stream[n]
    && forall e | e in g.deps[n] && stream[e] == stream[d] :: ids[e] <= ids[d]
  }

  /** A launched node of a sound state, and its dependencies, are known to every table. */
  ghost predicate Known<N>(p: Plan<N>, s: Launch<N>, n: N) {
    && n in p.g.deps && n in p.stream && n in s.commands && s.commands[n] < |s.log| && 0 <= p.stream[n] < |p.queues|
    && forall d | d in p.g.deps[n] :: d in p.stream && d in s.ids && d in s.commands
  }

  lemma NodeKnown<N>(p: Plan<N>, base: nat, s: Launch<N>, n: N)
    requires Sound(p, base, s) && n in Nodes(p.g) && Launched(s, n)
    ensures Known(p, s, n) && s.log[s.commands[n]].work == Run(n)
            && s.log[s.commands[n]].queue == p.queues[p.stream[n]]
    ensures forall d | d in p.g.deps[n] :: d in Nodes(p.g) && Launched(s, d)
  {
    hide ListsInside, Mirrored, Distinct, Numbered, Entries, LeafTable, Entry;
    SoundNode(p, base, s, n);
    forall d | d in p.g.deps[n] ensures d in Nodes(p.g) && Launched(s, d) {
      SoundDep(p, base, s, n, d);
    }
  }

  lemma AwaitedIsLatest<N>(p: Plan<N>, s: Launch<N>, n: N, d: N)
    requires At(p, s, n) && Known(p, s, n)
    ensures Awaited(p.g, p.stream, s.ids, n, d) <==> LatestDep(p, s, n, d)
  {
    hide Mirrored, Distinct;
  }

  /** A dependency that n waits for is the last one launched on its stream. */
  lemma WaitedIsAwaited<N>(p: Plan<N>, base: nat, s: Launch<N>, n: N, d: N)
    requires Sound(p, base, s) && n in Nodes(p.g) && Launched(s, n) && Precise(p, s, n) && Known(p, s, n)
    requires d in p.g.deps[n] && s.commands[d] in s.log[s.commands[n]].waits
    ensures Awaited(p.g, p.stream, s.ids, n, d)
  {
    hide ListsInside, Mirrored, Distinct, Numbered, Entries, LeafTable, Entry, LatestDep, Awaited, Known;
    NodeKnown(p, base, s, n);
    assert WaitsForLatest(p, s, n, s.commands[d]);
    var e :| e in p.g.deps[n] && LatestDep(p, s, n, e) && s.commands[d] == s.commands[e];
    OneId(p, base, s, d, e);
    AwaitedIsLatest(p, s, n, d);
  }

  /** Unless its wait is skipped, a node waits once for the dependency launched last on each
      stream other than its own, and for nothing else. */
  lemma PreciseExactly<N>(p: Plan<N>, base: nat, s: Launch<N>, n: N)
    requires Sound(p, base, s) && n in Nodes(p.g) && Launched(s, n) && !Elided(p, n) && Known(p, s, n)
    ensures var waits := s.log[s.commands[n]].waits;
            && Distinct(waits)
            && (forall d | d in p.g.deps[n] && Awaited(p.g, p.stream, s.ids, n, d) :: s.commands[d] in waits)
            && (forall c | c in waits ::
                  exists d :: d in p.g.deps[n] && Awaited(p.g, p.stream, s.ids, n, d) && c == s.commands[d])
            && forall d, e | d in p.g.deps[n] && e in p.g.deps[n] && p.stream[d] == p.stream[e]
                 && s.commands[d] in waits && s.commands[e] in waits :: d == e
  {
    hide ListsInside, Mirrored, Distinct, Numbered, Entries, LeafTable, Elided, LatestDep, Covered, Awaited, Known;
    NodeKnown(p, base, s, n);
    SoundNode(p, base, s, n);
    forall d | d in p.g.deps[n] ensures Awaited(p.g, p.stream, s.ids, n, d) <==> LatestDep(p, s, n, d) {
      AwaitedIsLatest(p, s, n, d);
    }
    var waits := s.log[s.commands[n]].waits;
    forall c | c in waits
      ensures exists d :: d in p.g.deps[n] && Awaited(p.g, p.stream, s.ids, n, d) && c == s.commands[d]
    {
      assert WaitsForLatest(p, s, n, c);
    }
    forall d, e | d in p.g.deps[n] && e in p.g.deps[n] && p.stream[d] == p.stream[e]
        && s.commands[d] in waits && s.commands[e] in waits
      ensures d == e
    {
      WaitedIsAwaited(p, base, s, n, d);
      WaitedIsAwaited(p, base, s, n, e);
      SameLatest(p, base, s, n, d, e);
    }
  }

  lemma SameLatest<N>(p: Plan<N>, base: nat, s: Launch<N>, n: N, d: N, e: N)
    requires Sound(p, base, s) && Known(p, s, n) && d in Nodes(p.g) && e in Nodes(p.g) && p.stream[d] == p.stream[e]
    requires Launched(s, d) && Launched(s, e)
    requires Awaited(p.g, p.stream, s.ids, n, d) && Awaited(p.g, p.stream, s.ids, n, e)
    ensures d == e
  {
    hide ListsInside, Mirrored, Distinct, Numbered, Entries, LeafTable;
    OneId(p, base, s, d, e);
  }

  /** The command of n: on its stream's queue, waiting for nothing if its wait is skipped and
      otherwise once for the dependency launched last on each foreign stream. */
  ghost predicate NodeCommand<N>(p: Plan<N>, s: Launch<N>, n: N)
    requires Known(p, s, n)
  {
    var command := s.log[s.commands[n]];
    && command.queue == p.queues[p.stream[n]] && command.work == Run(n) && Distinct(command.waits)
    && if Elided(p, n) then command.waits == []
       else forall c :: c in command.waits <==> AwaitedAt(p, s, n, c)
  }

  ghost predicate AwaitedAt<N>(p: Plan<N>, s: Launch<N>, n: N, c: nat)
    requires Known(p, s, n)
  {
    exists d :: d in p.g.deps[n] && Awaited(p.g, p.stream, s.ids, n, d) && c == s.commands[d]
  }

  lemma NodeExactly<N>(p: Plan<N>, base: nat, s: Launch<N>, n: N)
    requires Sound(p, base, s) && n in Nodes(p.g) && Launched(s, n)
    ensures Known(p, s, n) && NodeCommand(p, s, n)
  {
    hide ListsInside, Mirrored, Distinct, Numbered, Entries, LeafTable, Elided, Entry, Awaited, Known, Enqueued;
    NodeKnown(p, base, s, n);
    SoundNode(p, base, s, n);
    if Elided(p, n) {
      ElidedWaitsForNothing(p, s, n);
      NoneDistinct<nat>();
    } else {
      PreciseExactly(p, base, s, n);
    }
  }

  lemma NoneDistinct<T>()
    ensures Distinct<T>([])
  {
  }

  // ---- The start markers ----

  /** The extra streams below k that have a root. */
  ghost function Rooted<N>(roots: seq<Option<N>>, k: nat): set<nat>
    requires k <= |roots|
  {
    set i: nat | 0 < i < k && roots[i].Some?
  }

  /** `starts` is one marker for each extra stream with a root, on that stream's queue and
      waiting for the launch stream's last command; it is empty if there is no such command. */
  ghost predicate StartsExactly<N>(p: Plan<N>, roots: seq<Option<N>>, last: Option<nat>, starts: seq<Command<N>>,
                                   k: nat)
    requires k <= |roots| && forall i | 0 < i < |roots| && roots[i].Some? :: i < |p.queues|
  {
    match last
    case None => starts == []
    case Some(c) =>
      && |starts| == |Rooted(roots, k)|
      && (forall i | i in Rooted(roots, k) :: Command(p.queues[i], Marker, [c]) in starts)
      && forall m | 0 <= m < |starts| :: MarksStream(p, roots, c, k, starts[m])
  }

  ghost predicate MarksStream<N>(p: Plan<N>, roots: seq<Option<N>>, c: nat, k: nat, command: Command<N>)
    requires k <= |roots| && forall i | 0 < i < |roots| && roots[i].Some? :: i < |p.queues|
  {
    exists i :: i in Rooted(roots, k) && command == Command(p.queues[i], Marker, [c])
  }

  lemma {:induction false} MarkersExactly<N>(p: Plan<N>, roots: seq<Option<N>>, last: nat, k: nat)
    requires k <= |roots| && forall i | 0 < i < |roots| && roots[i].Some? :: i < |p.queues|
    ensures StartsExactly(p, roots, Some(last), StartMarkers(p, roots, last, k), k)
  {
    hide StartsExactly, StartMarkers;
    MarkersUnfold(p, roots, last, k);
    if k == 0 {
      NoneRooted(p, roots, last);
    } else {
      MarkersExactly(p, roots, last, k - 1);
      OneMoreMarker(p, roots, last, StartMarkers(p, roots, last, k - 1), k - 1);
    }
  }

  lemma MarkersUnfold<N>(p: Plan<N>, roots: seq<Option<N>>, last: nat, k: nat)
    requires k <= |roots| && forall i | 0 < i < |roots| && roots[i].Some? :: i < |p.queues|
    ensures StartMarkers(p, roots, last, k) ==
            if k == 0 then []
            else if k - 1 != 0 && roots[k - 1].Some? then
              StartMarkers(p, roots, last, k - 1) + [Command(p.queues[k - 1], Marker, [last])]
            else StartMarkers(p, roots, last, k - 1)
  {
  }

  lemma NoneRooted<N>(p: Plan<N>, roots: seq<Option<N>>, last: nat)
    requires forall i | 0 < i < |roots| && roots[i].Some? :: i < |p.queues|
    ensures StartsExactly(p, roots, Some(last), [], 0)
  {
    assert Rooted(roots, 0) == {};
  }

  lemma OneMoreMarker<N>(p: Plan<N>, roots: seq<Option<N>>, last: nat, starts: seq<Command<N>>, k: nat)
    requires k < |roots| && forall i | 0 < i < |roots| && roots[i].Some? :: i < |p.queues|
    requires StartsExactly(p, roots, Some(last), starts, k)
    ensures StartsExactly(p, roots, Some(last), if k != 0 && roots[k].Some?
              then starts + [Command(p.queues[k], Marker, [last])] else starts, k + 1)
  {
    hide MarksStream;
    if k != 0 && roots[k].Some? {
      assert Rooted(roots, k + 1) == Rooted(roots, k) + {k};
      NewMark(p, roots, last, k);
      forall m | 0 <= m < |starts| ensures MarksStream(p, roots, last, k + 1, starts[m]) {
        MarkStays(p, roots, last, k, starts[m]);
      }
    } else {
      assert Rooted(roots, k + 1) == Rooted(roots, k);
      forall m | 0 <= m < |starts| ensures MarksStream(p, roots, last, k + 1, starts[m]) {
        MarkStays(p, roots, last, k, starts[m]);
      }
    }
  }

  lemma NewMark<N>(p: Plan<N>, roots: seq<Option<N>>, last: nat, k: nat)
    requires 0 < k < |roots| && roots[k].Some? && forall i | 0 < i < |roots| && roots[i].Some? :: i < |p.queues|
    ensures MarksStream(p, roots, last, k + 1, Command(p.queues[k], Marker, [last]))
  {
    assert k in Rooted(roots, k + 1);
  }

  lemma MarkStays<N>(p: Plan<N>, roots: seq<Option<N>>, last: nat, k: nat, command: Command<N>)
    requires k < |roots| && forall i | 0 < i < |roots| && roots[i].Some? :: i < |p.queues|
    requires MarksStream(p, roots, last, k, command)
    ensures MarksStream(p, roots, last, k + 1, command)
  {
    var i :| i in Rooted(roots, k) && command == Command(p.queues[i], Marker, [last]);
    assert i in Rooted(roots, k + 1);
  }

  // ---- The end marker ----

  /** n is a leaf on an extra stream, and no leaf on its stream was launched later. */
  ghost predicate LastLeaf<N>(g: Dag<N>, stream: map<N, int>, ids: map<N, int>, n: N)
    requires forall m | m in Nodes(g) :: m in g.edges && m in stream && m in ids
  {
    && n in Nodes(g) && g.edges[n] == [] && stream[n] != 0
    && forall m | m in Nodes(g) && g.edges[m] == [] && stream[m] == stream[n] :: ids[m] <= ids[n]
  }

  /** `ends` is one marker on the launch stream that waits, once each, for the leaf launched
      last on every extra stream; it is empty if there is no leaf on any. */
  ghost predicate EndsExactly<N>(p: Plan<N>, s: Launch<N>, ends: seq<Command<N>>)
    requires Planned(p) && Fits(p, s) && 0 < |p.queues|
  {
    if forall n | n in Nodes(p.g) :: !LastLeaf(p.g, p.stream, s.ids, n) then ends == []
    else
      && |ends| == 1 && ends[0].queue == p.queues[0] && ends[0].work == Marker && Distinct(ends[0].waits)
      && forall c :: c in ends[0].waits <==> LastLeafAt(p, s, c)
  }

  ghost predicate LastLeafAt<N>(p: Plan<N>, s: Launch<N>, c: nat)
    requires Planned(p) && Fits(p, s)
  {
    exists n :: n in Nodes(p.g) && LastLeaf(p.g, p.stream, s.ids, n) && c == s.commands[n]
  }

  lemma {:induction false} LeafWaitsSlot<N>(p: Plan<N>, s: Launch<N>, k: nat, c: nat) returns (i: nat)
    requires Planned(p) && Fits(p, s) && k <= p.limit && c in LeafWaits(p, s, k)
    ensures 0 < i < k && s.leafs[i].Some? && s.leafs[i].value in s.commands && c == s.commands[s.leafs[i].value]
  {
    hide WellFormed;
    i := k - 1;
    if i == 0 || s.leafs[i].None? || s.leafs[i].value !in s.commands || c != s.commands[s.leafs[i].value] {
      i := LeafWaitsSlot(p, s, k - 1, c);
    }
  }

  lemma {:induction false} LeafWaitsDistinct<N>(p: Plan<N>, base: nat, s: Launch<N>, k: nat)
    requires Sound(p, base, s) && k <= p.limit
    ensures Distinct(LeafWaits(p, s, k))
  {
    hide WellFormed, Numbered, Entries, LeafWaits, LeafSlot, LeafKnown;
    if k > 0 {
      LeafWaitsDistinct(p, base, s, k - 1);
      LeafWaitsNext(p, s, k);
      var slot := s.leafs[k - 1];
      if slot.Some? && slot.value in s.commands && s.commands[slot.value] in LeafWaits(p, s, k - 1) {
        var i := LeafWaitsSlot(p, s, k - 1, s.commands[s.leafs[k - 1].value]);
        SlotsDiffer(p, base, s, i, k - 1);
      }
    } else {
      LeafWaitsNext(p, s, k);
    }
  }

  lemma LeafWaitsNext<N>(p: Plan<N>, s: Launch<N>, k: nat)
    requires Planned(p) && Fits(p, s) && k <= p.limit
    ensures LeafWaits(p, s, k) ==
            if k == 0 then []
            else if k - 1 != 0 && s.leafs[k - 1].Some? && s.leafs[k - 1].value in s.commands then
              LeafWaits(p, s, k - 1) + [s.commands[s.leafs[k - 1].value]]
            else LeafWaits(p, s, k - 1)
  {
  }

  lemma SlotsDiffer<N>(p: Plan<N>, base: nat, s: Launch<N>, i: nat, j: nat)
    requires Sound(p, base, s) && i < j < p.limit && s.leafs[i].Some? && s.leafs[j].Some?
    requires s.leafs[i].value in s.commands && s.leafs[j].value in s.commands
    ensures s.commands[s.leafs[i].value] != s.commands[s.leafs[j].value]
  {
    hide WellFormed, Numbered, Entries;
    assert LeafSlot(p, s, i) && LeafSlot(p, s, j);
    OneId(p, base, s, s.leafs[i].value, s.leafs[j].value);
  }

  lemma SlotIsLast<N>(p: Plan<N>, base: nat, s: Launch<N>, i: nat)
    requires Sound(p, base, s) && AllLaunched(p, s) && 0 < i < p.limit && s.leafs[i].Some?
    ensures s.leafs[i].value in Nodes(p.g) && LastLeaf(p.g, p.stream, s.ids, s.leafs[i].value)
  {
    hide ListsInside, Mirrored, Distinct, Numbered, Entries;
    assert LeafSlot(p, s, i);
    var n := s.leafs[i].value;
    forall m | m in Nodes(p.g) && p.g.edges[m] == [] && p.stream[m] == p.stream[n] ensures s.ids[m] <= s.ids[n] {
      assert LeafKnown(p, s, m);
    }
  }

  lemma LastIsSlot<N>(p: Plan<N>, base: nat, s: Launch<N>, n: N)
    requires Sound(p, base, s) && AllLaunched(p, s) && n in Nodes(p.g) && LastLeaf(p.g, p.stream, s.ids, n)
    ensures n in p.stream && 0 < p.stream[n] < p.limit && s.leafs[p.stream[n]] == Some(n)
  {
    hide ListsInside, Mirrored, Distinct, Numbered, Entries;
    var i := p.stream[n];
    assert LeafKnown(p, s, n);
    assert LeafSlot(p, s, i);
    OneId(p, base, s, n, s.leafs[i].value);
  }

  lemma EndMarker<N>(p: Plan<N>, base: nat, s: Launch<N>) returns (ends: seq<Command<N>>)
    requires Sound(p, base, s) && AllLaunched(p, s) && 0 < |p.queues|
    ensures Joined(p, s).log == s.log + ends && EndsExactly(p, s, ends)
  {
    hide ListsInside, Mirrored, Distinct, Numbered, Entries, LeafTable, LeafWaits, AllLaunched, LastLeaf;
    var waits := LeafWaits(p, s, p.limit);
    ends := if waits == [] then [] else [Command(p.queues[0], Marker, waits)];
    LeafWaitsDistinct(p, base, s, p.limit);
    forall n | n in Nodes(p.g) && LastLeaf(p.g, p.stream, s.ids, n) ensures s.commands[n] in waits {
      LastIsSlot(p, base, s, n);
      LeafWaited(p, s, p.limit, p.stream[n]);
    }
    forall c | c in waits ensures LastLeafAt(p, s, c) {
      var i := LeafWaitsSlot(p, s, p.limit, c);
      SlotIsLast(p, base, s, i);
    }
    if waits != [] {
      assert LastLeafAt(p, s, waits[0]);
    }
  }

  // ---- The whole launch ----

  /** Everything a finished launch enqueues and everything that waits: start markers, one
      command per node and at most one end marker, each with exactly the waits it should
      have. */
  lemma LaunchWaitsExactly<N>(p: Plan<N>, roots: seq<Option<N>>, last: Option<nat>, s: Launch<N>, r: Launch<N>)
    returns (starts: seq<Command<N>>, ends: seq<Command<N>>)
    requires Ran(p, roots, last, s, r)
    ensures s.log + starts <= r.log && |r.log| == |s.log| + |starts| + |p.g.vertices|
    ensures StartsExactly(p, roots, last, starts, p.limit)
    ensures forall n | n in Nodes(p.g) :: Known(p, r, n) && r.commands[n] >= |s.log| + |starts| && NodeCommand(p, r, n)
    ensures RunAll(p, roots, last, s).state.log == r.log + ends && EndsExactly(p, r, ends)
  {
    hide WellFormed, Sound, AllLaunched, RunFrom, RunAll, Joined, StartMarkers, StartsExactly, EndsExactly, Known,
      NodeCommand;
    RanSound(p, roots, last, s, r);
    starts := if last.Some? then StartMarkers(p, roots, last.value, p.limit) else [];
    if last.Some? {
      MarkersExactly(p, roots, last.value, p.limit);
    } else {
      NoMarkers(p, roots);
    }
    var base := |Started(p, roots, last, s).log|;
    assert base == |s.log| + |starts|;
    RanLength(p, base, r);
    forall n | n in Nodes(p.g) ensures Known(p, r, n) && r.commands[n] >= base && NodeCommand(p, r, n) {
      NodeLaunched(p, base, r, n);
      NodeExactly(p, base, r, n);
    }
    ends := EndMarker(p, base, r);
  }

  lemma NoMarkers<N>(p: Plan<N>, roots: seq<Option<N>>)
    requires |roots| == p.limit && forall i | 0 < i < |roots| && roots[i].Some? :: i < |p.queues|
    ensures StartsExactly(p, roots, None, [], p.limit)
  {
  }

  lemma RanLength<N>(p: Plan<N>, base: nat, r: Launch<N>)
    requires Sound(p, base, r) && AllLaunched(p, r)
    ensures |r.log| == base + |p.g.vertices|
  {
    hide WellFormed, Entries, LeafTable, Enqueued, Named;
    var order := LaunchOrder(p, base, r);
  }

  lemma NodeLaunched<N>(p: Plan<N>, base: nat, r: Launch<N>, n: N)
    requires Sound(p, base, r) && AllLaunched(p, r) && n in Nodes(p.g)
    ensures Launched(r, n) && r.commands[n] >= base
  {
    hide WellFormed, Entries, LeafTable, Entry, Numbered;
    SoundNode(p, base, r, n);
  }
}
