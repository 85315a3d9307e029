/** What a parallel launch enqueues: a depth-first walk of the graph that puts one
    command per node on its stream, with a reduced wait list. */
module Launching {
  import opened Dags
  import opened Streams

  /** What the launch reads: the graph, each node's virtual stream, the queue behind each
      virtual stream, the stream limit, and the nodes whose command cannot be created. */
  datatype Plan<N> = Plan(g: Dag<N>, stream: map<N, int>, queues: seq<int>, limit: nat, failing: set<N>)

  /** Launch id (-1 before launch) and command of every node, the next id, the queue log,
      and the latest leaf launched on each stream. */
  datatype Launch<N> = Launch(ids: map<N, int>, commands: map<N, nat>, next: int, log: seq<Command<N>>,
    leafs: seq<Option<N>>)

  datatype Outcome<N> = Outcome(state: Launch<N>, ok: bool)

  ghost predicate Planned<N>(p: Plan<N>) {
    && WellFormed(p.g)
    && p.limit >= 1
    && p.stream.Keys == Nodes(p.g)
    && forall n | n in p.stream :: 0 <= p.stream[n] < p.limit && p.stream[n] < |p.queues|
  }

  ghost predicate Fits<N>(p: Plan<N>, s: Launch<N>) {
    && s.ids.Keys == Nodes(p.g)
    && s.commands.Keys == Nodes(p.g)
    && |s.leafs| == p.limit
    && 0 <= s.next
  }

  ghost predicate At<N>(p: Plan<N>, s: Launch<N>, node: N) {
    Planned(p) && Fits(p, s) && node in Nodes(p.g)
  }

  ghost function Unlaunched<N>(s: Launch<N>): set<N> {
    set n | n in s.ids && s.ids[n] == -1
  }

  ghost predicate Ready<N>(p: Plan<N>, s: Launch<N>, node: N)
    requires At(p, s, node)
  {
    forall d | d in p.g.deps[node] :: d in s.ids && s.ids[d] != -1
  }

  /** The latest launch per foreign stream among the first k dependencies of `node`. */
  ghost function Latest<N>(p: Plan<N>, s: Launch<N>, node: N, k: nat): (w: seq<Option<N>>)
    requires At(p, s, node) && k <= |p.g.deps[node]|
    ensures |w| == p.limit && forall i | 0 <= i < |w| && w[i].Some? :: w[i].value in Nodes(p.g)
  {
    if k == 0 then seq(p.limit, _ => None)
    else
      ParentOf(p.g, node, k - 1);
      LatestWith(p, s, node, Latest(p, s, node, k - 1), p.g.deps[node][k - 1])
  }

  ghost function LatestWith<N>(p: Plan<N>, s: Launch<N>, node: N, w: seq<Option<N>>, d: N): (w': seq<Option<N>>)
    requires At(p, s, node) && d in Nodes(p.g)
    requires |w| == p.limit && forall i | 0 <= i < |w| && w[i].Some? :: w[i].value in Nodes(p.g)
    ensures |w'| == p.limit && forall i | 0 <= i < |w'| && w'[i].Some? :: w'[i].value in Nodes(p.g)
  {
    var on := p.stream[d];
    if on != p.stream[node] && (w[on].None? || s.ids[w[on].value] < s.ids[d]) then w[on := Some(d)] else w
  }

  /** The commands of the nodes named in the first k slots, in slot order. */
  ghost function WaitList<N>(s: Launch<N>, w: seq<Option<N>>, k: nat): seq<nat>
    requires k <= |w| && forall i | 0 <= i < |w| && w[i].Some? :: w[i].value in s.commands
  {
    if k == 0 then []
    else if w[k - 1].None? then WaitList(s, w, k - 1)
    else WaitList(s, w, k - 1) + [s.commands[w[k - 1].value]]
  }

  /** Enqueueing the command of `node` and giving it the next launch id. */
  ghost function Submit<N>(p: Plan<N>, s: Launch<N>, node: N, wait: bool): (r: Launch<N>)
    requires At(p, s, node)
    ensures Fits(p, r)
  {
    var latest := Latest(p, s, node, |p.g.deps[node]|);
    var waits := if wait then WaitList(s, latest, p.limit) else [];
    s.(ids := s.ids[node := s.next],
       commands := s.commands[node := |s.log|],
       next := s.next + 1,
       log := s.log + [Command(p.queues[p.stream[node]], Run(node), waits)])
  }

  ghost function NoteLeaf<N>(p: Plan<N>, s: Launch<N>, node: N): (r: Launch<N>)
    requires At(p, s, node)
    ensures Fits(p, r)
  {
    s.(leafs := s.leafs[p.stream[node] := Some(node)])
  }

  /** Whether the i-th child is launched with its wait list. */
  ghost predicate Waits<N>(p: Plan<N>, child: N, i: nat)
    requires Planned(p) && child in Nodes(p.g)
  {
    i < p.limit || |p.g.deps[child]| > 1
  }

  ghost function RunOne<N>(p: Plan<N>, s: Launch<N>, node: N, wait: bool): (r: Outcome<N>)
    requires At(p, s, node)
    ensures Fits(p, r.state) && Unlaunched(r.state) <= Unlaunched(s)
    decreases Unlaunched(s), 0
  {
    if s.ids[node] != -1 || !Ready(p, s, node) then Outcome(s, true)
    else if node in p.failing then Outcome(s, false)
    else
      var t := Submit(p, s, node, wait);
      assert node in Unlaunched(s) && node !in Unlaunched(t);
      if p.g.edges[node] == [] then Outcome(NoteLeaf(p, t, node), true) else RunEdges(p, t, node, 0)
  }

  ghost function RunEdges<N>(p: Plan<N>, s: Launch<N>, node: N, i: nat): (r: Outcome<N>)
    requires At(p, s, node) && i <= |p.g.edges[node]|
    ensures Fits(p, r.state) && Unlaunched(r.state) <= Unlaunched(s)
    decreases Unlaunched(s), |p.g.edges[node]| - i + 1
  {
    if i == |p.g.edges[node]| then Outcome(s, true)
    else
      ChildOf(p.g, node, i);
      var child := p.g.edges[node][i];
      var wait := Waits(p, child, i);
      var r := RunOne(p, s, child, wait);
      if r.ok then RunEdges(p, r.state, node, i + 1) else r
  }

  /** Offering `vertices[k..]` in turn. */
  ghost function RunFrom<N>(p: Plan<N>, s: Launch<N>, k: nat): (r: Outcome<N>)
    requires Planned(p) && Fits(p, s) && k <= |p.g.vertices|
    ensures Fits(p, r.state)
    decreases |p.g.vertices| - k
  {
    if k == |p.g.vertices| then Outcome(s, true)
    else
      var r := RunOne(p, s, p.g.vertices[k], true);
      if r.ok then RunFrom(p, r.state, k + 1) else r
  }

  /** One marker on each extra stream that has a root, waiting for the last command of
      the launch stream. */
  ghost function StartMarkers<N>(p: Plan<N>, roots: seq<Option<N>>, last: nat, k: nat): seq<Command<N>>
    requires k <= |roots| && forall i | 0 < i < |roots| && roots[i].Some? :: i < |p.queues|
  {
    if k == 0 then []
    else if k - 1 != 0 && roots[k - 1].Some? then
      StartMarkers(p, roots, last, k - 1) + [Command(p.queues[k - 1], Marker, [last])]
    else StartMarkers(p, roots, last, k - 1)
  }

  /** The commands of the leaves noted on the extra streams below k. */
  ghost function LeafWaits<N>(p: Plan<N>, s: Launch<N>, k: nat): seq<nat>
    requires Planned(p) && Fits(p, s) && k <= p.limit
  {
    if k == 0 then []
    else if k - 1 != 0 && s.leafs[k - 1].Some? && s.leafs[k - 1].value in s.commands then
      LeafWaits(p, s, k - 1) + [s.commands[s.leafs[k - 1].value]]
    else LeafWaits(p, s, k - 1)
  }

  /** The log and ids with which the vertex loop starts. `last` is the last command still
      queued on the launch stream, if any. */
  ghost function Started<N>(p: Plan<N>, roots: seq<Option<N>>, last: Option<nat>, s: Launch<N>): (r: Launch<N>)
    requires Planned(p) && Fits(p, s) && |roots| == p.limit
    requires forall i | 0 < i < |roots| && roots[i].Some? :: i < |p.queues|
    ensures Fits(p, r)
  {
    s.(next := 0,
       leafs := seq(p.limit, _ => None),
       log := if last.Some? then s.log + StartMarkers(p, roots, last.value, p.limit) else s.log)
  }

  /** The end of the launch: one marker on the launch stream for the other streams' leaves,
      and every launch id reset. */
  ghost function Joined<N>(p: Plan<N>, s: Launch<N>): (r: Launch<N>)
    requires Planned(p) && Fits(p, s) && 0 < |p.queues|
    ensures Fits(p, r)
  {
    var waits := LeafWaits(p, s, p.limit);
    s.(ids := map n | n in Nodes(p.g) :: -1,
       log := if waits == [] then s.log else s.log + [Command(p.queues[0], Marker, waits)])
  }

  ghost function RunAll<N>(p: Plan<N>, roots: seq<Option<N>>, last: Option<nat>, s: Launch<N>): (r: Outcome<N>)
    requires Planned(p) && Fits(p, s) && |roots| == p.limit
    requires forall i | 0 < i < |roots| && roots[i].Some? :: i < |p.queues|
    requires 0 < |p.queues|
    ensures Fits(p, r.state)
  {
    var r := RunFrom(p, Started(p, roots, last, s), 0);
    if r.ok then Outcome(Joined(p, r.state), true) else r
  }

  // ---- The loops, iteration by iteration ----

  lemma LatestStarts<N>(p: Plan<N>, s: Launch<N>, node: N)
    requires At(p, s, node)
    ensures Latest(p, s, node, 0) == seq(p.limit, _ => None)
  {
  }

  lemma LatestNext<N>(p: Plan<N>, s: Launch<N>, node: N, k: nat)
    requires At(p, s, node) && k < |p.g.deps[node]| && p.g.deps[node][k] in Nodes(p.g)
    ensures Latest(p, s, node, k + 1) == LatestWith(p, s, node, Latest(p, s, node, k), p.g.deps[node][k])
  {
  }

  lemma OneUnfolds<N>(p: Plan<N>, s: Launch<N>, node: N, wait: bool)
    requires At(p, s, node)
    ensures s.ids[node] != -1 || !Ready(p, s, node) ==> RunOne(p, s, node, wait) == Outcome(s, true)
    ensures s.ids[node] == -1 && Ready(p, s, node) && node in p.failing ==>
              RunOne(p, s, node, wait) == Outcome(s, false)
    ensures s.ids[node] == -1 && Ready(p, s, node) && node !in p.failing ==>
              var t := Submit(p, s, node, wait);
              && Fits(p, t) && Unlaunched(t) < Unlaunched(s)
              && RunOne(p, s, node, wait) == if p.g.edges[node] == [] then Outcome(NoteLeaf(p, t, node), true)
                 else RunEdges(p, t, node, 0)
  {
    hide ListsInside, Mirrored, Distinct, Ready, Latest, WaitList;
    if s.ids[node] == -1 && Ready(p, s, node) && node !in p.failing {
      assert node in Unlaunched(s) && node !in Unlaunched(Submit(p, s, node, wait));
    }
  }

  lemma EdgesUnfold<N>(p: Plan<N>, s: Launch<N>, node: N, i: nat)
    requires At(p, s, node) && node in p.g.edges && i <= |p.g.edges[node]|
    ensures i == |p.g.edges[node]| ==> RunEdges(p, s, node, i) == Outcome(s, true)
    ensures i < |p.g.edges[node]| ==>
              var child := p.g.edges[node][i];
              && Planned(p) && child in Nodes(p.g) && At(p, s, child) && child in p.g.deps
              && var r := RunOne(p, s, child, Waits(p, child, i));
                 && At(p, r.state, node) && Unlaunched(r.state) <= Unlaunched(s)
                 && RunEdges(p, s, node, i) == if r.ok then RunEdges(p, r.state, node, i + 1) else r
  {
    hide ListsInside, Mirrored, Distinct, RunOne, Waits, Unlaunched;
    if i < |p.g.edges[node]| {
      ChildOf(p.g, node, i);
    }
  }

  lemma NodeLists<N>(p: Plan<N>, s: Launch<N>, node: N)
    requires At(p, s, node)
    ensures Planned(p) && Fits(p, s) && node in p.g.edges && node in p.g.deps && node in s.ids && node in s.commands
            && node in p.stream
  {
    hide ListsInside, Mirrored, Distinct;
  }

  /** The edge loop of `node` that began at `s` has reached its i-th edge in state `r`. */
  ghost predicate AtEdge<N>(p: Plan<N>, s: Launch<N>, node: N, i: nat, r: Launch<N>) {
    && At(p, s, node) && At(p, r, node) && i <= |p.g.edges[node]|
    && Unlaunched(r) <= Unlaunched(s)
    && RunEdges(p, r, node, i) == RunEdges(p, s, node, 0)
  }

  lemma EdgeStarts<N>(p: Plan<N>, s: Launch<N>, node: N)
    requires At(p, s, node)
    ensures AtEdge(p, s, node, 0, s)
  {
  }

  lemma EdgeEnds<N>(p: Plan<N>, s: Launch<N>, node: N, r: Launch<N>)
    requires node in p.g.edges && AtEdge(p, s, node, |p.g.edges[node]|, r)
    ensures At(p, s, node) && RunEdges(p, s, node, 0) == Outcome(r, true)
  {
  }

  lemma EdgeNext<N>(p: Plan<N>, s: Launch<N>, node: N, i: nat, r: Launch<N>)
    requires node in p.g.edges && AtEdge(p, s, node, i, r) && i < |p.g.edges[node]|
    ensures var child := p.g.edges[node][i];
            && At(p, s, node) && At(p, r, child) && Unlaunched(r) <= Unlaunched(s) && child in p.g.deps
            && var wait := i < p.limit || |p.g.deps[child]| > 1;
               var o := RunOne(p, r, child, wait);
               if o.ok then AtEdge(p, s, node, i + 1, o.state) else RunEdges(p, s, node, 0) == o
  {
    hide ListsInside, Mirrored, Distinct, RunOne, Unlaunched;
    ChildOf(p.g, node, i);
  }

  /** The vertex loop that began at `s` has reached vertex k in state `r`. */
  ghost predicate AtVertex<N>(p: Plan<N>, s: Launch<N>, k: nat, r: Launch<N>) {
    Planned(p) && Fits(p, s) && Fits(p, r) && k <= |p.g.vertices| && RunFrom(p, r, k) == RunFrom(p, s, 0)
  }

  lemma VertexStarts<N>(p: Plan<N>, s: Launch<N>)
    requires Planned(p) && Fits(p, s)
    ensures AtVertex(p, s, 0, s)
  {
  }

  lemma VertexEnds<N>(p: Plan<N>, s: Launch<N>, r: Launch<N>)
    requires AtVertex(p, s, |p.g.vertices|, r)
    ensures Planned(p) && Fits(p, s) && Fits(p, r) && RunFrom(p, s, 0) == Outcome(r, true)
  {
  }

  lemma RunAllParts<N>(p: Plan<N>, roots: seq<Option<N>>, last: Option<nat>, s: Launch<N>)
    requires Planned(p) && Fits(p, s) && |roots| == p.limit
    requires forall i | 0 < i < |roots| && roots[i].Some? :: i < |p.queues|
    requires 0 < |p.queues|
    ensures var r := RunFrom(p, Started(p, roots, last, s), 0);
            RunAll(p, roots, last, s) == if r.ok then Outcome(Joined(p, r.state), true) else r
  {
  }

  lemma VertexNext<N>(p: Plan<N>, s: Launch<N>, k: nat, r: Launch<N>)
    requires AtVertex(p, s, k, r) && k < |p.g.vertices|
    ensures var node := p.g.vertices[k];
            && Planned(p) && Fits(p, s) && At(p, r, node) && node in r.ids
            && (r.ids[node] != -1 ==> RunOne(p, r, node, true) == Outcome(r, true))
            && var o := RunOne(p, r, node, true);
               if o.ok then AtVertex(p, s, k + 1, o.state) else RunFrom(p, s, 0) == o
  {
    hide ListsInside, Mirrored, Distinct, Ready;
  }

  // ---- What a launch step keeps ----

  ghost predicate Launched<N>(s: Launch<N>, n: N) {
    n in s.ids && s.ids[n] != -1
  }

  /** `t` comes after `s`: launched nodes keep id and command, the log only grows. */
  ghost predicate Follows<N>(s: Launch<N>, t: Launch<N>) {
    && s.ids.Keys == t.ids.Keys && s.commands.Keys == t.commands.Keys && s.ids.Keys <= s.commands.Keys
    && (forall n | n in s.ids && Launched(s, n) :: t.ids[n] == s.ids[n] && t.commands[n] == s.commands[n])
    && s.log <= t.log
  }

  lemma FollowsThrough<N>(r: Launch<N>, s: Launch<N>, t: Launch<N>)
    requires Follows(r, s) && Follows(s, t)
    ensures Follows(r, t)
  {
  }

  lemma SubmitFollows<N>(p: Plan<N>, s: Launch<N>, node: N, wait: bool)
    requires At(p, s, node) && !Launched(s, node)
    ensures var t := Submit(p, s, node, wait);
            && Follows(s, t) && Follows(s, NoteLeaf(p, t, node)) && Launched(t, node)
            && node in Unlaunched(s) && node !in Unlaunched(t) && Unlaunched(t) <= Unlaunched(s)
  {
    hide WellFormed;
  }

  lemma {:induction false} OneFollows<N>(p: Plan<N>, s: Launch<N>, node: N, wait: bool)
    requires At(p, s, node)
    ensures var r := RunOne(p, s, node, wait);
            Follows(s, r.state) && (r.ok && Ready(p, s, node) ==> Launched(r.state, node))
    decreases Unlaunched(s), 0
  {
    hide ListsInside, Mirrored, Distinct, Follows, Submit, Ready;
    if s.ids[node] != -1 || !Ready(p, s, node) || node in p.failing {
      FollowsSelf(p, s);
    } else {
      SubmitFollows(p, s, node, wait);
      var t := Submit(p, s, node, wait);
      if p.g.edges[node] != [] {
        EdgesFollow(p, t, node, 0);
        FollowsThrough(s, t, RunEdges(p, t, node, 0).state);
        FollowsLaunched(t, RunEdges(p, t, node, 0).state, node);
      }
    }
  }

  lemma FollowsSelf<N>(p: Plan<N>, s: Launch<N>)
    requires Planned(p) && Fits(p, s)
    ensures Follows(s, s)
  {
  }

  lemma FollowsLaunched<N>(s: Launch<N>, t: Launch<N>, n: N)
    requires Follows(s, t) && Launched(s, n)
    ensures Launched(t, n) && n in t.commands && n in s.commands && t.ids[n] == s.ids[n]
            && t.commands[n] == s.commands[n]
  {
  }

  lemma {:induction false} EdgesFollow<N>(p: Plan<N>, s: Launch<N>, node: N, i: nat)
    requires At(p, s, node) && i <= |p.g.edges[node]|
    ensures Follows(s, RunEdges(p, s, node, i).state)
    decreases Unlaunched(s), |p.g.edges[node]| - i + 1
  {
    hide *;
    NodeLists(p, s, node);
    EdgesUnfold(p, s, node, i);
    if i == |p.g.edges[node]| {
      FollowsSelf(p, s);
    } else {
      var child := p.g.edges[node][i];
      OneFollows(p, s, child, Waits(p, child, i));
      var r := RunOne(p, s, child, Waits(p, child, i));
      if r.ok {
        EdgesFollow(p, r.state, node, i + 1);
        FollowsThrough(s, r.state, RunEdges(p, r.state, node, i + 1).state);
      }
    }
  }

  // ---- Everything a call launches is reachable from its node ----

  ghost predicate New<N>(s: Launch<N>, t: Launch<N>, n: N) {
    Launched(t, n) && !Launched(s, n)
  }

  ghost predicate Within<N>(p: Plan<N>, s: Launch<N>, t: Launch<N>, node: N) {
    forall n | n in t.ids && New(s, t, n) :: Reaches(p.g, node, n)
  }

  lemma WithinThrough<N>(p: Plan<N>, r: Launch<N>, s: Launch<N>, t: Launch<N>, node: N, child: N)
    requires Within(p, r, s, child) && Within(p, s, t, node)
    requires node in p.g.edges && child in p.g.edges[node]
    ensures Within(p, r, t, node)
  {
    forall n | n in t.ids && New(r, t, n) ensures Reaches(p.g, node, n) {
      if Launched(s, n) {
        ReachesEdge(p.g, node, child);
        ReachesThrough(p.g, node, child, n);
      } else {
        assert New(s, t, n);
      }
    }
  }

  lemma SubmitWithin<N>(p: Plan<N>, s: Launch<N>, t: Launch<N>, node: N, wait: bool)
    requires At(p, s, node) && Fits(p, t)
    requires Within(p, Submit(p, s, node, wait), t, node)
    ensures Within(p, s, t, node)
  {
    hide WellFormed, Reaches;
    ReachesSelf(p.g, node);
    forall n | n in t.ids && New(s, t, n) && n != node ensures Reaches(p.g, node, n) {
      assert New(Submit(p, s, node, wait), t, n);
    }
  }

  lemma {:induction false} OneWithin<N>(p: Plan<N>, s: Launch<N>, node: N, wait: bool)
    requires At(p, s, node)
    ensures Within(p, s, RunOne(p, s, node, wait).state, node)
    decreases Unlaunched(s), 0
  {
    hide ListsInside, Mirrored, Distinct, Submit, Ready, Reaches;
    if s.ids[node] == -1 && Ready(p, s, node) && node !in p.failing {
      SubmitFollows(p, s, node, wait);
      var t := Submit(p, s, node, wait);
      if p.g.edges[node] == [] {
        SubmitWithin(p, s, NoteLeaf(p, t, node), node, wait);
      } else {
        EdgesWithin(p, t, node, 0);
        SubmitWithin(p, s, RunEdges(p, t, node, 0).state, node, wait);
      }
    }
  }

  lemma {:induction false} EdgesWithin<N>(p: Plan<N>, s: Launch<N>, node: N, i: nat)
    requires At(p, s, node) && i <= |p.g.edges[node]|
    ensures Within(p, s, RunEdges(p, s, node, i).state, node)
    decreases Unlaunched(s), |p.g.edges[node]| - i + 1
  {
    hide *;
    NodeLists(p, s, node);
    EdgesUnfold(p, s, node, i);
    if i < |p.g.edges[node]| {
      var child := p.g.edges[node][i];
      var wait := Waits(p, child, i);
      OneWithin(p, s, child, wait);
      var r := RunOne(p, s, child, wait);
      var t := if r.ok then RunEdges(p, r.state, node, i + 1).state else r.state;
      if r.ok {
        EdgesWithin(p, r.state, node, i + 1);
      } else {
        WithinSelf(p, t, node);
      }
      WithinThrough(p, s, r.state, t, node, child);
    } else {
      WithinSelf(p, s, node);
    }
  }

  lemma WithinSelf<N>(p: Plan<N>, s: Launch<N>, node: N)
    ensures Within(p, s, s, node)
  {
  }

  // ---- No node is lost by the early return on an unlaunched dependency ----

  ghost predicate HasNewDep<N>(p: Plan<N>, s: Launch<N>, t: Launch<N>, n: N) {
    n in p.g.deps && exists d | d in p.g.deps[n] :: New(s, t, d)
  }

  ghost predicate AllDeps<N>(p: Plan<N>, s: Launch<N>, n: N) {
    n in p.g.deps && forall d | d in p.g.deps[n] :: Launched(s, d)
  }

  /** Whoever gained a dependency between s and t and has them all is launched. */
  ghost predicate Complete<N>(p: Plan<N>, s: Launch<N>, t: Launch<N>) {
    forall n | n in p.g.deps && HasNewDep(p, s, t, n) && AllDeps(p, t, n) :: Launched(t, n)
  }

  ghost predicate ChildrenComplete<N>(p: Plan<N>, s: Launch<N>, node: N, i: nat) {
    node in p.g.edges && forall k | i <= k < |p.g.edges[node]| && AllDeps(p, s, p.g.edges[node][k]) ::
      Launched(s, p.g.edges[node][k])
  }

  lemma CompleteThrough<N>(p: Plan<N>, r: Launch<N>, s: Launch<N>, t: Launch<N>)
    requires Follows(r, s) && Follows(s, t) && Complete(p, r, s) && Complete(p, s, t)
    ensures Complete(p, r, t)
  {
    forall n | n in p.g.deps && HasNewDep(p, r, t, n) && AllDeps(p, t, n) ensures Launched(t, n) {
      if !HasNewDep(p, s, t, n) {
        assert AllDeps(p, s, n);
        assert HasNewDep(p, r, s, n);
      }
    }
  }

  /** A child that had all its dependencies, or gained the last ones since, is launched. */
  lemma ChildComplete<N>(p: Plan<N>, r: Launch<N>, s: Launch<N>, t: Launch<N>, child: N)
    requires Follows(r, s) && Follows(s, t) && Complete(p, r, s) && Complete(p, s, t)
    requires child in p.g.deps && (AllDeps(p, r, child) ==> Launched(s, child))
    requires AllDeps(p, t, child)
    ensures Launched(t, child)
  {
    if !HasNewDep(p, s, t, child) {
      assert AllDeps(p, s, child);
      if !HasNewDep(p, r, s, child) {
        assert AllDeps(p, r, child);
      }
    }
  }

  lemma SubmitComplete<N>(p: Plan<N>, s: Launch<N>, t: Launch<N>, r: Launch<N>, node: N)
    requires WellFormed(p.g) && node in Nodes(p.g)
    requires Follows(s, t) && Follows(t, r) && t.ids.Keys == s.ids.Keys
    requires forall n | n in t.ids && n != node :: t.ids[n] == s.ids[n]
    requires Complete(p, t, r) && ChildrenComplete(p, r, node, 0)
    ensures Complete(p, s, r)
  {
    forall n | n in p.g.deps && HasNewDep(p, s, r, n) && AllDeps(p, r, n) ensures Launched(r, n) {
      if !HasNewDep(p, t, r, n) {
        var d :| d in p.g.deps[n] && New(s, r, d);
        assert d == node;
        DepIn(p.g, n, node);
        var k :| 0 <= k < |p.g.edges[node]| && p.g.edges[node][k] == n;
      }
    }
  }

  lemma CompleteSelf<N>(p: Plan<N>, s: Launch<N>, t: Launch<N>)
    requires s.ids == t.ids
    ensures Complete(p, s, t)
  {
  }

  lemma {:induction false} OneComplete<N>(p: Plan<N>, s: Launch<N>, node: N, wait: bool)
    requires At(p, s, node)
    ensures RunOne(p, s, node, wait).ok ==> Complete(p, s, RunOne(p, s, node, wait).state)
    decreases Unlaunched(s), 0
  {
    hide ListsInside, Mirrored, Distinct, Ready, Complete, ChildrenComplete, Follows, Latest, WaitList;
    CompleteSelf(p, s, s);
    if s.ids[node] == -1 && Ready(p, s, node) && node !in p.failing {
      SubmitFollows(p, s, node, wait);
      var t := Submit(p, s, node, wait);
      if p.g.edges[node] == [] {
        var r := NoteLeaf(p, t, node);
        CompleteSelf(p, t, r);
        NoChildren(p, r, node, 0);
        FollowsSelf(p, r);
        FollowsNote(p, t, node);
        SubmitComplete(p, s, t, r, node);
      } else {
        EdgesComplete(p, t, node, 0);
        EdgesFollow(p, t, node, 0);
        if RunEdges(p, t, node, 0).ok {
          SubmitComplete(p, s, t, RunEdges(p, t, node, 0).state, node);
        }
      }
    }
  }

  lemma NoChildren<N>(p: Plan<N>, s: Launch<N>, node: N, i: nat)
    requires node in p.g.edges && i == |p.g.edges[node]|
    ensures ChildrenComplete(p, s, node, i)
  {
  }

  lemma FollowsNote<N>(p: Plan<N>, s: Launch<N>, node: N)
    requires At(p, s, node)
    ensures Follows(s, NoteLeaf(p, s, node))
  {
  }

  lemma {:induction false} EdgesComplete<N>(p: Plan<N>, s: Launch<N>, node: N, i: nat)
    requires At(p, s, node) && i <= |p.g.edges[node]|
    ensures var r := RunEdges(p, s, node, i);
            r.ok ==> Complete(p, s, r.state) && ChildrenComplete(p, r.state, node, i)
    decreases Unlaunched(s), |p.g.edges[node]| - i + 1
  {
    hide *;
    NodeLists(p, s, node);
    EdgesUnfold(p, s, node, i);
    if i == |p.g.edges[node]| {
      CompleteSelf(p, s, s);
      NoChildren(p, s, node, i);
    } else {
      var r := RunOne(p, s, p.g.edges[node][i], Waits(p, p.g.edges[node][i], i));
      if r.ok && RunEdges(p, r.state, node, i + 1).ok {
        EdgesComplete(p, r.state, node, i + 1);
        StepComplete(p, s, node, i);
      }
    }
  }

  /** One iteration of the edge loop, given what the remaining iterations establish. */
  lemma StepComplete<N>(p: Plan<N>, s: Launch<N>, node: N, i: nat)
    requires At(p, s, node) && i < |p.g.edges[node]| && p.g.edges[node][i] in Nodes(p.g)
    requires var r := RunOne(p, s, p.g.edges[node][i], Waits(p, p.g.edges[node][i], i));
             && r.ok && RunEdges(p, r.state, node, i + 1).ok
             && Complete(p, r.state, RunEdges(p, r.state, node, i + 1).state)
             && ChildrenComplete(p, RunEdges(p, r.state, node, i + 1).state, node, i + 1)
    ensures var r := RunEdges(p, s, node, i).state; Complete(p, s, r) && ChildrenComplete(p, r, node, i)
    decreases Unlaunched(s), 1
  {
    hide *;
    NodeLists(p, s, node);
    EdgesUnfold(p, s, node, i);
    var child := p.g.edges[node][i];
    var wait := Waits(p, child, i);
    var r := RunOne(p, s, child, wait).state;
    OneComplete(p, s, child, wait);
    OneFollows(p, s, child, wait);
    EdgesFollow(p, r, node, i + 1);
    ReadyIsAll(p, s, child);
    var t := RunEdges(p, r, node, i + 1).state;
    CompleteThrough(p, s, r, t);
    NextChildComplete(p, s, r, t, node, i);
  }

  lemma ReadyIsAll<N>(p: Plan<N>, s: Launch<N>, n: N)
    requires At(p, s, n)
    ensures Ready(p, s, n) <==> AllDeps(p, s, n)
  {
  }

  lemma NextChildComplete<N>(p: Plan<N>, r: Launch<N>, s: Launch<N>, t: Launch<N>, node: N, i: nat)
    requires node in p.g.edges && i < |p.g.edges[node]| && p.g.edges[node][i] in p.g.deps
    requires Follows(r, s) && Follows(s, t) && Complete(p, r, s) && Complete(p, s, t)
    requires AllDeps(p, r, p.g.edges[node][i]) ==> Launched(s, p.g.edges[node][i])
    requires ChildrenComplete(p, t, node, i + 1)
    ensures ChildrenComplete(p, t, node, i)
  {
    if AllDeps(p, t, p.g.edges[node][i]) {
      hide Complete, Follows, AllDeps, Launched;
      ChildComplete(p, r, s, t, p.g.edges[node][i]);
    }
  }

  // ---- Launch ids number the log; every entry waits for enough ----

  /** Node n has its command where its launch id says, on its stream's queue. */
  ghost predicate Enqueued<N>(p: Plan<N>, base: nat, s: Launch<N>, n: N)
    requires Planned(p) && Fits(p, s) && n in Nodes(p.g)
  {
    && 0 <= s.ids[n] < s.next
    && s.commands[n] == base + s.ids[n]
    && s.commands[n] < |s.log|
    && s.log[s.commands[n]].work == Run(n)
    && s.log[s.commands[n]].queue == p.queues[p.stream[n]]
  }

  ghost predicate Named<N>(p: Plan<N>, base: nat, s: Launch<N>, j: int)
    requires Fits(p, s)
  {
    && 0 <= base + j < |s.log|
    && s.log[base + j].work.Run?
    && s.log[base + j].work.node in s.ids
    && s.ids[s.log[base + j].work.node] == j
  }

  /** Launch ids are a bijection between the launched nodes and 0..next. */
  ghost predicate Numbered<N>(p: Plan<N>, base: nat, s: Launch<N>)
    requires Planned(p) && Fits(p, s)
  {
    && |s.log| == base + s.next
    && (forall n | n in Nodes(p.g) && Launched(s, n) :: Enqueued(p, base, s, n))
    && (forall j | 0 <= j < s.next :: Named(p, base, s, j))
  }

  /** n has a single parent and comes so late among its children that its wait is skipped. */
  ghost predicate Elided<N>(p: Plan<N>, n: N) {
    exists d, i {:trigger SoleChild(p.g, d, i, n)} :: d in Nodes(p.g) && SoleChild(p.g, d, i, n) && i >= p.limit
  }

  /** Dependency d of n is on the stream of n, or n waits for a dependency launched no
      earlier on the stream of d. */
  ghost predicate Covered<N>(p: Plan<N>, s: Launch<N>, n: N, d: N)
    requires Planned(p) && Fits(p, s) && n in Nodes(p.g) && d in Nodes(p.g)
  {
    || p.stream[d] == p.stream[n]
    || (s.commands[n] < |s.log| && exists e :: e in p.g.deps[n] && e in Nodes(p.g) && Stands(p, s, n, d, e))
  }

  ghost predicate Stands<N>(p: Plan<N>, s: Launch<N>, n: N, d: N, e: N)
    requires Planned(p) && Fits(p, s) && n in Nodes(p.g) && d in Nodes(p.g) && e in Nodes(p.g)
    requires s.commands[n] < |s.log|
  {
    p.stream[e] == p.stream[d] && s.ids[d] <= s.ids[e] && s.commands[e] in s.log[s.commands[n]].waits
  }

  /** Dependency d of n is on another stream, and no dependency on its stream was launched
      later. */
  ghost predicate LatestDep<N>(p: Plan<N>, s: Launch<N>, n: N, d: N)
    requires Planned(p) && Fits(p, s) && n in Nodes(p.g)
  {
    && d in p.g.deps[n] && d in Nodes(p.g) && p.stream[d] != p.stream[n]
    && forall e | e in p.g.deps[n] && e in Nodes(p.g) && p.stream[e] == p.stream[d] :: s.ids[e] <= s.ids[d]
  }

  /** n waits for the latest dependency on each foreign stream, once, and for nothing else. */
  ghost predicate Precise<N>(p: Plan<N>, s: Launch<N>, n: N)
    requires Planned(p) && Fits(p, s) && n in Nodes(p.g)
  {
    && s.commands[n] < |s.log| && Distinct(s.log[s.commands[n]].waits)
    && (forall d | d in p.g.deps[n] && LatestDep(p, s, n, d) :: s.commands[d] in s.log[s.commands[n]].waits)
    && forall c | c in s.log[s.commands[n]].waits :: WaitsForLatest(p, s, n, c)
  }

  ghost predicate WaitsForLatest<N>(p: Plan<N>, s: Launch<N>, n: N, c: nat)
    requires Planned(p) && Fits(p, s) && n in Nodes(p.g)
  {
    exists d :: d in p.g.deps[n] && LatestDep(p, s, n, d) && c == s.commands[d]
  }

  /** Everything launched between the parent of an elided node and the node descends from
      the parent, and the parent's earlier sole children are among it. */
  ghost predicate Sheltered<N>(p: Plan<N>, s: Launch<N>, n: N)
    requires Planned(p) && Fits(p, s) && n in Nodes(p.g)
  {
    && s.commands[n] < |s.log| && s.log[s.commands[n]].waits == []
    && (forall d, i, x | d in Nodes(p.g) && SoleChild(p.g, d, i, n) && x in Nodes(p.g)
                         && s.ids[d] < s.ids[x] < s.ids[n] ::
          Reaches(p.g, d, x))
    && (forall d, i, k | d in Nodes(p.g) && SoleChild(p.g, d, i, n) && 0 <= k < i && k < |p.g.edges[d]|
                         && SoleChild(p.g, d, k, p.g.edges[d][k]) ::
          p.g.edges[d][k] in s.ids && 0 <= s.ids[p.g.edges[d][k]] < s.ids[n])
  }

  ghost predicate Entry<N>(p: Plan<N>, s: Launch<N>, n: N)
    requires Planned(p) && Fits(p, s) && n in Nodes(p.g)
  {
    && (forall d | d in p.g.deps[n] :: d in Nodes(p.g) && 0 <= s.ids[d] < s.ids[n])
    && (if Elided(p, n) then Sheltered(p, s, n)
        else Precise(p, s, n) && forall d | d in p.g.deps[n] && d in Nodes(p.g) :: Covered(p, s, n, d))
  }

  ghost predicate Entries<N>(p: Plan<N>, s: Launch<N>)
    requires Planned(p) && Fits(p, s)
  {
    forall n | n in Nodes(p.g) && Launched(s, n) :: Entry(p, s, n)
  }

  /** Each leaf slot holds the latest launched leaf of its stream. */
  ghost predicate LeafTable<N>(p: Plan<N>, s: Launch<N>)
    requires Planned(p) && Fits(p, s)
  {
    && (forall i | 0 <= i < p.limit && s.leafs[i].Some? :: LeafSlot(p, s, i))
    && (forall n | n in Nodes(p.g) && Launched(s, n) && p.g.edges[n] == [] :: LeafKnown(p, s, n))
  }

  ghost predicate LeafSlot<N>(p: Plan<N>, s: Launch<N>, i: nat)
    requires Planned(p) && Fits(p, s) && i < p.limit && s.leafs[i].Some?
  {
    var n := s.leafs[i].value;
    n in Nodes(p.g) && Launched(s, n) && p.stream[n] == i && p.g.edges[n] == []
  }

  ghost predicate LeafKnown<N>(p: Plan<N>, s: Launch<N>, n: N)
    requires Planned(p) && Fits(p, s) && n in Nodes(p.g)
  {
    var slot := s.leafs[p.stream[n]];
    slot.Some? && slot.value in s.ids && s.ids[n] <= s.ids[slot.value]
  }

  /** All of the above. */
  ghost predicate Sound<N>(p: Plan<N>, base: nat, s: Launch<N>) {
    Planned(p) && Fits(p, s) && Numbered(p, base, s) && Entries(p, s) && LeafTable(p, s)
  }
}
