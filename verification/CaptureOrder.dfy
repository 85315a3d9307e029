/** What a captured graph orders: the nodes of one stream one after the other, and across
    streams whatever events make wait. */
module CaptureOrder {
  import opened Dags
  import opened Editing
  import opened Capturing

  // ---- Graphs under capture only grow ----

  /** No edge of g is missing in h, and no node of g has other dependencies there. */
  ghost predicate Grown<N>(g: Dag<N>, h: Dag<N>) {
    && (forall u | u in g.edges :: u in h.edges && g.edges[u] <= h.edges[u])
    && forall n | n in g.deps :: n in h.deps && h.deps[n] == g.deps[n]
  }

  lemma {:induction false} WalkGrows<N>(g: Dag<N>, h: Dag<N>, a: N, b: N, k: nat)
    requires Grown(g, h) && Walk(g, a, b, k)
    ensures Walk(h, a, b, k)
  {
    if k > 0 {
      var c :| c in g.edges[a] && Walk(g, c, b, k - 1);
      WalkGrows(g, h, c, b, k - 1);
      var i :| 0 <= i < |g.edges[a]| && g.edges[a][i] == c;
      assert h.edges[a][i] == c;
      assert c in h.edges[a] && Walk(h, c, b, k - 1);
    }
  }

  lemma ReachesGrows<N>(g: Dag<N>, h: Dag<N>, a: N, b: N)
    requires Grown(g, h) && Reaches(g, a, b)
    ensures Reaches(h, a, b)
  {
    var k: nat :| Walk(g, a, b, k);
    WalkGrows(g, h, a, b, k);
  }

  lemma ExtendedGrows<N>(g: Dag<N>, n: N, h: Dag<N>)
    requires Extended(g, n, h)
    ensures Grown(g, h)
  {
  }

  lemma GrownSelf<N>(g: Dag<N>)
    ensures Grown(g, g)
  {
  }

  lemma GrownThrough<N>(f: Dag<N>, g: Dag<N>, h: Dag<N>)
    requires Grown(f, g) && Grown(g, h)
    ensures Grown(f, h)
  {
  }

  lemma PerformGrows<N>(c: Capture<N>, a: Action<N>)
    requires Capturable(c) && Performable(c, a)
    ensures Grown(c.g, Perform(c, a).g)
  {
    hide WellFormed, InsertionOrdered, Listed, AddNode, Cross, Grown, Extended;
    GrownSelf(c.g);
    match a {
      case Enqueue(s, n) =>
        AddExtends(c.g, n, Somes(Lookup(c.last, s)));
        ExtendedGrows(c.g, n, AddNode(c.g, n, Somes(Lookup(c.last, s))).g);
      case Manual(n, parents) =>
        AddExtends(c.g, n, parents);
        ExtendedGrows(c.g, n, AddNode(c.g, n, parents).g);
      case _ => CrossKeeps(c, a);
    }
  }

  lemma CrossKeeps<N>(c: Capture<N>, a: Action<N>)
    requires Capturable(c) && Performable(c, a) && !a.Enqueue? && !a.Manual?
    ensures Perform(c, a).g == c.g
  {
    hide WellFormed, InsertionOrdered, Listed, Merge;
  }

  /** Whatever is captured later, edges stay and dependency lists are as they were. */
  lemma {:induction false} CaptureGrows<N>(c: Capture<N>, actions: seq<Action<N>>)
    requires Capturable(c) && Captures(c, actions)
    ensures Grown(c.g, Captured(c, actions).g)
    decreases |actions|
  {
    hide WellFormed, InsertionOrdered, Listed, Performable, Perform, Grown;
    if actions == [] {
      GrownSelf(c.g);
    } else {
      PerformCapturable(c, actions[0]);
      PerformGrows(c, actions[0]);
      CaptureGrows(Perform(c, actions[0]), actions[1..]);
      GrownThrough(c.g, Perform(c, actions[0]).g, Captured(c, actions).g);
    }
  }

  // ---- What a captured node is linked to ----

  /** `h` is `g` with n appended as a node without children that depends on `parents`. */
  ghost predicate Linked<N>(g: Dag<N>, n: N, parents: seq<N>, h: Dag<N>) {
    && h.vertices == g.vertices + [n]
    && h.deps.Keys == g.deps.Keys + {n} && h.edges.Keys == g.edges.Keys + {n}
    && h.deps[n] == parents && h.edges[n] == []
    && (forall m | m in g.deps :: h.deps[m] == g.deps[m])
    && forall m | m in g.edges :: h.edges[m] == if m in parents then g.edges[m] + [n] else g.edges[m]
  }

  lemma AttachedIsLinked<N>(g: Dag<N>, n: N, parents: seq<N>, h: Dag<N>)
    requires n !in g.vertices && n !in g.edges && n !in g.deps && n !in parents
    requires Attachable(AddVertex(g, n), Somes(parents), |parents|)
    requires Attached(AddVertex(g, n), n, Somes(parents), |parents|, h)
    ensures Linked(g, n, parents, h)
  {
    hide Attachable, Somes, Values;
    SomesOf(parents);
    assert [] + parents == parents;
  }

  /** A node enqueued on a stream depends on exactly the nodes last remembered for it, in
      that order, and is from then on what the stream remembers. */
  lemma EnqueueLinks<N>(c: Capture<N>, s: int, n: N)
    requires Capturable(c) && n !in Nodes(c.g)
    ensures var d := Perform(c, Enqueue(s, n));
            && Linked(c.g, n, Lookup(c.last, s), d.g)
            && d.last == c.last[s := [n]] && d.removed == c.removed && d.events == c.events
  {
    hide WellFormed, InsertionOrdered, Attachable, Attached, Attach, AddVertex, Listed, Lookup, Linked;
    var last := Lookup(c.last, s);
    EnqueueSucceeds(c, s, n);
    LookupListed(c, c.last, s);
    LastInside(c, s);
    ListedAttachable(c.g, last);
    AttachableMore(c.g, n, Somes(last));
    FreshHasNoParents(c.g, n);
    AttachExact(AddVertex(c.g, n), n, Somes(last), |last|);
    NewNode(c.g, n, last);
    AttachedIsLinked(c.g, n, last, AddNode(c.g, n, Somes(last)).g);
  }

  lemma NewNode<N>(g: Dag<N>, n: N, parents: seq<N>)
    requires WellFormed(g) && n !in Nodes(g) && forall m | m in parents :: m in Nodes(g)
    ensures n !in g.vertices && n !in g.edges && n !in g.deps && n !in parents
  {
    hide ListsInside, Mirrored, Distinct;
  }

  lemma LastInside<N>(c: Capture<N>, s: int)
    requires Capturable(c)
    ensures forall m | m in Lookup(c.last, s) :: m in Nodes(c.g)
  {
  }

  lemma SomesOf<N>(s: seq<N>)
    ensures Values(Somes(s)[..|s|]) == s && forall m :: Some(m) in Somes(s)[..|s|] <==> m in s
  {
    var o := Somes(s);
    assert o[..|s|] == o;
    forall m ensures Some(m) in o <==> m in s {
      if m in s {
        var i :| 0 <= i < |s| && s[i] == m;
        assert o[i] == Some(m);
      }
    }
  }

  // ---- What streams and events remember ----

  ghost function Members<N>(s: seq<N>): set<N> {
    set n | n in s
  }

  /** The list `after` is `before` with exactly `nodes` added. */
  ghost predicate Joined<N>(before: seq<N>, nodes: seq<N>, after: seq<N>) {
    before <= after && Members(after) == Members(before) + Members(nodes)
  }

  /** What an action makes stream t remember: the enqueued node, the nodes waited for or handed
      over in addition, or exactly those handed over in place of the old ones, which then count
      as removed. Handing over a node that is not in the graph has no effect. */
  lemma RemembersExactly<N>(c: Capture<N>, a: Action<N>, t: int)
    requires WellFormed(c.g) && Performable(c, a)
    ensures var d := Perform(c, a); var old', new' := Lookup(c.last, t), Lookup(d.last, t);
            match a
            case Enqueue(s, n) =>
              AddNode(c.g, n, Somes(Lookup(c.last, s))).ok ==> new' == (if s == t then [n] else old')
            case Record(s, e) => new' == old'
            case Wait(s, e) => if s == t then Joined(old', Lookup(c.events, e), new') else new' == old'
            case Update(s, nodes, replace) =>
              if s != t || |nodes| > |c.g.vertices| || exists n :: n in nodes && n !in c.g.vertices then new' == old'
              else if replace then Members(new') == Members(nodes)
              else Joined(old', nodes, new')
            case Manual(_, _) => new' == old'
    ensures var d := Perform(c, a); var gone, gone' := Lookup(c.removed, t), Lookup(d.removed, t);
            if a.Update? && a.replace && a.stream == t && |a.nodes| <= |c.g.vertices|
               && forall n | n in a.nodes :: n in c.g.vertices
            then gone' == gone + Lookup(c.last, t) else gone' == gone
    ensures Perform(c, a).events ==
            if a.Record? && Lookup(c.last, a.stream) != [] then c.events[a.event := Lookup(c.last, a.stream)]
            else c.events
  {
    hide WellFormed, AddNode, Merge, Members, Joined;
    match a {
      case Wait(s, e) =>
        MergeJoins(Lookup(c.last, s), Lookup(c.events, e));
      case Update(s, nodes, replace) =>
        MergeJoins(Lookup(c.last, s), nodes);
        MergeJoins([], nodes);
      case _ =>
    }
  }

  lemma MergeJoins<N>(last: seq<N>, nodes: seq<N>)
    ensures Joined(last, nodes, Merge(last, nodes, |nodes|))
    ensures last == [] ==> Members(Merge(last, nodes, |nodes|)) == Members(nodes)
  {
    MergeExactly(last, nodes, |nodes|);
    assert nodes[..|nodes|] == nodes;
    var m := Merge(last, nodes, |nodes|);
    assert Members(m) == Members(last) + Members(nodes);
  }

  // ---- Order along a stream ----

  /** m, or a node after it, is among the nodes last remembered for stream s. */
  ghost predicate Behind<N>(c: Capture<N>, s: int, m: N) {
    exists x :: x in Lookup(c.last, s) && Reaches(c.g, m, x)
  }

  /** m, or a node after it, is among the nodes event e was recorded after. */
  ghost predicate Noted<N>(c: Capture<N>, e: int, m: N) {
    exists x :: x in Lookup(c.events, e) && Reaches(c.g, m, x)
  }

  /** The application does not replace the nodes remembered for stream s. */
  ghost predicate Keeps<N>(a: Action<N>, s: int) {
    !(a.Update? && a.stream == s && a.replace)
  }

  /** Everything remembered for the stream comes before the node enqueued on it next. */
  lemma BehindEnqueued<N>(c: Capture<N>, s: int, n: N, m: N)
    requires Capturable(c) && n !in Nodes(c.g) && Behind(c, s, m)
    ensures Reaches(Perform(c, Enqueue(s, n)).g, m, n)
  {
    hide WellFormed, InsertionOrdered, Perform, Lookup, Reaches, Grown;
    var d := Perform(c, Enqueue(s, n));
    EnqueueLinks(c, s, n);
    PerformGrows(c, Enqueue(s, n));
    var x :| x in Lookup(c.last, s) && Reaches(c.g, m, x);
    LastInside(c, s);
    ReachesGrows(c.g, d.g, m, x);
    NodeHasEdges(c.g, x);
    assert d.g.edges[x][|c.g.edges[x]|] == n;
    ReachesEdge(d.g, x, n);
    ReachesThrough(d.g, m, x, n);
  }

  lemma NodeHasEdges<N>(g: Dag<N>, x: N)
    requires WellFormed(g) && x in Nodes(g)
    ensures x in g.edges
  {
  }

  lemma BehindStays<N>(c: Capture<N>, a: Action<N>, s: int, m: N)
    requires Capturable(c) && Performable(c, a) && Keeps(a, s) && Behind(c, s, m)
    ensures Behind(Perform(c, a), s, m)
  {
    hide WellFormed, InsertionOrdered, Reaches, Grown, AddNode, Merge, Listed;
    var d := Perform(c, a);
    PerformGrows(c, a);
    var x :| x in Lookup(c.last, s) && Reaches(c.g, m, x);
    ReachesGrows(c.g, d.g, m, x);
    if a.Enqueue? && a.stream == s {
      BehindEnqueued(c, s, a.node, m);
      EnqueueLinks(c, s, a.node);
      assert a.node in Lookup(d.last, s);
    } else {
      LastKept(c, a, s);
    }
  }

  /** Other actions take nothing out of what a stream remembers. */
  lemma LastKept<N>(c: Capture<N>, a: Action<N>, s: int)
    requires Capturable(c) && Performable(c, a) && Keeps(a, s) && !(a.Enqueue? && a.stream == s)
    ensures forall x | x in Lookup(c.last, s) :: x in Lookup(Perform(c, a).last, s)
  {
    hide WellFormed, InsertionOrdered, AddNode, Merge, Listed;
    match a {
      case Wait(t, e) =>
        var nodes := Lookup(c.events, e);
        MergeExactly(Lookup(c.last, t), nodes, |nodes|);
      case Update(t, nodes, replace) =>
        MergeExactly(Lookup(c.last, t), nodes, |nodes|);
      case _ =>
    }
  }

  /** What is behind a stream comes before the node enqueued on it at position j. */
  lemma {:induction false} BehindReaches<N>(c: Capture<N>, actions: seq<Action<N>>, s: int, m: N, j: nat)
    requires Capturable(c) && Captures(c, actions) && Behind(c, s, m)
    requires j < |actions| && actions[j].Enqueue? && actions[j].stream == s
    requires forall i | 0 <= i < j :: Keeps(actions[i], s)
    ensures Reaches(Captured(c, actions).g, m, actions[j].node)
    decreases |actions|
  {
    hide WellFormed, InsertionOrdered, Listed, Perform, Behind, Keeps, Reaches, Grown;
    PerformCapturable(c, actions[0]);
    var d := Perform(c, actions[0]);
    if j == 0 {
      EnqueuedIsNew(c, actions[0]);
      BehindEnqueued(c, s, actions[0].node, m);
      CaptureGrows(d, actions[1..]);
      ReachesGrows(d.g, Captured(d, actions[1..]).g, m, actions[0].node);
    } else {
      BehindStays(c, actions[0], s, m);
      BehindReaches(d, actions[1..], s, m, j - 1);
    }
  }

  lemma EnqueuedIsNew<N>(c: Capture<N>, a: Action<N>)
    requires Performable(c, a) && a.Enqueue?
    ensures a.node !in Nodes(c.g) && a == Enqueue(a.stream, a.node)
  {
  }

  /** Of two nodes enqueued on one stream, with nothing replaced for it in between, the
      earlier comes before the later. */
  lemma {:induction false} StreamInOrder<N>(c: Capture<N>, actions: seq<Action<N>>, s: int, i: nat, j: nat)
    requires Capturable(c) && Captures(c, actions) && i < j < |actions|
    requires actions[i].Enqueue? && actions[i].stream == s && actions[j].Enqueue? && actions[j].stream == s
    requires forall k | i < k < j :: Keeps(actions[k], s)
    ensures Reaches(Captured(c, actions).g, actions[i].node, actions[j].node)
    decreases |actions|
  {
    hide WellFormed, InsertionOrdered, Listed, Perform, Behind, Keeps, Reaches;
    PerformCapturable(c, actions[0]);
    var d := Perform(c, actions[0]);
    if i == 0 {
      EnqueuedIsNew(c, actions[0]);
      NowBehind(c, s, actions[0].node);
      BehindReaches(d, actions[1..], s, actions[0].node, j - 1);
    } else {
      StreamInOrder(d, actions[1..], s, i - 1, j - 1);
    }
  }

  lemma NowBehind<N>(c: Capture<N>, s: int, n: N)
    requires Capturable(c) && n !in Nodes(c.g)
    ensures Behind(Perform(c, Enqueue(s, n)), s, n)
  {
    hide WellFormed, InsertionOrdered, Reaches, Perform, Linked;
    EnqueueLinks(c, s, n);
    ReachesSelf(Perform(c, Enqueue(s, n)).g, n);
  }

  // ---- Order across streams ----

  lemma NowNoted<N>(c: Capture<N>, s: int, e: int, m: N)
    requires Capturable(c) && Behind(c, s, m)
    ensures Noted(Perform(c, Record(s, e)), e, m)
  {
    hide WellFormed, InsertionOrdered, Reaches;
  }

  lemma NotedStays<N>(c: Capture<N>, a: Action<N>, e: int, m: N)
    requires Capturable(c) && Performable(c, a) && !(a.Record? && a.event == e) && Noted(c, e, m)
    ensures Noted(Perform(c, a), e, m)
  {
    hide WellFormed, InsertionOrdered, Reaches, Grown, AddNode, Merge, Listed;
    PerformGrows(c, a);
    var x :| x in Lookup(c.events, e) && Reaches(c.g, m, x);
    ReachesGrows(c.g, Perform(c, a).g, m, x);
    assert x in Lookup(Perform(c, a).events, e);
  }

  lemma NotedWaited<N>(c: Capture<N>, t: int, e: int, m: N)
    requires Capturable(c) && Noted(c, e, m)
    ensures Behind(Perform(c, Wait(t, e)), t, m)
  {
    hide WellFormed, InsertionOrdered, Reaches, Merge, Listed;
    var nodes := Lookup(c.events, e);
    MergeExactly(Lookup(c.last, t), nodes, |nodes|);
    assert nodes[..|nodes|] == nodes;
    var x :| x in nodes && Reaches(c.g, m, x);
    assert x in Lookup(Perform(c, Wait(t, e)).last, t);
  }

  /** What event e notes comes before a node enqueued on a stream that waited for e. */
  lemma {:induction false} NotedReaches<N>(c: Capture<N>, actions: seq<Action<N>>, e: int, t: int, m: N, j: nat, k: nat)
    requires Capturable(c) && Captures(c, actions) && Noted(c, e, m) && j < k < |actions|
    requires actions[j] == Wait(t, e) && forall i | 0 <= i < j :: !(actions[i].Record? && actions[i].event == e)
    requires actions[k].Enqueue? && actions[k].stream == t && forall i | j < i < k :: Keeps(actions[i], t)
    ensures Reaches(Captured(c, actions).g, m, actions[k].node)
    decreases |actions|
  {
    hide WellFormed, InsertionOrdered, Listed, Perform, Behind, Noted, Keeps, Reaches;
    PerformCapturable(c, actions[0]);
    var d := Perform(c, actions[0]);
    if j == 0 {
      NotedWaited(c, t, e, m);
      BehindReaches(d, actions[1..], t, m, k - 1);
    } else {
      NotedStays(c, actions[0], e, m);
      NotedReaches(d, actions[1..], e, t, m, j - 1, k - 1);
    }
  }

  /** Event e is recorded on stream s at position i, stream t waits for it at position j, and
      a node is enqueued on t at position k: what is behind s at the start, and is not replaced,
      comes before that node. */
  lemma {:induction false} RecordedReaches<N>(c: Capture<N>, actions: seq<Action<N>>, s: int, e: int, t: int, m: N,
                                              i: nat, j: nat, k: nat)
    requires Capturable(c) && Captures(c, actions) && Behind(c, s, m) && Crossing(actions, s, e, t, i, j, k)
    requires forall x | 0 <= x < i :: Keeps(actions[x], s)
    ensures Reaches(Captured(c, actions).g, m, actions[k].node)
    decreases |actions|
  {
    hide WellFormed, InsertionOrdered, Listed, Perform, Behind, Noted, Keeps, Reaches;
    PerformCapturable(c, actions[0]);
    var d := Perform(c, actions[0]);
    if i == 0 {
      NowNoted(c, s, e, m);
      NotedReaches(d, actions[1..], e, t, m, j - 1, k - 1);
    } else {
      BehindStays(c, actions[0], s, m);
      RecordedReaches(d, actions[1..], s, e, t, m, i - 1, j - 1, k - 1);
    }
  }

  /** Record, wait and enqueue, with the event not recorded again and nothing replaced. */
  ghost predicate Crossing<N>(actions: seq<Action<N>>, s: int, e: int, t: int, i: nat, j: nat, k: nat) {
    && i < j < k < |actions| && actions[i] == Record(s, e) && actions[j] == Wait(t, e)
    && actions[k].Enqueue? && actions[k].stream == t
    && (forall x | i < x < j :: !(actions[x].Record? && actions[x].event == e))
    && forall x | j < x < k :: Keeps(actions[x], t)
  }

  /** A node enqueued on s before the record comes before the one enqueued on t after the
      wait. */
  lemma {:induction false} EventInOrder<N>(c: Capture<N>, actions: seq<Action<N>>, s: int, e: int, t: int,
                                           h: nat, i: nat, j: nat, k: nat)
    requires Capturable(c) && Captures(c, actions) && Crossing(actions, s, e, t, i, j, k)
    requires h < i && actions[h].Enqueue? && actions[h].stream == s && forall x | h < x < i :: Keeps(actions[x], s)
    ensures Reaches(Captured(c, actions).g, actions[h].node, actions[k].node)
    decreases |actions|
  {
    hide WellFormed, InsertionOrdered, Listed, Perform, Behind, Keeps, Reaches;
    PerformCapturable(c, actions[0]);
    var d := Perform(c, actions[0]);
    if h == 0 {
      EnqueuedIsNew(c, actions[0]);
      NowBehind(c, s, actions[0].node);
      RecordedReaches(d, actions[1..], s, e, t, actions[0].node, i - 1, j - 1, k - 1);
    } else {
      EventInOrder(d, actions[1..], s, e, t, h - 1, i - 1, j - 1, k - 1);
    }
  }
}
