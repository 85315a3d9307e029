/** Whose turn it is in a launch: each next node, told from the nodes taken before it. */
module Turns {
  import opened Dags
  import opened Walking

  /** Every child of the nodes at positions j to k of `order` is taken among its first k nodes
      or has to wait for a dependency that is not. */
  ghost predicate ClosedBetween<N>(g: Dag<N>, order: seq<N>, j: int, k: int) {
    0 <= k <= |order| && forall l | 0 <= j <= l < k && order[l] in g.edges ::
      forall c | c in g.edges[order[l]] && c in g.deps :: Passed(g, order[..k], c)
  }

  /** The node at position m is the first child that could be launched of the latest node
      that has one. */
  ghost predicate NextChild<N>(g: Dag<N>, order: seq<N>, m: nat, j: nat, i: nat) {
    && j < m < |order| && order[j] in g.edges && i < |g.edges[order[j]]| && g.edges[order[j]][i] == order[m]
    && order[m] in g.deps && !Passed(g, order[..m], order[m])
    && (forall k | 0 <= k < i && g.edges[order[j]][k] in g.deps :: Passed(g, order[..m], g.edges[order[j]][k]))
    && ClosedBetween(g, order, j + 1, m)
  }

  ghost predicate AsChild<N>(g: Dag<N>, order: seq<N>, m: nat) {
    exists j: nat, i: nat :: j < m && NextChild(g, order, m, j, i)
  }

  /** No node has such a child, and the node at position m is the first vertex that could be
      launched. */
  ghost predicate AsVertex<N>(g: Dag<N>, order: seq<N>, m: nat) {
    && m < |order| && ClosedBetween(g, order, 0, m) && order[m] in g.deps && !Passed(g, order[..m], order[m])
    && exists k :: 0 <= k < |g.vertices| && g.vertices[k] == order[m] && forall l | 0 <= l < k ::
         g.vertices[l] in g.deps && Passed(g, order[..m], g.vertices[l])
  }

  ghost predicate AllChildren<N>(g: Dag<N>, order: seq<N>, from: nat) {
    forall m: nat | from <= m < |order| :: AsChild(g, order, m)
  }

  /** What could not be launched cannot be launched later without having been taken. */
  ghost predicate StayPassed<N>(g: Dag<N>, order: seq<N>, longer: seq<N>) {
    forall c | c in g.deps && Passed(g, order, c) :: Passed(g, longer, c)
  }

  // ---- Longer orders ----

  lemma AsChildStays<N>(g: Dag<N>, order: seq<N>, longer: seq<N>, m: nat)
    requires order <= longer && AsChild(g, order, m)
    ensures AsChild(g, longer, m)
  {
    hide Passed;
    var j: nat, i: nat :| j < m && NextChild(g, order, m, j, i);
    assert longer[..m] == order[..m];
    assert NextChild(g, longer, m, j, i);
  }

  lemma AsVertexStays<N>(g: Dag<N>, order: seq<N>, longer: seq<N>, m: nat)
    requires order <= longer && AsVertex(g, order, m)
    ensures AsVertex(g, longer, m)
  {
    hide Passed;
    assert longer[..m] == order[..m];
  }

  lemma ChildrenGrow<N>(g: Dag<N>, order: seq<N>, longer: seq<N>, from: nat)
    requires order <= longer && AllChildren(g, order, from) && AllChildren(g, longer, |order|)
    ensures AllChildren(g, longer, from)
  {
    hide AsChild;
    forall m: nat | from <= m < |order| ensures AsChild(g, longer, m) {
      AsChildStays(g, order, longer, m);
    }
  }

  lemma ClosedGrows<N>(g: Dag<N>, order: seq<N>, longer: seq<N>, j: nat)
    requires order <= longer && ClosedBetween(g, order, j, |order|) && ClosedBetween(g, longer, |order|, |longer|)
    requires StayPassed(g, order, longer)
    ensures ClosedBetween(g, longer, j, |longer|)
  {
    hide Passed;
    assert order[..|order|] == order && longer[..|longer|] == longer;
    forall l, c | j <= l < |longer| && longer[l] in g.edges && c in g.edges[longer[l]] && c in g.deps
      ensures Passed(g, longer[..|longer|], c)
    {
      if l < |order| {
        assert order[l] == longer[l];
      }
    }
  }

  lemma ClosedPrefix<N>(g: Dag<N>, order: seq<N>, longer: seq<N>, j: nat)
    requires order <= longer && ClosedBetween(g, order, j, |order|)
    ensures ClosedBetween(g, longer, j, |order|)
  {
    hide Passed;
    assert longer[..|order|] == order[..|order|];
  }

  lemma StayThrough<N>(g: Dag<N>, order: seq<N>, mid: seq<N>, longer: seq<N>)
    requires StayPassed(g, order, mid) && StayPassed(g, mid, longer)
    ensures StayPassed(g, order, longer)
  {
    hide Passed;
  }

  /** With `node` taken, only its children may have become ready. */
  lemma TakenPasses<N>(g: Dag<N>, order: seq<N>, node: N, longer: seq<N>)
    requires WellFormed(g) && node in Nodes(g) && StayPassed(g, order + [node], longer)
    requires forall k | 0 <= k < |g.edges[node]| && g.edges[node][k] in g.deps :: Passed(g, longer, g.edges[node][k])
    ensures StayPassed(g, order, longer)
  {
    hide ListsInside, Distinct;
    forall c | c in g.deps && Passed(g, order, c) ensures Passed(g, longer, c) {
      if !Passed(g, order + [node], c) {
        assert node in g.deps[c];
        var k :| 0 <= k < |g.edges[node]| && g.edges[node][k] == c;
      }
    }
  }

  // ---- The recursion ----

  /** The nodes that visiting `node`, when it can be launched, adds to `order`. */
  ghost predicate Took<N>(g: Dag<N>, order: seq<N>, node: N, longer: seq<N>)
    requires node in g.deps
  {
    && StayPassed(g, order, longer) && Passed(g, longer, node)
    && if Passed(g, order, node) then longer == order
       else
         order + [node] <= longer && AllChildren(g, longer, |order| + 1) && ClosedBetween(g, longer, |order|, |longer|)
  }

  lemma {:induction false} OneTurns<N>(g: Dag<N>, order: seq<N>, node: N)
    requires WellFormed(g) && node in Nodes(g)
    ensures Took(g, order, node, VisitOne(g, order, node))
    decreases Unseen(g, order), 0
  {
    hide ListsInside, Mirrored, Distinct, Unseen, AllChildren, ClosedBetween, StayPassed, VisitEdges;
    if Passed(g, order, node) {
      StaySame(g, order);
    } else {
      VisitedFewer(g, order, node);
      var mid := order + [node];
      NothingBetween(g, mid);
      EdgesTurn(g, mid, node, 0, |order|);
      var longer := VisitEdges(g, mid, node, 0);
      assert longer[|order|] == node && node in longer;
      TakenPasses(g, order, node, longer);
    }
  }

  lemma StaySame<N>(g: Dag<N>, order: seq<N>)
    ensures StayPassed(g, order, order)
  {
  }

  lemma VisitedFewer<N>(g: Dag<N>, order: seq<N>, node: N)
    requires WellFormed(g) && node in Nodes(g) && !Passed(g, order, node)
    ensures Unseen(g, order + [node]) < Unseen(g, order)
    ensures VisitOne(g, order, node) == VisitEdges(g, order + [node], node, 0)
  {
    hide ListsInside, Mirrored, Distinct, VisitEdges;
    assert node in Unseen(g, order) && node !in Unseen(g, order + [node]);
  }

  lemma NothingBetween<N>(g: Dag<N>, order: seq<N>)
    ensures ClosedBetween(g, order, |order|, |order|)
  {
  }

  lemma NothingTaken<N>(g: Dag<N>, order: seq<N>)
    ensures AllChildren(g, order, |order|)
  {
  }

  /** The first i children of `node` cannot be launched. */
  ghost predicate ChildrenPassed<N>(g: Dag<N>, order: seq<N>, node: N, i: nat) {
    node in g.edges && forall k | 0 <= k < i && k < |g.edges[node]| && g.edges[node][k] in g.deps ::
      Passed(g, order, g.edges[node][k])
  }

  lemma {:induction false} EdgesTurn<N>(g: Dag<N>, order: seq<N>, node: N, i: nat, j: nat)
    requires WellFormed(g) && node in Nodes(g) && i <= |g.edges[node]| && j < |order| && order[j] == node
    requires ChildrenPassed(g, order, node, i) && ClosedBetween(g, order, j + 1, |order|)
    ensures var longer := VisitEdges(g, order, node, i);
            && order <= longer && StayPassed(g, order, longer) && ChildrenPassed(g, longer, node, |g.edges[node]|)
            && AllChildren(g, longer, |order|) && ClosedBetween(g, longer, j, |longer|)
    decreases Unseen(g, order), |g.edges[node]| - i + 1
  {
    hide *;
    EdgesUnfold(g, order, node, i);
    if i == |g.edges[node]| {
      StaySame(g, order);
      NothingTaken(g, order);
      ClosedWith(g, order, j);
    } else {
      var child := g.edges[node][i];
      OneTurns(g, order, child);
      var mid := VisitOne(g, order, child);
      ChildTaken(g, order, mid, node, i, j);
      EdgesTurn(g, mid, node, i + 1, j);
      var longer := VisitEdges(g, order, node, i);
      StayThrough(g, order, mid, longer);
      ChildrenGrow(g, mid, longer, |order|);
    }
  }

  lemma EdgesUnfold<N>(g: Dag<N>, order: seq<N>, node: N, i: nat)
    requires WellFormed(g) && node in Nodes(g)
    ensures node in g.edges
    ensures i == |g.edges[node]| ==> VisitEdges(g, order, node, i) == order
    ensures i < |g.edges[node]| ==>
              var child := g.edges[node][i];
              && child in Nodes(g) && child in g.deps
              && var mid := VisitOne(g, order, child);
                 && order <= mid && Unseen(g, mid) <= Unseen(g, order)
                 && VisitEdges(g, order, node, i) == VisitEdges(g, mid, node, i + 1)
  {
    hide ListsInside, Mirrored, Distinct, VisitOne, Unseen;
    if i < |g.edges[node]| {
      ChildOf(g, node, i);
    }
  }

  lemma ClosedWith<N>(g: Dag<N>, order: seq<N>, j: nat)
    requires j < |order| && order[j] in g.edges && ChildrenPassed(g, order, order[j], |g.edges[order[j]]|)
    requires ClosedBetween(g, order, j + 1, |order|)
    ensures ClosedBetween(g, order, j, |order|)
  {
    hide Passed;
    assert order[..|order|] == order;
  }

  /** One iteration of the edge loop. */
  lemma ChildTaken<N>(g: Dag<N>, order: seq<N>, mid: seq<N>, node: N, i: nat, j: nat)
    requires node in g.edges && i < |g.edges[node]| && g.edges[node][i] in g.deps && j < |order| && order[j] == node
    requires ChildrenPassed(g, order, node, i) && ClosedBetween(g, order, j + 1, |order|)
    requires Took(g, order, g.edges[node][i], mid)
    ensures order <= mid && StayPassed(g, order, mid) && ChildrenPassed(g, mid, node, i + 1)
    ensures mid[j] == node && AllChildren(g, mid, |order|) && ClosedBetween(g, mid, j + 1, |mid|)
  {
    hide Passed, AsChild, ClosedBetween;
    var child := g.edges[node][i];
    if Passed(g, order, child) {
      NothingTaken(g, order);
    } else {
      ClosedGrows(g, order, mid, j + 1);
      ClosedPrefix(g, order, mid, j + 1);
      assert mid[..|order|] == order && mid[|order|] == child;
      assert NextChild(g, mid, |order|, j, i);
      ChildAt(g, mid, |order|, j, i);
    }
  }

  lemma ChildAt<N>(g: Dag<N>, order: seq<N>, m: nat, j: nat, i: nat)
    requires NextChild(g, order, m, j, i)
    ensures AsChild(g, order, m)
  {
  }

  // ---- The vertex loop ----

  /** Every node of `order` came in its turn, and neither a child of one nor one of the first k
      vertices can be launched. */
  ghost predicate InTurn<N>(g: Dag<N>, order: seq<N>, k: nat) {
    && k <= |g.vertices| && ClosedBetween(g, order, 0, |order|)
    && (forall m: nat | m < |order| :: AsVertex(g, order, m) || AsChild(g, order, m))
    && forall l | 0 <= l < k :: g.vertices[l] in g.deps && Passed(g, order, g.vertices[l])
  }

  lemma InTurnNext<N>(g: Dag<N>, order: seq<N>, longer: seq<N>, k: nat)
    requires k < |g.vertices| && InTurn(g, order, k) && g.vertices[k] in g.deps
    requires Took(g, order, g.vertices[k], longer)
    ensures InTurn(g, longer, k + 1)
  {
    hide Passed, AsChild, ClosedBetween;
    var node := g.vertices[k];
    if !Passed(g, order, node) {
      ClosedGrows(g, order, longer, 0);
      VertexTaken(g, order, longer, k);
      forall m: nat | m < |longer| ensures AsVertex(g, longer, m) || AsChild(g, longer, m) {
        if m < |order| {
          if AsVertex(g, order, m) {
            AsVertexStays(g, order, longer, m);
          } else {
            AsChildStays(g, order, longer, m);
          }
        }
      }
    }
  }

  lemma VertexTaken<N>(g: Dag<N>, order: seq<N>, longer: seq<N>, k: nat)
    requires k < |g.vertices| && InTurn(g, order, k) && order + [g.vertices[k]] <= longer
    requires g.vertices[k] in g.deps && !Passed(g, order, g.vertices[k])
    ensures AsVertex(g, longer, |order|)
  {
    hide Passed, AsChild, ClosedBetween;
    ClosedPrefix(g, order, longer, 0);
    assert longer[..|order|] == order && longer[|order|] == g.vertices[k];
  }

  lemma {:induction false} FromTurns<N>(g: Dag<N>, order: seq<N>, k: nat)
    requires WellFormed(g) && k <= |g.vertices| && InTurn(g, order, k)
    ensures InTurn(g, VisitFrom(g, order, k), |g.vertices|)
    decreases |g.vertices| - k
  {
    hide ListsInside, Mirrored, Distinct, VisitOne, InTurn, Took;
    if k < |g.vertices| {
      var node := g.vertices[k];
      assert node in Nodes(g);
      OneTurns(g, order, node);
      InTurnNext(g, order, VisitOne(g, order, node), k);
      FromTurns(g, VisitOne(g, order, node), k + 1);
    }
  }

  /** The launch order, exactly: it goes on to the first child that can be launched of the
      latest node that has one; when there is none, to the first vertex that can be launched;
      and it ends when nothing can. */
  lemma TurnsExactly<N>(g: Dag<N>)
    requires WellFormed(g)
    ensures var order := Order(g);
            && (forall m: nat | m < |order| :: AsVertex(g, order, m) || AsChild(g, order, m))
            && forall n | n in Nodes(g) :: n in order || exists d | d in g.deps[n] :: d !in order
  {
    hide ListsInside, Mirrored, Distinct, AsVertex, AsChild, VisitFrom;
    NoneInTurn(g);
    FromTurns(g, [], 0);
    forall n | n in Nodes(g) ensures n in g.deps && Passed(g, Order(g), n) {
      var l :| 0 <= l < |g.vertices| && g.vertices[l] == n;
      assert Passed(g, Order(g), g.vertices[l]);
    }
  }

  lemma NoneInTurn<N>(g: Dag<N>)
    ensures InTurn(g, [], 0)
  {
  }
}
