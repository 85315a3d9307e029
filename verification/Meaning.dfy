/** What a run computes: the effect of commands on memory, in any order the emitted log
    allows, compared with the plain topological order. */
module Meaning {
  import opened Dags
  import opened Streams
  import opened Delivery

  /** Memory after running `nodes` in order; `eff` says what one node does to memory. */
  ghost function Execute<N, M(!new)>(eff: (N, M) -> M, nodes: seq<N>, m: M): M
  {
    if nodes == [] then m else Execute(eff, nodes[1..], eff(nodes[0], m))
  }

  ghost predicate Commute<N, M(!new)>(eff: (N, M) -> M, a: N, b: N) {
    forall m: M :: eff(a, eff(b, m)) == eff(b, eff(a, m))
  }

  /** Nodes with no path between them commute. */
  ghost predicate Independent<N, M(!new)>(g: Dag<N>, eff: (N, M) -> M) {
    forall a, b | a in Nodes(g) && b in Nodes(g) && !Reaches(g, a, b) && !Reaches(g, b, a) :: Commute(eff, a, b)
  }

  /** No node comes after one it leads to. */
  ghost predicate Respects<N>(g: Dag<N>, nodes: seq<N>) {
    forall i, j {:trigger nodes[i], nodes[j]} | 0 <= i < j < |nodes| :: !Reaches(g, nodes[j], nodes[i])
  }

  lemma {:induction false} ExecuteThrough<N, M(!new)>(eff: (N, M) -> M, a: seq<N>, b: seq<N>, m: M)
    ensures Execute(eff, a + b, m) == Execute(eff, b, Execute(eff, a, m))
  {
    if a == [] {
      assert a + b == b;
    } else {
      assert (a + b)[1..] == a[1..] + b;
      ExecuteThrough(eff, a[1..], b, eff(a[0], m));
    }
  }

  /** A node that commutes with everything in `a` may move in front of it. */
  lemma {:induction false} MoveFront<N, M(!new)>(eff: (N, M) -> M, a: seq<N>, x: N, m: M)
    requires forall i | 0 <= i < |a| :: Commute(eff, x, a[i])
    ensures eff(x, Execute(eff, a, m)) == Execute(eff, a, eff(x, m))
  {
    if a != [] {
      assert forall i | 0 <= i < |a[1..]| :: a[1..][i] == a[i + 1];
      MoveFront(eff, a[1..], x, eff(a[0], m));
      assert Commute(eff, x, a[0]);
    }
  }

  ghost function Without<T>(s: seq<T>, k: nat): seq<T>
    requires k < |s|
  {
    s[..k] + s[k + 1..]
  }

  lemma ExecuteMoved<N, M(!new)>(eff: (N, M) -> M, b: seq<N>, k: nat, m: M)
    requires k < |b| && forall i | 0 <= i < k :: Commute(eff, b[k], b[i])
    ensures Execute(eff, b, m) == Execute(eff, Without(b, k), eff(b[k], m))
  {
    var x := b[k];
    assert b == b[..k] + ([x] + b[k + 1..]);
    ExecuteThrough(eff, b[..k], [x] + b[k + 1..], m);
    assert ([x] + b[k + 1..])[1..] == b[k + 1..];
    MoveFront(eff, b[..k], x, m);
    ExecuteThrough(eff, b[..k], b[k + 1..], eff(x, m));
  }

  lemma WithoutKeeps<N>(g: Dag<N>, b: seq<N>, k: nat)
    requires k < |b| && Distinct(b) && Respects(g, b)
    ensures var c := Without(b, k);
            && Distinct(c) && Respects(g, c) && |c| == |b| - 1
            && (forall n | n in c :: n in b && n != b[k])
            && (forall n | n in b && n != b[k] :: n in c)
  {
    hide Reaches;
    var c := Without(b, k);
    assert forall i | 0 <= i < |c| :: c[i] == if i < k then b[i] else b[i + 1];
    forall n | n in b && n != b[k] ensures n in c {
      var i :| 0 <= i < |b| && b[i] == n;
      assert c[if i < k then i else i - 1] == n;
    }
  }

  /** Two orders of the same nodes that respect the graph compute the same memory. */
  lemma {:induction false} RespectfulAgree<N, M(!new)>(g: Dag<N>, eff: (N, M) -> M, a: seq<N>, b: seq<N>, m: M)
    requires Independent(g, eff) && Distinct(a) && Distinct(b) && Respects(g, a) && Respects(g, b)
    requires forall n | n in a :: n in b && n in Nodes(g)
    requires forall n | n in b :: n in a
    ensures Execute(eff, a, m) == Execute(eff, b, m)
    decreases |a|
  {
    hide Independent, Respects, Reaches, Distinct;
    if a == [] {
      DistinctFitsIn(b, {});
    } else {
      var k := FirstCommutes(g, eff, a, b);
      ExecuteMoved(eff, b, k, m);
      ExecuteMoved(eff, a, 0, m);
      WithoutKeeps(g, a, 0);
      WithoutKeeps(g, b, k);
      RespectfulAgree(g, eff, Without(a, 0), Without(b, k), eff(a[0], m));
    }
  }

  /** The first node of `a` commutes with everything before it in `b`. */
  lemma FirstCommutes<N, M(!new)>(g: Dag<N>, eff: (N, M) -> M, a: seq<N>, b: seq<N>) returns (k: nat)
    requires Independent(g, eff) && Distinct(b) && Respects(g, a) && Respects(g, b) && a != []
    requires forall n | n in a :: n in b && n in Nodes(g)
    requires forall n | n in b :: n in a
    ensures k < |b| && b[k] == a[0] && forall i | 0 <= i < k :: Commute(eff, b[k], b[i])
  {
    hide Reaches;
    assert a[0] in a;
    k :| 0 <= k < |b| && b[k] == a[0];
    forall i | 0 <= i < k ensures Commute(eff, b[k], b[i]) {
      assert b[i] in b;
      var j :| 0 <= j < |a| && a[j] == b[i];
      assert j != 0;
      assert !Reaches(g, a[j], a[0]) && !Reaches(g, b[k], b[i]);
    }
  }

  lemma TopologicalRespects<N>(g: Dag<N>, order: seq<N>)
    requires WellFormed(g) && Topological(g, order)
    ensures Respects(g, order)
  {
    hide Mirrored, Reaches;
    forall i, j | 0 <= i < j < |order| ensures !Reaches(g, order[j], order[i]) {
      ForwardReach(g, order, j, i);
    }
  }

  lemma ForwardReach<N>(g: Dag<N>, order: seq<N>, j: nat, i: nat)
    requires WellFormed(g) && Topological(g, order) && i < j < |order|
    ensures !Reaches(g, order[j], order[i])
  {
    hide Mirrored, WellFormed, Topological;
    forall k: nat ensures !Walk(g, order[j], order[i], k) {
      if Walk(g, order[j], order[i], k) {
        ForwardWalk(g, order, j, i, k);
      }
    }
  }

  lemma {:induction false} ForwardWalk<N>(g: Dag<N>, order: seq<N>, j: nat, i: nat, k: nat)
    requires WellFormed(g) && Topological(g, order) && j < |order| && i < |order| && Walk(g, order[j], order[i], k)
    ensures j <= i
    decreases k
  {
    hide ListsInside, Mirrored;
    if k > 0 {
      var c :| c in g.edges[order[j]] && Walk(g, c, order[i], k - 1);
      ChildIn(g, order[j], c);
      var m :| 0 <= m < |order| && order[m] == c;
      ForwardWalk(g, order, m, i, k - 1);
    }
  }

  // ---- Completion orders of a log ----

  /** An order in which the commands at positions from.. of the log may complete. */
  ghost predicate Completion<N>(log: seq<Command<N>>, from: nat, order: seq<nat>) {
    && Distinct(order)
    && (forall i | i in order :: from <= i < |log|)
    && (forall i | from <= i < |log| :: i in order)
    && forall a, b {:trigger order[a], order[b]} | 0 <= a < b < |order| :: !Direct(log, order[b], order[a])
  }

  /** The nodes among the commands of `order`, in that order. */
  ghost function NodesRun<N>(log: seq<Command<N>>, order: seq<nat>): seq<N>
    requires forall i | i in order :: i < |log|
  {
    if order == [] then []
    else
      var k := |order| - 1;
      assert order[k] in order;
      assert forall i | i in order[..k] :: i in order;
      NodesRun(log, order[..k]) + match log[order[k]].work case Run(n) => [n] case Marker => []
  }

  /** The command behind the i-th node, with strictly growing positions. */
  lemma {:induction false} RunAt<N>(log: seq<Command<N>>, order: seq<nat>, i: nat, j: nat) returns (a: nat, b: nat)
    requires (forall k | k in order :: k < |log|) && i <= j < |NodesRun(log, order)|
    ensures a <= b < |order| && (i < j ==> a < b) && (i == j ==> a == b) && order[a] < |log| && order[b] < |log|
    ensures log[order[a]].work == Run(NodesRun(log, order)[i]) && log[order[b]].work == Run(NodesRun(log, order)[j])
    decreases |order|
  {
    var k := |order| - 1;
    assert order[k] in order;
    assert forall i | i in order[..k] :: i in order;
    var short := NodesRun(log, order[..k]);
    if j < |short| {
      a, b := RunAt(log, order[..k], i, j);
    } else {
      b := k;
      if i < |short| {
        var a', _ := RunAt(log, order[..k], i, i);
        a := a';
      } else {
        a := k;
      }
    }
  }

  lemma {:induction false} RunIncludes<N>(log: seq<Command<N>>, order: seq<nat>, i: nat, n: N)
    requires (forall k | k in order :: k < |log|) && i in order && log[i].work == Run(n)
    ensures n in NodesRun(log, order)
    decreases |order|
  {
    var k := |order| - 1;
    assert order[k] in order;
    assert forall i | i in order[..k] :: i in order;
    if order[k] != i {
      assert i in order[..k];
      RunIncludes(log, order[..k], i, n);
    }
  }

  /** What happens before completes before. */
  lemma {:induction false} BeforeCompletes<N>(log: seq<Command<N>>, from: nat, order: seq<nat>, a: nat, b: nat)
    requires Completion(log, from, order) && a < |order| && b < |order| && Before(log, order[a], order[b])
    ensures a < b
    decreases order[b]
  {
    var i, j := order[a], order[b];
    assert i in order && j in order;
    var k :| i <= k < j && Direct(log, k, j) && (k == i || Before(log, i, k));
    assert k in order;
    var c :| 0 <= c < |order| && order[c] == k;
    if k != i {
      BeforeCompletes(log, from, order, a, c);
    }
  }

  // ---- A delivered graph ----

  /** A walk in a delivered graph is respected end to end. */
  lemma {:induction false} WalkKept<N>(g: Dag<N>, queue: int, from: nat, log: seq<Command<N>>, at: map<N, nat>, a: N,
        b: N, k: nat)
    requires Delivered(g, queue, from, log, at) && a in at && b in at && Walk(g, a, b, k)
    ensures a == b || Before(log, at[a], at[b])
  {
    hide JoinedOn, Before, Distinct, ListsInside, Mirrored;
    if k > 0 {
      var c :| c in g.edges[a] && Walk(g, c, b, k - 1);
      ChildIn(g, a, c);
      WalkKept(g, queue, from, log, at, c, b, k - 1);
      if c != b {
        BeforeThrough(log, at[a], at[c], at[b]);
      }
    }
  }

  lemma DeliveredNodes<N>(g: Dag<N>, queue: int, from: nat, log: seq<Command<N>>, at: map<N, nat>, order: seq<nat>)
    requires Delivered(g, queue, from, log, at) && Completion(log, from, order)
    ensures var run := NodesRun(log, order);
            (forall n | n in run :: n in Nodes(g)) && (forall n | n in Nodes(g) :: n in run)
  {
    hide WellFormed, EdgesKept, JoinedOn, NodesRun;
    var run := NodesRun(log, order);
    forall i | 0 <= i < |run| ensures run[i] in Nodes(g) {
      var a, _ := RunAt(log, order, i, i);
      assert order[a] in order;
    }
    forall n | n in Nodes(g) ensures n in run {
      RunIncludes(log, order, at[n], n);
    }
  }

  lemma DeliveredPair<N>(g: Dag<N>, queue: int, from: nat, log: seq<Command<N>>, at: map<N, nat>, order: seq<nat>,
        i: nat, j: nat)
    requires Delivered(g, queue, from, log, at) && Completion(log, from, order) && i < j < |NodesRun(log, order)|
    ensures var run := NodesRun(log, order); run[i] != run[j] && !Reaches(g, run[j], run[i])
  {
    hide WellFormed, EdgesKept, JoinedOn, NodesRun, Before;
    var run := NodesRun(log, order);
    var a, b := RunAt(log, order, i, j);
    assert order[a] in order && order[b] in order;
    assert order[a] != order[b];
    forall k: nat ensures !Walk(g, run[j], run[i], k) {
      if Walk(g, run[j], run[i], k) {
        WalkKept(g, queue, from, log, at, run[j], run[i], k);
        BeforeCompletes(log, from, order, b, a);
      }
    }
  }

  /** Launching preserves meaning: in any completion order that the queues and wait lists
      of a delivered graph allow, memory ends up as after running a topological order one
      node at a time, as long as nodes with no path between them commute. */
  lemma LaunchMeaning<N, M(!new)>(g: Dag<N>, queue: int, from: nat, log: seq<Command<N>>, at: map<N, nat>,
        order: seq<nat>,
                                  eff: (N, M) -> M, topo: seq<N>, m: M)
    requires Delivered(g, queue, from, log, at) && Completion(log, from, order)
    requires Topological(g, topo) && Independent(g, eff)
    ensures Execute(eff, NodesRun(log, order), m) == Execute(eff, topo, m)
  {
    hide Independent, Direct, NodesRun, Execute, Reaches, ListsInside, Mirrored, RunsOnce, EdgesKept, JoinedOn;
    var run := NodesRun(log, order);
    DeliveredNodes(g, queue, from, log, at, order);
    forall i, j {:trigger run[i], run[j]} | 0 <= i < j < |run| ensures run[i] != run[j] && !Reaches(g, run[j], run[i]) {
      DeliveredPair(g, queue, from, log, at, order, i, j);
    }
    TopologicalRespects(g, topo);
    RespectfulAgree(g, eff, run, topo, m);
  }
}
