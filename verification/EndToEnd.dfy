/** From a graph to the memory that launching its executable form leaves behind. */
module EndToEnd {
  import opened Dags
  import opened Streams
  import opened Delivery
  import opened Meaning
  import opened Walking
  import opened Cloning
  import opened Graphs
  import opened Executing
  import CloneOrder
  import Kahn
  import Scheduling

  lemma {:induction false} ExecuteImage<N, M(!new)>(eff: (N, M) -> M, f: map<N, N>, nodes: seq<N>, m: M)
    requires Covers(f, nodes) && forall n, m | n in f :: eff(f[n], m) == eff(n, m)
    ensures Execute(eff, Image(f, nodes), m) == Execute(eff, nodes, m)
  {
    if nodes != [] {
      assert nodes[0] in nodes;
      assert Covers(f, nodes[1..]);
      assert Image(f, nodes)[1..] == Image(f, nodes[1..]);
      ExecuteImage(eff, f, nodes[1..], eff(nodes[0], m));
    }
  }

  lemma {:induction false} WalkRenamed<N>(f: map<N, N>, g: Dag<N>, h: Dag<N>, a: N, b: N, k: nat)
    requires WellFormed(g) && Renamed(f, g, h) && a in f && b in f && Walk(g, a, b, k)
    ensures Walk(h, f[a], f[b], k)
  {
    hide WellFormed, Renamed;
    if k > 0 {
      var c :| c in g.edges[a] && Walk(g, c, b, k - 1);
      EdgeRenamed(f, g, h, a, c);
      WalkRenamed(f, g, h, c, b, k - 1);
    }
  }

  lemma EdgeRenamed<N>(f: map<N, N>, g: Dag<N>, h: Dag<N>, a: N, c: N)
    requires WellFormed(g) && Renamed(f, g, h) && a in f && a in g.edges && c in g.edges[a]
    ensures c in f && f[a] in h.edges && f[c] in h.edges[f[a]]
  {
    hide ListsInside, Mirrored, Distinct, Injective;
    ImageMember(f, g.edges[a], c);
  }

  lemma ReachRenamed<N>(f: map<N, N>, g: Dag<N>, h: Dag<N>, a: N, b: N)
    requires WellFormed(g) && Renamed(f, g, h) && a in f && b in f && Reaches(g, a, b)
    ensures Reaches(h, f[a], f[b])
  {
    var k: nat :| Walk(g, a, b, k);
    WalkRenamed(f, g, h, a, b, k);
  }

  /** Nodes without a path between them commute in a clone if they do in the original. */
  lemma IndependentRenamed<N, M(!new)>(f: map<N, N>, g: Dag<N>, h: Dag<N>, eff: (N, M) -> M)
    requires WellFormed(g) && Renamed(f, g, h) && Independent(g, eff) && forall n, m | n in f ::
             eff(f[n], m) == eff(n, m)
    ensures Independent(h, eff)
  {
    hide WellFormed, Renamed, Reaches;
    forall x, y | x in Nodes(h) && y in Nodes(h) && !Reaches(h, x, y) && !Reaches(h, y, x) ensures Commute(eff, x, y) {
      var a := RenamedNode(f, g, h, x);
      var b := RenamedNode(f, g, h, y);
      RenamedKeys(f, g, h);
      if Reaches(g, a, b) {
        ReachRenamed(f, g, h, a, b);
      }
      if Reaches(g, b, a) {
        ReachRenamed(f, g, h, b, a);
      }
      assert Commute(eff, a, b);
    }
  }

  lemma RenamedKeys<N>(f: map<N, N>, g: Dag<N>, h: Dag<N>)
    requires Renamed(f, g, h)
    ensures f.Keys == Nodes(g)
  {
  }

  /** Launching an instantiated graph computes what the graph itself says: in any order in
      which the delivered commands may complete, memory ends up as after running the
      source graph's topological order one node at a time, as long as clones do what their
      originals do and nodes with no path between them commute. */
  lemma LaunchComputesGraph<M(!new)>(exec: GraphExec, g: Dag<GraphNode>, queue: int, from: nat,
        log: seq<Command<GraphNode>>,
                                     order: seq<nat>, eff: (GraphNode, M) -> M, m: M)
    requires exec.Sequenced() && WellFormed(g) && Renamed(exec.clonedNodes, g, exec.clonedGraph.dag)
    requires Delivered(exec.clonedGraph.dag, queue, from, log, exec.Commands()) && Completion(log, from, order)
    requires Independent(g, eff) && forall n, m | n in exec.clonedNodes :: eff(exec.clonedNodes[n], m) == eff(n, m)
    ensures Execute(eff, NodesRun(log, order), m) == Execute(eff, Kahn.TopologicalOrder(g), m)
  {
    hide *;
    var h := exec.clonedGraph.dag;
    exec.OrderFacts();
    IndependentRenamed(exec.clonedNodes, g, h, eff);
    CompletionInside(log, from, order);
    LaunchMeaning(h, queue, from, log, exec.Commands(), order, eff, exec.topoOrder, m);
    OrderCommutes(exec.clonedNodes, g, h);
    OrderIsImage(exec.clonedNodes, Kahn.TopologicalOrder(g), exec.topoOrder);
    ExecuteImage(eff, exec.clonedNodes, Kahn.TopologicalOrder(g), m);
  }

  lemma CompletionInside<N>(log: seq<Command<N>>, from: nat, order: seq<nat>)
    requires Completion(log, from, order)
    ensures forall i | i in order :: i < |log|
  {
  }

  lemma OrderIsImage<N>(f: map<N, N>, a: seq<N>, b: seq<N>)
    requires |a| == |b| && forall i | 0 <= i < |a| :: a[i] in f && b[i] == f[a[i]]
    ensures Covers(f, a) && b == Image(f, a)
  {
  }

  // ---- Instantiating and launching ----

  /** The streams the runtime creates are different from each other and the launch stream. */
  ghost predicate OwnHandles(created: seq<HipStream>, launchStream: HipStream) {
    && (forall i, j | 0 <= i < j < |created| :: created[i].handle != created[j].handle)
    && forall i | 0 <= i < |created| :: created[i].handle != launchStream.handle
  }

  lemma OwnParallel(exec: GraphExec, created: seq<HipStream>, launchStream: HipStream)
    requires OwnHandles(created, launchStream) && exec.clonedGraph.maxStreams <= |created|
    requires exec.parallelStreams == created[..exec.clonedGraph.maxStreams]
    ensures exec.OwnStreams(launchStream)
  {
  }

  /** What decides, before it is instantiated, whether a graph can be relied on: it needs one
      stream only, or its skipped waits are bridged. */
  ghost predicate Reliable(g: Dag<GraphNode>, q: nat) {
    WellFormed(g) && q >= 1 && (Scheduling.ScheduleAll(g, q).maxStreams == 1 || Orderly(g, q))
  }

  /** The clone is reliable if its source is, and its first launch finds it idle. */
  lemma SourceDecides(exec: GraphExec, registry: NodeRegistry, graph: Graph)
    requires exec.Sequenced() && WellFormed(graph.dag) && Reliable(graph.dag, graph.queues)
    requires CloneReady(registry, graph, exec.clonedNodes, exec.clonedGraph) && exec.AllCreatable()
    ensures exec.Delivers()
  {
    hide WellFormed, Acyclic, Kahn.TopologicalOrder, Scheduling.ScheduleAll, Renamed, Orderly;
    CloneOrder.ScheduleCommutes(exec.clonedNodes, graph.dag, exec.clonedGraph.dag, graph.queues);
    CloneOrder.OrderlyCommutes(exec.clonedNodes, graph.dag, exec.clonedGraph.dag, graph.queues);
  }

  lemma ReadyRenamed(registry: NodeRegistry, graph: Graph, f: map<GraphNode, GraphNode>, clone: Graph)
    requires CloneReady(registry, graph, f, clone)
    ensures Renamed(f, graph.dag, clone.dag)
  {
  }

  lemma AnyCompletion<M(!new)>(exec: GraphExec, g: Dag<GraphNode>, queue: int, from: nat, log: seq<Command<GraphNode>>,
                               eff: (GraphNode, M) -> M, m: M)
    requires exec.Sequenced() && WellFormed(g) && Renamed(exec.clonedNodes, g, exec.clonedGraph.dag)
    requires Delivered(exec.clonedGraph.dag, queue, from, log, exec.Commands())
    ensures Independent(g, eff) && (forall n, m | n in exec.clonedNodes :: eff(exec.clonedNodes[n], m) == eff(n, m)) ==>
              forall order | Completion(log, from, order) ::
                Execute(eff, NodesRun(log, order), m) == Execute(eff, Kahn.TopologicalOrder(g), m)
  {
    hide WellFormed, Renamed, Delivered, Execute, NodesRun, Kahn.TopologicalOrder, Acyclic, Independent;
    if Independent(g, eff) && forall n, m | n in exec.clonedNodes :: eff(exec.clonedNodes[n], m) == eff(n, m) {
      forall order | Completion(log, from, order)
        ensures Execute(eff, NodesRun(log, order), m) == Execute(eff, Kahn.TopologicalOrder(g), m)
      {
        LaunchComputesGraph(exec, g, queue, from, log, order, eff, m);
      }
    }
  }

  /** Instantiating a graph and launching the result. If the launch reports success, all
      commands could be created and the graph is reliable, then memory ends up, whatever the
      order in which the commands complete, as after running the graph's own topological
      order one node at a time, as long as clones do what their originals do and nodes with
      no path between them commute. */
  method LaunchGraph<M(!new)>(registry: NodeRegistry, graph: Graph, created: seq<HipStream>, device: Device,
        launchStream: HipStream,
                              last: Option<nat>, ghost eff: (GraphNode, M) -> M, ghost m: M)
    returns (exec: GraphExec?, status: Status)
    requires graph.Adjacent() && graph.Owns(registry) && graph.queues >= 1 && |graph.roots| == graph.queues
    requires OwnHandles(created, launchStream)
    modifies registry, graph`instantiated, device
    ensures WellFormed(graph.dag) && (status == Success ==> exec != null && Acyclic(graph.dag))
    ensures status == Success && exec.AllCreatable() && Reliable(graph.dag, graph.queues) && Independent(graph.dag, eff)
              && (forall n, m | n in exec.clonedNodes :: eff(exec.clonedNodes[n], m) == eff(n, m)) ==>
              forall order | Completion(device.log, |old(device.log)|, order) ::
                Execute(eff, NodesRun(device.log, order), m) == Execute(eff, Kahn.TopologicalOrder(graph.dag), m)
  {
    hide *;
    graph.DagWellFormed();
    exec, status := Instantiate(registry, graph, created);
    if status != Success {
      return;
    }
    OwnParallel(exec, created, launchStream);
    ReadyRenamed(registry, graph, exec.clonedNodes, exec.clonedGraph);
    if exec.AllCreatable() && Reliable(graph.dag, graph.queues) {
      SourceDecides(exec, registry, graph);
    }
    ghost var sure := exec.Delivers();
    ghost var stop;
    status, stop := exec.Run(device, launchStream, last);
    if status == Success && sure {
      exec.ValidFacts();
      AnyCompletion(exec, graph.dag, launchStream.handle, |old(device.log)|, device.log, eff, m);
    }
  }
}
