/** Graphs and their nodes as mutable objects. Each graph keeps a ghost value of its
    adjacency that every method updates; methods are specified by the functions on graph
    values, whose properties are proved in the other modules. */
module Graphs {
  import opened Dags
  import opened Editing
  import Capturing
  import Kahn
  import opened Cloning
  import opened Streams
  import Scheduling
  import opened Launching
  import opened LaunchSoundness
  import opened Fencing

  const SIZE_MAX: nat := 0xFFFF_FFFF_FFFF_FFFF

  const KIND_EMPTY := 5 // hipGraphNodeTypeEmpty

  datatype Status =
    | Success | InvalidValue | NotSupported | CaptureUnjoined | OutOfMemory | UpdateFailure | StreamsExhausted

  /** All live nodes of the process. */
  class NodeRegistry {
    var nodeSet: set<GraphNode>

    constructor ()
      ensures nodeSet == {}
    {
      nodeSet := {};
    }
  }

  class GraphNode {
    const kind: int // the node type
    const ownsMemory: bool // a memory allocation or free node
    var params: int // what the node does when it runs
    var edges: seq<GraphNode>
    var dependencies: seq<GraphNode>
    var inDegree: nat
    var outDegree: nat
    var parentGraph: Graph?
    var streamId: int
    var launchId: int
    var signalIsRequired: bool
    var command: nat // where the device's log holds its latest command
    var commandFails: bool // whether creating its command fails

    constructor (registry: NodeRegistry, kind: int, ownsMemory: bool, params: int)
      modifies registry
      ensures registry.nodeSet == old(registry.nodeSet) + {this}
      ensures this.kind == kind && this.ownsMemory == ownsMemory && this.params == params && Blank()
              && parentGraph == null
    {
      this.kind, this.ownsMemory, this.params := kind, ownsMemory, params;
      edges, dependencies := [], [];
      inDegree, outDegree := 0, 0;
      parentGraph := null;
      streamId, launchId := -1, -1;
      signalIsRequired := false;
      command, commandFails := 0, false;
      new;
      registry.nodeSet := registry.nodeSet + {this};
    }

    /** A copy carries over the degrees; its lists start empty and it belongs to no graph. */
    constructor Copy(registry: NodeRegistry, node: GraphNode)
      modifies registry
      ensures registry.nodeSet == old(registry.nodeSet) + {this}
      ensures kind == node.kind && ownsMemory == node.ownsMemory && params == node.params && inDegree == node.inDegree
              && outDegree == node.outDegree
      ensures edges == [] && dependencies == [] && parentGraph == null && streamId == -1 && launchId == -1
    {
      kind, ownsMemory, params := node.kind, node.ownsMemory, node.params;
      edges, dependencies := [], [];
      inDegree, outDegree := node.inDegree, node.outDegree;
      parentGraph := null;
      streamId, launchId := -1, -1;
      signalIsRequired := false;
      command, commandFails := 0, false;
      new;
      registry.nodeSet := registry.nodeSet + {this};
    }

    /** A copy of `node` placed in `graph`, not yet linked. */
    ghost predicate CopyOf(node: GraphNode, graph: Graph)
      reads this, node`inDegree, node`outDegree, node`params
    {
      && edges == [] && dependencies == [] && inDegree == node.inDegree && outDegree == node.outDegree
      && parentGraph == graph && launchId == -1 && kind == node.kind && params == node.params
    }

    /** As a new node is: no edges either way, no stream, not launched. */
    ghost predicate Blank()
      reads this
    {
      edges == [] && dependencies == [] && inDegree == 0 && outDegree == 0 && streamId == -1 && launchId == -1
    }

    method AddDependency(node: GraphNode)
      modifies this`dependencies, this`inDegree
      ensures dependencies == old(dependencies) + [node] && inDegree == old(inDegree) + 1
    {
      dependencies := dependencies + [node];
      inDegree := inDegree + 1;
    }

    method AddEdge(childNode: GraphNode)
      modifies this`edges, this`outDegree
      ensures edges == old(edges) + [childNode] && outDegree == old(outDegree) + 1
    {
      edges := edges + [childNode];
      outDegree := outDegree + 1;
    }

    /** The counter is an unsigned machine word. */
    method RemoveDependency(node: GraphNode)
      modifies this`dependencies, this`inDegree
      ensures dependencies == Erase(old(dependencies), node)
      ensures inDegree == if old(inDegree) == 0 then SIZE_MAX else old(inDegree) - 1
    {
      dependencies := Erase(dependencies, node);
      inDegree := if inDegree == 0 then SIZE_MAX else inDegree - 1;
    }

    method RemoveEdge(childNode: GraphNode)
      modifies this`edges, this`outDegree
      ensures edges == Erase(old(edges), childNode)
      ensures outDegree == if old(outDegree) == 0 then SIZE_MAX else old(outDegree) - 1
    {
      edges := Erase(edges, childNode);
      outDegree := if outDegree == 0 then SIZE_MAX else outDegree - 1;
    }

    method SetEdges(edges: seq<GraphNode>)
      modifies this`edges
      ensures this.edges == old(this.edges) + edges
    {
      this.edges := this.edges + edges;
    }

    method SetDependencies(dependencies: seq<GraphNode>)
      modifies this`dependencies
      ensures this.dependencies == old(this.dependencies) + dependencies
    {
      this.dependencies := this.dependencies + dependencies;
    }

    method AddEdgeDep(childNode: GraphNode)
      modifies this`edges, this`outDegree, childNode`dependencies, childNode`inDegree
      ensures edges == old(edges) + [childNode] && outDegree == old(outDegree) + 1
      ensures childNode.dependencies == old(childNode.dependencies) + [this]
              && childNode.inDegree == old(childNode.inDegree) + 1
    {
      AddEdge(childNode);
      childNode.AddDependency(this);
    }

    method RemoveEdgeDep(childNode: GraphNode) returns (found: bool)
      modifies this`edges, this`outDegree, childNode`dependencies, childNode`inDegree
      ensures found <==> childNode in old(edges)
      ensures !found ==>
                edges == old(edges) && outDegree == old(outDegree)
                  && childNode.dependencies == old(childNode.dependencies)
                  && childNode.inDegree == old(childNode.inDegree)
      ensures found ==>
                edges == Erase(old(edges), childNode) && outDegree == if old(outDegree) == 0 then SIZE_MAX
                  else old(outDegree) - 1
      ensures found ==> childNode.dependencies == Erase(old(childNode.dependencies), this)
      ensures found ==>
                childNode.inDegree == if old(childNode.inDegree) == 0 then SIZE_MAX else old(childNode.inDegree) - 1
    {
      found := childNode in edges;
      if found {
        RemoveEdge(childNode);
        childNode.RemoveDependency(this);
      }
    }
  }

  ghost predicate SameWork(a: GraphNode, b: GraphNode)
    reads a`params, b`params
  {
    a.kind == b.kind && a.params == b.params
  }

  /** The graph value that the nodes' own lists describe. */
  ghost function ListsOf(nodes: seq<GraphNode>): Dag<GraphNode>
    reads nodes`edges, nodes`dependencies
  {
    Dag(nodes, map n | n in nodes :: n.edges, map n | n in nodes :: n.dependencies)
  }

  /** A list of pointers, with null pointers told apart. */
  ghost function Pointers(s: seq<GraphNode?>): (r: seq<Option<GraphNode>>)
    ensures |r| == |s| && forall i | 0 <= i < |s| :: r[i] == if s[i] == null then None else Some(s[i])
  {
    seq(|s|, i requires 0 <= i < |s| => if s[i] == null then None else Some(s[i]))
  }

  /** Everything enqueued so far, on all queues. */
  class Device {
    var log: seq<Command<GraphNode>>

    constructor ()
      ensures log == []
    {
      log := [];
    }
  }

  /** A runtime stream: its own in-order queue, and the hardware queue it is mapped to. */
  datatype HipStream = HipStream(handle: int, queueId: int)

  /** The capture state of a stream. */
  class CaptureStream {
    var lastCapturedNodes: seq<GraphNode>
    var removedDependencies: seq<GraphNode>

    constructor ()
      ensures lastCapturedNodes == [] && removedDependencies == []
    {
      lastCapturedNodes, removedDependencies := [], [];
    }

    method SetLastCapturedNode(graphNode: GraphNode)
      modifies this`lastCapturedNodes
      ensures lastCapturedNodes == [graphNode]
    {
      lastCapturedNodes := [graphNode];
    }

    method AddCrossCapturedNode(graphNodes: seq<GraphNode>, replace: bool)
      modifies this
      ensures lastCapturedNodes == Capturing.Merge(if replace then []
              else old(lastCapturedNodes), graphNodes, |graphNodes|)
      ensures removedDependencies == old(removedDependencies) + if replace then old(lastCapturedNodes) else []
    {
      if replace {
        removedDependencies := removedDependencies + lastCapturedNodes;
        lastCapturedNodes := [];
      }
      ghost var start := lastCapturedNodes;
      for k := 0 to |graphNodes|
        invariant lastCapturedNodes == Capturing.Merge(start, graphNodes, k)
        invariant removedDependencies == old(removedDependencies) + if replace then old(lastCapturedNodes) else []
      {
        if graphNodes[k] !in lastCapturedNodes {
          lastCapturedNodes := lastCapturedNodes + [graphNodes[k]];
        }
      }
    }
  }

  class Graph {
    const queues: nat // DEBUG_HIP_FORCE_GRAPH_QUEUES: the most virtual streams a graph may use
    var vertices: seq<GraphNode>
    var capturedNodes: set<GraphNode> // nodes added by hand while this graph is captured
    var maxStreams: nat
    var roots: seq<Option<GraphNode>> // first root on each virtual stream but 0
    var leafs: seq<Option<GraphNode>> // latest leaf launched on each virtual stream
    var waitOrder: seq<Option<GraphNode>> // scratch: latest launched dependency per virtual stream
    var streams: seq<HipStream>
    var currentId: int
    var instantiated: bool
    ghost var dag: Dag<GraphNode>

    constructor (queues: nat)
      ensures this.queues == queues
      ensures vertices == [] && capturedNodes == {} && dag == Dag([], map[], map[]) && Adjacent()
      ensures maxStreams == 0 && roots == leafs == waitOrder == seq(queues, _ => None) && streams == []
              && currentId == 0
    {
      this.queues := queues;
      vertices := [];
      capturedNodes := {};
      maxStreams := 0;
      roots, leafs, waitOrder := seq(queues, _ => None), seq(queues, _ => None), seq(queues, _ => None);
      streams := [];
      currentId := 0;
      instantiated := false;
      dag := Dag([], map[], map[]);
    }

    /** The node objects hold the lists of `dag`, with matching degree counters. */
    ghost predicate Adjacent()
      reads this`vertices, this`dag, vertices`edges, vertices`dependencies, vertices`inDegree, vertices`outDegree
    {
      WellFormed(dag) && Listed()
    }

    ghost predicate Listed()
      reads this`vertices, this`dag, vertices`edges, vertices`dependencies, vertices`inDegree, vertices`outDegree
    {
      dag.vertices == vertices && forall n | n in vertices :: Mirrors(n)
    }

    lemma DagVertices()
      requires Adjacent()
      ensures dag.vertices == vertices
    {
    }

    /** What `Adjacent` says about the vertices and one node. */
    lemma NodeFacts(n: GraphNode)
      requires Adjacent()
      ensures WellFormed(dag) && dag.vertices == vertices
      ensures n in vertices ==> Mirrors(n) && n in Nodes(dag)
    {
    }

    lemma NodeIsVertex(n: GraphNode)
      requires Adjacent() && n in Nodes(dag)
      ensures n in vertices
    {
    }

    ghost predicate Mirrors(n: GraphNode)
      reads this`dag, n`edges, n`dependencies, n`inDegree, n`outDegree
    {
      && n in dag.edges && n.edges == dag.edges[n] && n.outDegree == |n.edges|
      && n in dag.deps && n.dependencies == dag.deps[n] && n.inDegree == |n.dependencies|
    }

    /** The vertices are exactly the live nodes that name this graph as their parent. */
    ghost predicate Owns(registry: NodeRegistry)
      reads this`vertices, registry`nodeSet, registry.nodeSet`parentGraph, vertices`parentGraph
    {
      && (forall n | n in vertices :: n in registry.nodeSet && n.parentGraph == this)
      && (forall n | n in registry.nodeSet && n.parentGraph == this :: n in vertices)
    }

    method LinkNodes(u: GraphNode, v: GraphNode)
      requires Adjacent() && u in vertices && v in vertices && v !in u.edges
      modifies this`dag, u`edges, u`outDegree, v`dependencies, v`inDegree
      ensures Adjacent() && dag == Editing.AddEdge(old(dag), u, v)
    {
      hide ListsInside, Mirrored, Distinct;
      AddEdgeWellFormed(dag, u, v);
      u.AddEdgeDep(v);
      dag := Editing.AddEdge(dag, u, v);
    }

    /** Appending a blank node of no graph. */
    method PlaceNode(registry: NodeRegistry, node: GraphNode)
      requires Adjacent() && Owns(registry) && node in registry.nodeSet && node.Blank() && node.parentGraph == null
      modifies this`vertices, this`dag, node`parentGraph
      ensures Adjacent() && Owns(registry) && node !in old(vertices)
      ensures vertices == old(vertices) + [node] && dag == AddVertex(old(dag), node)
    {
      hide WellFormed, GraphNode.Blank;
      NotYetPlaced(registry, node);
      BlankIsBare(node);
      AddVertexWellFormed(dag, node);
      vertices := vertices + [node];
      node.parentGraph := this;
      dag := AddVertex(dag, node);
      forall n | n in vertices ensures Mirrors(n) {
        if n != node {
          assert n in old(vertices);
        }
      }
    }

    lemma BlankIsBare(node: GraphNode)
      requires node.Blank()
      ensures node.edges == [] && node.dependencies == [] && node.inDegree == 0 && node.outDegree == 0
    {
    }

    /** One parent of a new node, refused if it is not a live node of this graph or was
        seen before. */
    method AttachParent(registry: NodeRegistry, node: GraphNode, parent: GraphNode?, seen: set<GraphNode>,
                        ghost g: Dag<GraphNode>, ghost parents: seq<Option<GraphNode>>, ghost i: nat)
      returns (ok: bool)
      requires Adjacent() && Owns(registry) && node in vertices && Attaching(g, node, parents, i, seen, dag)
      requires i < |parents| && parents[i] == if parent == null then None else Some(parent)
      modifies this`dag, vertices`edges, vertices`outDegree, node`dependencies, node`inDegree
      ensures Adjacent()
      ensures ok ==> parent != null && var p: GraphNode := parent; Attaching(g, node, parents, i + 1, seen + {p}, dag)
      ensures !ok ==> dag == old(dag) && (parent == null || parent !in vertices || parent in seen)
    {
      hide ListsInside, Mirrored, Distinct, Attaching;
      ok := parent != null && parent in registry.nodeSet && parent.parentGraph == this && parent !in seen;
      if ok {
        AttachingNext(g, node, parents, i, seen, dag, parent);
        LinkNodes(parent, node);
      }
    }

    method AttachParents(registry: NodeRegistry, node: GraphNode, parents: seq<GraphNode?>) returns (ok: bool)
      requires Adjacent() && Owns(registry) && node in vertices && Attaching(dag, node, Pointers(parents), 0, {}, dag)
      modifies this`dag, vertices`edges, vertices`outDegree, node`dependencies, node`inDegree
      ensures Adjacent()
      ensures Edited(dag, ok) == Attach(old(dag), node, Pointers(parents), |parents|)
    {
      hide *;
      ghost var g := dag;
      var seen: set<GraphNode> := {};
      for i := 0 to |parents|
        invariant Adjacent() && Attaching(g, node, Pointers(parents), i, seen, dag)
      {
        ok := AttachParent(registry, node, parents[i], seen, g, Pointers(parents), i);
        if !ok {
          DagVertices();
          AttachingRefused(g, node, Pointers(parents), i, seen, dag);
          return;
        }
        var parent: GraphNode := parents[i];
        seen := seen + {parent};
      }
      ok := true;
      AttachingDone(g, node, Pointers(parents), seen, dag);
    }

    /** Adding a node with the given parents. An invalid or repeated parent is reported,
        and the node and the edges added before it stay. */
    method AddNode(registry: NodeRegistry, node: GraphNode, parents: seq<GraphNode?>, byHand: bool) returns (ok: bool)
      requires Adjacent() && Owns(registry) && node in registry.nodeSet && node.Blank() && node.parentGraph == null
      modifies this`vertices, this`dag, this`capturedNodes, node, vertices`edges, vertices`outDegree
      ensures Adjacent() && Owns(registry) && vertices == old(vertices) + [node]
      ensures node !in old(dag.edges) && node !in old(Nodes(dag))
      ensures Edited(dag, ok) == Editing.AddNode(old(dag), node, Pointers(parents))
      ensures capturedNodes == old(capturedNodes) + if ok && byHand then {node} else {}
    {
      hide *;
      NotYetPlaced(registry, node);
      PlacedIsReady(dag, node, Pointers(parents));
      PlaceNode(registry, node);
      ok := AttachParents(registry, node, parents);
      if ok && byHand {
        capturedNodes := capturedNodes + {node};
      }
    }

    lemma NotYetPlaced(registry: NodeRegistry, node: GraphNode)
      requires Adjacent() && Owns(registry) && node.parentGraph == null
      ensures WellFormed(dag) && node !in vertices && node !in dag.edges && node !in Nodes(dag)
    {
    }

    /** Taking `node` out of the dependencies of its i-th child. */
    method DropFromChild(node: GraphNode, child: GraphNode, ghost g: Dag<GraphNode>, ghost i: nat)
      requires Listed() && Detaching(g, node, [], i, 0, dag) && i < |g.edges[node]| && child == g.edges[node][i]
      modifies this`dag, child`dependencies, child`inDegree
      ensures Listed() && Detaching(g, node, [], i + 1, 0, dag)
    {
      hide ListsInside, Mirrored, Distinct, Detaching;
      DetachChild(g, node, i, dag);
      child.RemoveDependency(node);
      dag := dag.(deps := dag.deps[child := Erase(dag.deps[child], node)]);
    }

    /** Taking `node` out of the children of its j-th parent. */
    method DropFromParent(node: GraphNode, parent: GraphNode, ghost g: Dag<GraphNode>, ghost j: nat)
      requires Listed() && WellFormed(g) && node in Nodes(g)
               && Detaching(g, node, Erase(g.deps[node], node), |g.edges[node]|, j, dag)
      requires j < |Erase(g.deps[node], node)| && parent == Erase(g.deps[node], node)[j]
      modifies this`dag, parent`edges, parent`outDegree
      ensures Listed() && Detaching(g, node, Erase(g.deps[node], node), |g.edges[node]|, j + 1, dag)
    {
      hide ListsInside, Mirrored, Distinct, Detaching;
      DetachParent(g, node, j, dag);
      parent.RemoveEdge(node);
      dag := dag.(edges := dag.edges[parent := Erase(dag.edges[parent], node)]);
    }

    lemma NodeLists(n: GraphNode)
      requires Listed() && n in vertices
      ensures n in dag.edges && n.edges == dag.edges[n] && n in dag.deps && n.dependencies == dag.deps[n]
    {
    }

    lemma DetachingStarts(n: GraphNode)
      requires Adjacent() && n in vertices
      ensures Listed() && WellFormed(dag) && n in Nodes(dag) && n in dag.edges && n in dag.deps
              && Detaching(dag, n, [], 0, 0, dag)
    {
      hide ListsInside, Mirrored, Distinct;
    }

    /** While children are detached, the list being walked stays the original one. */
    lemma StillChildren(n: GraphNode, g: Dag<GraphNode>, i: nat)
      requires Listed() && n in vertices && Detaching(g, n, [], i, 0, dag)
      ensures WellFormed(g) && n in Nodes(g) && n.edges == g.edges[n]
    {
      hide ListsInside, Mirrored, Distinct;
      assert g.edges[n] == dag.edges[n];
    }

    method DropFromChildren(node: GraphNode)
      requires Adjacent() && node in vertices
      modifies this`dag, vertices`dependencies, vertices`inDegree
      ensures Listed() && WellFormed(old(dag)) && node in Nodes(old(dag))
              && Detaching(old(dag), node, [], |old(dag).edges[node]|, 0, dag)
    {
      hide *;
      ghost var g := dag;
      DetachingStarts(node);
      for i := 0 to |node.edges|
        invariant Listed() && Detaching(g, node, [], i, 0, dag)
      {
        StillChildren(node, g, i);
        ChildOf(g, node, i);
        SameVertices(node, g, [], i, 0);
        DropFromChild(node, node.edges[i], g, i);
      }
      StillChildren(node, g, |node.edges|);
    }

    lemma SameVertices(n: GraphNode, g: Dag<GraphNode>, parents: seq<GraphNode>, i: nat, j: nat)
      requires Listed() && Detaching(g, n, parents, i, j, dag)
      ensures g.vertices == vertices && forall m | m in Nodes(g) :: m in vertices
    {
      hide WellFormed;
    }

    method DropFromParents(node: GraphNode, ghost g: Dag<GraphNode>)
      requires Listed() && node in vertices && WellFormed(g) && node in Nodes(g) && node in g.deps && node in g.edges
      requires Detaching(g, node, [], |g.edges[node]|, 0, dag)
      modifies this`dag, vertices`edges, vertices`outDegree
      ensures Listed() && Detaching(g, node, Erase(g.deps[node], node), |g.edges[node]|, |Erase(g.deps[node], node)|,
              dag)
    {
      hide *;
      ghost var parents := Erase(g.deps[node], node);
      OwnParents(g, node, dag);
      NodeLists(node);
      for j := 0 to |node.dependencies|
        invariant Listed() && Detaching(g, node, parents, |g.edges[node]|, j, dag)
      {
        ParentInside(node, g, j);
        DropFromParent(node, node.dependencies[j], g, j);
      }
    }

    lemma ParentInside(n: GraphNode, g: Dag<GraphNode>, j: nat)
      requires Listed() && WellFormed(g) && n in Nodes(g) && j < |Erase(g.deps[n], n)|
      requires Detaching(g, n, Erase(g.deps[n], n), |g.edges[n]|, j, dag)
      ensures Erase(g.deps[n], n)[j] in vertices
    {
      hide ListsInside, Mirrored, Distinct;
      DetachParent(g, n, j, dag);
    }

    /** Removing a node from the graph and destroying it. */
    method RemoveNode(registry: NodeRegistry, node: GraphNode)
      requires Adjacent() && Owns(registry) && node in vertices
      modifies this`vertices, this`dag, registry, vertices`edges, vertices`outDegree, vertices`dependencies,
               vertices`inDegree
      ensures Adjacent() && Owns(registry)
      ensures dag == RemoveVertex(old(dag), node) && registry.nodeSet == old(registry.nodeSet) - {node}
    {
      hide *;
      ghost var g := dag;
      DetachingStarts(node);
      RemoveVertexWellFormed(dag, node);
      DropFromChildren(node);
      DropFromParents(node, g);
      Detached(g, node, dag);
      SameVertices(node, g, Erase(g.deps[node], node), |g.edges[node]|, |Erase(g.deps[node], node)|);
      EraseNode(registry, node, g);
    }

    method EraseNode(registry: NodeRegistry, node: GraphNode, ghost g: Dag<GraphNode>)
      requires Listed() && Owns(registry) && node in vertices && g.vertices == vertices
      requires RemoveVertex(g, node) == Dag(Erase(g.vertices, node), dag.edges - {node}, dag.deps - {node})
               && WellFormed(RemoveVertex(g, node))
      requires forall m | m in Erase(g.vertices, node) :: m in g.vertices && m != node
      requires forall m | m in g.vertices && m != node :: m in Erase(g.vertices, node)
      modifies this`vertices, this`dag, registry
      ensures Adjacent() && Owns(registry) && dag == RemoveVertex(g, node)
              && registry.nodeSet == old(registry.nodeSet) - {node}
    {
      hide WellFormed, RemoveVertex, Erase;
      vertices := Erase(vertices, node);
      registry.nodeSet := registry.nodeSet - {node};
      dag := RemoveVertex(g, node);
    }

    /** Whether every pair names two different live nodes of this graph. */
    method ValidatePairs(registry: NodeRegistry, from: seq<GraphNode?>, to: seq<GraphNode?>) returns (ok: bool)
      requires Adjacent() && Owns(registry) && |from| == |to|
      ensures ok <==> Connectable(dag, Pointers(from), Pointers(to))
    {
      hide WellFormed, Mirrors;
      for i := 0 to |from|
        invariant forall j | 0 <= j < i ::
                  from[j] != null && to[j] != null && from[j] != to[j] && from[j] in vertices && to[j] in vertices
      {
        if from[i] == null || to[i] == null || from[i] == to[i] || to[i] !in registry.nodeSet
          || from[i] !in registry.nodeSet
           || to[i].parentGraph != this || from[i].parentGraph != this {
          assert !Known(dag, Pointers(from)[i]) || !Known(dag, Pointers(to)[i]) || Pointers(from)[i] == Pointers(to)[i];
          return false;
        }
      }
      ok := true;
    }

    method ConnectPair(u: GraphNode, v: GraphNode, ghost g: Dag<GraphNode>, ghost from: seq<Option<GraphNode>>,
          ghost to: seq<Option<GraphNode>>, ghost i: nat)
      returns (ok: bool)
      requires Adjacent() && Connecting(g, from, to, i, dag) && i < |from| && from[i] == Some(u) && to[i] == Some(v)
      requires u in vertices && v in vertices
      modifies this`dag, u`edges, u`outDegree, v`dependencies, v`inDegree
      ensures Adjacent()
      ensures ok ==> Connecting(g, from, to, i + 1, dag)
      ensures !ok ==> WellFormed(g) && |from| == |to| && Connect(g, from, to) == Edited(dag, false)
    {
      hide ListsInside, Mirrored, Distinct, Connecting;
      ConnectingNext(g, from, to, i, dag, u, v);
      ConnectingFits(g, from, to, i, dag);
      NodeFacts(u);
      ok := v !in u.edges;
      if ok {
        LinkNodes(u, v);
      }
    }

    lemma ConnectingFits(g: Dag<GraphNode>, from: seq<Option<GraphNode>>, to: seq<Option<GraphNode>>, i: nat,
          h: Dag<GraphNode>)
      requires Connecting(g, from, to, i, h)
      ensures WellFormed(g) && |from| == |to| && h.vertices == g.vertices
      ensures forall j | 0 <= j < |from| :: Known(g, from[j]) && Known(g, to[j])
    {
      hide WellFormed;
    }

    /** Adding edges between existing nodes. All pairs are validated first; an edge that is
        there already stops the call with the edges before it in place. */
    method AddDependencies(registry: NodeRegistry, from: seq<GraphNode?>, to: seq<GraphNode?>) returns (ok: bool)
      requires Adjacent() && Owns(registry) && |from| == |to|
      modifies this`dag, vertices`edges, vertices`outDegree, vertices`dependencies, vertices`inDegree
      ensures Adjacent() && Owns(registry)
      ensures WellFormed(old(dag)) && Edited(dag, ok) == Connect(old(dag), Pointers(from), Pointers(to))
    {
      hide *;
      ghost var g := dag;
      DagWellFormed();
      ok := ValidatePairs(registry, from, to);
      if !ok {
        ConnectRefused(g, Pointers(from), Pointers(to));
        return;
      }
      ConnectingStarts(g, Pointers(from), Pointers(to));
      for i := 0 to |from|
        invariant Adjacent() && Connecting(g, Pointers(from), Pointers(to), i, dag)
      {
        PairInside(from, to, g, i);
        ok := ConnectPair(from[i], to[i], g, Pointers(from), Pointers(to), i);
        if !ok {
          return;
        }
      }
      ok := true;
      ConnectingDone(g, Pointers(from), Pointers(to), dag);
    }

    lemma DagWellFormed()
      requires Adjacent()
      ensures WellFormed(dag) && dag.vertices == vertices
    {
    }

    lemma ConnectRefused(g: Dag<GraphNode>, from: seq<Option<GraphNode>>, to: seq<Option<GraphNode>>)
      requires WellFormed(g) && |from| == |to| && !Connectable(g, from, to)
      ensures Connect(g, from, to) == Edited(g, false)
    {
    }

    lemma PairInside(from: seq<GraphNode?>, to: seq<GraphNode?>, g: Dag<GraphNode>, i: nat)
      requires Adjacent() && |from| == |to| && Connecting(g, Pointers(from), Pointers(to), i, dag) && i < |from|
      ensures from[i] != null && to[i] != null && from[i] in vertices && to[i] in vertices
    {
      hide WellFormed;
      ConnectingFits(g, Pointers(from), Pointers(to), i, dag);
      assert Known(g, Pointers(from)[i]) && Known(g, Pointers(to)[i]);
    }

    method UnlinkNodes(u: GraphNode, v: GraphNode) returns (found: bool)
      requires Adjacent() && u in vertices && v in vertices
      modifies this`dag, u`edges, u`outDegree, v`dependencies, v`inDegree
      ensures Adjacent() && u in old(dag).edges && v in old(dag).deps
      ensures found <==> v in old(dag).edges[u]
      ensures dag == if found then Editing.RemoveEdge(old(dag), u, v) else old(dag)
    {
      hide ListsInside, Mirrored, Distinct;
      NodeFacts(u);
      NodeFacts(v);
      RemoveEdgeCounts(dag, u, v);
      found := u.RemoveEdgeDep(v);
      if found {
        dag := Editing.RemoveEdge(dag, u, v);
      }
    }

    method DisconnectPair(registry: NodeRegistry, u: GraphNode, v: GraphNode,
                          ghost g: Dag<GraphNode>, ghost from: seq<GraphNode>, ghost to: seq<GraphNode>, ghost i: nat)
      returns (ok: bool)
      requires Adjacent() && Owns(registry) && u in registry.nodeSet && v in registry.nodeSet
      requires Disconnecting(g, from, to, i, dag) && i < |from| && i < |to| && from[i] == u && to[i] == v
      modifies this`dag, vertices`edges, vertices`outDegree, vertices`dependencies, vertices`inDegree
      ensures Adjacent()
      ensures if ok then Disconnecting(g, from, to, i + 1, dag) else Disconnected(g, from, to, dag, false)
    {
      hide WellFormed, Disconnecting, Disconnect, Listed;
      DisconnectingFits(g, from, to, i, dag);
      DagWellFormed();
      DisconnectingNext(g, from, to, i, dag);
      if v.parentGraph != this || u.parentGraph != this {
        return false;
      }
      ok := UnlinkNodes(u, v);
    }

    ghost predicate Disconnected(g: Dag<GraphNode>, from: seq<GraphNode>, to: seq<GraphNode>, h: Dag<GraphNode>,
          ok: bool) {
      WellFormed(g) && |from| == |to| && Disconnect(g, from, to, |from|) == Edited(h, ok)
    }

    lemma DisconnectingFits(g: Dag<GraphNode>, from: seq<GraphNode>, to: seq<GraphNode>, i: nat, h: Dag<GraphNode>)
      requires Disconnecting(g, from, to, i, h)
      ensures WellFormed(g) && |from| == |to| && h.vertices == g.vertices
    {
      hide WellFormed;
    }

    /** Removing edges one by one; a pair outside the graph or without an edge stops the
        call with the edges before it removed. Callers pass live nodes. */
    method RemoveDependencies(registry: NodeRegistry, from: seq<GraphNode>, to: seq<GraphNode>) returns (ok: bool)
      requires Adjacent() && Owns(registry) && |from| == |to|
      requires forall i | 0 <= i < |from| :: from[i] in registry.nodeSet && to[i] in registry.nodeSet
      modifies this`dag, vertices`edges, vertices`outDegree, vertices`dependencies, vertices`inDegree
      ensures Adjacent() && Owns(registry)
      ensures WellFormed(old(dag)) && Edited(dag, ok) == Disconnect(old(dag), from, to, |from|)
    {
      hide WellFormed, Disconnecting, Mirrors, Disconnect;
      ghost var g := dag;
      DagWellFormed();
      DisconnectingStarts(g, from, to);
      for i := 0 to |from|
        invariant Adjacent() && Disconnecting(g, from, to, i, dag)
      {
        ok := DisconnectPair(registry, from[i], to[i], g, from, to, i);
        if !ok {
          return;
        }
      }
      ok := true;
      DisconnectingDone(g, from, to, dag);
    }

    /** Destroying a node through the API; memory nodes are not destroyed this way. */
    method DestroyNode(registry: NodeRegistry, node: GraphNode?) returns (status: Status)
      requires Adjacent() && Owns(registry)
      requires node != null && node in registry.nodeSet ==> node.parentGraph == this
      modifies this`vertices, this`dag, registry, vertices`edges, vertices`outDegree, vertices`dependencies,
               vertices`inDegree
      ensures Adjacent() && Owns(registry)
      ensures status == if node == null || node !in old(vertices) then InvalidValue else if node.ownsMemory
              then NotSupported else Success
      ensures dag == if status == Success then Editing.RemoveVertex(old(dag), node) else old(dag)
    {
      hide WellFormed, Mirrors, RemoveVertex;
      if node == null || node !in registry.nodeSet {
        return InvalidValue;
      }
      if node.ownsMemory {
        return NotSupported;
      }
      RemoveNode(registry, node);
      status := Success;
    }

    /** Leaf nodes are the vertices of out-degree 0, in vertex order. */
    method GetLeafNodes() returns (leafs: seq<GraphNode>)
      requires Adjacent()
      ensures dag.edges.Keys == Nodes(dag) && leafs == Capturing.Leaves(dag, |dag.vertices|)
    {
      hide ListsInside, Mirrored, Distinct;
      leafs := [];
      for k := 0 to |vertices|
        invariant leafs == Capturing.Leaves(dag, k)
      {
        NodeFacts(vertices[k]);
        assert |vertices[k].edges| == 0 ==> vertices[k].edges == [];
        if vertices[k].outDegree == 0 {
          leafs := leafs + [vertices[k]];
        }
      }
    }

    method GetLeafNodeCount() returns (count: nat)
      requires Adjacent()
      ensures dag.edges.Keys == Nodes(dag) && count == |Capturing.Leaves(dag, |dag.vertices|)|
    {
      hide ListsInside, Mirrored, Distinct;
      count := 0;
      for k := 0 to |vertices|
        invariant count == |Capturing.Leaves(dag, k)|
      {
        NodeFacts(vertices[k]);
        assert |vertices[k].edges| == 0 ==> vertices[k].edges == [];
        if vertices[k].outDegree == 0 {
          count := count + 1;
        }
      }
    }

    /** The end of a capture: a temporary node after the last captured nodes shows whether
        all streams have joined, and is removed again. The graph comes out unchanged. */
    method EndCapture(registry: NodeRegistry, stream: CaptureStream)
          returns (status: Status, ghost temporary: GraphNode)
      requires Adjacent() && Owns(registry)
      modifies this`vertices, this`dag, this`capturedNodes, registry
      modifies vertices`edges, vertices`outDegree, vertices`dependencies, vertices`inDegree
      ensures Adjacent() && Owns(registry) && vertices == old(vertices) && dag == old(dag)
      ensures fresh(temporary) && registry.nodeSet == old(registry.nodeSet) && temporary !in Nodes(dag)
      ensures var last := Capturing.Somes(stream.lastCapturedNodes);
              status == if Capturing.Unjoined(dag, temporary, last, old(capturedNodes), stream.removedDependencies)
                then CaptureUnjoined else Success
      ensures var h := Editing.AddNode(dag, temporary, Capturing.Somes(stream.lastCapturedNodes)).g;
              capturedNodes == if h.edges.Keys == Nodes(h) && |Capturing.Leaves(h, |h.vertices|)| > 1 then {}
                else old(capturedNodes)
    {
      hide *;
      ghost var g := dag;
      DagWellFormed();
      var node := NewTemporary(registry);
      temporary := node;
      var added := AddNode(registry, node, stream.lastCapturedNodes, false);
      assert capturedNodes == old(capturedNodes);
      SamePointers(stream.lastCapturedNodes);
      Capturing.RemoveRestores(g, node, Capturing.Somes(stream.lastCapturedNodes));
      var count := GetLeafNodeCount();
      status := Success;
      if count > 1 {
        var leafs := GetLeafNodes();
        var left := WithoutManual(leafs);
        assert left == Capturing.Except(leafs, capturedNodes);
        var found := FindRemoved(left, stream.removedDependencies);
        Capturing.UnjoinedMeans(g, node, Capturing.Somes(stream.lastCapturedNodes), capturedNodes,
          stream.removedDependencies, leafs, left);
        RemoveNode(registry, node);
        capturedNodes := {};
        if |left| > 1 && !found {
          status := CaptureUnjoined;
        }
      } else {
        ghost var leafs := Capturing.Leaves(dag, |dag.vertices|);
        Capturing.UnjoinedMeans(g, node, Capturing.Somes(stream.lastCapturedNodes), capturedNodes,
          stream.removedDependencies, leafs, Capturing.Except(leafs, capturedNodes));
        RemoveNode(registry, node);
      }
      DagWellFormed();
    }

    method NewTemporary(registry: NodeRegistry) returns (node: GraphNode)
      requires Owns(registry)
      modifies registry
      ensures fresh(node) && node.Blank() && node.parentGraph == null && Owns(registry)
      ensures registry.nodeSet == old(registry.nodeSet) + {node} && node !in old(registry.nodeSet)
    {
      node := new GraphNode(registry, KIND_EMPTY, false, 0);
    }

    /** Setting aside the nodes added by hand, in whatever order they come. */
    method WithoutManual(leafs: seq<GraphNode>) returns (left: seq<GraphNode>)
      ensures left == Capturing.Except(leafs, capturedNodes)
    {
      left := leafs;
      var todo := capturedNodes;
      Capturing.ExceptNone(leafs);
      assert capturedNodes - todo == {};
      while todo != {}
        invariant todo <= capturedNodes && left == Capturing.Except(leafs, capturedNodes - todo)
        decreases todo
      {
        var node :| node in todo;
        Capturing.ExceptErase(leafs, capturedNodes - todo, node);
        assert capturedNodes - (todo - {node}) == (capturedNodes - todo) + {node};
        left := Erase(left, node);
        todo := todo - {node};
      }
      assert capturedNodes - {} == capturedNodes;
    }

    method FindRemoved(leafs: seq<GraphNode>, removed: seq<GraphNode>) returns (found: bool)
      ensures found <==> Capturing.Meets(leafs, removed)
    {
      found := false;
      for i := 0 to |leafs|
        invariant found <==> Capturing.Meets(leafs[..i], removed)
      {
        var here := false;
        for j := 0 to |removed|
          invariant here <==> leafs[i] in removed[..j]
        {
          if removed[j] == leafs[i] {
            here := true;
          }
        }
        assert removed[..|removed|] == removed;
        Capturing.MeetsNext(leafs, removed, i);
        found := found || here;
      }
      assert leafs[..|leafs|] == leafs;
    }

    // ---- Topological order ----

    /** The vertices of in-degree 0, and every vertex's in-degree. */
    method BeginSorting() returns (q: seq<GraphNode>, inDegree: map<GraphNode, int>)
      requires Adjacent()
      ensures WellFormed(dag) && Kahn.Begin(dag) == Kahn.Sorting(q, inDegree, [])
    {
      hide ListsInside, Mirrored, Distinct;
      q, inDegree := [], map[];
      for k := 0 to |vertices|
        invariant q == Kahn.Rootless(dag, k)
        invariant forall n | n in inDegree :: n in vertices && inDegree[n] == |dag.deps[n]|
        invariant forall j | 0 <= j < k :: vertices[j] in inDegree
      {
        NodeFacts(vertices[k]);
        assert |vertices[k].dependencies| == 0 ==> vertices[k].dependencies == [];
        if vertices[k].inDegree == 0 {
          q := q + [vertices[k]];
        }
        inDegree := inDegree[vertices[k] := vertices[k].inDegree];
      }
      assert inDegree.Keys == Nodes(dag);
    }

    /** Lowering the in-degree of each child of `node`, and queueing those that reach 0. */
    method ReleaseChildren(node: GraphNode, q: seq<GraphNode>, inDegree: map<GraphNode, int>, ghost out: seq<GraphNode>)
      returns (q': seq<GraphNode>, inDegree': map<GraphNode, int>)
      requires Adjacent() && node in Nodes(dag) && Kahn.Shaped(dag, Kahn.Sorting(q, inDegree, out))
      ensures Kahn.Sorting(q', inDegree', out)
              == Kahn.ReleaseChildren(dag, Kahn.Sorting(q, inDegree, out), node, |dag.edges[node]|)
    {
      hide WellFormed, Adjacent, Kahn.Shaped, Kahn.ReleaseChildren, Nodes;
      NodeIsListed(node);
      NodeFacts(node);
      q', inDegree' := q, inDegree;
      Kahn.ReleaseStarts(dag, Kahn.Sorting(q, inDegree, out), node);
      for k := 0 to |node.edges|
        invariant Kahn.Sorting(q', inDegree', out) == Kahn.ReleaseChildren(dag, Kahn.Sorting(q, inDegree, out), node, k)
      {
        var edge := node.edges[k];
        Kahn.ReleaseNext(dag, Kahn.Sorting(q, inDegree, out), node, k);
        inDegree' := inDegree'[edge := inDegree'[edge] - 1];
        if inDegree'[edge] == 0 {
          q' := q' + [edge];
        }
      }
    }

    lemma NodeIsListed(node: GraphNode)
      requires Adjacent() && node in Nodes(dag)
      ensures node in vertices && WellFormed(dag) && node in dag.edges && node.edges == dag.edges[node]
    {
      hide ListsInside, Mirrored, Distinct;
      DagWellFormed();
    }

    /** Appends a topological order to `initial`; the result says whether the list is then
        as long as the vertex list. */
    method TopologicalOrder(initial: seq<GraphNode>) returns (topo: seq<GraphNode>, ok: bool)
      requires Adjacent()
      ensures WellFormed(dag) && topo == initial + Kahn.TopologicalOrder(dag)
      ensures ok <==> |topo| == |vertices|
    {
      hide *;
      DagWellFormed();
      var q, inDegree := BeginSorting();
      ghost var s := Kahn.Begin(dag);
      ghost var left: nat := |vertices|;
      Kahn.BeginInvariant(dag);
      topo := initial;
      assert initial + [] == initial;
      while |q| > 0
        invariant Kahn.Shaped(dag, s) && Kahn.Invariant(dag, s) && s.ready == q && s.degree == inDegree
                  && topo == initial + s.out
        invariant left + |s.out| == |vertices|
        invariant Kahn.Sort(dag, s, left) == Kahn.Sort(dag, Kahn.Begin(dag), |vertices|)
        decreases left
      {
        var node := q[0];
        Kahn.StepParts(dag, s, left);
        assert (initial + s.out) + [node] == initial + (s.out + [node]);
        topo := topo + [node];
        q := q[1..];
        q, inDegree := ReleaseChildren(node, q, inDegree, s.out + [node]);
        s := Kahn.Step(dag, s);
        left := left - 1;
      }
      Kahn.SortEnds(dag, s, left);
      Kahn.OrderIsOutput(dag);
      ok := |vertices| == |topo|;
    }

    // ---- Cloning ----

    /** The first k vertices have copies in `copy`, in order, not yet linked. */
    ghost predicate Copied(f: map<GraphNode, GraphNode>, copy: Graph, k: nat)
      reads this`vertices, copy`vertices, copy.vertices, vertices`inDegree, vertices`outDegree, vertices`params
    {
      && Pairs(f, vertices, copy.vertices, k)
      && forall i | 0 <= i < k :: copy.vertices[i].CopyOf(vertices[i], copy)
    }

    method CopyVertex(registry: NodeRegistry, copy: Graph, f: map<GraphNode, GraphNode>, k: nat)
          returns (node: GraphNode)
      requires Adjacent() && copy != this && k < |vertices| && Copied(f, copy, k)
      requires Owns(registry) && copy.Owns(registry)
      modifies registry, copy`vertices
      ensures Owns(registry) && copy.Owns(registry)
      ensures fresh(node) && copy.vertices == old(copy.vertices) + [node]
      ensures Copied(f[vertices[k] := node], copy, k + 1)
      ensures registry.nodeSet == old(registry.nodeSet) + {node}
    {
      hide ListsInside, Mirrored, Mirrors, Pairs;
      node := new GraphNode.Copy(registry, vertices[k]);
      node.parentGraph := copy;
      PairsNext(f, vertices, copy.vertices, k, node);
      assert |copy.vertices| == k by {
        PairsLength(f, vertices, copy.vertices, k);
      }
      copy.vertices := copy.vertices + [node];
    }

    ghost predicate Apart(nodes: seq<GraphNode>)
      reads this`vertices
    {
      forall i | 0 <= i < |nodes| :: nodes[i] !in vertices
    }

    method CopyVertices(registry: NodeRegistry, copy: Graph) returns (clonedNodes: map<GraphNode, GraphNode>)
      requires Adjacent() && copy.vertices == [] && copy != this
      requires Owns(registry) && copy.Owns(registry)
      modifies registry, copy`vertices
      ensures Owns(registry) && copy.Owns(registry)
      ensures Copied(clonedNodes, copy, |vertices|) && fresh(copy.vertices) && Apart(copy.vertices)
      ensures registry.nodeSet == old(registry.nodeSet) + set n | n in copy.vertices
    {
      hide Adjacent, Owns;
      clonedNodes := map[];
      for k := 0 to |vertices|
        invariant Owns(registry) && copy.Owns(registry) && Copied(clonedNodes, copy, k) && fresh(copy.vertices)
        invariant registry.nodeSet == old(registry.nodeSet) + set n | n in copy.vertices
      {
        var node := CopyVertex(registry, copy, clonedNodes, k);
        clonedNodes := clonedNodes[vertices[k] := node];
      }
    }

    /** The images of a list of nodes. */
    method MapNodes(f: map<GraphNode, GraphNode>, nodes: seq<GraphNode>) returns (r: seq<GraphNode>)
      requires Covers(f, nodes)
      ensures r == Image(f, nodes)
    {
      r := [];
      for i := 0 to |nodes|
        invariant |r| == i && forall j | 0 <= j < i :: r[j] == f[nodes[j]]
      {
        assert nodes[i] in nodes;
        r := r + [f[nodes[i]]];
      }
    }

    /** `f` pairs each vertex with its copy. */
    ghost predicate Paired(f: map<GraphNode, GraphNode>, copies: seq<GraphNode>)
      reads this`vertices, this`dag
    {
      && |copies| == |vertices| && dag.vertices == vertices && dag.edges.Keys == Nodes(dag)
      && dag.deps.Keys == Nodes(dag)
      && Injective(f) && f.Keys == Nodes(dag)
      && (forall k | 0 <= k < |vertices| :: f[vertices[k]] == copies[k])
      && (forall n | n in vertices :: Covers(f, dag.edges[n]) && Covers(f, dag.deps[n]))
    }

    /** The first i copies have the images of their originals' children, the others none. */
    ghost predicate ChildrenLinked(f: map<GraphNode, GraphNode>, copies: seq<GraphNode>, i: nat)
      requires Paired(f, copies)
      reads this`vertices, this`dag, copies`edges
    {
      forall k | 0 <= k < |copies| :: copies[k].edges == if k < i then Image(f, dag.edges[vertices[k]]) else []
    }

    ghost predicate ParentsLinked(f: map<GraphNode, GraphNode>, copies: seq<GraphNode>, j: nat)
      requires Paired(f, copies)
      reads this`vertices, this`dag, copies`dependencies
    {
      forall k | 0 <= k < |copies| :: copies[k].dependencies == if k < j then Image(f, dag.deps[vertices[k]]) else []
    }

    ghost predicate DegreesCopied(f: map<GraphNode, GraphNode>, copies: seq<GraphNode>)
      requires Paired(f, copies)
      reads this`vertices, this`dag, copies`inDegree, copies`outDegree
    {
      forall k | 0 <= k < |copies| ::
          copies[k].outDegree == |dag.edges[vertices[k]]| && copies[k].inDegree == |dag.deps[vertices[k]]|
    }

    lemma CopiedLinked(f: map<GraphNode, GraphNode>, copy: Graph)
      requires Adjacent() && Copied(f, copy, |vertices|)
      ensures Paired(f, copy.vertices) && DegreesCopied(f, copy.vertices)
      ensures ChildrenLinked(f, copy.vertices, 0) && ParentsLinked(f, copy.vertices, 0)
    {
      hide Mirrored, Distinct;
      assert vertices[..|vertices|] == vertices;
      forall n | n in vertices ensures Covers(f, dag.edges[n]) && Covers(f, dag.deps[n]) {
        Neighbours(dag, n);
      }
    }

    /** The i-th copy differs from the others. */
    lemma CopyDiffers(f: map<GraphNode, GraphNode>, copies: seq<GraphNode>, i: nat)
      requires WellFormed(dag) && Paired(f, copies) && i < |copies|
      ensures f[vertices[i]] == copies[i] && forall k | 0 <= k < |copies| && k != i :: copies[k] != copies[i]
      ensures Covers(f, dag.edges[vertices[i]]) && Covers(f, dag.deps[vertices[i]])
    {
      hide ListsInside, Mirrored, Covers;
      forall k | 0 <= k < |copies| && k != i ensures copies[k] != copies[i] {
        assert vertices[k] != vertices[i];
      }
    }

    method LinkChildren(f: map<GraphNode, GraphNode>, copies: seq<GraphNode>, i: nat)
      requires Adjacent() && Paired(f, copies) && ChildrenLinked(f, copies, i) && i < |vertices|
      modifies copies`edges
      ensures Paired(f, copies) && ChildrenLinked(f, copies, i + 1)
    {
      hide WellFormed, Covers, Injective;
      CopyDiffers(f, copies, i);
      NodeFacts(vertices[i]);
      var clonedEdges := MapNodes(f, vertices[i].edges);
      f[vertices[i]].SetEdges(clonedEdges);
    }

    method LinkParents(f: map<GraphNode, GraphNode>, copies: seq<GraphNode>, j: nat)
      requires Adjacent() && Paired(f, copies) && ParentsLinked(f, copies, j) && j < |vertices|
      modifies copies`dependencies
      ensures Paired(f, copies) && ParentsLinked(f, copies, j + 1)
    {
      hide WellFormed, Covers, Injective;
      CopyDiffers(f, copies, j);
      NodeFacts(vertices[j]);
      var clonedDependencies := MapNodes(f, vertices[j].dependencies);
      f[vertices[j]].SetDependencies(clonedDependencies);
    }

    method LinkAllChildren(f: map<GraphNode, GraphNode>, copies: seq<GraphNode>)
      requires Adjacent() && Paired(f, copies) && ChildrenLinked(f, copies, 0) && Apart(copies)
      modifies copies`edges
      ensures Paired(f, copies) && ChildrenLinked(f, copies, |vertices|)
    {
      hide ListsOf, WellFormed, Paired, ChildrenLinked, Listed;
      for i := 0 to |vertices|
        invariant Adjacent() && Apart(copies) && Paired(f, copies) && ChildrenLinked(f, copies, i)
      {
        LinkChildren(f, copies, i);
      }
    }

    method LinkAllParents(f: map<GraphNode, GraphNode>, copies: seq<GraphNode>)
      requires Adjacent() && Paired(f, copies) && ParentsLinked(f, copies, 0) && Apart(copies)
      modifies copies`dependencies
      ensures Paired(f, copies) && ParentsLinked(f, copies, |vertices|)
    {
      hide ListsOf, WellFormed, Paired, ParentsLinked, Listed;
      for j := 0 to |vertices|
        invariant Adjacent() && Apart(copies) && Paired(f, copies) && ParentsLinked(f, copies, j)
      {
        LinkParents(f, copies, j);
      }
    }

    method LinkCopies(f: map<GraphNode, GraphNode>, copy: Graph)
      requires Adjacent() && Copied(f, copy, |vertices|) && copy != this && Apart(copy.vertices)
      modifies copy`dag, copy.vertices`edges, copy.vertices`dependencies
      ensures Renamed(f, dag, copy.dag) && copy.Adjacent() && Nodes(copy.dag) == set n | n in copy.vertices
    {
      hide ListsOf, WellFormed, Paired, ParentsLinked, ChildrenLinked, Listed, DegreesCopied, Copied;
      CopiedLinked(f, copy);
      LinkAllChildren(f, copy.vertices);
      LinkAllParents(f, copy.vertices);
      copy.dag := ListsOf(copy.vertices);
      DagWellFormed();
      CloneRenamed(f, copy);
      CloneListed(f, copy);
      VerticesAreNodes(copy.dag);
    }

    /** The clone: a new graph over new nodes that repeats vertices, edges and
        dependencies in order. */
    method Clone(registry: NodeRegistry) returns (newGraph: Graph, clonedNodes: map<GraphNode, GraphNode>)
      requires Adjacent() && Owns(registry)
      modifies registry
      ensures Owns(registry) && fresh(newGraph) && fresh(newGraph.vertices)
      ensures newGraph.Adjacent() && newGraph.Owns(registry)
      ensures Renamed(clonedNodes, dag, newGraph.dag)
      ensures registry.nodeSet == old(registry.nodeSet) + Nodes(newGraph.dag)
      ensures newGraph.queues == queues && newGraph.roots == roots && newGraph.TablesFit() && newGraph.Rested()
      ensures forall n | n in clonedNodes :: SameWork(n, clonedNodes[n])
    {
      hide *;
      newGraph := NewGraph(registry);
      clonedNodes := CopyVertices(registry, newGraph);
      CopiedAlike(clonedNodes, newGraph);
      LinkCopies(clonedNodes, newGraph);
      newGraph.NoLeafsFit();
    }

    lemma CopiedAlike(f: map<GraphNode, GraphNode>, copy: Graph)
      requires Copied(f, copy, |vertices|)
      ensures copy.Rested() && forall n | n in f :: SameWork(n, f[n])
    {
      forall n | n in f ensures SameWork(n, f[n]) {
        assert n in vertices[..|vertices|];
        var i :| 0 <= i < |vertices| && vertices[i] == n;
        assert copy.vertices[i].CopyOf(vertices[i], copy);
      }
    }

    /** No node counts as launched. */
    ghost predicate Rested()
      reads this`vertices, vertices`launchId
    {
      forall n | n in vertices :: n.launchId == -1
    }

    ghost predicate NoLeafs()
      reads this`leafs, this`waitOrder, this`currentId
    {
      |leafs| == |waitOrder| == queues && currentId == 0 && forall i | 0 <= i < |leafs| :: leafs[i] == None
    }

    lemma NoLeafsFit()
      requires NoLeafs()
      ensures TablesFit()
    {
    }

    /** The launch tables have one slot per virtual stream. */
    ghost predicate TablesFit()
      reads this`vertices, this`leafs, this`waitOrder, this`currentId
    {
      |leafs| == |waitOrder| == queues && currentId >= 0 && forall i | 0 <= i < |leafs| && leafs[i].Some? ::
        leafs[i].value in vertices
    }

    method NewGraph(registry: NodeRegistry) returns (newGraph: Graph)
      ensures fresh(newGraph) && newGraph.vertices == [] && newGraph.Owns(registry)
      ensures newGraph.queues == queues && newGraph.maxStreams == 0 && newGraph.capturedNodes == {}
      ensures newGraph.roots == roots && newGraph.NoLeafs()
    {
      newGraph := new Graph(queues);
      newGraph.roots := roots; // the original's nodes, until the new graph is scheduled
    }

    lemma CloneRenamed(f: map<GraphNode, GraphNode>, copy: Graph)
      requires WellFormed(dag) && Paired(f, copy.vertices) && copy.dag == ListsOf(copy.vertices)
      requires ChildrenLinked(f, copy.vertices, |vertices|) && ParentsLinked(f, copy.vertices, |vertices|)
      ensures Renamed(f, dag, copy.dag) && WellFormed(copy.dag)
    {
      hide WellFormed, Covers, Injective, Image;
      PairsCover(f, copy.vertices);
      forall n | n in Nodes(dag)
        ensures f[n] in copy.vertices && copy.dag.edges[f[n]] == Image(f, dag.edges[n])
                && copy.dag.deps[f[n]] == Image(f, dag.deps[n])
      {
        var k :| 0 <= k < |vertices| && vertices[k] == n;
      }
      RenamedWellFormed(f, dag, copy.dag);
    }

    lemma CloneListed(f: map<GraphNode, GraphNode>, copy: Graph)
      requires Paired(f, copy.vertices) && DegreesCopied(f, copy.vertices) && copy.dag == ListsOf(copy.vertices)
               && WellFormed(copy.dag)
      requires ChildrenLinked(f, copy.vertices, |vertices|) && ParentsLinked(f, copy.vertices, |vertices|)
      ensures copy.Adjacent() && copy.dag.vertices == copy.vertices
    {
      hide WellFormed, Covers, Injective;
    }

    lemma VerticesAreNodes(g: Dag<GraphNode>)
      ensures Nodes(g) == set n | n in g.vertices
    {
    }

    lemma PairsCover(f: map<GraphNode, GraphNode>, copies: seq<GraphNode>)
      requires Paired(f, copies)
      ensures Covers(f, vertices) && copies == Image(f, vertices)
    {
      hide Injective;
    }

    // ---- Scheduling ----

    /** The fields hold the schedule `s`. */
    ghost predicate Scheduled(s: Scheduling.Schedule<GraphNode>)
      reads this`vertices, this`maxStreams, this`roots, vertices`streamId, vertices`signalIsRequired
    {
      && maxStreams == s.maxStreams && roots == s.roots
      && forall n | n in vertices ::
         n in s.stream && n.streamId == s.stream[n] && (n.signalIsRequired <==> n in s.signals)
    }

    ghost predicate Assigning(s: Scheduling.Schedule<GraphNode>)
      reads this`vertices, this`dag, vertices`edges, vertices`dependencies, vertices`inDegree, vertices`outDegree
      reads this`maxStreams, this`roots, vertices`streamId, vertices`signalIsRequired
    {
      Adjacent() && Scheduling.Sized(dag, queues, s) && Scheduled(s)
    }

    lemma AssigningFacts(node: GraphNode, s: Scheduling.Schedule<GraphNode>)
      requires Assigning(s) && node in vertices
      ensures WellFormed(dag) && Scheduling.Sized(dag, queues, s) && node in Nodes(dag) && Adjacent()
      ensures node.edges == dag.edges[node] && node.dependencies == dag.deps[node] && node.streamId == s.stream[node]
      ensures node in dag.edges && node in dag.deps && dag.vertices == vertices && |roots| == queues && roots == s.roots
    {
      hide ListsInside, Mirrored, Distinct;
    }

    /** Asking every dependency on another stream than `node`, or on none yet, for a signal. */
    method RequireSignals(node: GraphNode)
      requires Adjacent() && node in vertices
      modifies vertices`signalIsRequired
      ensures forall n | n in vertices ::
                n.signalIsRequired
                <==> old(n.signalIsRequired) || (n in node.dependencies && n.streamId != node.streamId)
    {
      hide WellFormed;
      NodeFacts(node);
      for i := 0 to |node.dependencies|
        invariant forall n | n in vertices ::
                    n.signalIsRequired
                    <==> old(n.signalIsRequired) || (n in node.dependencies[..i] && n.streamId != node.streamId)
      {
        ParentOf(dag, node, i);
        var dep := node.dependencies[i];
        assert node.dependencies[..i + 1] == node.dependencies[..i] + [dep];
        if dep.streamId != node.streamId {
          dep.signalIsRequired := true;
        }
      }
      assert node.dependencies[..|node.dependencies|] == node.dependencies;
    }

    /** Putting `node` on stream `id`. */
    method AssignStream(node: GraphNode, id: nat, ghost s: Scheduling.Schedule<GraphNode>)
      requires Assigning(s) && node in vertices && id < queues && node.streamId == -1
      modifies this`maxStreams, node`streamId, vertices`signalIsRequired
      ensures node in dag.deps && Assigning(Scheduling.Assign(dag, s, node, id))
    {
      hide WellFormed, Listed, Adjacent, Scheduling.Sized, Nodes;
      AssigningFacts(node, s);
      Scheduling.OneUnfolds(dag, queues, s, node, id);
      node.streamId := id;
      maxStreams := if maxStreams < id + 1 then id + 1 else maxStreams;
      RequireSignals(node);
    }

    /** Scheduling `node` on stream `streamId` and, unless it was scheduled before, its
        children on that and the following streams. */
    method ScheduleOneNode(node: GraphNode, streamId: nat, ghost s: Scheduling.Schedule<GraphNode>)
      requires Assigning(s) && node in vertices && streamId < queues
      modifies this`maxStreams, vertices`streamId, vertices`signalIsRequired
      ensures WellFormed(dag) && Scheduling.Sized(dag, queues, s) && node in Nodes(dag)
      ensures Assigning(Scheduling.ScheduleOne(dag, queues, s, node, streamId))
      decreases Scheduling.Unassigned(s), 0
    {
      hide *;
      AssigningFacts(node, s);
      Scheduling.OneUnfolds(dag, queues, s, node, streamId);
      if node.streamId == -1 {
        AssignStream(node, streamId, s);
        ScheduleChildren(node, streamId, Scheduling.Assign(dag, s, node, streamId));
      }
    }

    method ScheduleChildren(node: GraphNode, streamId: nat, ghost s: Scheduling.Schedule<GraphNode>)
      requires Assigning(s) && node in vertices && streamId < queues
      modifies this`maxStreams, vertices`streamId, vertices`signalIsRequired
      ensures WellFormed(dag) && Scheduling.Sized(dag, queues, s) && node in Nodes(dag)
      ensures Assigning(Scheduling.ScheduleEdges(dag, queues, s, node, 0, streamId))
      decreases Scheduling.Unassigned(s), 1
    {
      hide *;
      AssigningFacts(node, s);
      ghost var r := s;
      var next: nat := streamId;
      Scheduling.EdgeStarts(dag, queues, s, node, streamId);
      for i := 0 to |node.edges|
        invariant Assigning(r) && Scheduling.AtEdge(dag, queues, s, node, streamId, i, r, next)
      {
        Scheduling.EdgeNext(dag, queues, s, node, streamId, i, r, next);
        AssigningFacts(node, r);
        NodeIsVertex(node.edges[i]);
        ScheduleOneNode(node.edges[i], next, r);
        r := Scheduling.ScheduleOne(dag, queues, r, node.edges[i], next);
        next := Scheduling.NextStream(next, queues);
      }
      Scheduling.EdgeEnds(dag, queues, s, node, streamId, r, next);
    }

    /** Clearing what an earlier schedule left. */
    method ResetSchedule()
      requires Adjacent() && queues >= 1 && |roots| == queues
      modifies this`maxStreams, this`roots, vertices`streamId, vertices`signalIsRequired
      ensures Assigning(Scheduling.Unscheduled(dag, queues))
    {
      hide WellFormed;
      for k := 0 to |vertices|
        invariant forall j | 0 <= j < k :: vertices[j].streamId == -1 && !vertices[j].signalIsRequired
      {
        vertices[k].streamId := -1;
        vertices[k].signalIsRequired := false;
      }
      roots := seq(queues, _ => None);
      maxStreams := 0;
      DagVertices();
    }

    /** Only the first root of a virtual stream other than 0 is remembered. */
    method NoteRoot(node: GraphNode, ghost s: Scheduling.Schedule<GraphNode>)
      requires Assigning(s) && node in vertices && node.streamId >= 0
      modifies this`roots
      ensures WellFormed(dag) && Scheduling.Sized(dag, queues, s) && node in Nodes(dag)
      ensures Assigning(Scheduling.NoteRoot(dag, queues, s, node))
    {
      hide ListsInside, Mirrored, Distinct;
      AssigningFacts(node, s);
      if |node.dependencies| == 0 && node.streamId != 0 {
        if roots[node.streamId] == None {
          roots := roots[node.streamId := Some(node)];
        }
      }
    }

    lemma DropAssigning(s: Scheduling.Schedule<GraphNode>)
      requires Assigning(s)
      ensures Scheduled(s)
    {
    }

    /** Spreads all vertices over the virtual streams, whatever the graph's shape. */
    method ScheduleNodes()
      requires Adjacent() && queues >= 1 && |roots| == queues
      modifies this`maxStreams, this`roots, vertices`streamId, vertices`signalIsRequired
      ensures WellFormed(dag) && Scheduled(Scheduling.ScheduleAll(dag, queues))
    {
      hide *;
      DagWellFormed();
      ResetSchedule();
      ghost var r := Scheduling.Unscheduled(dag, queues);
      Scheduling.VertexStarts(dag, queues);
      var streamId: nat := 0;
      for k := 0 to |vertices|
        invariant Assigning(r) && Scheduling.AtVertex(dag, queues, k, r, streamId)
      {
        var node := vertices[k];
        AssigningFacts(node, r);
        Scheduling.VertexNext(dag, queues, k, r, streamId);
        if node.streamId == -1 {
          ScheduleOneNode(node, streamId, r);
          r := Scheduling.ScheduleOne(dag, queues, r, node, streamId);
          AssigningFacts(node, r);
          NoteRoot(node, r);
          r := Scheduling.NoteRoot(dag, queues, r, node);
          streamId := Scheduling.NextStream(streamId, queues);
        }
      }
      Scheduling.VertexEnds(dag, queues, r, streamId);
      DropAssigning(r);
    }

    // ---- Streams for a launch ----

    /** The streams of a launch: the launch stream and then, in order, as many parallel
        streams on other hardware queues as there are slots left. */
    ghost predicate Serve(launchStream: HipStream, parallelStreams: seq<HipStream>)
      reads this`streams
    {
      && |parallelStreams| >= 1 && |streams| == |parallelStreams| && streams[0] == launchStream
      && streams[1..] <= Usable(launchStream, parallelStreams, |parallelStreams|)
    }

    /** Whether there is a stream for every slot, the launch stream's included. */
    ghost predicate Suffice(launchStream: HipStream, parallelStreams: seq<HipStream>) {
      |parallelStreams| >= 1 && |Usable(launchStream, parallelStreams, |parallelStreams|)| >= |parallelStreams| - 1
    }

    /** The launch stream first, then parallel streams that do not share its hardware
        queue. With two or more that do, the list runs out before every slot is filled;
        with no stream at all, there is no slot even for the first. */
    method UpdateStreams(launchStream: HipStream, parallelStreams: seq<HipStream>) returns (ok: bool)
      modifies this`streams
      ensures ok <==> Suffice(launchStream, parallelStreams)
      ensures ok ==> Serve(launchStream, parallelStreams)
    {
      var n := |parallelStreams|;
      if n == 0 {
        return false;
      }
      streams := [launchStream];
      var j := 0;
      while |streams| < n
        invariant j <= n && streams == [launchStream] + Usable(launchStream, parallelStreams, j) && |streams| <= n
        decreases n - j
      {
        if j == n {
          return false;
        }
        if launchStream.queueId != parallelStreams[j].queueId {
          streams := streams + [parallelStreams[j]];
        }
        j := j + 1;
      }
      UsableGrows(launchStream, parallelStreams, j, n);
      ok := true;
    }

    // ---- Launching ----

    /** The fields hold the plan `p`. */
    ghost predicate Configured(p: Plan<GraphNode>)
      reads this`vertices, this`dag, this`streams, vertices`streamId, vertices`commandFails
    {
      && Planned(p) && p.g == dag && p.limit == queues && p.queues == Handles(streams)
      && forall n | n in vertices :: n in p.stream && n.streamId == p.stream[n] && (n.commandFails <==> n in p.failing)
    }

    /** The fields hold the launch state `s`. */
    ghost predicate Holds(s: Launch<GraphNode>)
      reads this`vertices, this`currentId, this`leafs, vertices`launchId, vertices`command
    {
      && currentId == s.next && leafs == s.leafs
      && (forall i | 0 <= i < |leafs| && leafs[i].Some? :: leafs[i].value in vertices)
      && forall n | n in vertices ::
         n in s.ids && n.launchId == s.ids[n] && n in s.commands && n.command == s.commands[n]
    }

    ghost predicate Running(p: Plan<GraphNode>, s: Launch<GraphNode>, device: Device)
      reads this`vertices, this`dag, vertices`edges, vertices`dependencies, vertices`inDegree, vertices`outDegree
      reads this`streams, vertices`streamId, vertices`commandFails
      reads this`currentId, this`leafs, this`waitOrder, vertices`launchId, vertices`command, device`log
    {
      Adjacent() && Configured(p) && Fits(p, s) && Holds(s) && device.log == s.log && |waitOrder| == queues
    }

    lemma RunningFacts(p: Plan<GraphNode>, s: Launch<GraphNode>, device: Device, node: GraphNode)
      requires Running(p, s, device) && node in vertices
      ensures Adjacent() && WellFormed(dag) && At(p, s, node) && p.g == dag && p.limit == queues
              && dag.vertices == vertices && |waitOrder| == queues
      ensures node in dag.edges && node.edges == dag.edges[node] && node in dag.deps
              && node.dependencies == dag.deps[node]
      ensures node in p.stream && node.streamId == p.stream[node] && node.launchId == s.ids[node]
              && node.command == s.commands[node]
      ensures 0 <= node.streamId < queues && node.streamId < |p.queues| && |leafs| == queues
      ensures (node.commandFails <==> node in p.failing) && p.queues == Handles(streams)
    {
      hide ListsInside, Mirrored, Distinct;
    }

    /** The latest launch on each foreign stream among the dependencies of `node`, unless
        one of them is not launched yet. */
    method FindLatest(node: GraphNode, ghost p: Plan<GraphNode>, ghost s: Launch<GraphNode>, ghost device: Device)
          returns (ready: bool)
      requires Running(p, s, device) && node in vertices
      modifies this`waitOrder
      ensures Running(p, s, device) && At(p, s, node)
      ensures ready <==> Ready(p, s, node)
      ensures ready ==> waitOrder == Latest(p, s, node, |p.g.deps[node]|)
    {
      hide WellFormed, Planned, Adjacent, Latest;
      RunningFacts(p, s, device, node);
      LatestStarts(p, s, node);
      waitOrder := seq(|waitOrder|, _ => None);
      for i := 0 to |node.dependencies|
        invariant waitOrder == Latest(p, s, node, i)
        invariant forall j | 0 <= j < i :: node.dependencies[j] in s.ids && s.ids[node.dependencies[j]] != -1
      {
        var depNode := node.dependencies[i];
        ParentOf(dag, node, i);
        RunningFacts(p, s, device, depNode);
        LatestNext(p, s, node, i);
        if depNode.launchId == -1 {
          return false;
        }
        if depNode.streamId != node.streamId {
          if waitOrder[depNode.streamId] == None || waitOrder[depNode.streamId].value.launchId < depNode.launchId {
            waitOrder := waitOrder[depNode.streamId := Some(depNode)];
          }
        }
      }
      ready := true;
    }

    /** The commands of the nodes in `waitOrder`. */
    method CollectWaits(ghost p: Plan<GraphNode>, ghost s: Launch<GraphNode>, ghost device: Device)
          returns (waitList: seq<nat>)
      requires Running(p, s, device) && forall i | 0 <= i < |waitOrder| && waitOrder[i].Some? ::
               waitOrder[i].value in vertices
      ensures Inside(s, waitOrder) && waitList == WaitList(s, waitOrder, |waitOrder|)
    {
      hide WellFormed, Planned;
      waitList := [];
      for k := 0 to |waitOrder|
        invariant waitList == WaitList(s, waitOrder, k)
      {
        if waitOrder[k] != None {
          waitList := waitList + [waitOrder[k].value.command];
        }
      }
    }

    /** Creating and enqueueing the command of `node`. */
    method SubmitNode(device: Device, node: GraphNode, wait: bool, waitList: seq<nat>, ghost p: Plan<GraphNode>,
          ghost s: Launch<GraphNode>)
      requires Running(p, s, device) && node in vertices && At(p, s, node)
      requires waitList == WaitList(s, Latest(p, s, node, |p.g.deps[node]|), p.limit)
      modifies device, this`currentId, node`launchId, node`command
      ensures Running(p, Submit(p, s, node, wait), device)
    {
      hide WellFormed, Planned, Adjacent, Configured, Latest, WaitList, Handles;
      RunningFacts(p, s, device, node);
      var stream := streams[node.streamId];
      node.command := |device.log|;
      device.log := device.log + [Command(stream.handle, Run(node), if wait && |waitList| != 0 then waitList else [])];
      node.launchId := currentId;
      currentId := currentId + 1;
    }

    method NoteLeaf(node: GraphNode, ghost p: Plan<GraphNode>, ghost s: Launch<GraphNode>, ghost device: Device)
      requires Running(p, s, device) && node in vertices
      modifies this`leafs
      ensures At(p, s, node) && Running(p, Launching.NoteLeaf(p, s, node), device)
    {
      hide WellFormed, Planned, Adjacent;
      RunningFacts(p, s, device, node);
      leafs := leafs[node.streamId := Some(node)];
    }

    /** Launching `node` once its dependencies are launched, and then its children. A
        node launched before, or not ready yet, is left alone. */
    method RunOneNode(device: Device, node: GraphNode, wait: bool, ghost p: Plan<GraphNode>, ghost s: Launch<GraphNode>)
          returns (ok: bool)
      requires Running(p, s, device) && node in vertices
      modifies device, this`waitOrder, this`leafs, this`currentId, vertices`launchId, vertices`command
      ensures At(p, s, node) && ok == RunOne(p, s, node, wait).ok && Running(p, RunOne(p, s, node, wait).state, device)
      decreases Unlaunched(s), 0
    {
      hide *;
      RunningFacts(p, s, device, node);
      OneUnfolds(p, s, node, wait);
      if node.launchId != -1 {
        return true;
      }
      var ready := FindLatest(node, p, s, device);
      if !ready {
        return true;
      }
      WaitsInside(p, s, node);
      var waitList := CollectWaits(p, s, device);
      if node.commandFails {
        return false;
      }
      SubmitNode(device, node, wait, waitList, p, s);
      ghost var t := Submit(p, s, node, wait);
      if |node.edges| == 0 {
        NoteLeaf(node, p, t, device);
        ok := true;
      } else {
        ok := RunChildren(device, node, p, t);
      }
    }

    method RunChildren(device: Device, node: GraphNode, ghost p: Plan<GraphNode>, ghost s: Launch<GraphNode>)
          returns (ok: bool)
      requires Running(p, s, device) && node in vertices
      modifies device, this`waitOrder, this`leafs, this`currentId, vertices`launchId, vertices`command
      ensures At(p, s, node) && ok == RunEdges(p, s, node, 0).ok && Running(p, RunEdges(p, s, node, 0).state, device)
      decreases Unlaunched(s), 1
    {
      hide *;
      RunningFacts(p, s, device, node);
      ghost var r := s;
      EdgeStarts(p, s, node);
      for i := 0 to |node.edges|
        invariant Running(p, r, device) && AtEdge(p, s, node, i, r)
      {
        RunningFacts(p, r, device, node);
        EdgeNext(p, s, node, i, r);
        var edge := node.edges[i];
        AtVertices(p, r, device, edge);
        RunningFacts(p, r, device, edge);
        var wait := i < queues || |edge.dependencies| > 1;
        ok := RunOneNode(device, edge, wait, p, r);
        if !ok {
          return;
        }
        r := RunOne(p, r, edge, wait).state;
      }
      EdgeEnds(p, s, node, r);
      ok := true;
    }

    lemma AtVertices(p: Plan<GraphNode>, s: Launch<GraphNode>, device: Device, n: GraphNode)
      requires Running(p, s, device) && At(p, s, n)
      ensures n in vertices
    {
      hide WellFormed;
    }

    lemma WaitsInside(p: Plan<GraphNode>, s: Launch<GraphNode>, node: GraphNode)
      requires Adjacent() && At(p, s, node) && p.g == dag
      ensures forall i | 0 <= i < p.limit && Latest(p, s, node, |p.g.deps[node]|)[i].Some? ::
                Latest(p, s, node, |p.g.deps[node]|)[i].value in vertices
    {
    }

    /** Every extra stream that has a root has a runtime stream. */
    ghost predicate RootsServed()
      reads this`roots, this`streams
    {
      |streams| > 0 && |roots| == queues && forall i | 0 < i < |roots| && roots[i].Some? :: i < |streams|
    }

    lemma HasStream()
      requires RootsServed()
      ensures |streams| > 0
    {
    }

    /** Resetting the counters, and holding back each extra stream that has a root until
        the launch stream's last command is done. */
    method StartRun(device: Device, last: Option<nat>, ghost p: Plan<GraphNode>, ghost s: Launch<GraphNode>)
      requires Running(p, s, device) && RootsServed()
      modifies device, this`leafs, this`currentId
      ensures Planned(p) && Fits(p, s) && |roots| == p.limit
              && (forall i | 0 < i < |roots| && roots[i].Some? :: i < |p.queues|)
      ensures Running(p, Started(p, roots, last, s), device)
    {
      hide WellFormed, Planned, Adjacent;
      currentId := 0;
      leafs := seq(|leafs|, _ => None);
      if last.Some? {
        for i := 0 to queues
          modifies device
          invariant device.log == s.log + StartMarkers(p, roots, last.value, i)
        {
          if i != 0 && roots[i] != None {
            device.log := device.log + [Command(streams[i].handle, Marker, [last.value])];
          }
        }
      }
    }

    lemma PlanFacts(p: Plan<GraphNode>)
      requires Configured(p)
      ensures Planned(p) && p.g == dag && p.limit == queues && p.queues == Handles(streams)
    {
    }

    /** One marker on the launch stream for the latest leaves of the other streams. */
    method JoinLeafs(device: Device, ghost p: Plan<GraphNode>, ghost s: Launch<GraphNode>)
      requires Running(p, s, device) && |streams| > 0
      modifies device
      ensures Planned(p) && Fits(p, s) && |p.queues| > 0 && p.g == dag && device.log == Joined(p, s).log
    {
      hide WellFormed, Planned, Adjacent, Configured;
      PlanFacts(p);
      var waitList := [];
      for i := 0 to queues
        modifies {}
        invariant waitList == LeafWaits(p, s, i)
      {
        if i != 0 && leafs[i] != None {
          waitList := waitList + [leafs[i].value.command];
        }
      }
      if |waitList| > 0 {
        device.log := device.log + [Command(streams[0].handle, Marker, waitList)];
      }
    }

    method ResetLaunchIds()
      modifies vertices`launchId
      ensures Rested()
    {
      for k := 0 to |vertices|
        invariant forall j | 0 <= j < k :: vertices[j].launchId == -1
      {
        vertices[k].launchId := -1;
      }
    }

    /** The end of a launch: the end marker, and every launch id reset. */
    method EndRun(device: Device, ghost p: Plan<GraphNode>, ghost s: Launch<GraphNode>)
      requires Running(p, s, device) && |streams| > 0
      modifies device, vertices`launchId
      ensures Planned(p) && Fits(p, s) && |p.queues| > 0 && Running(p, Joined(p, s), device)
    {
      hide WellFormed, Planned, Adjacent, Configured, LeafWaits;
      PlanFacts(p);
      JoinLeafs(device, p, s);
      ResetLaunchIds();
      IdsReset(p, s);
    }

    lemma IdsReset(p: Plan<GraphNode>, s: Launch<GraphNode>)
      requires Adjacent() && Planned(p) && Fits(p, s) && |p.queues| > 0 && p.g == dag
      ensures var t := Joined(p, s);
              && Fits(p, t) && t.next == s.next && t.leafs == s.leafs && t.commands == s.commands
              && forall n | n in vertices :: n in t.ids && t.ids[n] == -1
    {
      hide WellFormed, Planned, LeafWaits;
      DagVertices();
    }

    /** Launching the whole graph. It stops where a command cannot be created. */
    method RunNodes(device: Device, last: Option<nat>, ghost p: Plan<GraphNode>, ghost s: Launch<GraphNode>)
          returns (ok: bool)
      requires Running(p, s, device) && RootsServed()
      modifies device, this`waitOrder, this`leafs, this`currentId, vertices`launchId, vertices`command
      ensures Planned(p) && Fits(p, s) && |roots| == p.limit
              && (forall i | 0 < i < |roots| && roots[i].Some? :: i < |p.queues|) && |p.queues| > 0
      ensures ok == RunAll(p, roots, last, s).ok && Running(p, RunAll(p, roots, last, s).state, device)
    {
      hide *;
      StartRun(device, last, p, s);
      ghost var t := Started(p, roots, last, s);
      ok := RunVertices(device, p, t);
      ghost var r := RunFrom(p, t, 0).state;
      RunningPlan(p, r, device);
      HasStream();
      if ok {
        EndRun(device, p, r);
      }
      RunAllParts(p, roots, last, s);
    }

    method RunVertices(device: Device, ghost p: Plan<GraphNode>, ghost s: Launch<GraphNode>) returns (ok: bool)
      requires Running(p, s, device)
      modifies device, this`waitOrder, this`leafs, this`currentId, vertices`launchId, vertices`command
      ensures Planned(p) && Fits(p, s) && ok == RunFrom(p, s, 0).ok && Running(p, RunFrom(p, s, 0).state, device)
    {
      hide *;
      RunningPlan(p, s, device);
      ghost var r := s;
      VertexStarts(p, s);
      for k := 0 to |vertices|
        invariant Running(p, r, device) && AtVertex(p, s, k, r)
      {
        RunningPlan(p, r, device);
        VertexNext(p, s, k, r);
        RunningFacts(p, r, device, vertices[k]);
        if vertices[k].launchId == -1 {
          ok := RunOneNode(device, vertices[k], true, p, r);
          if !ok {
            return;
          }
          r := RunOne(p, r, vertices[k], true).state;
        }
      }
      RunningPlan(p, r, device);
      VertexEnds(p, s, r);
      ok := true;
    }

    lemma RunningPlan(p: Plan<GraphNode>, s: Launch<GraphNode>, device: Device)
      requires Running(p, s, device)
      ensures Planned(p) && Fits(p, s) && p.g == dag && dag.vertices == vertices && |p.queues| == |streams|
    {
      hide WellFormed;
    }

    // ---- What the fields say between launches ----

    ghost function PlanNow(): Plan<GraphNode>
      reads this`vertices, this`dag, this`streams, vertices`streamId, vertices`commandFails
    {
      Plan(dag, map n | n in vertices :: n.streamId, Handles(streams), queues, set n | n in vertices && n.commandFails)
    }

    ghost function LaunchNow(device: Device): Launch<GraphNode>
      reads this`vertices, this`currentId, this`leafs, vertices`launchId, vertices`command, device`log
    {
      Launch(map n | n in vertices :: n.launchId, map n | n in vertices :: n.command, currentId, device.log, leafs)
    }

    lemma PlanReady()
      requires Adjacent() && queues >= 1 && Scheduled(Scheduling.ScheduleAll(dag, queues)) && |streams| == maxStreams
      ensures var p := PlanNow();
              Configured(p) && p.stream == Scheduling.ScheduleAll(dag, queues).stream && p.g == dag && p.limit == queues
    {
      hide ListsInside, Mirrored, Distinct, Scheduling.ScheduleAll;
      Scheduling.StreamTables(dag, queues);
      var r := Scheduling.ScheduleAll(dag, queues);
      assert PlanNow().stream == r.stream;
    }

    lemma LaunchReady(device: Device)
      requires Adjacent() && TablesFit()
      ensures var s := LaunchNow(device);
              && s.ids.Keys == s.commands.Keys == Nodes(dag) && |s.leafs| == queues && 0 <= s.next && Holds(s)
              && device.log == s.log
              && (Rested() <==> forall n | n in s.ids :: s.ids[n] == -1)
    {
      hide WellFormed;
    }

    lemma FailingNow(device: Device)
      requires Adjacent()
      ensures PendingCreatable() <==> RestCreated(PlanNow(), LaunchNow(device))
    {
      hide WellFormed, Adjacent;
      var p, s := PlanNow(), LaunchNow(device);
      assert forall n :: n in Unlaunched(s) <==> n in vertices && n.launchId == -1;
      assert forall n :: n in p.failing <==> n in vertices && n.commandFails;
    }

    /** Every command still to be launched can be created. */
    ghost predicate PendingCreatable()
      reads this`vertices, vertices`launchId, vertices`commandFails
    {
      forall n | n in vertices && n.launchId == -1 :: !n.commandFails
    }

    lemma RootsReady(p: Plan<GraphNode>)
      requires Configured(p) && Adjacent() && queues >= 1 && Scheduled(Scheduling.ScheduleAll(dag, queues))
      requires |streams| == maxStreams && vertices != [] && p.stream == Scheduling.ScheduleAll(dag, queues).stream
      ensures RootsServed() && RootsKnown(p, roots)
    {
      hide ListsInside, Mirrored, Distinct, Scheduling.ScheduleAll;
      Scheduling.StreamTables(dag, queues);
    }

    /** A scheduled graph with one runtime stream per virtual stream is ready to launch. */
    lemma ReadyToRun(device: Device)
      requires Adjacent() && queues >= 1 && Scheduled(Scheduling.ScheduleAll(dag, queues)) && TablesFit()
      requires |streams| == maxStreams && vertices != []
      ensures var p := PlanNow();
              && Running(p, LaunchNow(device), device) && RootsServed() && RootsKnown(p, roots)
              && p.stream == Scheduling.ScheduleAll(dag, queues).stream && p.g == dag && p.limit == queues
              && (Rested() <==> Idle(p, LaunchNow(device)))
              && (PendingCreatable() <==> RestCreated(p, LaunchNow(device)))
    {
      hide WellFormed, Adjacent, Scheduling.ScheduleAll, Scheduled, Configured, Holds, RootsServed, RootsKnown, PlanNow,
        LaunchNow, Rested,
           PendingCreatable, RestCreated;
      PlanReady();
      LaunchReady(device);
      FailingNow(device);
      RootsReady(PlanNow());
      PlanFacts(PlanNow());
    }
  }

  /** The streams among the first k that do not share the launch stream's hardware queue. */
  ghost function Usable(launch: HipStream, parallel: seq<HipStream>, k: nat): seq<HipStream>
    requires k <= |parallel|
  {
    if k == 0 then []
    else if launch.queueId != parallel[k - 1].queueId then Usable(launch, parallel, k - 1) + [parallel[k - 1]]
    else Usable(launch, parallel, k - 1)
  }

  lemma {:induction false} UsableGrows(launch: HipStream, parallel: seq<HipStream>, j: nat, k: nat)
    requires j <= k <= |parallel|
    ensures Usable(launch, parallel, j) <= Usable(launch, parallel, k)
    decreases k
  {
    if j < k {
      UsableGrows(launch, parallel, j, k - 1);
    }
  }

  ghost predicate Inside(s: Launch<GraphNode>, w: seq<Option<GraphNode>>) {
    forall i | 0 <= i < |w| && w[i].Some? :: w[i].value in s.commands
  }

  ghost function Handles(streams: seq<HipStream>): (r: seq<int>)
    ensures |r| == |streams| && forall i | 0 <= i < |r| :: r[i] == streams[i].handle
  {
    seq(|streams|, i requires 0 <= i < |streams| => streams[i].handle)
  }

  lemma SamePointers(nodes: seq<GraphNode>)
    ensures Pointers(nodes) == Capturing.Somes(nodes)
  {
  }
}