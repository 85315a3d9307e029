/** Executable graphs: instantiating a graph, launching the result and updating it. */
module Executing {
  import opened Dags
  import opened Streams
  import opened Launching
  import opened LaunchSoundness
  import opened Ordering
  import opened Fencing
  import opened Walking
  import opened Delivery
  import opened Cloning
  import opened Graphs
  import Kahn
  import LooseUpdate
  import Scheduling

  class GraphExec {
    const clonedGraph: Graph
    const clonedNodes: map<GraphNode, GraphNode>
    const topoOrder: seq<GraphNode>
    var parallelStreams: seq<HipStream>

    constructor (topoOrder: seq<GraphNode>, clonedGraph: Graph, clonedNodes: map<GraphNode, GraphNode>)
      ensures this.topoOrder == topoOrder && this.clonedGraph == clonedGraph && this.clonedNodes == clonedNodes
      ensures parallelStreams == []
    {
      this.topoOrder, this.clonedGraph, this.clonedNodes := topoOrder, clonedGraph, clonedNodes;
      parallelStreams := [];
    }

    /** A scheduled acyclic graph together with its topological order. */
    ghost predicate Sequenced()
      reads clonedGraph`vertices, clonedGraph`dag, clonedGraph`maxStreams, clonedGraph`roots
      reads clonedGraph.vertices`edges, clonedGraph.vertices`dependencies, clonedGraph.vertices`inDegree,
            clonedGraph.vertices`outDegree
      reads clonedGraph.vertices`streamId, clonedGraph.vertices`signalIsRequired
    {
      && clonedGraph.Adjacent() && clonedGraph.queues >= 1
      && clonedGraph.Scheduled(Scheduling.ScheduleAll(clonedGraph.dag, clonedGraph.queues))
      && Acyclic(clonedGraph.dag) && topoOrder == Kahn.TopologicalOrder(clonedGraph.dag)
    }

    /** Ready to launch: sequenced, with one parallel stream per virtual stream. */
    ghost predicate Valid()
      reads this`parallelStreams, clonedGraph`vertices, clonedGraph`dag, clonedGraph`maxStreams, clonedGraph`roots
      reads clonedGraph.vertices`edges, clonedGraph.vertices`dependencies, clonedGraph.vertices`inDegree,
            clonedGraph.vertices`outDegree
      reads clonedGraph.vertices`streamId, clonedGraph.vertices`signalIsRequired
      reads clonedGraph`leafs, clonedGraph`waitOrder, clonedGraph`currentId
    {
      Sequenced() && clonedGraph.TablesFit() && |parallelStreams| == clonedGraph.maxStreams
    }

    lemma NowSequenced()
      requires clonedGraph.Adjacent() && clonedGraph.queues >= 1 && WellFormed(clonedGraph.dag)
      requires clonedGraph.Scheduled(Scheduling.ScheduleAll(clonedGraph.dag, clonedGraph.queues))
      requires Acyclic(clonedGraph.dag) && topoOrder == Kahn.TopologicalOrder(clonedGraph.dag)
      ensures Sequenced()
    {
    }

    lemma NowValid()
      requires Sequenced() && clonedGraph.TablesFit() && |parallelStreams| == clonedGraph.maxStreams
      ensures Valid()
    {
    }

    lemma ValidFacts()
      requires Valid()
      ensures Sequenced() && clonedGraph.Adjacent() && WellFormed(clonedGraph.dag) && clonedGraph.queues >= 1
              && clonedGraph.TablesFit()
      ensures clonedGraph.Scheduled(Scheduling.ScheduleAll(clonedGraph.dag, clonedGraph.queues))
      ensures |parallelStreams| == clonedGraph.maxStreams
              && (clonedGraph.vertices != [] <==> clonedGraph.maxStreams >= 1)
      ensures Acyclic(clonedGraph.dag) && topoOrder == Kahn.TopologicalOrder(clonedGraph.dag)
    {
      hide ListsInside, Mirrored, Distinct, Acyclic, Scheduling.ScheduleAll;
      Scheduling.StreamTables(clonedGraph.dag, clonedGraph.queues);
    }

    lemma StillValid(p: Plan<GraphNode>, s: Launch<GraphNode>, device: Device)
      requires Sequenced() && clonedGraph.Running(p, s, device) && |parallelStreams| == clonedGraph.maxStreams
      ensures Valid()
    {
      hide Sequenced, WellFormed;
    }

    /** Taking the streams the runtime could create, if there are enough of them. */
    method CreateStreams(numStreams: nat, created: seq<HipStream>) returns (status: Status)
      modifies this`parallelStreams
      ensures status == if |created| < numStreams then OutOfMemory else Success
      ensures status == Success ==> |parallelStreams| == numStreams && parallelStreams == created[..numStreams]
    {
      parallelStreams := [];
      for i := 0 to numStreams
        invariant i <= |created| && parallelStreams == created[..i]
      {
        if i == |created| {
          return OutOfMemory;
        }
        parallelStreams := parallelStreams + [created[i]];
      }
      status := Success;
    }

    // ---- Launching ----

    /** The positions of the nodes' latest commands. */
    ghost function Commands(): map<GraphNode, nat>
      reads clonedGraph`vertices, clonedGraph.vertices`command
    {
      map n | n in clonedGraph.vertices :: n.command
    }

    /** Enqueueing every node on one stream, in order. A node whose command cannot be
        created is passed over; the status is that of the last node. */
    method EnqueueGraphWithSingleList(device: Device, launchStream: HipStream) returns (status: Status)
      requires Distinct(topoOrder)
      modifies device, topoOrder`command
      ensures device.log == old(device.log) + InTurn(launchStream.handle, Creatable(topoOrder, |topoOrder|))
      ensures Placed(topoOrder, |topoOrder|, |old(device.log)|)
      ensures status == if topoOrder != [] && topoOrder[|topoOrder| - 1].commandFails then OutOfMemory else Success
    {
      hide *;
      status := Success;
      ListingStarts(launchStream.handle, device.log);
      ghost var before := device.log;
      for i := 0 to |topoOrder|
        invariant Listing(launchStream.handle, before, device.log, i)
        invariant status == if i > 0 && topoOrder[i - 1].commandFails then OutOfMemory else Success
      {
        status := EnqueueOnList(device, launchStream, i, before);
      }
      ListingEnds(launchStream.handle, before, device.log);
    }

    /** The first i nodes have been enqueued on one stream. */
    ghost predicate Listing(queue: int, before: seq<Command<GraphNode>>, log: seq<Command<GraphNode>>, i: nat)
      reads topoOrder`commandFails, topoOrder`command
    {
      i <= |topoOrder| && log == before + InTurn(queue, Creatable(topoOrder, i)) && Placed(topoOrder, i, |before|)
    }

    lemma ListingStarts(queue: int, before: seq<Command<GraphNode>>)
      ensures Listing(queue, before, before, 0)
    {
    }

    lemma ListingEnds(queue: int, before: seq<Command<GraphNode>>, log: seq<Command<GraphNode>>)
      requires Listing(queue, before, log, |topoOrder|)
      ensures log == before + InTurn(queue, Creatable(topoOrder, |topoOrder|))
              && Placed(topoOrder, |topoOrder|, |before|)
    {
    }

    method EnqueueOnList(device: Device, launchStream: HipStream, i: nat, ghost before: seq<Command<GraphNode>>)
          returns (status: Status)
      requires Distinct(topoOrder) && i < |topoOrder| && Listing(launchStream.handle, before, device.log, i)
      modifies device, topoOrder`command
      ensures Listing(launchStream.handle, before, device.log, i + 1)
      ensures status == if topoOrder[i].commandFails then OutOfMemory else Success
    {
      hide InTurn, Creatable;
      CreatableNext(topoOrder, i);
      var node := topoOrder[i];
      if node.commandFails {
        return OutOfMemory;
      }
      InTurnNext(launchStream.handle, Creatable(topoOrder, i), node);
      node.command := |device.log|;
      device.log := device.log + [Command(launchStream.handle, Work.Run(node), [])];
      status := Success;
    }

    /** The parallel path: streams for this launch, then the depth-first walk. */
    method RunParallel(device: Device, launchStream: HipStream, last: Option<nat>)
      returns (status: Status, ghost p: Plan<GraphNode>, ghost s: Launch<GraphNode>)
      requires Valid()
      modifies device, clonedGraph`streams, clonedGraph`waitOrder, clonedGraph`leafs, clonedGraph`currentId
      modifies clonedGraph.vertices`launchId, clonedGraph.vertices`command
      ensures Valid()
      ensures status == StreamsExhausted <==> !clonedGraph.Suffice(launchStream, parallelStreams)
      ensures status == StreamsExhausted ==>
                device.log == old(device.log) && (clonedGraph.Rested() <==> old(clonedGraph.Rested()))
      ensures status != StreamsExhausted ==>
                && RanAs(device, launchStream, last, p, s) && s.log == old(device.log)
                && (Idle(p, s) <==> old(clonedGraph.Rested()))
                && (RestCreated(p, s) <==> old(clonedGraph.PendingCreatable()))
                && status == if RunAll(p, clonedGraph.roots, last, s).ok then Success else OutOfMemory
    {
      hide *;
      ValidFacts();
      var ok := clonedGraph.UpdateStreams(launchStream, parallelStreams);
      if !ok {
        status, p, s := StreamsExhausted, clonedGraph.PlanNow(), clonedGraph.LaunchNow(device);
        return;
      }
      Enough(launchStream);
      clonedGraph.ReadyToRun(device);
      p, s := clonedGraph.PlanNow(), clonedGraph.LaunchNow(device);
      LogNow(device);
      clonedGraph.RunningPlan(p, s, device);
      ok := clonedGraph.RunNodes(device, last, p, s);
      StillValid(p, RunAll(p, clonedGraph.roots, last, s).state, device);
      RanNow(device, launchStream, last, p, s);
      status := if ok then Success else OutOfMemory;
    }

    lemma Enough(launchStream: HipStream)
      requires clonedGraph.Suffice(launchStream, parallelStreams) && clonedGraph.Serve(launchStream, parallelStreams)
      ensures |parallelStreams| >= 1 && |clonedGraph.streams| == |parallelStreams|
    {
    }

    /** Different runtime streams have different queues. */
    ghost predicate OwnStreams(launchStream: HipStream)
      reads this`parallelStreams
    {
      && (forall i, j | 0 <= i < j < |parallelStreams| :: parallelStreams[i].handle != parallelStreams[j].handle)
      && forall i | 0 <= i < |parallelStreams| :: parallelStreams[i].handle != launchStream.handle
    }

    ghost predicate AllCreatable()
      reads clonedGraph`vertices, clonedGraph.vertices`commandFails
    {
      forall n | n in clonedGraph.vertices :: !n.commandFails
    }

    /** The markers with which every launch ends on the launch stream. */
    method Close(device: Device, launchStream: HipStream)
      modifies device
      ensures device.log == old(device.log) + Closing(launchStream.handle, |old(device.log)|)
    {
      var callback := |device.log|;
      device.log := device.log + [Command(launchStream.handle, Marker, [])];
      device.log := device.log + [Command(launchStream.handle, Marker, [callback])];
    }

    lemma OrderFacts()
      requires Sequenced()
      ensures WellFormed(clonedGraph.dag) && Topological(clonedGraph.dag, topoOrder) && Distinct(topoOrder)
              && topoOrder == Kahn.TopologicalOrder(clonedGraph.dag)
      ensures clonedGraph.dag.vertices == clonedGraph.vertices && forall i | 0 <= i < |topoOrder| ::
              topoOrder[i] in clonedGraph.vertices
    {
      hide ListsInside, Mirrored, Acyclic, Kahn.TopologicalOrder;
      Kahn.KahnCorrect(clonedGraph.dag);
    }

    /** One stream in topological order delivers the graph, provided no creation failed. */
    lemma SingleDelivers(launchStream: HipStream, before: seq<Command<GraphNode>>, log: seq<Command<GraphNode>>)
      requires Sequenced() && AllCreatable() && Placed(topoOrder, |topoOrder|, |before|)
      requires var run := before + InTurn(launchStream.handle, Creatable(topoOrder, |topoOrder|));
               log == run + Closing(launchStream.handle, |run|)
      ensures Delivered(clonedGraph.dag, launchStream.handle, |before|, log, Commands())
      ensures ForkedFrom(launchStream.handle, |before|, log, Commands())
    {
      hide *;
      OrderFacts();
      AllPlaced(|before|);
      SingleDelivered(clonedGraph.dag, launchStream.handle, before, topoOrder, Commands());
      SingleLogIs(launchStream.handle, before, topoOrder);
    }

    lemma AllPlaced(from: nat)
      requires Topological(clonedGraph.dag, topoOrder) && clonedGraph.dag.vertices == clonedGraph.vertices
      requires AllCreatable() && Placed(topoOrder, |topoOrder|, from)
      ensures Creatable(topoOrder, |topoOrder|) == topoOrder && Positions(from, topoOrder, Commands())
    {
      hide Distinct, Creatable;
      assert topoOrder[..|topoOrder|] == topoOrder;
      forall i | 0 <= i < |topoOrder| ensures topoOrder[i] in clonedGraph.vertices && topoOrder[i].command == from + i {
        assert |Creatable(topoOrder, i)| == i;
      }
    }

    /** Different virtual streams get different queues, the first the launch stream's. */
    lemma OwnQueuesFrom(launchStream: HipStream)
      requires OwnStreams(launchStream) && clonedGraph.Serve(launchStream, parallelStreams)
      ensures OwnQueues(clonedGraph.PlanNow()) && clonedGraph.PlanNow().queues[0] == launchStream.handle
    {
      var u := Usable(launchStream, parallelStreams, |parallelStreams|);
      forall i | 0 < i < |clonedGraph.streams| ensures clonedGraph.streams[i] == u[i - 1] {
        assert clonedGraph.streams[1..][i - 1] == u[i - 1];
      }
      var q := clonedGraph.PlanNow().queues;
      forall i, j | 0 <= i < j < |q| ensures q[i] != q[j] {
        var b := UsableOne(launchStream, parallelStreams, |parallelStreams|, j - 1);
        if i > 0 {
          var a, c := UsableAt(launchStream, parallelStreams, |parallelStreams|, i - 1, j - 1);
          assert clonedGraph.streams[i] == u[i - 1];
        }
      }
    }

    lemma HeldFacts(device: Device, p: Plan<GraphNode>, t: Launch<GraphNode>)
      requires clonedGraph.Running(p, t, device)
      ensures Planned(p) && Fits(p, t) && Commands() == t.commands && device.log == t.log && p.g == clonedGraph.dag
      ensures (Idle(p, t) ==> clonedGraph.Rested()) && (AllCreated(p) <==> AllCreatable())
    {
      hide ListsInside, Mirrored, Distinct;
    }

    /** The parallel launch of plan `p` from state `s` has taken place. */
    ghost predicate RanAs(device: Device, launchStream: HipStream, last: Option<nat>, p: Plan<GraphNode>,
          s: Launch<GraphNode>)
      reads this`parallelStreams, clonedGraph`vertices, clonedGraph`dag, clonedGraph`streams, clonedGraph`roots
      reads clonedGraph`currentId, clonedGraph`leafs, clonedGraph`waitOrder, clonedGraph.vertices, device`log
    {
      && p == clonedGraph.PlanNow() && Planned(p) && Fits(p, s) && RootsKnown(p, clonedGraph.roots) && |p.queues| > 0
      && p.stream == Scheduling.ScheduleAll(p.g, p.limit).stream && p.limit == clonedGraph.queues
      && clonedGraph.Serve(launchStream, parallelStreams)
      && clonedGraph.Running(p, RunAll(p, clonedGraph.roots, last, s).state, device)
    }

    lemma RanFacts(device: Device, launchStream: HipStream, last: Option<nat>, p: Plan<GraphNode>, s: Launch<GraphNode>)
      requires Sequenced() && OwnStreams(launchStream) && RanAs(device, launchStream, last, p, s)
      ensures CanRun(p, clonedGraph.roots, s) && |p.queues| > 0 && p.queues[0] == launchStream.handle
      ensures clonedGraph.Running(p, RunAll(p, clonedGraph.roots, last, s).state, device)
      ensures Planned(p) && p.stream == Scheduling.ScheduleAll(p.g, p.limit).stream && p.limit == clonedGraph.queues
      ensures forall n | n in p.failing :: n in clonedGraph.vertices
    {
      hide WellFormed, RunAll, RootsKnown, OwnQueues, clonedGraph.Serve, OwnStreams, Handles, Acyclic,
        Scheduling.ScheduleAll;
      OwnQueuesFrom(launchStream);
    }

    lemma ParallelDelivers(device: Device, launchStream: HipStream, last: Option<nat>, p: Plan<GraphNode>,
          s: Launch<GraphNode>)
      requires Sequenced() && OwnStreams(launchStream) && RanAs(device, launchStream, last, p, s)
      ensures var o := RunAll(p, clonedGraph.roots, last, s);
              var log := device.log + Closing(launchStream.handle, |device.log|);
              && s.log <= device.log
              && (o.ok <==> RestCreated(p, s))
              && (o.ok ==> clonedGraph.Rested())
              && (o.ok ==> (Delivered(clonedGraph.dag, launchStream.handle, |s.log|, log, Commands())
                            <==> Idle(p, s) && Orderly(clonedGraph.dag, clonedGraph.queues)))
              && (o.ok && Idle(p, s) && Orderly(clonedGraph.dag, clonedGraph.queues) && last.Some?
                  && LatestOn(s.log, launchStream.handle, last.value) ==>
                    ForkedFrom(launchStream.handle, |s.log|, log, Commands()))
    {
      hide *;
      RanFacts(device, launchStream, last, p, s);
      CanRunParts(p, clonedGraph.roots, s);
      LaunchDelivers(p, clonedGraph.roots, last, s);
      HeldFacts(device, p, RunAll(p, clonedGraph.roots, last, s).state);
      OrderlyIsBridgeable(p);
    }

    /** A parallel launch that failed from an idle clone leaves exactly the nodes before the
        first that cannot be created launched. */
    ghost predicate LeftAt(stop: nat)
      reads clonedGraph`vertices, clonedGraph`dag, clonedGraph.vertices`launchId, clonedGraph.vertices`commandFails
    {
      && WellFormed(clonedGraph.dag)
      && var order := Order(clonedGraph.dag);
         && stop < |order| && order[stop] in clonedGraph.vertices && order[stop].commandFails
         && (forall j | 0 <= j < stop :: order[j] in clonedGraph.vertices && !order[j].commandFails)
         && forall n | n in clonedGraph.vertices :: n.launchId != -1 <==> n in order[..stop]
    }

    lemma ParallelLeaves(device: Device, launchStream: HipStream, last: Option<nat>, p: Plan<GraphNode>,
          s: Launch<GraphNode>)
      returns (stop: nat)
      requires Sequenced() && OwnStreams(launchStream) && RanAs(device, launchStream, last, p, s) && Idle(p, s)
      ensures !RunAll(p, clonedGraph.roots, last, s).ok ==> LeftAt(stop)
    {
      hide *;
      RanFacts(device, launchStream, last, p, s);
      CanRunParts(p, clonedGraph.roots, s);
      stop := FailedLaunchLeaves(p, clonedGraph.roots, last, s);
      var o := RunAll(p, clonedGraph.roots, last, s);
      if !o.ok {
        HeldLeft(device, p, o.state, stop);
      }
    }

    lemma HeldLeft(device: Device, p: Plan<GraphNode>, t: Launch<GraphNode>, stop: nat)
      requires clonedGraph.Running(p, t, device) && Planned(p) && stop < |Order(p.g)| && Order(p.g)[stop] in p.failing
      requires (forall j | 0 <= j < stop :: Order(p.g)[j] !in p.failing) && Tracks(p, t, Order(p.g)[..stop])
      requires forall n | n in Nodes(p.g) :: n in Order(p.g)[..stop] <==> Launched(t, n)
      requires forall n | n in p.failing :: n in clonedGraph.vertices
      ensures LeftAt(stop)
    {
      hide ListsInside, Mirrored, Distinct, Order;
      var order := Order(p.g);
      forall j | 0 <= j < stop ensures order[j] in clonedGraph.vertices {
        assert order[..stop][j] == order[j];
      }
    }

    lemma CanRunParts(p: Plan<GraphNode>, roots: seq<Option<GraphNode>>, s: Launch<GraphNode>)
      requires CanRun(p, roots, s)
      ensures Planned(p) && Fits(p, s) && |roots| == p.limit
      ensures forall i | 0 < i < |roots| && roots[i].Some? :: i < |p.queues|
    {
    }

    /** The status of a launch. The single-stream path reports only its last node. */
    ghost function Expected(launchStream: HipStream): Status
      reads this`parallelStreams, clonedGraph`maxStreams, clonedGraph`vertices, topoOrder`commandFails
      reads clonedGraph.vertices`commandFails, clonedGraph.vertices`launchId
    {
      if clonedGraph.maxStreams == 1 then
        if topoOrder != [] && topoOrder[|topoOrder| - 1].commandFails then OutOfMemory else Success
      else if !clonedGraph.Suffice(launchStream, parallelStreams) then StreamsExhausted
      else if clonedGraph.PendingCreatable() then Success
      else OutOfMemory
    }

    lemma LogNow(device: Device)
      ensures clonedGraph.LaunchNow(device).log == device.log
    {
    }

    lemma ExpectedParts(launchStream: HipStream)
      ensures Expected(launchStream) ==
              if clonedGraph.maxStreams == 1 then
                if topoOrder != [] && topoOrder[|topoOrder| - 1].commandFails then OutOfMemory else Success
              else if !clonedGraph.Suffice(launchStream, parallelStreams) then StreamsExhausted
              else if clonedGraph.PendingCreatable() then Success
              else OutOfMemory
    {
    }

    lemma RanNow(device: Device, launchStream: HipStream, last: Option<nat>, p: Plan<GraphNode>, s: Launch<GraphNode>)
      requires p == clonedGraph.PlanNow() && Planned(p) && Fits(p, s) && RootsKnown(p, clonedGraph.roots)
               && |p.queues| > 0
      requires p.stream == Scheduling.ScheduleAll(p.g, p.limit).stream && p.limit == clonedGraph.queues
      requires clonedGraph.Serve(launchStream, parallelStreams)
      requires clonedGraph.Running(p, RunAll(p, clonedGraph.roots, last, s).state, device)
      ensures RanAs(device, launchStream, last, p, s)
    {
    }

    /** What a launch that reports success has to meet to deliver the graph. On one stream,
        where only the last node's status is reported, that every command can be created;
        in parallel, that the clone is idle, with no launch ids left over from a failed
        launch, and that its skipped waits are bridged. */
    ghost predicate Delivers()
      reads clonedGraph`maxStreams, clonedGraph`vertices, clonedGraph`dag
      reads clonedGraph.vertices`commandFails, clonedGraph.vertices`launchId
    {
      if clonedGraph.maxStreams == 1 then AllCreatable()
      else clonedGraph.Rested() && Orderly(clonedGraph.dag, clonedGraph.queues)
    }

    lemma DeliversParts()
      ensures Delivers() <==>
                if clonedGraph.maxStreams == 1 then AllCreatable()
                else clonedGraph.Rested() && Orderly(clonedGraph.dag, clonedGraph.queues)
    {
    }

    /** Launching on `launchStream`, whose latest command still queued is `last`. A graph
        that needs one stream runs on it in topological order; any other graph runs in
        parallel. A launch that fails in parallel stops at position `stop` of the launch
        order. */
    method Run(device: Device, launchStream: HipStream, last: Option<nat>) returns (status: Status, ghost stop: nat)
      requires Valid() && OwnStreams(launchStream)
      modifies device, clonedGraph`streams, clonedGraph`waitOrder, clonedGraph`leafs, clonedGraph`currentId
      modifies clonedGraph.vertices`launchId, clonedGraph.vertices`command
      ensures Valid()
      ensures status == old(Expected(launchStream)) && old(device.log) <= device.log
      ensures status == StreamsExhausted ==>
                device.log == old(device.log) && (clonedGraph.Rested() <==> old(clonedGraph.Rested()))
      ensures clonedGraph.maxStreams == 1 ==>
                && device.log == SingleLog(launchStream.handle, old(device.log), Creatable(topoOrder, |topoOrder|))
                && (clonedGraph.Rested() <==> old(clonedGraph.Rested()))
      ensures status == Success && clonedGraph.maxStreams != 1 ==> clonedGraph.Rested()
      ensures status == OutOfMemory && clonedGraph.maxStreams != 1 && old(clonedGraph.Rested()) ==> LeftAt(stop)
      ensures status == Success ==>
                (Delivered(clonedGraph.dag, launchStream.handle, |old(device.log)|, device.log, Commands())
                 <==> old(Delivers()))
      ensures status == Success && old(Delivers()) && last.Some?
              && LatestOn(old(device.log), launchStream.handle, last.value) ==>
                ForkedFrom(launchStream.handle, |old(device.log)|, device.log, Commands())
    {
      hide *;
      stop := 0;
      ValidFacts();
      ExpectedParts(launchStream);
      DeliversParts();
      if clonedGraph.maxStreams == 1 {
        status := RunSingle(device, launchStream);
      } else {
        ghost var p, s;
        status, p, s := RunParallel(device, launchStream, last);
        if status != StreamsExhausted {
          ParallelDelivers(device, launchStream, last, p, s);
          if Idle(p, s) {
            stop := ParallelLeaves(device, launchStream, last, p, s);
          }
        }
        if status != Success {
          return;
        }
        Close(device, launchStream);
      }
    }

    /** The single-stream path: the nodes in topological order, then the closing markers. */
    method RunSingle(device: Device, launchStream: HipStream) returns (status: Status)
      requires Sequenced()
      modifies device, clonedGraph.vertices`command
      ensures Sequenced() && status == if topoOrder != [] && topoOrder[|topoOrder| - 1].commandFails then OutOfMemory
              else Success
      ensures device.log == SingleLog(launchStream.handle, old(device.log), Creatable(topoOrder, |topoOrder|))
      ensures old(device.log) <= device.log
      ensures Delivered(clonedGraph.dag, launchStream.handle, |old(device.log)|, device.log, Commands())
              <==> AllCreatable()
      ensures AllCreatable() ==> ForkedFrom(launchStream.handle, |old(device.log)|, device.log, Commands())
    {
      hide *;
      OrderFacts();
      status := EnqueueGraphWithSingleList(device, launchStream);
      Close(device, launchStream);
      if AllCreatable() {
        SingleDelivers(launchStream, old(device.log), device.log);
      } else {
        SingleMisses(launchStream, old(device.log), device.log);
      }
      SingleLogIs(launchStream.handle, old(device.log), Creatable(topoOrder, |topoOrder|));
    }

    /** A node whose command cannot be created is not in the log of the single stream. */
    lemma SingleMisses(launchStream: HipStream, before: seq<Command<GraphNode>>, log: seq<Command<GraphNode>>)
      requires !AllCreatable()
      requires var run := before + InTurn(launchStream.handle, Creatable(topoOrder, |topoOrder|));
               log == run + Closing(launchStream.handle, |run|)
      ensures !Delivered(clonedGraph.dag, launchStream.handle, |before|, log, Commands())
    {
      hide WellFormed, EdgesKept, JoinedOn, Creatable;
      var n :| n in clonedGraph.vertices && n.commandFails;
      CreatableOnly(topoOrder, |topoOrder|, n);
      var nodes := Creatable(topoOrder, |topoOrder|);
      forall c | |before| <= c < |log| ensures log[c].work != Work.Run(n) {
        if c < |before| + |nodes| {
          assert log[c] == InTurn(launchStream.handle, nodes)[c - |before|];
        }
      }
      assert n in Commands() && Commands()[n] == n.command;
    }
  }

  // ---- Instantiation ----

  method HasMemoryNode(graph: Graph) returns (found: bool)
    ensures found <==> exists n | n in graph.vertices :: n.ownsMemory
  {
    for k := 0 to |graph.vertices|
      invariant forall j | 0 <= j < k :: !graph.vertices[j].ownsMemory
    {
      if graph.vertices[k].ownsMemory {
        return true;
      }
    }
    found := false;
  }

  /** What instantiation keeps of the graph it is given. */
  ghost predicate CloneReady(registry: NodeRegistry, graph: Graph, f: map<GraphNode, GraphNode>, clone: Graph)
    reads graph`dag, clone`dag, clone`vertices, clone`leafs, clone`waitOrder, clone`currentId, clone.vertices`launchId
    reads f.Keys`params, f.Values`params
    reads registry`nodeSet, registry.nodeSet`parentGraph, clone.vertices`parentGraph
  {
    && Renamed(f, graph.dag, clone.dag) && clone.queues == graph.queues && clone.TablesFit() && clone.Rested()
    && clone.Owns(registry)
    && forall n | n in f :: SameWork(n, f[n])
  }

  lemma NowReady(registry: NodeRegistry, graph: Graph, f: map<GraphNode, GraphNode>, clone: Graph)
    requires Renamed(f, graph.dag, clone.dag) && clone.queues == graph.queues && clone.TablesFit() && clone.Rested()
             && clone.Owns(registry)
    requires forall n | n in f :: SameWork(n, f[n])
    ensures CloneReady(registry, graph, f, clone)
  {
  }

  /** Cloning, ordering and, unless there is a cycle, scheduling the clone. */
  method ScheduleClone(registry: NodeRegistry, graph: Graph)
    returns (clonedGraph: Graph, clonedNodes: map<GraphNode, GraphNode>, topoOrder: seq<GraphNode>, ok: bool)
    requires graph.Adjacent() && graph.Owns(registry) && graph.queues >= 1 && |graph.roots| == graph.queues
    modifies registry
    ensures graph.Owns(registry) && fresh(clonedGraph) && fresh(clonedGraph.vertices)
            && CloneReady(registry, graph, clonedNodes, clonedGraph)
    ensures ok <==> Acyclic(graph.dag)
    ensures clonedGraph.Adjacent() && WellFormed(clonedGraph.dag) && clonedGraph.queues >= 1
    ensures ok ==>
              && clonedGraph.Scheduled(Scheduling.ScheduleAll(clonedGraph.dag, clonedGraph.queues))
              && Acyclic(clonedGraph.dag) && topoOrder == Kahn.TopologicalOrder(clonedGraph.dag)
  {
    hide *;
    graph.DagWellFormed();
    clonedGraph, clonedNodes := graph.Clone(registry);
    NowReady(registry, graph, clonedNodes, clonedGraph);
    clonedGraph.DagWellFormed();
    topoOrder, ok := clonedGraph.TopologicalOrder([]);
    CloneAcyclic(clonedNodes, graph.dag, clonedGraph.dag);
    Kahn.KahnCorrect(clonedGraph.dag);
    assert [] + Kahn.TopologicalOrder(clonedGraph.dag) == Kahn.TopologicalOrder(clonedGraph.dag);
    if ok {
      clonedGraph.ScheduleNodes();
    }
  }

  /** The executable form of a graph: a scheduled clone with its topological order and
      streams of its own. A cyclic graph is refused, and so is a second instantiation of
      a graph with memory nodes. The clone of a refused graph is left behind. */
  method Instantiate(registry: NodeRegistry, graph: Graph, created: seq<HipStream>)
        returns (exec: GraphExec?, status: Status)
    requires graph.Adjacent() && graph.Owns(registry) && graph.queues >= 1 && |graph.roots| == graph.queues
    modifies registry, graph`instantiated
    ensures graph.Owns(registry)
    ensures status == NotSupported <==> old(graph.instantiated) && exists n | n in graph.vertices :: n.ownsMemory
    ensures status == InvalidValue <==> status != NotSupported && !Acyclic(graph.dag)
    ensures exec != null <==> status in {Success, OutOfMemory}
    ensures exec != null ==>
              && fresh(exec) && fresh(exec.clonedGraph) && fresh(exec.clonedGraph.vertices) && graph.instantiated
              && CloneReady(registry, graph, exec.clonedNodes, exec.clonedGraph) && exec.Sequenced()
              && status == (if |created| < exec.clonedGraph.maxStreams then OutOfMemory else Success)
    ensures status == Success ==> exec.Valid() && exec.parallelStreams == created[..exec.clonedGraph.maxStreams]
  {
    hide *;
    exec := null;
    if graph.instantiated {
      var memory := HasMemoryNode(graph);
      if memory {
        return null, NotSupported;
      }
    }
    var clonedGraph, clonedNodes, topoOrder, ok := ScheduleClone(registry, graph);
    if !ok {
      return null, InvalidValue;
    }
    exec, status := NewExec(topoOrder, clonedGraph, clonedNodes, created);
    graph.instantiated := true;
    ReadyParts(registry, graph, clonedNodes, clonedGraph);
    if status == Success {
      exec.NowValid();
    }
  }

  lemma ReadyParts(registry: NodeRegistry, graph: Graph, f: map<GraphNode, GraphNode>, clone: Graph)
    requires CloneReady(registry, graph, f, clone)
    ensures clone.TablesFit()
  {
  }

  method NewExec(topoOrder: seq<GraphNode>, clonedGraph: Graph, clonedNodes: map<GraphNode, GraphNode>,
        created: seq<HipStream>)
    returns (exec: GraphExec, status: Status)
    requires clonedGraph.Adjacent() && clonedGraph.queues >= 1 && WellFormed(clonedGraph.dag)
    requires clonedGraph.Scheduled(Scheduling.ScheduleAll(clonedGraph.dag, clonedGraph.queues))
    requires Acyclic(clonedGraph.dag) && topoOrder == Kahn.TopologicalOrder(clonedGraph.dag)
    ensures fresh(exec) && exec.clonedGraph == clonedGraph && exec.clonedNodes == clonedNodes && exec.Sequenced()
    ensures status == if |created| < clonedGraph.maxStreams then OutOfMemory else Success
    ensures status == Success ==>
              |exec.parallelStreams| == clonedGraph.maxStreams
                && exec.parallelStreams == created[..clonedGraph.maxStreams]
  {
    hide *;
    exec := new GraphExec(topoOrder, clonedGraph, clonedNodes);
    exec.NowSequenced();
    status := exec.CreateStreams(clonedGraph.maxStreams, created);
  }

  // ---- Updating ----

  /** Whether position i of the two orders passes the checks of an update. */
  ghost predicate Matches(news: seq<GraphNode>, olds: seq<GraphNode>, refused: set<GraphNode>, i: nat)
    requires i < |news| && i < |olds|
    reads news`dependencies, olds`dependencies
  {
    news[i].kind == olds[i].kind && |news[i].dependencies| == |olds[i].dependencies| && olds[i] !in refused
  }

  ghost function Params(nodes: seq<GraphNode>): (r: seq<int>)
    reads nodes`params
    ensures |r| == |nodes| && forall i | 0 <= i < |r| :: r[i] == nodes[i].params
  {
    if nodes == [] then [] else Params(nodes[..|nodes| - 1]) + [nodes[|nodes| - 1].params]
  }

  /** The first k pairs match, and the old nodes have taken over the parameters of those. */
  ghost predicate Updated(news: seq<GraphNode>, olds: seq<GraphNode>, refused: set<GraphNode>, before: seq<int>, k: nat)
    reads news`dependencies, olds`dependencies, news`params, olds`params
  {
    && |news| == |olds| == |before| && k <= |news|
    && (forall i | 0 <= i < k :: Matches(news, olds, refused, i))
    && Params(olds) == Params(news)[..k] + before[k..]
  }

  /** An update has nothing to object to: as many nodes in the order, and every pair passes. */
  ghost predicate Accepted(exec: GraphExec, graph: Graph, refused: set<GraphNode>)
    requires WellFormed(graph.dag)
    reads graph`dag, exec.topoOrder`dependencies, Kahn.TopologicalOrder(graph.dag)`dependencies
  {
    var news := Kahn.TopologicalOrder(graph.dag);
    |news| == |exec.topoOrder| && forall i | 0 <= i < |news| :: Matches(news, exec.topoOrder, refused, i)
  }

  /** Taking over the parameters of `graph`, node by node in topological order. The first
      pair that does not match, or whose new parameters are refused, stops the update with
      the pairs before it done. */
  method Update(exec: GraphExec, graph: Graph, refused: set<GraphNode>) returns (status: Status, ghost stop: nat)
    requires graph.Adjacent() && Distinct(exec.topoOrder) && forall i | 0 <= i < |exec.topoOrder| ::
             exec.topoOrder[i] !in graph.vertices
    modifies exec.topoOrder`params
    ensures WellFormed(graph.dag) && (status == Success <==> Accepted(exec, graph, refused))
    ensures var news := Kahn.TopologicalOrder(graph.dag);
            if |news| != |exec.topoOrder| then status == UpdateFailure
              && Params(exec.topoOrder) == old(Params(exec.topoOrder))
            else
              && Updated(news, exec.topoOrder, refused, old(Params(exec.topoOrder)), stop)
              && (status == Success ==> stop == |news|)
              && (status != Success ==>
                   status == UpdateFailure && stop < |news| && !Matches(news, exec.topoOrder, refused, stop))
  {
    hide *;
    graph.DagWellFormed();
    var news, _ := graph.TopologicalOrder([]);
    assert [] + Kahn.TopologicalOrder(graph.dag) == Kahn.TopologicalOrder(graph.dag);
    if |news| != |exec.topoOrder| {
      NotAccepted(exec, graph, refused, 0);
      return UpdateFailure, 0;
    }
    OutputInside(graph);
    NowSeparate(graph, news, exec.topoOrder);
    ghost var before := Params(exec.topoOrder);
    status, stop := UpdateInOrder(graph, news, exec.topoOrder, refused);
    if status == Success {
      NowAccepted(exec, graph, refused, before);
    } else {
      NotAccepted(exec, graph, refused, stop);
    }
  }

  lemma NowAccepted(exec: GraphExec, graph: Graph, refused: set<GraphNode>, before: seq<int>)
    requires WellFormed(graph.dag)
    requires var news := Kahn.TopologicalOrder(graph.dag); Updated(news, exec.topoOrder, refused, before, |news|)
    ensures Accepted(exec, graph, refused)
  {
    hide WellFormed, Kahn.TopologicalOrder, Matches, Params;
  }

  lemma NotAccepted(exec: GraphExec, graph: Graph, refused: set<GraphNode>, stop: nat)
    requires WellFormed(graph.dag)
    requires var news := Kahn.TopologicalOrder(graph.dag);
             |news| == |exec.topoOrder| ==> stop < |news| && !Matches(news, exec.topoOrder, refused, stop)
    ensures !Accepted(exec, graph, refused)
  {
    hide WellFormed, Kahn.TopologicalOrder, Matches;
  }

  method UpdateInOrder(graph: Graph, news: seq<GraphNode>, olds: seq<GraphNode>, refused: set<GraphNode>)
    returns (status: Status, ghost stop: nat)
    requires Separate(graph, news, olds) && |news| == |olds|
    modifies olds`params
    ensures Updated(news, olds, refused, old(Params(olds)), stop)
    ensures status == Success ==> stop == |news|
    ensures status != Success ==> status == UpdateFailure && stop < |news| && !Matches(news, olds, refused, stop)
  {
    hide *;
    stop := 0;
    UpdateStarts(news, olds, refused);
    ghost var before := Params(olds);
    for i := 0 to |news|
      invariant stop == i && Updated(news, olds, refused, before, i)
    {
      var ok := UpdateNode(graph, news, olds, refused, i, olds[i], before);
      if !ok {
        return UpdateFailure, stop;
      }
      stop := stop + 1;
    }
    status := Success;
  }

  lemma OutputInside(graph: Graph)
    requires graph.Adjacent()
    ensures WellFormed(graph.dag)
    ensures var out := Kahn.TopologicalOrder(graph.dag); forall i | 0 <= i < |out| :: out[i] in graph.vertices
  {
    hide ListsInside, Mirrored, Distinct, Kahn.TopologicalOrder;
    graph.DagWellFormed();
    Kahn.OutputOrdered(graph.dag);
    var out := Kahn.TopologicalOrder(graph.dag);
    forall i | 0 <= i < |out| ensures out[i] in graph.vertices {
      assert out[i] in out && out[i] in Nodes(graph.dag);
    }
  }

  method UpdateNode(graph: Graph, news: seq<GraphNode>, olds: seq<GraphNode>, refused: set<GraphNode>, i: nat,
        node: GraphNode,
                    ghost before: seq<int>) returns (ok: bool)
    requires Separate(graph, news, olds) && Updated(news, olds, refused, before, i) && i < |news| && i < |olds|
             && node == olds[i]
    modifies node`params
    ensures ok <==> Matches(news, olds, refused, i)
    ensures Updated(news, olds, refused, before, if ok then i + 1 else i)
  {
    ok := news[i].kind == node.kind && |news[i].dependencies| == |node.dependencies| && node !in refused;
    if ok {
      hide Matches;
      ghost var from, was := Params(news), Params(olds);
      node.params := news[i].params;
      assert Params(news) == from;
      assert Params(olds) == was[i := from[i]];
      SpliceNext(from, before, was, i);
    }
  }

  lemma SpliceNext(from: seq<int>, before: seq<int>, was: seq<int>, i: nat)
    requires i < |from| == |before| && was == from[..i] + before[i..]
    ensures was[i := from[i]] == from[..i + 1] + before[i + 1..]
  {
  }

  /** The updated nodes are all different and none belongs to the graph updated from. */
  ghost predicate Separate(graph: Graph, news: seq<GraphNode>, olds: seq<GraphNode>)
    reads graph`vertices
  {
    && Distinct(olds)
    && (forall j | 0 <= j < |olds| :: olds[j] !in graph.vertices)
    && forall j | 0 <= j < |news| :: news[j] in graph.vertices
  }

  lemma NowSeparate(graph: Graph, news: seq<GraphNode>, olds: seq<GraphNode>)
    requires Distinct(olds) && forall j | 0 <= j < |olds| :: olds[j] !in graph.vertices
    requires forall j | 0 <= j < |news| :: news[j] in graph.vertices
    ensures Separate(graph, news, olds)
  {
  }

  lemma UpdateStarts(news: seq<GraphNode>, olds: seq<GraphNode>, refused: set<GraphNode>)
    requires |news| == |olds|
    ensures Updated(news, olds, refused, Params(olds), 0)
  {
  }

  /** An update from the graph that was instantiated, its nodes and edges unchanged, pairs
      every node with its own clone, and no pair is turned down for its kind or degree. */
  lemma SourceMatches(exec: GraphExec, graph: Graph, refused: set<GraphNode>)
    requires graph.Adjacent() && exec.Sequenced() && Renamed(exec.clonedNodes, graph.dag, exec.clonedGraph.dag)
    requires forall n | n in exec.clonedNodes :: n.kind == exec.clonedNodes[n].kind
    ensures WellFormed(graph.dag)
    ensures var news := Kahn.TopologicalOrder(graph.dag);
            && |news| == |exec.topoOrder|
            && forall i | 0 <= i < |news| ::
                 && news[i] in exec.clonedNodes && exec.topoOrder[i] == exec.clonedNodes[news[i]]
                 && (Matches(news, exec.topoOrder, refused, i) <==> exec.topoOrder[i] !in refused)
  {
    hide ListsInside, Mirrored, Distinct, Kahn.TopologicalOrder, Acyclic, Injective;
    OrderCommutes(exec.clonedNodes, graph.dag, exec.clonedGraph.dag);
    var news := Kahn.TopologicalOrder(graph.dag);
    forall i | 0 <= i < |news| ensures Matches(news, exec.topoOrder, refused, i) <==> exec.topoOrder[i] !in refused {
      var n := news[i];
      assert n in Nodes(graph.dag) && graph.Mirrors(n);
      assert exec.clonedNodes[n] in exec.clonedGraph.dag.deps;
      assert exec.clonedNodes[n] in Nodes(exec.clonedGraph.dag) && exec.clonedGraph.Mirrors(exec.clonedNodes[n]);
    }
  }

  /** Nodes paired by position are of one kind, and the old one takes the new parameters. */
  ghost predicate SameKinds(exec: GraphExec, graph: Graph, refused: set<GraphNode>)
    requires WellFormed(graph.dag)
    reads graph`dag
  {
    var news := Kahn.TopologicalOrder(graph.dag);
    |news| == |exec.topoOrder| && forall i | 0 <= i < |news| ::
      news[i].kind == exec.topoOrder[i].kind && exec.topoOrder[i] !in refused
  }

  lemma OrderMirrored(graph: Graph)
    requires graph.Adjacent()
    ensures WellFormed(graph.dag)
    ensures var order := Kahn.TopologicalOrder(graph.dag);
            forall i | 0 <= i < |order| ::
                order[i] in graph.dag.deps && order[i].dependencies == graph.dag.deps[order[i]]
  {
    hide ListsInside, Mirrored, Distinct, Kahn.TopologicalOrder;
    OutputInside(graph);
    var order := Kahn.TopologicalOrder(graph.dag);
    forall i | 0 <= i < |order| ensures order[i] in graph.dag.deps
        && order[i].dependencies == graph.dag.deps[order[i]] {
      assert order[i] in graph.vertices && graph.Mirrors(order[i]);
    }
  }

  /** Of the two graphs' edges, an update looks at the counts alone. */
  lemma AcceptedExactly(exec: GraphExec, graph: Graph, refused: set<GraphNode>)
    requires graph.Adjacent() && exec.Sequenced()
    ensures WellFormed(graph.dag) && WellFormed(exec.clonedGraph.dag)
    ensures Accepted(exec, graph, refused)
            <==> SameKinds(exec, graph, refused) && LooseUpdate.SameCounts(graph.dag, exec.clonedGraph.dag)
  {
    hide WellFormed, Kahn.TopologicalOrder, Acyclic, Graph.Adjacent;
    OrderMirrored(graph);
    exec.OrderFacts();
    OrderMirrored(exec.clonedGraph);
    var g, h, news, olds := graph.dag, exec.clonedGraph.dag, Kahn.TopologicalOrder(graph.dag), exec.topoOrder;
    if |news| == |olds| {
      forall i | 0 <= i < |news|
        ensures news[i] in g.deps && olds[i] in h.deps
        ensures Matches(news, olds, refused, i)
                <==> news[i].kind == olds[i].kind && olds[i] !in refused && |g.deps[news[i]]| == |h.deps[olds[i]]|
      {
      }
    }
  }

  /** An accepted update from an acyclic graph keeps the edges if each node of the clone
      depends on none of those before it in the order, or on all; and the graph is acyclic
      exactly when it has as many nodes as the clone. */
  lemma AcceptedKeepsEdges(exec: GraphExec, graph: Graph, refused: set<GraphNode>)
    requires graph.Adjacent() && exec.Sequenced() && WellFormed(graph.dag) && Accepted(exec, graph, refused)
    ensures WellFormed(exec.clonedGraph.dag)
    ensures LooseUpdate.AllOrNone(exec.clonedGraph.dag) ==> LooseUpdate.SameEdges(graph.dag, exec.clonedGraph.dag)
    ensures Acyclic(graph.dag) <==> |graph.dag.vertices| == |exec.clonedGraph.dag.vertices|
  {
    hide *;
    AcceptedExactly(exec, graph, refused);
    SequencedAcyclic(exec);
    LooseUpdate.AcceptedIsWhole(graph.dag, exec.clonedGraph.dag);
    if LooseUpdate.AllOrNone(exec.clonedGraph.dag) {
      LooseUpdate.AllOrNoneSuffices(graph.dag, exec.clonedGraph.dag);
    }
  }

  lemma SequencedAcyclic(exec: GraphExec)
    requires exec.Sequenced()
    ensures Acyclic(exec.clonedGraph.dag)
  {
  }

  /** A graph of nodes numbered like `g`, of the right kinds, is accepted if the counts of
      `g` agree with the clone's, and has the clone's edges exactly when `g` has. */
  lemma AcceptedLike(exec: GraphExec, graph: Graph, refused: set<GraphNode>, f: map<int, GraphNode>, g: Dag<int>)
    requires graph.Adjacent() && exec.Sequenced() && WellFormed(graph.dag) && WellFormed(exec.clonedGraph.dag)
    requires WellFormed(g) && Renamed(f, g, graph.dag) && SameKinds(exec, graph, refused)
    requires LooseUpdate.SameCounts(g, exec.clonedGraph.dag)
    ensures Accepted(exec, graph, refused) && (Acyclic(graph.dag) <==> Acyclic(g))
    ensures LooseUpdate.SameEdges(graph.dag, exec.clonedGraph.dag) <==> LooseUpdate.SameEdges(g, exec.clonedGraph.dag)
  {
    hide *;
    LooseUpdate.CountsRenamed(f, g, graph.dag, exec.clonedGraph.dag);
    AcceptedExactly(exec, graph, refused);
  }

  /** The nodes among the first k whose command can be created. */
  ghost function Creatable(nodes: seq<GraphNode>, k: nat): (r: seq<GraphNode>)
    requires k <= |nodes|
    reads nodes`commandFails
    ensures |r| <= k && ((forall i | 0 <= i < k :: !nodes[i].commandFails) ==> r == nodes[..k])
  {
    if k == 0 then []
    else if nodes[k - 1].commandFails then Creatable(nodes, k - 1)
    else Creatable(nodes, k - 1) + [nodes[k - 1]]
  }

  /** The usable streams are parallel streams on other hardware queues, in the same order. */
  lemma {:induction false} UsableAt(launch: HipStream, parallel: seq<HipStream>, k: nat, i: nat, j: nat)
        returns (a: nat, b: nat)
    requires k <= |parallel| && i < j < |Usable(launch, parallel, k)|
    ensures a < b < k && Usable(launch, parallel, k)[i] == parallel[a] && Usable(launch, parallel, k)[j] == parallel[b]
    ensures parallel[a].queueId != launch.queueId && parallel[b].queueId != launch.queueId
  {
    if j < |Usable(launch, parallel, k - 1)| {
      a, b := UsableAt(launch, parallel, k - 1, i, j);
    } else {
      a := UsableOne(launch, parallel, k - 1, i);
      b := k - 1;
    }
  }

  lemma {:induction false} UsableOne(launch: HipStream, parallel: seq<HipStream>, k: nat, i: nat) returns (a: nat)
    requires k <= |parallel| && i < |Usable(launch, parallel, k)|
    ensures a < k && Usable(launch, parallel, k)[i] == parallel[a] && parallel[a].queueId != launch.queueId
  {
    if i < |Usable(launch, parallel, k - 1)| {
      a := UsableOne(launch, parallel, k - 1, i);
    } else {
      a := k - 1;
    }
  }

  /** Slots run out exactly when two or more parallel streams share the launch stream's
      hardware queue. */
  lemma UsableSuffices(launch: HipStream, parallel: seq<HipStream>)
    ensures |Usable(launch, parallel, |parallel|)| >= |parallel| - 1 <==> |Colliding(launch, parallel, |parallel|)| <= 1
  {
    UsableCount(launch, parallel, |parallel|);
  }

  ghost function Colliding(launch: HipStream, parallel: seq<HipStream>, k: nat): set<nat>
    requires k <= |parallel|
  {
    set i: nat | i < k && parallel[i].queueId == launch.queueId
  }

  lemma {:induction false} UsableCount(launch: HipStream, parallel: seq<HipStream>, k: nat)
    requires k <= |parallel|
    ensures |Usable(launch, parallel, k)| + |Colliding(launch, parallel, k)| == k
  {
    if k > 0 {
      UsableCount(launch, parallel, k - 1);
      var fewer := Colliding(launch, parallel, k - 1);
      assert Colliding(launch, parallel, k) == if parallel[k - 1].queueId == launch.queueId then fewer + {k - 1}
        else fewer;
    }
  }

  lemma {:induction false} CreatableOnly(nodes: seq<GraphNode>, k: nat, n: GraphNode)
    requires k <= |nodes| && n.commandFails
    ensures n !in Creatable(nodes, k)
  {
    if k > 0 {
      CreatableOnly(nodes, k - 1, n);
    }
  }

  lemma CreatableNext(nodes: seq<GraphNode>, k: nat)
    requires k < |nodes|
    ensures Creatable(nodes, k + 1) == Creatable(nodes, k) + if nodes[k].commandFails then [] else [nodes[k]]
  {
  }

  /** Each creatable node among the first k has its command where the log holds it. */
  ghost predicate Placed(nodes: seq<GraphNode>, k: nat, from: nat)
    requires k <= |nodes|
    reads nodes`commandFails, nodes`command
  {
    forall i | 0 <= i < k && !nodes[i].commandFails :: nodes[i].command == from + |Creatable(nodes, i)|
  }
}
