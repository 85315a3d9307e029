# HIP graphs: scheduling, launching, editing and the code around them

This project models the graph part of the HIP runtime and proves what it is for. A HIP graph
is a mutable DAG of nodes. Instantiating it clones the graph, orders it with Kahn's algorithm
and spreads the nodes over at most Q virtual streams (Q is `DEBUG_HIP_FORCE_GRAPH_QUEUES`)
by a depth-first walk. Launching it walks the graph depth first again and puts one command per
node on several in-order queues, with wait lists cut down to the latest launch per foreign
stream, and with no wait list at all for late sole children. In effect this compiles a DAG to
a multi-queue program with most synchronisation elided.

Two things are taken from the layer below: queues run in order, and a command starts only
after its wait list completes. Everything enqueued goes to one log; "happens before" is the
transitive closure of "earlier on the same queue" and "in the wait list"
(`Streams.Before`).

How the parts fit together:

- `Dags`, `Kahn`, `Editing`, `Capturing`, `Cloning`, `Scheduling`, `Launching`, `Walking`: graphs,
  schedules and launches as values, with one function per operation of the runtime and the
  theorems about it.
- `Linking`, `CaptureOrder`, `QueueOrder`, `Visiting`, `Turns`, `WaitLists`: what those functions
  compute, told without them. Each edge call by the edges it leaves, a capture by what it puts in
  order, and the topological order, the schedule, the launch order and the wait lists by rules
  that say of every next node which one it is, where it runs and what it waits for.
- `LaunchSoundness`, `Ordering`, `Fencing`, `Delivery`, `Meaning`: what a whole launch guarantees.
  `Delivery.Delivered` is the guarantee itself: every node runs exactly once, every edge is
  respected, and the launch stream is joined.
- `Graphs`, `Executing`: the runtime's objects (`GraphNode`, `Graph`, `CaptureStream`,
  `GraphExec`) as classes. Their methods update fields in place, loop and recurse as the source
  does, and are proved against the functions above.
- `WideFanout`, `FailedLaunch`, `LooseUpdate`: what goes wrong, with inputs and exact conditions.
- `CloneOrder`, `EndToEnd`: a clone is scheduled and launched as its original would be, so that
  instantiating and launching a graph computes what the graph's own topological order computes
  under a condition on the graph itself.
- `KernelArgs`, `UserObjects`, `OwnedObjects`, `TargetIds`, `FatBinaries`: the kernel-argument
  allocator, reference counts shared between graphs and the application, target IDs and the choice
  of code objects.

## What turned out to be false, and what holds instead

- **The skipped wait is not always covered.** A sole child that comes after the first Q children of
  its parent is launched without a wait list. `WideFanout.WideFanoutLosesEdge` gives a graph that
  is left with an unordered edge on two streams by every launch, and `WideFanout.WideFanoutHappens`
  one such launch. `Delivery.DeliveredByOrder` gives
  the exact condition, on the graph and its streams alone: between the only parent and the node,
  the launch order has something on the node's own stream. `Walking.NarrowBridgeable` and
  `Walking.EldersBridgeable` give two simple conditions that are enough (on the graph alone:
  `Walking.NarrowOrderly`, `Walking.EldersOrderly`; captured graphs meet what the latter asks of
  the vertex order), and `CloneOrder.OrderlyCommutes` carries the condition over to clones.
- **A failed launch leaves its launch ids behind**, and the next one reports success all the same.
  `Walking.FailedLaunchLeaves`: exactly the nodes before the first one in the launch order whose
  command cannot be created stay launched. `LaunchSoundness.AnyLaunch`: a later launch succeeds
  exactly when every command still to be launched can be created. `Delivery.LaunchDelivers` gives
  the exact condition, for a launch from any state: it delivers the graph exactly when it began
  idle and its skipped waits are bridged; `FailedLaunch.RetryDeliversExactly` states it for the
  launch after a failed one. Such a launch enqueues nothing a second time
  (`Delivery.StaleIsMissing`), and what it does enqueue can be out of order: kept launch ids
  compete with new ones that start again at 0 (`FailedLaunch.SmallerIdHidden`).
  `FailedLaunch.RetryLosesEdge` is a six-node graph, with no node of more than Q children, that
  loses an edge in every such launch, and `FailedLaunch.RetryHappens` shows that it comes about.
- **The single-stream path reports only its last node.** `Executing.GraphExec.EnqueueGraphWithSingleList`
  states the status and the log exactly: nodes whose command cannot be created are passed over.
- **An update does not notice different edges.** It compares how many dependencies nodes have
  (`Executing.AcceptedExactly`). `LooseUpdate.UpdateKeepsEdgesExactly` gives the exact condition on
  the executable's graph: every acyclic graph that is accepted has its edges exactly when each of
  its nodes depends on none of those before it in the order, or on all of them.
  `LooseUpdate.SomeAccepted` builds an accepted graph with other edges for every graph that fails
  the condition; the smallest case is `LooseUpdate.UpdateMissesEdges`.
- **An update does not notice cycles either**: the result of the topological sort is not looked at.
  `LooseUpdate.CyclicAccepted`: for every executable graph, a graph with two extra nodes on a cycle
  is accepted. `LooseUpdate.AcceptedIsWhole`: an accepted graph is acyclic exactly when it has as
  many nodes. `Executing.SourceMatches`: updating from the source graph pairs every node with its
  own clone.
- **A space is accepted as a feature character.** So `gfx908` and `gfx908:sramecc ` parse alike, and
  compatibility is antisymmetric only on strings without such a space.
  `TargetIds.DeterminedExactly` and `TargetIds.AloneExactly` give the exact conditions.
- **Masking aligns only to powers of two**, and a request fails exactly when it fits no chunk, after
  taking every chunk the device has (`KernelArgs.AlignsExactly`, `KernelArgs.FailsExactly`).
- **One removed leaf excuses all.** The end of capture reports unjoined streams exactly as
  `Capturing.JoinVerdict` says; a single leaf that the application took out of a stream's
  dependencies silences the report for every other leaf.

## Model

| member | source | states |
|---|---|---|
| Editing.EraseMembers | hipamd/src/hip_graph_internal.hpp:336-345 | removing a node from an edge or dependency list leaves every other element and no occurrence of it |
| Graphs.GraphNode.Copy | hipamd/src/hip_graph_internal.hpp:232-243 | a copied node keeps type, parameters and degree counters, and has no edges, no graph, no stream and no launch id |
| Graphs.GraphNode.RemoveEdgeDep | hipamd/src/hip_graph_internal.hpp:356-368 | an edge is removed on both sides and both counters drop, or nothing changes and the caller is told |
| Graphs.Graph.AddNode | hipamd/src/hip_graph.cpp:54-82 | the node is appended and linked to its parents in order; an invalid or repeated parent is refused with node and earlier edges in place; the adjacency invariant holds either way |
| Graphs.Graph.RemoveNode | hipamd/src/hip_graph_internal.cpp:126-129 | the node leaves the vertex list, every list of its neighbours and the registry, with degree counters still equal to list lengths |
| Graphs.Graph.AddDependencies | hipamd/src/hip_graph.cpp:1744-1779 | all pairs are validated before any edge is added; an existing edge stops the call with earlier edges kept; adjacency invariant kept |
| Graphs.Graph.RemoveDependencies | hipamd/src/hip_graph.cpp:2014-2030 | edges go one by one; a foreign node or missing edge stops the call with earlier removals kept; adjacency invariant kept |
| Graphs.Graph.DestroyNode | hipamd/src/hip_graph.cpp:2136-2152 | unknown nodes and memory nodes are refused unchanged; any other node is removed |
| Editing.EditsWellFormed | hipamd/src/hip_graph_internal.hpp:326-376 | over every sequence of edits, failing calls included, edge and dependency lists mirror each other, have no duplicates and stay inside the vertex list |
| Linking.ConnectExactly | hipamd/src/hip_graph.cpp:1744-1779 | adding edges succeeds exactly when every pair names two different nodes of the graph, is no edge yet and is not repeated; nothing is added if some pair does not name two different nodes, and otherwise exactly the pairs before the first that is an edge or repeated, in order, behind what both lists held |
| Linking.DisconnectExactly | hipamd/src/hip_graph.cpp:2014-2030 | removing edges succeeds exactly when every pair is an edge and none is repeated; exactly the pairs before the first offender go, and what is left of every list keeps its order |
| Linking.DisconnectRestores | hipamd/src/hip_graph.cpp:2014-2030 | removing the edges that a successful call added gives back the graph, down to the order of its lists |
| Capturing.AttachExact | hipamd/src/hip_graph.cpp:54-69 | adding dependencies succeeds exactly when all are live, in the graph and different, and then appends them in order on both sides |
| Capturing.RemoveRestores | hipamd/src/hip_graph.cpp:1093-1130 | adding the temporary node and removing it restores every vertex, edge and dependency list, even if adding it failed half way |
| Capturing.OneLeafIffJoined | hipamd/src/hip_graph.cpp:1093-1099 | with the temporary node, an acyclic captured graph has one leaf exactly when every node is a last captured node or leads to one |
| Capturing.JoinVerdict | hipamd/src/hip_graph.cpp:1099-1126 | unjoined streams are reported exactly when some leaf is neither continued nor added by hand and no such leaf was removed from a stream's dependencies |
| Graphs.Graph.EndCapture | hipamd/src/hip_graph.cpp:1093-1130 | the join test returns that verdict and leaves vertices, edges, dependencies, degrees and the registry as they were |
| Graphs.CaptureStream.AddCrossCapturedNode | hipamd/src/hip_internal.hpp:403-417 | the last captured nodes are replaced or extended by the new ones without duplicates; replaced ones are remembered as removed |
| Graphs.CaptureStream.SetLastCapturedNode | hipamd/src/hip_internal.hpp:394-397 | the captured node becomes the stream's only dependency |
| Capturing.CaptureStarts | hipamd/src/hip_internal.hpp:394-417 | an empty capture meets what the two following statements ask of their start |
| Capturing.CaptureAcyclic | hipamd/src/hip_graph.cpp:54-69 | over every run of a capture, every edge goes from an earlier to a later node, so the graph stays acyclic, and single parents come first in the vertex list; which edges there are, the statements on CaptureOrder say |
| Capturing.CaptureNeverRefuses | hipamd/src/hip_internal.hpp:394-417 | over every run of a capture, the last captured nodes stay valid and duplicate-free, so adding the next node behind them is never refused |
| CaptureOrder.EnqueueLinks | hipamd/src/hip_graph.cpp:267-268 | a captured node depends on exactly the nodes last remembered for its stream, in order, gets the last place in the edge lists of each, and is then all the stream remembers |
| CaptureOrder.RemembersExactly | hipamd/src/hip_internal.hpp:394-417 | what each action makes each stream remember, and which nodes it counts as removed: waiting for an event adds the nodes it notes, an update of dependencies adds the given ones or puts them in place; an event recorded on a stream that remembers nothing keeps what it noted before |
| CaptureOrder.StreamInOrder | hipamd/src/hip_graph.cpp:54-69 | over every run of a capture: of two nodes enqueued on one stream, with nothing replaced for it in between, a path leads from the earlier to the later |
| CaptureOrder.RecordedReaches | hipamd/src/hip_event.cpp:405-415 | over every run of a capture: everything a stream remembers when an event is recorded on it comes before each node that a stream enqueues after waiting for the event |
| CaptureOrder.EventInOrder | hipamd/src/hip_stream.cpp:470-481 | over every run of a capture: a node enqueued before the event is recorded comes before a node enqueued on a stream that waited for the event |
| Kahn.KahnCorrect | hipamd/src/hip_graph_internal.cpp:235-260 | the order has as many nodes as the graph exactly when the graph is acyclic, and is then a topological order of all vertices |
| QueueOrder.OrderExactly | hipamd/src/hip_graph_internal.cpp:235-260 | on any graph the order lists first the nodes without dependencies as the vertex list has them, then every other node in the order in which its last dependency is listed, those that share it as its edge list has them |
| Graphs.Graph.TopologicalOrder | hipamd/src/hip_graph_internal.cpp:235-260 | the queue-and-counter loop appends that order and reports whether the list is as long as the vertex list |
| Graphs.Graph.Clone | hipamd/src/hip_graph_internal.cpp:262-301 | the clone repeats vertices, edges and dependencies in order over new nodes only; its root table still names the original's nodes |
| Cloning.RenamedWellFormed | hipamd/src/hip_graph_internal.cpp:262-288 | a clone keeps the adjacency invariant |
| Cloning.OrderCommutes | hipamd/src/hip_graph_internal.cpp:235-288 | the topological order of the clone is the image of the original's, position by position |
| Cloning.CloneAcyclic | hipamd/src/hip_graph_internal.cpp:262-288 | a clone is acyclic exactly when the original is |
| Scheduling.ScheduleSound | hipamd/src/hip_graph_internal.cpp:176-232 | on any graph, cyclic or not, every node gets one stream below Q, the source of every edge that crosses streams carries a signal (for which others do, see Visiting.ScheduleExactly), the stream count is exact and each root slot holds the first root of its stream |
| Visiting.ScheduleExactly | hipamd/src/hip_graph_internal.cpp:176-232 | on any graph, the whole schedule by its rule: next comes the first child left of the latest node that has one, as many streams after it as it has elder siblings, counting round; if there is none, the first vertex left, the t-th of these on stream t mod Q; and a node carries a signal exactly if it has a child on another stream or one that got its stream before the node did |
| Visiting.TreeSignals | hipamd/src/hip_graph_internal.cpp:183-190 | where no node has more than one parent and parents come first in the vertex list, a node carries a signal exactly if an edge leads from it to another stream |
| Scheduling.StreamTables | hipamd/src/hip_graph_internal.cpp:208-232 | every stream id and every root slot in use is below the stream count, and every extra stream with a root has its slot filled |
| Scheduling.SoleChildrenFan | hipamd/src/hip_graph_internal.cpp:198-203 | when single parents come first in the vertex list, the i-th child, if it has no other parent, runs i streams after its parent, counting round |
| Graphs.Graph.ScheduleOneNode | hipamd/src/hip_graph_internal.cpp:176-206 | the recursion, on any graph, assigns exactly the streams and signals of the schedule that Visiting.ScheduleExactly describes, and ends |
| Graphs.Graph.ScheduleNodes | hipamd/src/hip_graph_internal.cpp:208-232 | whatever an earlier schedule left, the fields afterwards hold the whole schedule |
| Graphs.Graph.UpdateStreams | hipamd/src/hip_graph_internal.cpp:474-490 | the launch stream first, then usable parallel streams in order; it fails exactly when there is no slot at all or usable streams run out before every slot is filled |
| Executing.UsableSuffices | hipamd/src/hip_graph_internal.cpp:481-489 | slots run out exactly when two or more parallel streams share the launch stream's hardware queue |
| Graphs.Graph.FindLatest | hipamd/src/hip_graph_internal.cpp:495-517 | either some dependency is not launched yet, or the scratch table is the one of the launch function, whose slots LaunchSoundness.SlotsAreLatest describes |
| Graphs.Graph.RunOneNode | hipamd/src/hip_graph_internal.cpp:493-579 | the recursive launch enqueues exactly the commands, wait lists, launch ids and leaf slots of the launch function, which WaitLists.LaunchWaitsExactly and Turns.TurnsExactly describe, and ends on any graph |
| Graphs.Graph.RunNodes | hipamd/src/hip_graph_internal.cpp:582-661 | start markers, vertex loop, end marker and the reset of launch ids are exactly those of a whole launch |
| LaunchSoundness.SlotsAreLatest | hipamd/src/hip_graph_internal.cpp:499-513 | the scratch table holds, for each stream other than the node's own, the dependency there with the largest launch id, and nothing else |
| WaitLists.PreciseExactly | hipamd/src/hip_graph_internal.cpp:499-513 | a node whose wait is not skipped waits exactly for the dependency launched last on each foreign stream, once and for one per stream, and for nothing on its own stream |
| WaitLists.EndMarker | hipamd/src/hip_graph_internal.cpp:631-650 | a finished launch ends with one marker on the launch stream that waits exactly, once each, for the leaf launched last on every extra stream, and with none if no extra stream has a leaf |
| WaitLists.LaunchWaitsExactly | hipamd/src/hip_graph_internal.cpp:600-650 | everything a finished launch enqueues: exactly one marker per extra stream with a root, waiting for the launch stream's last command alone; one command per node on its stream's queue with exactly the waits above, or none if skipped; and exactly that end marker |
| Turns.TurnsExactly | hipamd/src/hip_graph_internal.cpp:493-571 | the launch order by its rule, on any graph: next comes the first child that can be launched of the latest node that has one; if there is none, the first vertex that can be launched; it ends when nothing can |
| LaunchSoundness.LaunchComplete | hipamd/src/hip_graph_internal.cpp:493-661 | on an acyclic graph a launch succeeds exactly when every command can be created; then every vertex is launched once, ids are a bijection with dependencies first, and all ids are reset |
| LaunchSoundness.LaunchOrder | hipamd/src/hip_graph_internal.cpp:622-630 | the launch ids of a finished launch list the vertices in a topological order |
| LaunchSoundness.AnyLaunch | hipamd/src/hip_graph_internal.cpp:493-661 | from any state, idle or left by a failed launch, a launch of an acyclic graph succeeds exactly when every command still to be launched can be created; then every vertex is launched, all ids are reset and the log has only grown |
| LaunchSoundness.RetrySkipsLaunched | hipamd/src/hip_graph_internal.cpp:494 | from any state, a launch enqueues only nodes that had no launch id when it began |
| Walking.FailedLaunchLeaves | hipamd/src/hip_graph_internal.cpp:528-571 | a launch from an idle state fails exactly when some command cannot be created, and then leaves launched exactly the nodes before the first such node in the launch order, with their positions as launch ids |
| Delivery.StaleIsMissing | hipamd/src/hip_graph_internal.cpp:622-628 | a launch that began with some node launched never runs that node, whatever it reports |
| FailedLaunch.RetryDeliversExactly | hipamd/src/hip_graph_internal.cpp:622-661 | after a failed launch from an idle state, a launch that reports success delivers the graph exactly when the failed one stopped at the first node of the launch order and the skipped waits are bridged |
| FailedLaunch.SmallerIdHidden | hipamd/src/hip_graph_internal.cpp:502-509 | of two dependencies on one foreign stream, the one with the smaller launch id is not waited for |
| FailedLaunch.RetryLosesEdge | hipamd/src/hip_graph_internal.cpp:499-509 | a concrete six-node graph on two streams, no node with more than two children: every launch that fails at node 3, followed by one that can create every command, reports success and leaves node 4 unordered after node 3 |
| FailedLaunch.RetryHappens | hipamd/src/hip_graph_internal.cpp:600-628 | such launches exist, with the scheduler's own streams and root table |
| Ordering.CoveredOrders | hipamd/src/hip_graph_internal.cpp:499-513 | a node that, for each dependency, shares its stream or waits for something launched no earlier there is ordered after every dependency |
| Ordering.EdgesRespectedExactly | hipamd/src/hip_graph_internal.cpp:493-579 | the emitted log respects every edge exactly when each node with a skipped wait shares its stream with its parent or with something launched between the two |
| Ordering.NarrowRespects | hipamd/src/hip_graph_internal.cpp:560-571 | if no node has more than Q children, every edge is respected |
| Ordering.EldersRespect | hipamd/src/hip_graph_internal.cpp:198-203 | if single parents come first and every wide node's first Q children are sole children, the scheduler's streams make every skipped wait safe |
| Walking.LaunchTakesOrder | hipamd/src/hip_graph_internal.cpp:493-579 | a launch takes the nodes in an order given by the graph alone, whatever the streams and wait lists, and stops at the first node in it whose command cannot be created |
| Walking.BridgeableExactly | hipamd/src/hip_graph_internal.cpp:560-571 | the exact ordering condition can be decided before anything is launched |
| Walking.NarrowBridgeable | hipamd/src/hip_graph_internal.cpp:563-565 | graphs without wide nodes meet that condition |
| Walking.EldersBridgeable | hipamd/src/hip_graph_internal.cpp:198-203 | graphs whose wide nodes have sole children in front meet that condition under the scheduler's own streams |
| Walking.OrderlyIsBridgeable | hipamd/src/hip_graph_internal.cpp:560-571 | under the scheduler's streams the condition is one on the graph and the stream limit alone |
| Delivery.DeliveredExactly | hipamd/src/hip_graph_internal.cpp:582-661 | a finished parallel launch runs every node once, respects every edge and joins the launch stream exactly when its skipped waits are bridged |
| Delivery.DeliveredByOrder | hipamd/src/hip_graph_internal.cpp:560-571 | the same, with the condition read off the graph and its streams |
| Delivery.UnbridgedLosesEdge | hipamd/src/hip_graph_internal.cpp:563-565 | a node with a skipped wait and nothing to bridge it is not ordered after its parent |
| WideFanout.WideFanoutLosesEdge | hipamd/src/hip_graph_internal.cpp:560-571 | a concrete six-node graph on two streams that loses an edge in every launch |
| WideFanout.WideFanoutHappens | hipamd/src/hip_graph_internal.cpp:560-571 | such a launch exists and reports success, with the scheduler's own streams and root table and a queue of its own for each stream |
| Fencing.ForksAfter | hipamd/src/hip_graph_internal.cpp:603-620 | the launch stream's last earlier command happens before every node |
| Fencing.JoinsBefore | hipamd/src/hip_graph_internal.cpp:631-650 | every node happens before anything later on the launch stream |
| Delivery.ForkedExactly | hipamd/src/hip_graph_internal.cpp:603-620 | everything enqueued earlier on the launch stream happens before every node |
| Delivery.BackToBack | hipamd/src/hip_graph_internal.cpp:603-650 | of two launches on one stream, every node of the first happens before every node of the second |
| Delivery.LaterWorkWaits | hipamd/src/hip_graph_internal.cpp:644-650 | every node happens before any later command of the launch stream |
| Delivery.SingleDelivered | hipamd/src/hip_graph_internal.cpp:442-471 | one stream in topological order delivers the graph and waits for everything earlier |
| Delivery.LaunchDelivers | hipamd/src/hip_graph_internal.cpp:582-661 | a whole parallel launch from any state: it succeeds exactly when every command still to be launched can be created, is then idle, and delivers the graph exactly when it began idle and its skipped waits are bridged; then it also starts after all earlier work of the launch stream |
| Meaning.RespectfulAgree | hipamd/src/hip_graph_internal.cpp:235-260 | two orders that respect the graph compute the same memory when nodes without a path between them commute |
| Meaning.LaunchMeaning | hipamd/src/hip_graph_internal.cpp:442-661 | every completion order that a delivered log allows computes what a topological order on one stream computes |
| CloneOrder.ScheduleCommutes | hipamd/src/hip_graph_internal.cpp:176-232 | a clone is scheduled on the streams its original would be scheduled on |
| CloneOrder.LaunchOrderCommutes | hipamd/src/hip_graph_internal.cpp:493-579 | a launch takes the nodes of a clone in the order in which it would take the originals |
| CloneOrder.OrderlyCommutes | hipamd/src/hip_graph_internal.cpp:560-571 | whether all skipped waits of a clone are bridged is decided by its original |
| EndToEnd.LaunchComputesGraph | hipamd/src/hip_graph_internal.cpp:664-735 | every completion of a delivered launch of an instantiated graph computes what the source graph's own topological order computes |
| EndToEnd.LaunchGraph | hipamd/src/hip_graph_internal.cpp:664-735 | instantiating and launching: if the launch reports success, every command could be created and the source graph needs one stream or has its skipped waits bridged, every completion computes what the source graph's topological order computes |
| Executing.Instantiate | hipamd/src/hip_graph.cpp:1364-1408 | a cyclic graph is refused, and so is a second instantiation with memory nodes; otherwise the result is a scheduled, idle clone with its topological order and one stream per virtual stream, or out of memory |
| Executing.GraphExec.CreateStreams | hipamd/src/hip_graph_internal.cpp:316-334 | all requested streams, in order, or out of memory |
| Executing.GraphExec.EnqueueGraphWithSingleList | hipamd/src/hip_graph_internal.cpp:442-471 | the nodes whose command can be created, in order, on one stream; the status is that of the last node |
| Executing.GraphExec.Run | hipamd/src/hip_graph_internal.cpp:664-735 | a launch from any state: its exact status; the log only grows; on success the graph is delivered exactly when, on one stream, every command could be created or, in parallel, the clone was idle and its skipped waits are bridged, and then starts after all earlier work of the launch stream; a parallel launch that fails from an idle clone leaves launched exactly the nodes before the first that cannot be created |
| Executing.Update | hipamd/src/hip_graph.cpp:2514-2597 | it succeeds exactly when the orders are equally long and every pair passes; parameters are taken over pair by pair up to the first pair that does not match, which fails the call with the pairs before it done |
| Executing.SourceMatches | hipamd/src/hip_graph.cpp:2524-2536 | updating from the source graph pairs every node with its own clone and turns none down for type or degree |
| Executing.AcceptedExactly | hipamd/src/hip_graph.cpp:2524-2571 | of the two graphs' edges an accepted update has compared the numbers of dependencies alone |
| Executing.AcceptedKeepsEdges | hipamd/src/hip_graph.cpp:2524-2571 | an accepted update keeps the edges if each node of the clone depends on none or all of those before it, and comes from an acyclic graph exactly when that has as many nodes as the clone |
| Executing.AcceptedLike | hipamd/src/hip_graph.cpp:2524-2571 | node objects of the right kinds linked like a graph whose counts agree are accepted, and have the clone's edges exactly when that graph has |
| LooseUpdate.UpdateKeepsEdgesExactly | hipamd/src/hip_graph.cpp:2562-2571 | every acyclic graph an update accepts has the executable's edges exactly when each node of the executable's graph depends on none or all of those before it in the order |
| LooseUpdate.AllOrNoneSuffices | hipamd/src/hip_graph.cpp:2562-2571 | under that condition any accepted graph, of any nodes, acyclic or not, has the executable's edges between the nodes paired |
| LooseUpdate.SomeAccepted | hipamd/src/hip_graph.cpp:2562-2571 | whenever the condition fails there is an accepted acyclic graph with other edges |
| LooseUpdate.CyclicAccepted | hipamd/src/hip_graph.cpp:2524-2532 | for every executable graph a cyclic graph with two more nodes is accepted |
| LooseUpdate.AcceptedIsWhole | hipamd/src/hip_graph.cpp:2524-2532 | an accepted graph is acyclic exactly when it has as many nodes as the executable's graph |
| LooseUpdate.UpdateMissesEdges | hipamd/src/hip_graph.cpp:2562-2571 | two acyclic three-node graphs with different edges that pass every comparison an update makes |
| LooseUpdate.RootsFirst | hipamd/src/hip_graph_internal.cpp:235-260 | once a node of the topological order has a dependency, so have all that follow |
| LooseUpdate.SteadyOrder | hipamd/src/hip_graph_internal.cpp:235-260 | on graphs whose nodes depend on smaller ones and never on less recent ones than a smaller node, the order is the numbering, up to the nodes on cycles |
| KernelArgs.AlignsExactly | hipamd/src/hip_graph_internal.cpp:764-766 | rounding up by masking aligns every address exactly when the alignment is a power of two |
| KernelArgs.AlignUpLeast | hipamd/src/hip_graph_internal.cpp:764-766 | for powers of two, rounding up gives the least aligned address that is not below |
| KernelArgs.GraphKernelArgManager.AllocGraphKernargPool | hipamd/src/hip_graph_internal.cpp:738-759 | a new empty chunk of the given size, or failure with nothing changed |
| KernelArgs.GraphKernelArgManager.AllocKernArg | hipamd/src/hip_graph_internal.cpp:761-781 | the recursive allocator carries out the allocation function on its chunk list |
| KernelArgs.AllocSound | hipamd/src/hip_graph_internal.cpp:761-781 | one request adds a range inside one chunk that overlaps no earlier range and is aligned for powers of two, or fails with no chunk left |
| KernelArgs.ServeSound | hipamd/src/hip_graph_internal.cpp:761-781 | over every series of requests the ranges handed out never overlap, and each lies inside one chunk and is aligned for powers of two |
| KernelArgs.RetriesOnce | hipamd/src/hip_graph_internal.cpp:768-779 | a request that leaves room for alignment takes at most one new chunk and fails only when there is none |
| KernelArgs.FailsExactly | hipamd/src/hip_graph_internal.cpp:768-779 | a request fails exactly when it fits neither what is left of the current chunk nor any chunk to come, and has then taken them all, unused |
| KernelArgs.AllocExactly | hipamd/src/hip_graph_internal.cpp:761-781 | the address handed out: rounded up from the end of what is used of the current chunk if the request fits there, and otherwise from the start of the first chunk to come that it fits; chunks passed over stay unused, and the used part ends where the request ends |
| UserObjects.PerformBalanced | hipamd/src/hip_graph.cpp:2792-2890 | every call in which nobody gives away more than they hold keeps count = held by the application + held by graphs, owners mirrored, and no destroyed object in any graph; what each call changes, UserObjects.PerformExactly says |
| UserObjects.PerformExactly | hipamd/src/hip_graph.cpp:2792-2890 | what every such call changes, in counts: how many references the object gains or loses, how many of them the application and each graph gain or lose, when it is gone without a trace, and that nothing else changes; for create, retain, release, the graph's retain with and without move, its release, cloning and destroying |
| UserObjects.GraphReleasedExactly | hipamd/src/hip_graph.cpp:2869-2890 | a graph that gives back some references, be they more than it holds, loses exactly that many, and so does the object, which is gone from every graph if these were all; the call does nothing exactly if the count is refused, the graph does not hold the object or there are fewer references |
| UserObjects.ReleasedExactly | hipamd/src/hip_graph.cpp:2809-2829 | a release, by whoever holds the references, takes exactly that many from the object, which is gone with the last ones; asking for more than there are changes nothing |
| UserObjects.AlwaysBalanced | hipamd/src/hip_graph.cpp:2792-2890 | the same over every sequence of such calls |
| UserObjects.DropBalanced | hipamd/src/hip_graph_internal.hpp:517-541 | destroying a graph gives back what it holds and keeps the balance |
| UserObjects.CloneBalanced | hipamd/src/hip_graph_internal.cpp:289-295 | cloning a graph takes one reference per object and keeps the balance |
| OwnedObjects.UserObjectCreate | hipamd/src/hip_graph.cpp:2792-2807 | a new object with the initial count and no owner, or a refusal for a count of zero or beyond INT_MAX |
| OwnedObjects.UserObjectRelease | hipamd/src/hip_graph.cpp:2809-2829 | the release call in place: count lowered, or object struck from the object set and from every owning graph |
| OwnedObjects.GraphRetainUserObject | hipamd/src/hip_graph.cpp:2844-2867 | the graph's entry, the owner set and, unless moved, the count change together |
| OwnedObjects.GraphReleaseUserObject | hipamd/src/hip_graph.cpp:2869-2890 | the call in place changes fields, owner sets and graph entries as the function of UserObjects.GraphReleasedExactly does |
| OwnedObjects.CloneObjects | hipamd/src/hip_graph_internal.cpp:289-295 | the loop over the original's objects, in any order, does what cloning does to the books |
| OwnedObjects.DropObjects | hipamd/src/hip_graph_internal.hpp:517-541 | the loop over a dying graph's objects, in any order, does what destroying does to the books |
| TargetIds.PrintParses | hipamd/src/hip_code_object.cpp:528-536 | printing a target ID and parsing it gives back processor, sramecc and xnack |
| TargetIds.AcceptedShape | hipamd/src/hip_code_object.cpp:495-536 | an accepted string is the prefix, a processor without colon and two spelled features, and nothing else |
| TargetIds.ShapeAccepted | hipamd/src/hip_code_object.cpp:495-536 | every string of that shape is accepted and parsed as it is spelled |
| TargetIds.ThrowsCutOff | hipamd/src/hip_code_object.cpp:495-526 | the parser throws on strings that stop right after the name of a feature |
| TargetIds.ThrownIsCutOff | hipamd/src/hip_code_object.cpp:495-526 | it throws on no others |
| TargetIds.DeterminedExactly | hipamd/src/hip_code_object.cpp:519-536 | an accepted string is the printed form of its parse exactly when its features hold no space |
| TargetIds.RunsExactly | hipamd/src/hip_code_object.cpp:553-600 | plain code runs on exactly the devices of its own processor that have each feature it sets set alike; a feature it leaves open, or one only the device sets, asks nothing |
| TargetIds.GenericRunsExactly | hipamd/src/hip_code_object.cpp:453-490 | generic code runs on exactly the processors its target covers that have each feature it sets set alike, and where the two IDs are the same |
| TargetIds.RunsPartialOrder | hipamd/src/hip_code_object.cpp:553-600 | compatibility of plain code is reflexive and transitive on all strings, well-formed or not, and antisymmetric on those without a space in their features; its direction is TargetIds.RunsExactly |
| TargetIds.MutualExactly | hipamd/src/hip_code_object.cpp:553-600 | two strings are compatible both ways exactly when they are equal or parse alike, well-formed or not |
| TargetIds.AloneExactly | hipamd/src/hip_code_object.cpp:519-600 | an accepted string has no twin exactly when it sets both features |
| TargetIds.DescriptionParses | hipamd/src/hip_code_object.cpp:373-439 | the name derived from a code object's header parses back to its processor and feature settings |
| TargetIds.NamedByFlags | hipamd/src/hip_code_object.cpp:373-439 | from the flag word of version 4, 5 or 6, put together from its fields, to the name: each feature as its two bits say; the generic version is the top byte, in version 6 only |
| TargetIds.NamedByBits | hipamd/src/hip_code_object.cpp:373-439 | the same for version 3, with one bit per feature and no mark for a feature the processor lacks |
| TargetIds.UnnamedExactly | hipamd/src/hip_code_object.cpp:373-439 | no name exactly for code that is not of AMD GPUs, of an unknown processor or of another version |
| TargetIds.GenericNeverChains | hipamd/src/hip_code_object.cpp:453-490 | generic code for one target never makes that target a device for other generic code |
| TargetIds.GenericIsNotPlain | hipamd/src/hip_code_object.cpp:584-590 | no pair of different strings is compatible both as plain and as generic code |
| FatBinaries.NamesExactly | hipamd/src/hip_code_object.cpp:538-551 | exactly which bundle entries are named, after what, and that the bare word hipv4 throws |
| FatBinaries.FitsExactly | hipamd/src/hip_code_object.cpp:670-683 | a named entry fits exactly the devices that its target ID asks for, as plain code if its generic version is 0 and as generic code otherwise |
| FatBinaries.ChosenMeaning | hipamd/src/hip_code_object.cpp:670-683 | the image chosen is the first compatible one for a specific target, or else the last compatible one, and none exactly when no entry is compatible |
| FatBinaries.ChosenStays | hipamd/src/hip_code_object.cpp:671-676 | a chosen image is never lost, and one for a specific target never replaced |
| FatBinaries.TryEntry | hipamd/src/hip_code_object.cpp:670-683 | one entry against all devices keeps the counter equal to the number of devices without an image, and throws exactly when a comparison that is made throws |
| FatBinaries.ExtractCodeObjectFromFatBinary | hipamd/src/hip_code_object.cpp:645-687 | the loop stops at the first entry count that serves every device and returns what is chosen from the entries scanned |
| FatBinaries.SucceedsExactly | hipamd/src/hip_code_object.cpp:660-687 | it succeeds exactly when every device has a compatible entry of a recognised kind |

## Left out

- Child graphs: nodes that hold a graph of their own are not modelled, in scheduling or in launching; all graphs are flat.
- Disabled nodes and host-to-host copies: every node makes exactly one command.
- Memory allocation nodes beyond their refusal in `DestroyNode` and `Instantiate`: pools, automatic free on launch and the repeat-launch check are not part of this model.
- Packet capture (`DEBUG_CLR_GRAPH_PACKET_CAPTURE`) and the kernel-argument flush: device memory and hardware queues.
- Executing.GraphExec.Run: running out of parallel streams, an out-of-range read in a release build, and the empty graph, for which the source writes slot 0 of an empty table, are reported as a status of their own with nothing enqueued.
- Launching on another device than the one instantiated on, where a single-stream graph ignores failed creations, and the error paths of the closing markers.
- What nodes compute: a node's effect is any function on memory. `EndToEnd.LaunchGraph` asks that clones have the effect of their originals, whose kinds and parameters they copy.
- Executing.Update: whether new parameters are refused is an input, and the error codes for the different reasons are one status; the memory-copy direction counts as part of the node type.
- Machine integers: degree counters wrap below zero as in the source, but counts that grow (launch ids, reference counts, addresses) are unbounded.
- Order of destruction in `~GraphNode` and the node registry lock: threads and locks are not modelled, and a destroyed node is simply no longer live.
- `Graphs.Graph.WithoutManual` walks the set of hand-added nodes in an arbitrary order, as an unordered set does.
- Which last command of the launch stream is still queued is an input of `Run`; when the runtime reports none, all earlier work is taken to be done.
- KernelArgs.GraphKernelArgManager.AllocKernArg: the addresses of the chunks the device will hand out are an input, and whether the pool lives in device or host memory is not modelled.
- OwnedObjects: the destructor callback of a user object is not run, and releasing an object that was destroyed, which reads freed memory in the source, is a call without effect.
- TargetIds: the parser's string argument, which the source shortens in place, is returned as the remaining text; the table from machine codes to processor names is an input of `Header`.
- FatBinaries: reading the bundle header and compressed bundles is left out; entries are a sequence.
- The global lists of capturing streams and the statuses checked before the join test.
- IPC events, memory pools, ELF mapping, GL interop, DOT output and the dispatch table.
