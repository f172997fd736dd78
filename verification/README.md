# TrainSimulator in Dafny

This project models the engine of TrainSimulator, a discrete-tick rail
simulation written in C++. It covers five parts:

- **Rail components.** Connectors hold a set of available segments and a
  selected through pair. Segments have a length, a connector and an optional
  signal per direction. Terminators bind one segment.
- **The network builder and router.** `RailNetwork`: `AddSegment`,
  `AddTerminator`, `RouteSegment`, `SetSignal`.
- **The Dijkstra traffic controller.** It finds the shortest direction-consistent
  path for a train, commits paths by switching connectors, and caches one path
  per train.
- **The train state machine.** A train is `RUNNING`, `CRASHED` or `SUCCESS`.
  Each tick it advances one unit inside a component or traverses at the end
  of one. Collisions are checked with a direction-agnostic location.
- **The simulation loop.** Each tick runs the controller, conducts each
  running train followed by its collision scan, and retires trains that are no
  longer running. `ValidateResults` reports the outcome.

**The arena.** Components live in a `map<CompId, Component>`, where a
`Component` is a segment, a junction (a plain `Connector`) or a terminator.
Handles stand for the pointers the original compares. The network also keeps
the registered segment, connector and terminator lists, plus the next free
handle. Trains live in a `map<TrainId, Train>`, and the running and finished
lists are sequences of train ids.

**Undefined behaviour and exceptions.** The original's failures are handled
in three ways:
- **Map lookups that throw.** `Segment` reads and writes its connector and
  signal maps with `std::map::at`, which throws `out_of_range` on an absent
  key (src/RailComponents.cpp:102, :133, :137, :142). The constructor leaves
  both maps empty, so as written the first `GetNext`, `Connect` or
  `AddSignal` on a fresh segment throws. The model follows the evident
  intent instead: a write is a map update and `GetNext` an `Option` lookup.
- **A precondition, when the caller controls it.** This covers a null
  connector on the end being routed or traversed. `Closed` requires every
  segment to have connectors on both ends, and `CanRoute` and `ClosedOn`
  are the narrower versions.
- **No result, when it can arise in the middle of a simulation.** `ServeTrain`,
  `UpdateRailNetwork`, `Tick` and `Run` return `None` in two cases. One is an
  empty path handed to `setPath`, where the unsigned `size() - 1` wraps. The
  other is a search for a train that is not on a segment, which dereferences
  a null `dynamic_cast`.

**Optimality needs both sides wired.** The builder wires only the segment
side of every link. Connectors' available sets and terminators' bound
segments stay empty, so no train can pass a junction or reach a terminator.
`RailNetwork.Link` is a model-only helper that performs the connector-side
`Connect`. The path finder's optimality and completeness are stated for
networks where both sides are wired (`Linked`). `BuiltLineUnlinked` and
`LinkingReachesLinked` show that a built line is not linked and that
linking its junction ends makes it so, so the hypothesis can be met.

**Behaviour of the code that is easy to miss:**
- A blocked tick still resets the train's offset to 0. The train then drives
  its whole component again.
- A train at the end of a component spends one tick of its own on each
  traversal. So on the line that `Simulator::Build` lays out
  (src/TrainSimulator.cpp:23-27), the route over segments of lengths 20, 20
  and 10 takes more than 50 ticks.
- The location seen from the opposite direction is `length - offset + 1`.
- `RouteSegment` calls `Select` on both connectors unconditionally.
- A switching fault and a red signal both return the source component, and
  the model does not tell them apart.
- `AddTerminator` overwrites an existing link after reporting it.

## Model

| member | source | states |
|---|---|---|
| RailDefinitions.ReverseDirection | src/include/RailDefinitions.h:18-20 | Never returns Unknown; the result is Down exactly when the input is Up, so everything else, Unknown included, goes to Up |
| RailDefinitions.ReverseInvolution | src/include/RailDefinitions.h:18-20 | Reversing twice gives back Up or Down |
| RailDefinitions.ReverseUnknown | src/include/RailDefinitions.h:19 | Unknown goes to Up and back to Down, so reversal is no involution on Unknown |
| Signals.SetState | src/include/RailComponents.h:21-27 | After setting a state, GetState returns that state |
| Signals.SetStateOverwrites | src/include/RailComponents.h:25-30 | The last state set wins; a fresh signal reads Disabled |
| Connectors.Traverse | src/RailComponents.cpp:21-37 | The result is the source or a selected segment. From the first selected segment with a second one filled it is the second, and vice versa. From an unselected source, or with the partner slot empty, the source comes back |
| Connectors.TraverseReverses | src/RailComponents.cpp:21-37 | A successful traversal can be undone by traversing back from its result |
| Connectors.GetNext | src/RailComponents.cpp:39-51 | Gives available minus the source when the source is available, otherwise the empty set; never contains the source |
| Connectors.Connect | src/RailComponents.cpp:53-63 | Available grows by the target. Only the first empty selection slot is filled; a filled slot is never overwritten |
| Connectors.ConnectIdempotentOnAvailable | src/RailComponents.cpp:55 | Connecting the same segment twice leaves the available set as connecting once; an already available segment adds nothing |
| Connectors.Select | src/RailComponents.cpp:65-74 | Available never changes. When both segments are available the selection becomes exactly that pair; otherwise nothing changes |
| Connectors.SelectThenTraverse | src/RailComponents.cpp:65-74 | After an accepted Select, traversing from either segment of the pair yields the other |
| Connectors.FreshIsClosed | src/include/RailComponents.h:69-70 | A new connector has no successors, hands every train back and accepts no selection |
| Segments.New | src/RailComponents.cpp:85-88 | A new segment keeps its constructor length and has no connectors and no signals |
| Segments.GetSignalState | src/RailComponents.cpp:105-111 | Disabled on a direction without a signal |
| Segments.AddSignal | src/RailComponents.cpp:98-103 | The signal on the direction is Red; the other direction, the length and the connectors are unchanged |
| Segments.SetSignalState | src/RailComponents.cpp:113-120 | No change without a signal on the direction; otherwise only that direction's state changes, to the given one |
| Segments.GetNext | src/RailComponents.cpp:136-138 | Some connector exactly when one is linked on that end |
| Segments.Connect | src/RailComponents.cpp:140-143 | The given end leads to the target afterwards; the other end, the length and the signals are unchanged |
| Terminators.Connect | src/RailComponents.cpp:156-163 | Binds the first segment offered; an existing binding is kept |
| Terminators.Traverse | src/RailComponents.cpp:166-173 | Returns the terminator itself exactly when entered from its bound segment, otherwise the source |
| Terminators.FirstBindingWins | src/RailComponents.cpp:156-173 | After two Connect calls the first segment is bound: only it enters the terminator |
| RailNetwork.Length | src/include/RailComponents.h:54-56 | A junction or a terminator has length 0 |
| RailNetwork.NewSegment | src/include/RailComponents.h:138-140 | A fresh segment of the given length is allocated; nothing that existed changes and no list grows |
| RailNetwork.AddSegment | src/RailNetwork.cpp:29-47 | The network stays well formed and its lists only grow. The new segment has a fresh handle and the given length, and is appended to the segment list. No component other than `src` changes, so no connector's available set or selection changes |
| RailNetwork.AddSegmentReuses | src/RailNetwork.cpp:30-31 | With a connector already on end `d`, no connector is created and `src` is untouched. The new segment's opposite end leads to that connector; its other end is open |
| RailNetwork.AddSegmentCreates | src/RailNetwork.cpp:31-46 | With end `d` open, exactly one fresh junction is appended to the connector list. End `d` of `src` and the new segment's opposite end both lead to it. `src` keeps its other end, its length and its signals |
| RailNetwork.AddTerminator | src/RailNetwork.cpp:71-81 | A fresh terminator is appended to the terminator list and end `d` of `src` leads to it, even over an existing link. Nothing else changes |
| RailNetwork.AddTerminatorComps | src/RailNetwork.cpp:71-81 | The terminator takes the next free handle, end `d` of `src` leads to it, and no other component changes |
| RailNetwork.SetSignal | src/RailNetwork.cpp:64-66 | The network is left as it is |
| RailNetwork.SelectAt | src/RailComponents.cpp:65-74 | Applies Select to one connector of the arena. The topology is kept, and every other component and the lists are unchanged |
| RailNetwork.RouteSegment | src/RailNetwork.cpp:52-59 | Only `src`'s two connectors may change, and the topology is kept. Each end's connector that accepts (`src`, `dst`) ends up selecting exactly that pair; a connector that rejects is left exactly as it was |
| RailNetwork.RejectedRouteUnchanged | src/RailNetwork.cpp:52-59 | When neither connector accepts, routing leaves the network exactly as it was |
| RailNetwork.SameTopologyRouting | src/RailNetwork.cpp:52-59 | Whether a segment can be routed, and whether a route is accepted, do not depend on the current selections |
| RailNetwork.Traverse | src/RailComponents.cpp:126-134 | A segment with a red signal on the departing end returns the source. Otherwise it hands over to the connector on that end. The result is the source, a segment or a terminator |
| RailNetwork.RouteThenTraverse | src/RailNetwork.cpp:52-59 | Once routing switched a junction on end `e` of `src` to (`src`, `dst`), a train leaving `src` over that end, with no red signal there, arrives on `dst` |
| RailNetwork.Link | src/RailComponents.cpp:53-63 | Model-only connector-side wiring: the junction on end `d` becomes `Connectors.Connect` of it with `s`, so `s` is available and fills the first empty selection slot; a terminator there becomes `Terminators.Connect` of it with `s`. No segment, list or other component changes |
| RailNetwork.LinkProgress | src/RailComponents.cpp:53-63 | Linking one end wires that end on the connector side, keeps every end already wired and keeps a closed network closed |
| RailNetwork.BuiltLineUnlinked | src/RailNetwork.cpp:29-81 | A two-segment line built with `NewSegment`, `AddSegment` and `AddTerminator` is well formed and closed, yet not linked: its junction offers segment 0 no successor |
| RailNetwork.LinkingReachesLinked | src/RailComponents.cpp:53-63 | Linking the two junction ends of that line makes it linked, and the junction then leads from each segment to the other |
| Trains.New | src/include/Train.h:119-135 | A new train is running at offset 0, with no distance, no stopped time and no destination |
| Trains.ReverseDirection | src/include/Train.h:48-50 | Only the direction changes: Down exactly when it was Up, never Unknown |
| Trains.ReverseTwice | src/include/Train.h:48-50 | Turning around twice restores a train heading Up or Down |
| Trains.SetDestination | src/include/Train.h:90-92 | Only the destination changes |
| Trains.Conduct | src/Train.cpp:13-44 | A train that is not running is untouched. Inside a component, offset and distance grow by exactly one. At the end, the train lands on the traversal's result at offset 0, and the stopped time grows exactly when that is the current component. It succeeds exactly when it lands on its destination. The position invariant `offset <= length` is kept |
| Trains.AdvanceWithin | src/Train.cpp:19-24 | `n` ticks that stay inside a component add exactly `n` to offset and distance and change nothing else |
| Trains.NotifyCollided | src/Train.cpp:46-50 | The train is crashed whatever its state, success included; nothing else changes |
| Trains.Location | src/Train.cpp:66-72 | The offset in the train's own direction, otherwise `length - offset + 1`; never negative for a placed train |
| Trains.CheckCollision | src/Train.cpp:52-64 | True exactly when both trains are on one component at the same location in the first train's direction. Then both are crashed; otherwise neither changes |
| Trains.CollisionSymmetric | src/Train.cpp:52-64 | The verdict is the same with the trains swapped: equal offsets in the same direction, offsets summing to `length + 1` in opposite directions |
| Trains.ClosedCanConduct | src/Train.cpp:27 | On a network whose segments all have both connectors, a heading train can always be conducted |
| PathGraph.Seed | src/DjikstraTrafficController.cpp:58-71 | The first entry holds the path made of the start segment, with that segment's length. Its vertex is the connector in the train's direction. It is a valid entry |
| PathGraph.ExtendValid | src/DjikstraTrafficController.cpp:87-94 | Extending a valid entry by a successor of its vertex appends that segment and adds its length. The new vertex is the segment's connector in the fixed direction, and the entry stays valid: a walk from the start whose distance is its length |
| PathGraph.MinExists | src/DjikstraTrafficController.cpp:75-76 | A non-empty frontier has an entry of least distance, which any pop may take |
| PathGraph.UnsettledShrinks | src/DjikstraTrafficController.cpp:109-111 | A strict improvement of a recorded best shrinks the bounded measure of unsettled distances, which makes the search terminate |
| PathGraph.SameTopologyRoutes | src/DjikstraTrafficController.cpp:87-94 | Routes and their lengths are the same on networks differing only in connector selections |
| PathFinder.StepPush | src/DjikstraTrafficController.cpp:109-111 | Pushing an extension strictly better than the recorded best, and recording its distance, keeps the search invariant. The recorded bests never get worse |
| PathFinder.StepSkip | src/DjikstraTrafficController.cpp:113-115 | Skipping an extension no better than the recorded best keeps the search invariant |
| PathFinder.Expand | src/DjikstraTrafficController.cpp:87-116 | Relaxing every successor of a popped entry keeps the search invariant, with that entry expanded. The bests never get worse, and something strictly improves unless nothing was pushed |
| PathFinder.AtDestination | src/DjikstraTrafficController.cpp:78-82 | A least entry at the destination holds a route, and on a linked network no route is shorter |
| PathFinder.Exhausted | src/DjikstraTrafficController.cpp:119-121 | An empty frontier on a linked network means no route exists |
| PathFinder.FindShortestPath | src/DjikstraTrafficController.cpp:39-122 | A non-empty result is a route from the train's segment, in its direction, to the destination. On a linked network it is no longer than any route, and an empty result means there is none |
| TrafficController.FirstReject | src/DjikstraTrafficController.cpp:126-129 | The index of the first rejected pair: every pair before it is accepted, it is rejected unless it is the last segment, and it is the last segment exactly when the path commits |
| TrafficController.FirstRejectKeeps | src/DjikstraTrafficController.cpp:126-129 | Where committing stops, and which connectors it may touch, do not depend on the selections |
| TrafficController.SetPath | src/DjikstraTrafficController.cpp:124-131 | True exactly when every consecutive pair is accepted, and a one-segment path changes nothing and commits. Routing stops at the first rejected pair: only connectors at the ends of segments routed before it may change. The last pair routed, the final one of a committed path, is switched on each accepting end. The topology is kept |
| TrafficController.SetPathSwitches | src/DjikstraTrafficController.cpp:124-131 | Each pair before the first rejected one is routed in order. A connector that accepts none of the routed pairs keeps its selection. Each end of a routed segment that accepts its pair, and that no later routed pair selects, is left selecting that pair. Together these fix the final state of every connector |
| TrafficController.ServeTrain | src/DjikstraTrafficController.cpp:17-32 | A cached path is reused unchanged without a search. Otherwise the searched path is cached only when non-empty, and it is a route that is shortest on a linked network. The path is then committed by SetPath. There is no result only for an uncached train off a segment or with no route |
| TrafficController.UpdateRailNetwork | src/DjikstraTrafficController.cpp:15-37 | Trains are served in order. Each set path failed except the last, which committed, or all trains were served. Cached paths never change, exactly the served trains are added, and every searched path is a shortest route |
| Simulator.CheckTrainCollision | src/TrainSimulator.cpp:89-98 | Hits exactly when some other running-list member collides, whatever its state. The first such member and the train are crashed; without a hit nothing changes |
| Simulator.CollisionOnlyCrashes | src/TrainSimulator.cpp:89-98 | A collision scan only crashes trains, and touches nothing outside the scanned train and the running list |
| Simulator.ConductPass | src/TrainSimulator.cpp:54-62 | Every train of the running list from position `from` on took its turn: it is the result of `Conduct`, possibly crashed afterwards, or, already crashed before its turn, only crashed. Crashes come from collisions only: every train the pass crashes shares its component with another crashed train of the list, and an already crashed train is untouched. Trains before `from` change at most by a crash, trains off the list are untouched, and running trains stay placed |
| Simulator.LoneTrainUnhurt | src/TrainSimulator.cpp:89-98 | A train alone on the running list is exactly conducted and never crashed, since its scan skips the train itself |
| Simulator.SplitFacts | src/TrainSimulator.cpp:110-123 | Splitting a list into still-running and stopped trains loses and duplicates nothing |
| Simulator.RemoveFinished | src/TrainSimulator.cpp:110-123 | Exactly the running trains stay, in order; the others are appended to the finished list, in order. The combined multiset is preserved |
| Simulator.Tick | src/TrainSimulator.cpp:49-66 | There is no result only when some uncached running train cannot be served. Otherwise the network and cache are those of a controller pass over the running list, the trains are those of a conduct pass over it on that network, and the running list is split, in order, into still running and newly finished. Nothing is lost or duplicated and finished records are final |
| Simulator.Run | src/TrainSimulator.cpp:47-67 | Returns the trace of every state from the start: each state is the tick of the one before it. It ticks while trains run, within the fuel, and stopping early means the running list is empty or the last state is stuck |
| Simulator.AllSucceeded | src/TrainSimulator.cpp:74-77 | The left-to-right conjunction over the finished list is true exactly when every finished train succeeded |
| Simulator.ValidateResults | src/TrainSimulator.cpp:72-84 | True exactly when every finished train succeeded and the running list is empty |

## Left out

- Logging and printing, `PrintStatus`, `PrintState`, `PrintDirection`, `GetInfo` and all names: output only.
- Destructors and `free` of `new`'d objects, and `ComponentFactory`: the arena replaces ownership, and `NewSegment` allocates directly.
- `Simulator::Build` and `main`: `Build` calls builder operations that the network source does not define. It is scenario data, not engine behaviour.
- `Connector::Fix` and the stale interface headers: `Fix` is empty and the headers declare members that the implementation lacks or contradicts.
- `checkTrainSucceeded`: `Run` discards its result, so it has no effect on the simulation.
- `GetState`, `GetCurrentComponent`, `GetDirection` and `GetDestination`: plain field reads of the train record. Neither `GetDirection` nor `GetDestination` is declared in `Train.h`; they are read as the direction and destination fields.
- Run: bounded by a `fuel` count of ticks, because the original loops forever while an unroutable train keeps running. Runs longer than the fuel are not modelled.
- FindShortestPath: optimality and completeness are stated only for `Linked` networks. Without connector-side wiring, the first entry to reach a connector can hold the best distance there while the connector offers it no successors.
- FindShortestPath: the pop takes any entry of least distance. The priority queue's tie-breaking order is not modelled.
- FindShortestPath: the `UINT32_MAX` sentinel and 32-bit distances are modelled as unbounded naturals with "no record" as infinity, so overflow is not modelled.
- Trains.Location: the unsigned result of `length - offset + 1` is an integer; it never wraps, because `offset <= length` is kept.
- ServeTrain: an empty path committed by `setPath`, and a search for a train not on a segment, are undefined in the original and give no result.
- RailNetwork.RouteAccepted: the original `RouteSegment` returns nothing, yet the controller uses its result as a boolean. The model reads it as "one of the two `Select` calls accepted", a modelling choice.
- `std::map::at` on an absent key throws `out_of_range`; it is modelled as a map update and an `Option` lookup, so the model builds networks the original as written cannot.
- Trains.Conduct: the 32-bit wrap-around of the `unsigned int` counters `mDistanceTraveled` and `mStoppedTime` (src/include/Train.h:131, :133) is not modelled. They are unbounded naturals, so `Moved`'s `distance` and `stopped` never decrease, which the original breaks after 2^32 increments.
- Concurrency: the original has none.
