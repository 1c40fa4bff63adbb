# RapidRoute routing-search core in Dafny

RapidRoute routes wide buses on Xilinx UltraScale+ fabric with RapidWright.
This project models three of its routing-search components and proves
properties about them.

- **FabricBrowser** does bounded breadth-first searches over the switch
  graph (the PIPs) of one interconnect tile:
  - the entering wires that can feed an exit junction;
  - the exiting wires an entrance junction can reach;
  - the intra-tile paths from an entrance to an exit, under a depth ceiling
    that adapts as paths are found;
  - a plain reachability test.

  Two wire-keyed caches sit in front of the fan-out searches. The model is
  the class `Browser.FabricBrowser`, whose fields are the caches and the
  global node footprint. Each search loop is a module-level method over a
  `Fabric` value. The device is the `Fabric` datatype: the tile's PIP list
  plus the RouteUtil classifiers as uninterpreted functions (direction,
  length, clock, buffer) and the junction constructors.
- **RouteTemplate** is the hop skeleton of a long-haul route. It is a
  sequence of junctions from source to sink with an adjusted cost that is
  kept up to date. Hops are pushed at index 1, and a sub-template can be
  spliced in, after which the cost is recomputed. It is modelled as the
  class `Templates.RouteTemplate` with a `seq<Junction>` field.
- **CustomRoute** is the per-bit detailed route. It has one tile-path slot
  per hop boundary, filled front to back, and a rotating pool of candidate
  paths per slot. Backtracking clears every slot after an index. It is
  modelled as the class `Routes.CustomRoute` over two arrays, with the
  invariant that the cost is the sum of the filled slots.

The contracts follow the Java code:

- The full cost recompute (`RouteTemplate.java:115-120`) restarts from
  `baseCost`. It judges every hop against the current `lastDirection`,
  which it does not update, and it adds to `orthogonalTurns` without
  resetting it.
- `baseCost` is never changed after construction.
- The copy constructor leaves `lastDirection` unset.
- `copyWithOffset` builds its copy from the template's `src` and `snk`
  fields, and the copy starts with zero costs.
- `replaceTemplate` takes the last matching index for the enter junction
  and the last for the exit junction. For the same junction the enter test
  wins, and each index stays 0 when nothing matches.
- The tile-path ceiling becomes `min(cost - 1 + 3, 8)` every time a path
  reaches the exit. It is not fixed by the first path found, so each result
  costs at most two more than the one before it. `Browser.WithinSlack`
  states this.
- In `isPathPossible` the exit test comes before the footprint and lock
  tests.

The code of `TilePath` itself is not modelled. A tile path is represented
by the datatype `TilePaths.TilePath`: the node sequence
`[entrance, buffers..., exit]` with cost equal to the number of hops.
`addNode` inserts the new node before the exit and refuses a node already
on the path. `new TilePath(entrance, exit)` is the one-hop path
`[entrance.node, exit.node]`.

## Model

| member | source | states |
|---|---|---|
| Elements.FromEnd | src/main/java/com/uwaterloo/watcag/router/elements/RouteTemplate.java:142-146 | a negative index i becomes size + i and a non-negative one stays, giving a valid index congruent to i |
| TilePaths.NodeName | src/main/java/FabricBrowser.java:241 | `getNodeName(-2)` is the node just before the exit and `getNodeName(-1)` is the exit; the name is always on the path |
| TilePaths.AddNode | src/main/java/FabricBrowser.java:257-261 | adding succeeds exactly when the node is not yet on the path; the node goes in before the exit, the prefix is kept and the cost grows by one |
| TilePaths.AddNodeKeepsSimple | src/main/java/FabricBrowser.java:259-261 | a path built by `addNode` never repeats a node (cycle prevention) |
| Browser.GetFwdPips | src/main/java/FabricBrowser.java:53-61 | the result is exactly the tile's PIPs whose start node is the given node |
| Browser.GetBkwdPips | src/main/java/FabricBrowser.java:63-71 | the result is exactly the tile's PIPs whose end node is the given node |
| Browser.FabricBrowser.constructor | src/main/java/FabricBrowser.java:11-41 | both fan-out caches and the global node footprint start empty, as the static field initialisers make them; the fabric and the lock set are the given inputs |
| Browser.FabricBrowser.SetGlobalNodeFootprint | src/main/java/FabricBrowser.java:43-45 | the global footprint becomes the given set |
| Browser.FabricBrowser.GetExitFanOut | src/main/java/FabricBrowser.java:77-88 | hit: the cache is unchanged and the result is one entrance junction per cached wire, in the exit's tile; miss: the entry is set to a fresh search whose every wire feeds the exit; no other entry changes |
| Browser.FabricBrowser.GetEntranceFanOut | src/main/java/FabricBrowser.java:94-106 | hit: the cache is unchanged and the result is one exit junction per cached wire, in the entrance's tile; miss: the entry is set to a fresh search whose every wire is fed by the entrance; no other entry changes |
| Browser.FabricBrowser.SearchExitFanOut | src/main/java/FabricBrowser.java:112-160 | the entry for the exit's wire is overwritten with the search result and no other entry changes; the result is the entrance junctions of those wires, and every wire feeds the exit |
| Browser.FabricBrowser.SearchEntranceFanOut | src/main/java/FabricBrowser.java:166-212 | the entry for the entrance's wire is overwritten with the search result and no other entry changes; the result is the exit junctions of those wires, and every wire is fed by the entrance |
| Browser.ExitFanOutSearch | src/main/java/FabricBrowser.java:118-150 | every recorded wire has a directed, non-local, non-clock entering wire on an unblocked node, and its PIP leads into a node that reaches the exit through usable buffers in fewer than 8 hops |
| Browser.ExpandBack | src/main/java/FabricBrowser.java:130-148 | expanding a node below depth 8 keeps every queued node reaching the exit and every recorded wire feeding it; the queue only grows, by entries at depth parent + 1 for nodes newly visited, at most one per node; every newly visited node is unblocked, every newly visited buffer is queued, and the visited set stays among the tile's nodes |
| Browser.VisitBack | src/main/java/FabricBrowser.java:131-148 | one PIP into the expanded node keeps the expansion's record: queue still reaching the exit, recorded wires feeding it, new entries one hop deeper for newly visited nodes only |
| Browser.BackFrontQueue | src/main/java/FabricBrowser.java:145-148 | visiting an unvisited, unblocked buffer queues it one hop deeper and keeps the queue reaching the exit and the record of newly visited nodes |
| Browser.BackFrontMark | src/main/java/FabricBrowser.java:148 | visiting an unvisited, unblocked node that is no buffer only marks it visited and keeps the record |
| Browser.EnqueuedVisit | src/main/java/FabricBrowser.java:145-148 | marking one more unblocked node visited, and queueing it at the next depth exactly when it is a buffer, keeps the record that every new entry is a newly visited node and every newly visited buffer is queued |
| Browser.EntranceFanOutSearch | src/main/java/FabricBrowser.java:172-203 | every recorded wire has a directed, non-local, non-clock exiting wire on an unblocked node, and its PIP starts at a node reached from the entrance through usable buffers in fewer than 8 hops |
| Browser.ExpandFwd | src/main/java/FabricBrowser.java:184-201 | expanding a node below depth 8 keeps every queued node reached from the entrance and every recorded wire fed by it; the queue only grows, by entries at depth parent + 1 for nodes newly visited, at most one per node; every newly visited node is unblocked, every newly visited buffer is queued, and the visited set stays among the tile's nodes |
| Browser.VisitFwd | src/main/java/FabricBrowser.java:185-201 | one PIP out of the expanded node keeps the expansion's record: queue still reached from the entrance, recorded wires fed by it, new entries one hop deeper for newly visited nodes only |
| Browser.FwdFrontQueue | src/main/java/FabricBrowser.java:198-201 | visiting an unvisited, unblocked buffer queues it one hop deeper and keeps the queue reached from the entrance and the record of newly visited nodes |
| Browser.FwdFrontMark | src/main/java/FabricBrowser.java:201 | visiting an unvisited, unblocked node that is no buffer only marks it visited and keeps the record |
| Browser.BackQueuePop | src/main/java/FabricBrowser.java:124-128 | the node taken off the queue reaches the exit within its depth (at most 8), and so does the rest of the queue |
| Browser.FwdQueuePop | src/main/java/FabricBrowser.java:178-182 | the node taken off the queue is reached from the entrance within its depth (at most 8), and so is the rest of the queue |
| Browser.BackQueueExtend | src/main/java/FabricBrowser.java:145-146 | queueing an unblocked buffer at depth parent + 1, one PIP before a reaching node, keeps every queued node reaching the exit |
| Browser.FwdQueueExtend | src/main/java/FabricBrowser.java:198-199 | queueing an unblocked buffer at depth parent + 1, one PIP after a reached node, keeps every queued node reached from the entrance |
| Browser.FeedsExitStep | src/main/java/FabricBrowser.java:136-144 | a candidate entering wire found one PIP before a node expanded below depth 8 feeds the exit |
| Browser.FedByEntranceStep | src/main/java/FabricBrowser.java:190-197 | a candidate exiting wire found one PIP after a node expanded below depth 8 is fed by the entrance |
| Browser.FewerUnvisited | src/main/java/FabricBrowser.java:148 | marking a new node visited leaves fewer unvisited tile nodes, which bounds each search |
| Browser.FabricBrowser.FindTilePaths | src/main/java/FabricBrowser.java:218-275 | different tiles give no paths; otherwise every result is a simple tile path of at most 8 hops over tile PIPs and usable buffers; results go cheapest first, each within two hops of the one before; every tile path of at most 8 hops and at most two hops costlier than the first result is among the results; a direct PIP makes the one-hop path the first result |
| Browser.TilePathSearch | src/main/java/FabricBrowser.java:226-264 | the same guarantees for one tile: every result is a tile path from the entrance to the exit of at most 8 hops, the costs never decrease, each is within the slack of the previous one, every tile path of at most 8 hops and within two hops of the first result is found, and a direct PIP puts the one-hop path first |
| Browser.ExpandPath | src/main/java/FabricBrowser.java:241-263 | expanding one path queues only one-hop-longer partial paths through usable buffers and records only complete paths; the order and slack are kept; the ceiling never exceeds 8; every PIP out of the node before the exit is followed: one into the exit records the path, one into an unblocked buffer not on the path queues the path extended by it |
| Browser.FollowPip | src/main/java/FabricBrowser.java:242-262 | following one PIP keeps the queue and results in order and records that this PIP has been followed, keeping that record for the PIPs followed before |
| Browser.FollowedGrow | src/main/java/FabricBrowser.java:245-261 | a PIP already followed stays followed as the queue and results grow |
| Browser.SearchStep | src/main/java/FabricBrowser.java:236-263 | one iteration within the ceiling keeps the loop state and lowers the count of paths at the dequeued cost, adding paths only one hop longer, so the loop terminates |
| Browser.SearchingResume | src/main/java/FabricBrowser.java:235-264 | expanding the front path restores the loop state: ordered queue and results, every admitted tile path recorded or waiting, and the direct path first |
| Browser.LevelsStep | src/main/java/FabricBrowser.java:236-261 | taking the front path and queueing only paths one hop longer lowers the per-cost counts lexicographically |
| Browser.PrefixFirst | src/main/java/FabricBrowser.java:229 | the one-hop prefix of every tile path is the initial queue entry `new TilePath(entrance, exit)` |
| Browser.PrefixWhole | src/main/java/FabricBrowser.java:244-245 | the prefix of a tile path with all its hops is the path itself |
| Browser.PrefixExtend | src/main/java/FabricBrowser.java:251-261 | the next node of a tile path after a prefix is an unblocked buffer other than the exit, joined by a PIP, and `addNode` of it gives the prefix one hop longer |
| Browser.CompleteInit | src/main/java/FabricBrowser.java:228-229 | at the start every admitted tile path waits behind the one-hop path |
| Browser.CompleteStep | src/main/java/FabricBrowser.java:235-263 | expanding the front path keeps every admitted tile path recorded or with a prefix waiting in the queue |
| Browser.CompleteFront | src/main/java/FabricBrowser.java:241-261 | a tile path whose prefix is the expanded path is recorded when the prefix is the whole path, and otherwise has its one-hop-longer prefix queued |
| Browser.CompleteCutoff | src/main/java/FabricBrowser.java:235-239 | when the queue is empty or its cheapest path is over the ceiling, every admitted tile path has been recorded |
| Browser.SearchStatePop | src/main/java/FabricBrowser.java:235-239 | the front path within the ceiling is a partial tile path, no costlier than the rest of the queue and no cheaper than the recorded results |
| Browser.SearchStateResume | src/main/java/FabricBrowser.java:235-264 | after one expansion the queue still spans at most one hop in cost order, and the results stay ordered and no costlier than anything queued |
| Browser.ExtendPartial | src/main/java/FabricBrowser.java:251-261 | extending a partial tile path by an unblocked buffer that a PIP reaches from the node before the exit gives a partial tile path |
| Browser.CompletePath | src/main/java/FabricBrowser.java:244-245 | a partial path whose node before the exit has a PIP into the exit is a complete tile path |
| Browser.FrontierAppend | src/main/java/FabricBrowser.java:260-261 | queueing the extended path keeps the queue ordered and changes only the count of paths one hop longer |
| Browser.RecordedHit | src/main/java/FabricBrowser.java:244-249 | recording a path at the exit keeps the results ordered and within the slack, and the new ceiling is min(cost - 1 + 3, 8) |
| Browser.SortedAppend | src/main/java/FabricBrowser.java:245 | appending a path no cheaper than the last keeps the costs in order |
| Browser.Ceiling | src/main/java/FabricBrowser.java:248-249 | the new ceiling is the smaller of minDepth + 3 and 8 |
| Browser.LevelPopFront | src/main/java/FabricBrowser.java:236 | taking the front path off the queue lowers the count at its cost by one and leaves every other count alone |
| Browser.FabricBrowser.IsPathPossible | src/main/java/FabricBrowser.java:280-319 | true exactly when entrance and exit share a tile and some tile PIP ends at the exit node and starts at a node reached from the entrance through unblocked buffers in fewer than 8 hops |
| Browser.PathPossibleSearch | src/main/java/FabricBrowser.java:286-318 | true exactly when some tile PIP ends at the exit node and starts at a node reached from the entrance through unblocked buffers in fewer than 8 hops |
| Browser.ProbeFwd | src/main/java/FabricBrowser.java:299-314 | true exactly when a PIP from the expanded node ends at the exit; the queue stays reached from the entrance and grows only by entries one hop deeper for newly visited nodes, every newly visited buffer queued; when false, every PIP out of the node leads to a blocked or visited node |
| Browser.VisitProbe | src/main/java/FabricBrowser.java:300-313 | one PIP out of the expanded node that misses the exit keeps the probe's record, and afterwards that PIP leads to a blocked or visited node |
| Browser.LayeredFront | src/main/java/FabricBrowser.java:293-296 | the breadth-first layering holds at the depth of the front entry |
| Browser.LayeredNext | src/main/java/FabricBrowser.java:293-296 | once the front entry is one level deeper, every node reached at the current level has been expanded, so the layering moves one level down |
| Browser.LayeredExpand | src/main/java/FabricBrowser.java:299-314 | expanding the front node without meeting the exit keeps the layering: every node reached at a lower depth expanded, every node reached at the current depth expanded or queued, no expanded node having a PIP into the exit |
| Browser.LayeredDeep | src/main/java/FabricBrowser.java:296-297 | when the front entry reaches depth 8, the exit is not reachable within the bound, so answering false is right |
| Browser.LayeredDrained | src/main/java/FabricBrowser.java:315-318 | when the queue runs empty, the exit is not reachable within the bound, so answering false is right |
| Browser.LayeredDrainedReach | src/main/java/FabricBrowser.java:315-318 | with the queue empty, every node reached from the entrance below the current level has been expanded |
| Templates.HopCostBounds | src/main/java/com/uwaterloo/watcag/router/elements/RouteTemplate.java:90-113 | with sane approach costs a hop charges at least 2, at least 6 on a short wire, at least 4 on a reversal and at least 10 on an orthogonal turn |
| Templates.HopCostsCoverTurns | src/main/java/com/uwaterloo/watcag/router/elements/RouteTemplate.java:115-120 | a full recompute charges at least 10 per orthogonal turn it counts |
| Templates.HopCostsShift | src/main/java/com/uwaterloo/watcag/router/elements/RouteTemplate.java:117-118 | the recompute depends only on the junctions at the hop positions 2, 4, ... |
| Templates.PushThenRecompute | src/main/java/com/uwaterloo/watcag/router/elements/RouteTemplate.java:152-157 | for a fixed previous direction, the recomputed sum over the pushed template is the old sum plus the pushed hop, and the turn count grows by one exactly for an orthogonal hop |
| Templates.StaleDirectionRecompute | src/main/java/com/uwaterloo/watcag/router/elements/RouteTemplate.java:115-120 | the full recompute judges every hop against the last direction, so it can disagree with the incremental cost: pushing long hops North, East, South charges 22, while recomputing charges 16 |
| Templates.StartIndex | src/main/java/com/uwaterloo/watcag/router/elements/RouteTemplate.java:162-169 | the start index is the last position equal to the enter junction, or 0 when there is none |
| Templates.EndIndex | src/main/java/com/uwaterloo/watcag/router/elements/RouteTemplate.java:162-169 | the end index is the last position equal to the exit junction and not to the enter junction, or 0 when there is none |
| Templates.RouteTemplate.constructor | src/main/java/com/uwaterloo/watcag/router/elements/RouteTemplate.java:32-50 | a new template is [src, snk] with zero costs and turns, no last direction, and the sink-minus-source tile distances |
| Templates.RouteTemplate.Copy | src/main/java/com/uwaterloo/watcag/router/elements/RouteTemplate.java:55-67 | the copy has the same junctions, costs, turns, ends and distances, and no last direction |
| Templates.RouteTemplate.CopyWithOffset | src/main/java/com/uwaterloo/watcag/router/elements/RouteTemplate.java:69-75 | the copy has the same length; it runs from the offset source to the offset sink around offset copies of the interior junctions, with zero costs |
| Templates.RouteTemplate.ReadjustHopCost | src/main/java/com/uwaterloo/watcag/router/elements/RouteTemplate.java:90-113 | the adjusted cost grows by the hop cost, and the turn count grows by one exactly on an orthogonal turn |
| Templates.RouteTemplate.ReadjustCost | src/main/java/com/uwaterloo/watcag/router/elements/RouteTemplate.java:115-120 | the adjusted cost becomes the base cost plus the hop costs at indices 2, 4, ... against the unchanged last direction; the turns are added to the old count |
| Templates.RouteTemplate.GetTemplate | src/main/java/com/uwaterloo/watcag/router/elements/RouteTemplate.java:142-146 | the junction at i, or at size + i for a negative i |
| Templates.RouteTemplate.PushEnterWireJunction | src/main/java/com/uwaterloo/watcag/router/elements/RouteTemplate.java:152-158 | the template grows by two, with the source junction at 1 and the entrance at 2; the first element and the tail are kept in order; the cost grows by the hop cost and the last direction becomes the entrance's |
| Templates.RouteTemplate.ReplaceTemplate | src/main/java/com/uwaterloo/watcag/router/elements/RouteTemplate.java:160-184 | the template becomes the part before the start index, then the replacement, then the part after the end index; the cost is recomputed |
| Templates.RouteTemplate.GetUsage | src/main/java/com/uwaterloo/watcag/router/elements/RouteTemplate.java:195-200 | the result is exactly the node names of the template's junctions |
| Templates.PushOnCopy | src/main/java/com/uwaterloo/watcag/router/elements/RouteTemplate.java:55-67 | pushing onto a copy leaves the original's junctions and cost unchanged |
| Routes.SumCostSplit | src/main/java/CustomRoute.java:112-117 | the cost of the slots is the cost of any prefix plus that of the rest |
| Routes.SumCostOfBlanks | src/main/java/CustomRoute.java:36-42 | empty slots cost nothing |
| Routes.SumCostFill | src/main/java/CustomRoute.java:119-123 | filling an empty slot adds exactly the path's cost |
| Routes.FirstBlank | src/main/java/CustomRoute.java:104-110 | the least empty slot index, or -1 exactly when every slot is filled |
| Routes.Rotate | src/main/java/CustomRoute.java:130-132 | a rotation is a permutation of the pool of the same length, with the old front now last |
| Routes.RotateN | src/main/java/CustomRoute.java:125-133 | k rotations keep the pool's length |
| Routes.RotateOfSplit | src/main/java/CustomRoute.java:131 | rotating the pool split at k - 1 gives the pool split at k |
| Routes.RotateNSplits | src/main/java/CustomRoute.java:125-133 | after k rotations the first k candidates sit, in order, behind the rest |
| Routes.RotateNRestores | src/main/java/CustomRoute.java:125-133 | n rotations of a pool of size n restore it |
| Routes.RotateNFront | src/main/java/CustomRoute.java:125-133 | the (k+1)-th request at a slot hands out the k-th candidate, so n requests cycle through all n candidates |
| Routes.CustomRoute.constructor | src/main/java/CustomRoute.java:23-43 | size / 2 empty slots without pools, cost 0, and the template's ends and distances |
| Routes.CustomRoute.GetPath | src/main/java/CustomRoute.java:98-102 | the slot at i, or at size + i for a negative i |
| Routes.CustomRoute.GetNextBlankPathIndex | src/main/java/CustomRoute.java:104-110 | the least empty slot index, or -1 when every slot is filled |
| Routes.CustomRoute.Revert | src/main/java/CustomRoute.java:112-117 | slots after the index become empty and the others are kept; the cost drops by the removed slots' costs, which leaves the cost of the kept ones |
| Routes.CustomRoute.SetAsNextPath | src/main/java/CustomRoute.java:119-123 | exactly the first empty slot is filled and the cost grows by the path's cost; the cost invariant is kept |
| Routes.CustomRoute.GetNextPossiblePath | src/main/java/CustomRoute.java:125-133 | None when no slot is empty; otherwise the pool of the first empty slot is rotated, its old front is returned, and nothing else changes |
| Routes.CustomRoute.GetNextPossiblePathAt | src/main/java/CustomRoute.java:135-142 | the pool at i, or at size + i, is rotated and its old front returned; nothing else changes |
| Routes.CustomRoute.SetPathSub | src/main/java/CustomRoute.java:144-148 | only the pool at i, or at size + i, is replaced |
| Routes.FillThenRevert | src/main/java/CustomRoute.java:112-123 | filling every slot in order and reverting to j keeps the paths up to j, empties the rest, and leaves exactly their cost |

## Left out

- RapidWright device and design lookups (`getTile`, `getPIPs`, tile
  coordinates) and the `pipCache` memo of them are not modelled. The PIP
  list of a tile and the tile coordinates are parameters (`Fabric`,
  `Device`).
- The `RouteUtil` classifiers, `getSrcJunction`, `WireJunction.copyWithOffset`
  and the junction constructors are not modelled. They are uninterpreted
  functions.
- `TilePath` internals are assumed, as described above: in particular a
  path's cost is taken to be its hop count (number of nodes minus one).
  The order, slack, ceiling and completeness contracts of `TilePathSearch`
  and `FindTilePaths` rest on that choice. The code of `TilePath` itself
  is not modelled.
- The `EnterWireJunction`/`ExitWireJunction` subclasses and their casts are
  not modelled. `Junction` is one datatype, and junction equality is taken
  to be equality of tile and wire name.
- `CustomRouter.isLocked` is not modelled. The lock set is a fixed input,
  so races on the shared static caches and footprint across routing
  threads are not modelled either.
- `RouterLog` logging, `toString` and `hopSummary` are not modelled.
- `CustomRoute.commitToNet` is not modelled, because it writes PIPs into a
  foreign netlist.
- `getBitIndex` has no counterpart in `RouteTemplate`, so the bit index is
  a constructor parameter.
- Java's 32-bit `int` overflow on costs is not modelled. Costs are
  unbounded integers.
- HashSet iteration order is a nondeterministic choice. The contracts hold
  for every order.
- Routes.CustomRoute.SetAsNextPath, Routes.CustomRoute.GetPath and
  Routes.CustomRoute.SetPathSub: require a blank slot, or an index in
  range. Otherwise the Java code throws IndexOutOfBoundsException
  (`CustomRoute.java:98-102`, `119-123`, `144-148`).
- `SetGlobalNodeFootprint` stores the footprint as a set value. The Java
  code keeps a reference to the caller's set, so the caller's later
  changes to that set are not modelled.
- Candidate pools are stored as sequence values. The model does not
  capture the Java aliasing where rotating a pool also rotates the list
  that the caller passed to `setPathSub`.
- The inner `for` loop of each search is its own method (`ExpandBack`,
  `ExpandFwd`, `ExpandPath`, `ProbeFwd`). The search loops take the blocked
  nodes (global footprint plus locks) as one set. Neither changes the
  behaviour.
- Browser.ExitFanOutSearch: states only that every recorded wire feeds the
  exit, not that every such wire is found. The per-search visited set makes
  the search skip a node that is reached again by another PIP, so
  completeness does not hold in general.
- Browser.EntranceFanOutSearch: the same soundness-only statement, for the
  same reason.
- Browser.FabricBrowser.GetExitFanOut: on a cache hit, the cached wires are
  not re-checked against the current footprint, just as the Java code does
  not re-check them.
- Routes.CustomRoute.Revert: requires `index >= -1` and every slot after
  `index` to be filled. Otherwise the Java code fails on a negative list
  index or a null slot.
- Routes.CustomRoute.GetNextPossiblePath: requires the pool of the first
  empty slot to be set and non-empty. Otherwise the Java code fails on a
  null pool or on `remove(0)` of an empty list.
- Routes.CustomRoute.GetNextPossiblePathAt: requires the pool at the index
  to be set and non-empty. Otherwise the Java code fails on a null pool or
  on `remove(0)` of an empty list (`CustomRoute.java:139-140`).
