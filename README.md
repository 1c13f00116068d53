# Warehouse world model of RAWSim-O-MVP

This project models the core of a robotic mobile-fulfilment simulator. The simulated warehouse is a
rectangular grid of waypoints. Pods (movable shelves holding items) stand on storage cells in the
middle band of the grid. Input stations stand on the first row and output stations on the last.
Robots ("bots") fetch pods for orders.

Each tick of the instance:
1. runs every bot's state machine (`idle`, or `moving` on a `fetch_pod` or `return_pod` task);
2. now and then queues a random order;
3. hands the queued orders, front first, to the idle bots, with a pod found by a linear search.

Paths come from an A* search over the waypoint graph. A waypoint holding a pod that no bot is
carrying is blocked, unless it is the goal.

The model is written in the arena style. Waypoints, pods and bots are value records held in three
tables: `Waypoints.Waypoint`, `Pods.Pod` and `Bots.Bot`. They refer to each other by table index,
and the id of the waypoint at column `x` of row `y` is `y * width + x`.

The modules, leaf first:

- `Waypoints` (waypoint.dfy): the waypoint record, `add_path` and the occupancy queries.
- `Pods` (pod.dfy): the pod record and its item map with a capacity check.
- `Routes` (routes.dfy): what a route is, the blocking rule, the Manhattan heuristic, and the
  walk-cost bounds that make the search terminate.
- `Pathfinding` (pathfinding.dfy): `find_path` and `reconstruct_path` as imperative methods over
  the tables, proved sound against `Routes`.
- `PyHeap` (heapq.dfy): Python's `heapq.heappush` on `(score, waypoint)` tuples, as the source
  uses it (see Findings).
- `Bots` (bots.dfy): every bot operation as a transition function on a `Floor`, which holds the
  three tables. A transition returns a `Step`: the outcome, the new floor, the path query it made
  (if any) and whether it completes an order. The module also proves the consistency invariant
  that relates bots, pods and waypoints.
- `Layout` (layout.dfy): the integer arithmetic of the generated grid, the station columns, the
  storage band, and `random.shuffle` with the random draws supplied by the caller.
- `Orders` (orders.dfy): orders, statistics, `find_pod_with_items`, `complete_order` and the robot
  utilization of the statistics report.
- `Ticks` (ticks.dfy): one `update` of the instance as a function. It covers the bot sweep, the
  order queue and the greedy assignment.
- `Generation` (generation.dfy): `generate_layout` as a function, with what it builds: a
  4-connected grid, placed stations, storage cells, pods and robots.
- `World` (instance.dfy): `class Instance` with the instance's tables, the grid map, the station
  lists, the order queue, the orders in progress, the statistics and the clock as fields.
  - Its methods perform the source's loops and updates in place.
  - Each method is proved against the functions of the modules above.
  - Each method keeps the invariant `Valid()`: every reference is in range, and the graph can be
    searched.

Where the source raises, the model returns `Outcome.Raised(error)`.

- On the delivery branch of `on_destination_reached`, the bot picks the target pod up again
  (core/bot.py:147). This clears the pod's waypoint. The bot then asks for a path to that cleared
  waypoint (core/bot.py:148).
- So `calculate_path(None)` reaches `heuristic(start, None)` and raises.
- `Bots.DeliveryRaises` proves that this happens to every bot that delivers its target pod while
  standing on a waypoint, which is every delivering bot on a consistent floor. The `return_pod` task is therefore never entered from a delivery.
- The model keeps that behaviour.

Pods are not reserved when they are assigned: `assign_task` does not set `in_use`. Two bots can
therefore be sent for the same pod (`Orders.SameItemsSamePod`), and no exclusivity is claimed.

The search keeps stale heap priorities when a score improves (core/pathfinding.py:57-59), so only
soundness of the paths it returns is proved, not optimality.

## Model

| member | source | states |
|---|---|---|
| Waypoints.NewWaypoint | core/waypoint.py:19-41 | a new waypoint has the given id and position, no paths or distances, nothing placed on it and is no storage cell |
| Waypoints.SqDistance | core/waypoint.py:50-54 | the (squared) distance is non-negative and zero exactly between waypoints at the same position |
| Waypoints.SqDistanceSymmetric | core/waypoint.py:50-54 | the distance from `a` to `b` equals the distance from `b` to `a` |
| Waypoints.AddPath | core/waypoint.py:43-48 | after `add_path(other)` the neighbour is listed; the list keeps its old entries in order and grows by at most one, appending `other` only when missing, with its distance recorded; when already listed nothing changes; other distances and all other fields are kept |
| Waypoints.AddPathKeepsNoDuplicates | core/waypoint.py:45-46 | one `add_path` never lists a neighbour twice |
| Waypoints.AddPathsKeepsNoDuplicates | core/waypoint.py:45-46 | after any sequence of `add_path` calls no neighbour is listed twice, and the listed neighbours are exactly the old ones and the added ones |
| Waypoints.AddPathIdempotent | core/waypoint.py:43-48 | a second `add_path` with the same waypoint changes nothing, and the waypoint is then accessible |
| Waypoints.AddPathAccessibility | core/waypoint.py:56-58 | after `add_path(other)`, `is_accessible(v)` holds exactly when it held before or `v` is `other` |
| Pods.NewPod | core/pod.py:18-39 | a new pod has the given id and capacity, is empty with no items or bundles handled yet, stands nowhere, is not in use and held by no bot |
| Pods.AddItem | core/pod.py:41-51 | `add_item` succeeds exactly when the weight fits the remaining capacity; on success the key set gains the name, its count grows by `count` (from 0 for a new key), other counts are kept, the load grows by `weight * count` and stays within capacity, and one more bundle is handled; on failure the pod is unchanged |
| Pods.RemoveItem | core/pod.py:53-62 | `remove_item` succeeds exactly when the name is stored with at least `count`; on success the count drops by `count` and the key is deleted when it reaches zero or below, other keys are kept, the load drops by `weight * count` and `count` more items are handled; on failure the pod is unchanged |
| Pods.CapacityUtilization | core/pod.py:68-70 | utilization is 0 for a non-positive capacity; otherwise it is the load as a percentage of capacity, between 0 and 100 for a load within capacity |
| Pods.ContainsIsKeyMembership | core/pod.py:64-66 | where all stored counts are positive, `contains(name)` holds exactly when the name is a key |
| Pods.AddKeepsCountsPositive | core/pod.py:44-47 | adding a positive count keeps every stored count positive |
| Pods.RemoveKeepsCountsPositive | core/pod.py:56-58 | removing any count keeps every stored count positive, because a key that reaches zero is deleted |
| Pods.AddThenRemoveRestores | core/pod.py:41-62 | a successful `add_item` followed by the matching `remove_item` succeeds and restores the item map and the load |
| Pods.StockedKeeps | core/instance.py:136-137 | seeding a pod with items changes only its contents, never exceeds the capacity of a pod within it, keeps counts positive, and adds only seeded names |
| Pods.StockedStep | core/instance.py:136-137 | seeding one more name is one more `add_item(name)` with weight 1 and count 1 |
| Routes.BlockedIsOccupied | core/pathfinding.py:68-73 | a blocked waypoint is occupied in the sense of `is_occupied` and is not the goal |
| Routes.Heuristic | core/pathfinding.py:64-66 | the heuristic is non-negative, zero exactly for equal coordinates, and at least each coordinate difference |
| Routes.HeuristicSymmetric | core/pathfinding.py:64-66 | the heuristic is symmetric |
| Routes.HeuristicAtMostEdgeCost | core/pathfinding.py:50-55 | the Manhattan distance never exceeds the edge cost between integer points, so it never overestimates one step |
| Routes.NoRouteOutsideClosure | core/pathfinding.py:39-62 | a set of scored waypoints containing the start, closed under steps to unblocked neighbours and without the goal, proves that no route exists |
| Routes.WalkCostPrefix | core/pathfinding.py:50 | a prefix of a walk never costs more than the walk |
| Routes.DistinctBelow | core/pathfinding.py:32 | distinct waypoint indices of a table number at most the table size |
| Routes.SimpleWalkBound | core/pathfinding.py:50-54 | a walk visiting no waypoint twice costs at most a bound fixed by the tables, which bounds every score the search gives |
| Routes.WalkCostAtMost | core/pathfinding.py:50 | a walk whose edges each cost at most `m` costs at most `m` per step |
| Routes.PotentialDrop | core/pathfinding.py:52-54 | lowering one waypoint's score lowers the search's termination measure |
| Routes.PotentialSame | core/pathfinding.py:52-54 | changing the score of a waypoint outside the measured range leaves the measure unchanged |
| Pathfinding.FirstLeast | core/pathfinding.py:40 | the position popped holds a least score, and every earlier entry has a strictly greater one |
| Pathfinding.InitialState | core/pathfinding.py:28-37 | the initial open list, scores and links satisfy the search invariant |
| Pathfinding.PopKeeps | core/pathfinding.py:40-43 | popping a non-goal entry keeps the invariant, with that waypoint set aside as the one being expanded |
| Pathfinding.HandledExtends | core/pathfinding.py:45-48 | neighbours already blocked or scored stay so as scores are added |
| Pathfinding.ExpandedCloses | core/pathfinding.py:45-59 | once every neighbour of the expanded waypoint is blocked or scored, the waypoint is closed and the invariant holds again |
| Pathfinding.ExhaustedMeansNoRoute | core/pathfinding.py:39-62 | when the open list is empty without the goal being popped, no route exists |
| Pathfinding.NotOnWalk | core/pathfinding.py:52 | a waypoint scored above the current one does not occur on the current one's witness walk |
| Pathfinding.ExtendedWalk | core/pathfinding.py:50-54 | the witness walk to the current waypoint, extended by the edge to a neighbour, witnesses the neighbour's lowered score |
| Pathfinding.OtherWalksKept | core/pathfinding.py:52-54 | lowering one score keeps every other witness walk valid |
| Pathfinding.MeasureDrops | core/pathfinding.py:52-54 | a score lowered to the cost of a witness walk lowers the termination measure |
| Pathfinding.RelaxScores | core/pathfinding.py:50-54 | lowering an unblocked neighbour's score through the current waypoint keeps scores consistent: start at 0, predecessor links are edges into unblocked waypoints from lower scores |
| Pathfinding.RelaxFrontier | core/pathfinding.py:57-59 | scoring a neighbour and pushing it unless already open keeps the frontier |
| Pathfinding.RelaxKeeps | core/pathfinding.py:50-59 | one relaxation keeps the whole invariant and lowers the termination measure |
| Pathfinding.Reversed | core/pathfinding.py:81 | `list.reverse`: the result has the same length, with element `i` taken from position `n - 1 - i` |
| Pathfinding.ReconstructPath | core/pathfinding.py:75-82 | the reconstructed path is non-empty, runs from `start` to `current`, and each waypoint is the recorded predecessor of the next |
| Pathfinding.ChainIsRoute | core/pathfinding.py:42-43 | a chain of predecessor links from start to goal is a route: it follows edges and passes no blocked waypoint |
| Pathfinding.RelaxNeighbour | core/pathfinding.py:46-59 | one turn of the neighbour loop keeps the invariant, leaves the neighbour blocked or scored, loses no score, and either changes nothing or lowers the measure |
| Pathfinding.ExpandNeighbours | core/pathfinding.py:45-59 | the whole neighbour loop closes the current waypoint and either changes nothing or lowers the measure |
| Pathfinding.FindPath | core/pathfinding.py:22-62 | `find_path` returns `[start]` when start and goal coincide; a non-empty result starts at `start`, ends at `goal`, follows edges and passes only unblocked waypoints after the start; an empty result means no route exists; it changes no table |
| PyHeap.TupleLess | core/pathfinding.py:59 | tuple `<` on `(score, waypoint)` raises exactly for equal scores of different waypoints, and otherwise compares the scores |
| PyHeap.SiftDown | core/pathfinding.py:59 | a sift that does not raise keeps the heap's size |
| PyHeap.HeapPush | core/pathfinding.py:59 | a push that does not raise grows the heap by one |
| PyHeap.PushOntoEmpty | core/pathfinding.py:28 | pushing onto an empty heap never compares and cannot raise |
| PyHeap.TieWithParentRaises | core/pathfinding.py:59 | pushing an entry whose score ties with its parent's, for another waypoint, raises |
| PyHeap.CornerNeighbours | core/instance.py:72-86 | step of the `PyHeap.FirstExpansionRaises` counterexample: on a 3 by 3 grid the top-left corner's neighbours are 1 and 3, and the opposite corner is 8 |
| PyHeap.CornerScoresTie | core/pathfinding.py:50-55 | step of the `PyHeap.FirstExpansionRaises` counterexample: both neighbours of the corner get the score 4 towards the opposite corner |
| PyHeap.FirstExpansionRaises | core/pathfinding.py:45-59 | the first expansion from corner 0 towards corner 8 pushes waypoint 1 and then raises on waypoint 3 |
| Bots.NewBot | core/bot.py:22-51 | a new bot is idle, stands nowhere, has no path, task, targets or pod, and zero times |
| Bots.FrameTransitive | core/bot.py:53-185 | the frame of a transition (table sizes, graph and bot ids kept) composes |
| Bots.SameGraphKeepsReady | core/pathfinding.py:45-50 | changing only what stands on the waypoints keeps the graph searchable |
| Bots.BlockedIffPodPresent | core/pathfinding.py:68-73 | on a consistent floor a waypoint other than the goal is blocked exactly when a pod stands on it |
| Bots.SetBot | core/bot.py:53-185 | replacing bot `b` changes that bot and nothing else |
| Bots.ReplaceBotKeepsConsistent | core/bot.py:53-185 | replacing a bot by a consistent one carrying the same pod keeps the floor consistent |
| Bots.PickUp | core/bot.py:158-165 | `pick_up_pod`: the bot carries the pod, the pod is in use, held by the bot and off the grid, its former waypoint no longer holds it, and nothing else changes |
| Bots.Drop | core/bot.py:167-176 | `drop_pod`: with a pod and a waypoint, the pod stands on the bot's waypoint, which holds it, and is no longer in use or held, and the bot carries nothing; otherwise nothing changes |
| Bots.CompleteTask | core/bot.py:178-185 | `complete_task`: the bot is idle with no task, no targets and an empty path at index 0, and nothing else changes |
| Bots.PickUpThenDropRestores | core/bot.py:158-176 | picking up the pod under a bot and dropping it gives back the original floor |
| Bots.DropThenPickUpRestores | core/bot.py:158-176 | dropping the carried pod on an empty waypoint and picking it up gives back the original floor |
| Bots.DropKeepsPlaced | core/bot.py:167-176 | dropping an off-grid pod on a waypoint that holds none keeps pods and waypoints pointing at each other |
| Bots.DropKeepsHeld | core/bot.py:167-176 | after a drop, a pod is in use exactly when held and off the grid, and its holder carries it |
| Bots.DropKeepsConsistent | core/bot.py:167-176 | a bot that drops the pod it alone carries on a waypoint that holds none leaves the floor consistent and carries nothing |
| Bots.PickUpKeepsPlaced | core/bot.py:158-165 | picking up keeps pods and waypoints pointing at each other |
| Bots.PickUpKeepsHeld | core/bot.py:158-165 | picking up with an empty-handed bot keeps every held pod carried by its holder |
| Bots.PickUpKeepsConsistent | core/bot.py:133-136 | a moving, empty-handed bot picking up its target keeps the floor consistent |
| Bots.CalculatePath | core/bot.py:64-75 | `calculate_path`: a bot on no waypoint is left alone; a missing destination raises; otherwise the path query goes from the bot's waypoint to the destination, the path becomes its answer and the index is 0 |
| Bots.CalculatePathKeepsConsistent | core/bot.py:64-69 | a new path for a moving bot keeps the floor consistent |
| Bots.AssignTask | core/bot.py:53-62 | `assign_task`: the bot is moving with its task, pod and station set, other bots and the tables are kept, and a path query towards the pod is made exactly when the pod stands on a waypoint and the bot on one |
| Bots.Committed | core/bot.py:55-58 | after the first four assignments of `assign_task` the bot is moving with the given task, pod and station, and nothing else about it has changed |
| Bots.AssignTaskKeepsConsistent | core/bot.py:53-62 | giving an idle bot a fetch task keeps the floor consistent |
| Bots.Deliver | core/bot.py:140-149 | the delivery branch always completes an order and keeps the frame |
| Bots.Reload | core/bot.py:146-149 | the end of the delivery branch never completes an order and keeps the frame |
| Bots.Fetch | core/bot.py:134-139 | the fetch branch never completes an order and keeps the frame; its effect is stated by `Bots.FetchArrival` |
| Bots.Arrive | core/bot.py:131-156 | `on_destination_reached` keeps every reference in range and the frame; its branches are stated by `Bots.FetchArrival`, `Bots.DeliveryRaises` and `Bots.ReturnArrival` |
| Bots.DeliveryRaises | core/bot.py:140-149 | a bot reaching its station with its target pod completes the order and then raises, because the pod it picks up again has no waypoint left |
| Bots.FetchArrival | core/bot.py:133-139 | a fetching bot arriving with nothing carried picks up its target pod, which is then in use, held by it and off the grid, and asks for a path from its waypoint to its station's waypoint, following the answer from its start; no order is completed |
| Bots.ReturnArrival | core/bot.py:153-156 | a returning bot arriving on a waypoint sets the pod it carries down there, the pod no longer in use or held, and becomes idle with no task, no path and nothing carried; with no pod the pods and waypoints are untouched |
| Bots.ArriveKeepsConsistent | core/bot.py:131-156 | an arrival that does not raise keeps a consistent floor consistent |
| Bots.Snapped | core/bot.py:102-105 | the snap puts the bot on the waypoint at its path index and advances the index by exactly one, not past the end of the path; nothing else about the bot changes |
| Bots.Move | core/bot.py:87-129 | `move` keeps every reference in range and the frame; its cases are stated by `Bots.MoveArrives`, `Bots.MoveSnaps`, `Bots.MoveSnapsThenArrives` and `Bots.MoveWaits` |
| Bots.MoveSnaps | core/bot.py:98-109 | reaching a waypoint that is not the last on the path puts the bot on it and advances the index by exactly one, keeping the path, the tables and the outcome |
| Bots.MoveArrives | core/bot.py:89-91 | a bot with an empty or used-up path arrives: the move is `on_destination_reached` |
| Bots.MoveSnapsThenArrives | core/bot.py:98-111 | reaching the last waypoint of the path puts the bot on it and then arrives there |
| Bots.MoveWaits | core/bot.py:112-129 | a bot with path left that has not reached its next waypoint leaves the floor as it was and makes no query |
| Bots.MoveKeepsConsistent | core/bot.py:87-129 | a move that does not raise keeps a consistent floor consistent |
| Bots.BotUpdate | core/bot.py:77-85 | `update` keeps every reference in range and the frame |
| Bots.IdleUpdateOnlyCounts | core/bot.py:79-81 | an idle bot's update adds the elapsed time to its idle time and changes nothing else, with no query and no completed order |
| Bots.IdleUpdateWaits | core/bot.py:79-81 | an idle bot's update is the plain step that grows its idle time |
| Bots.MovingUpdateMoves | core/bot.py:83-85 | a moving bot's update adds the elapsed time to its busy time, then moves |
| Bots.MovingUpdateKeepsConsistent | core/bot.py:83-85 | a moving bot's update that does not raise keeps the floor consistent |
| Bots.BotUpdateKeepsConsistent | core/bot.py:77-85 | a bot update that does not raise keeps a consistent floor consistent |
| Layout.GridIdBelow | core/instance.py:64-70 | a grid position's id indexes the `width * height` table |
| Layout.GridIdCoordinates | core/instance.py:64-70 | the id's remainder and quotient by `width` give back its column and row |
| Layout.GridIdInjective | core/instance.py:64-70 | distinct grid positions have distinct ids, and equal ones equal ids |
| Layout.GridNeighbours | core/instance.py:72-86 | a waypoint gets at most four neighbours |
| Layout.NeighbourPrefixAll | core/instance.py:75-86 | the four directions, in the loop's order, make up the neighbours |
| Layout.DirectionStep | core/instance.py:75-86 | each direction adds the neighbour one step away when it is on the grid, and that neighbour was not added before |
| Layout.GridAdjacency | core/instance.py:72-86 | a position is a neighbour of another exactly when the two are one step apart horizontally or vertically |
| Layout.GridSymmetric | core/instance.py:72-86 | grid adjacency is symmetric |
| Layout.GridNeighboursDistinct | core/instance.py:72-86 | a waypoint's neighbours are on the grid, listed once each, and never the waypoint itself |
| Layout.StationColumnInGrid | core/instance.py:91-95 | on a grid with a column, every station column `(width // (n + 1)) * (i + 1)` lies in `[0, width)` |
| Layout.StorageBandInGrid | core/instance.py:112-116 | a storage band no taller than the grid lies within its rows |
| Layout.Draw | core/instance.py:126 | a draw reduced below a positive bound is below it |
| Layout.ShuffleFromPermutes | core/instance.py:126 | every step of the shuffle is a swap, so the result is a permutation |
| Layout.ShuffledPermutes | core/instance.py:126 | `random.shuffle` gives a permutation with the same elements, without duplicates when there were none |
| Layout.Shuffle | core/instance.py:126 | the in-place shuffle of an array leaves exactly the shuffled sequence |
| Layout.PermutationKeepsDistinct | core/instance.py:125-126 | a permutation of a sequence without duplicates has none |
| Orders.ZeroStats | core/instance.py:42-50 | the initial and reset statistics are all zero, with the given start time and no end time |
| Orders.ScanItems | core/instance.py:205-207 | the inner loop of `find_pod_with_items` finds an item exactly when one of the items is a key of the pod |
| Orders.ScanPods | core/instance.py:203-208 | the outer loop returns the first suitable pod from `k` on, or none when there is none |
| Orders.FindPodWithItems | core/instance.py:201-208 | `find_pod_with_items` returns the first pod, in table order, that is not in use and holds a requested item; it returns none exactly when no such pod exists |
| Orders.FindPodLooksAtFlagsAndKeys | core/instance.py:201-208 | the search depends only on the pods' use flags and item keys |
| Orders.CompleteOrder | core/instance.py:210-215 | `complete_order`: with an order in progress for the bot, it is removed, one more order counts as completed and its items as picked, and all else is kept; otherwise nothing changes |
| Orders.CompleteOrderIdempotent | core/instance.py:210-215 | completing the same bot's order twice counts it once |
| Orders.CompleteOrderConserves | core/instance.py:210-215 | orders completed plus orders in progress stays the same |
| Orders.IdleBots | core/instance.py:186 | the idle bots are exactly the bots in the idle state, in table order |
| Orders.Assignment | core/instance.py:194-196 | an assigned pod is in the table, not in use and holds a requested item, no earlier pod qualifies, and the order names a station; no pod is assigned exactly when the order names no station or no pod qualifies |
| Orders.Taken | core/instance.py:188-192 | `assign_tasks` takes as many orders as there are idle bots or queued orders, whichever is fewer |
| Orders.FiledAfter | core/instance.py:199 | orders in progress after the rounds are old ones or filed under an idle bot's id |
| Orders.SameItemsSamePod | core/instance.py:194-199 | two orders for the same items get the same pod, because assignment reserves nothing |
| Orders.FiledUnderBot | core/instance.py:199 | the order last filed under a bot's id is the one in progress for it |
| Orders.BusyWithinTotal | core/instance.py:239-243 | with non-negative times, total busy time lies between 0 and the total time |
| Orders.Utilization | core/instance.py:239-243 | utilization is busy time over total time in percent, 0 when no time has passed, and between 0 and 100 |
| Ticks.BooksAfter | core/bot.py:143-144 | a step that completes an order, for a bot with one in progress, removes that order and counts it and its items as completed; otherwise the books are left alone; no order is added, and completed plus in-progress orders stay the same in number |
| Ticks.Swept | core/instance.py:164-165 | the bot sweep keeps every reference in range and the frame |
| Ticks.SweptExtend | core/instance.py:164-165 | one more bot update extends the sweep by that bot's step, which keeps its id |
| Ticks.SweptKeepsConsistent | core/instance.py:164-165 | a sweep that does not raise keeps a consistent floor consistent |
| Ticks.SweptConserves | core/instance.py:164-165 | orders completed plus orders in progress stays the same during a sweep |
| Ticks.NewOrder | core/instance.py:174-182 | the new order's id is the queue length, its items are the given ones, and it names an output station exactly when there is one |
| Ticks.Enqueued | core/instance.py:168-169 | the old queue is kept as a prefix and grows by one exactly when an order is generated; the new order's id is the old length, its items are the generated ones, and its station is one of the output stations, present exactly when there are any |
| Ticks.EnqueuedIndexed | core/instance.py:168-182 | queuing an order keeps every queued station reference in range |
| Ticks.Assigned | core/instance.py:188-199 | task assignment changes only the idle bots that took an order and keep the frame |
| Ticks.AssignedExtend | core/instance.py:188-199 | one more round leaves the floor unchanged when no pod is assigned, and otherwise gives the next idle bot the fetch task |
| Ticks.AssignRoundsStep | core/instance.py:188-199 | one round as the instance performs it extends the rounds so far, dropping the front of the queue |
| Ticks.AssignedKeepsConsistent | core/instance.py:184-199 | giving fetch tasks to distinct idle bots keeps a consistent floor consistent |
| Ticks.Tick | core/instance.py:161-172 | a tick keeps every reference in range and the frame |
| Ticks.TickOk | core/instance.py:161-172 | a sweep that does not raise, then queuing and assignment, is a tick |
| Ticks.TickRaised | core/instance.py:164-165 | a sweep that raises ends the tick with the queue untouched |
| Ticks.TickKeepsConsistent | core/instance.py:156-172 | a tick that does not raise keeps a consistent floor consistent |
| Generation.GridMapBelowSites | core/instance.py:64-70 | every waypoint the grid map names is in the table |
| Generation.GridRow | core/instance.py:64-70 | every table index is the id of a grid position |
| Generation.GridWaypoints | core/instance.py:64-86 | the connected grid has `width * height` waypoints |
| Generation.GridWaypointsShape | core/instance.py:64-86 | the connected grid is the grid graph, with nothing placed on it |
| Generation.GridMapIndexes | core/instance.py:69 | the grid map's ids index the table |
| Generation.LinkStep | core/instance.py:76-86 | linking in one direction adds the neighbour that way at distance 1 when it is on the grid, and does nothing otherwise |
| Generation.LinkedCell | core/instance.py:73-86 | a new waypoint linked in all four directions is the connected grid cell |
| Generation.ConnectedGrid | core/instance.py:73-86 | a table of connected cells at their own positions is the connected grid |
| Generation.GridGraphReady | core/instance.py:72-86 | the grid graph can be searched |
| Generation.GridGraphEdges | core/instance.py:72-86 | a waypoint's edges go exactly to the waypoints one step away, listed once each at distance 1, at most four, never to itself |
| Generation.GridGraphSymmetric | core/instance.py:72-86 | edges of the generated graph go both ways |
| Generation.BareKeepsGrid | core/instance.py:88-152 | placing stations, storage marks, pods or robots keeps the grid graph |
| Generation.LastIndexDistinct | core/instance.py:98 | in a sequence without duplicates an element's last index is its only one |
| Generation.StationedExtend | core/instance.py:95-98 | one more station makes its waypoint refer to it and changes nothing else |
| Generation.StationsOnRowInGrid | core/instance.py:91-95 | on a non-empty grid every station of a row stands on that row at its station column |
| Generation.SpacedStationsDistinct | core/instance.py:91-95 | with a positive spacing the stations of a row stand on distinct waypoints |
| Generation.StorageFault | core/instance.py:116-119 | the storage loop fails exactly when there are storage columns and the band reaches outside the grid's rows |
| Generation.GenerateFails | core/instance.py:56-154 | generation fails exactly when stations need an empty grid, or when the storage band reaches outside the grid |
| Generation.SitesShape | core/instance.py:64-120 | the stations and storage loops leave the grid graph, with station references exactly at station cells, storage marks exactly on the band's storage columns, and no pod |
| Generation.SpotsShape | core/instance.py:125-128 | a shuffle-and-take loop fills `count` cells, or all of them when there are fewer, each at most once |
| Generation.NewPodsShape | core/instance.py:128-138 | pod `p` stands at its cell, is not in use and is seeded within its capacity |
| Generation.GeneratedParts | core/instance.py:56-154 | a successful generation is made of its parts |
| Generation.PodSpotsShape | core/instance.py:125-128 | pods go to distinct storage cells: `count` of them, or all when there are fewer |
| Generation.BotSpotsShape | core/instance.py:143-146 | robots go to distinct free cells: `count` of them, or all when there are fewer |
| Generation.PlacedFloorValid | core/instance.py:128-152 | pods on distinct waypoints of a grid without pods, and robots on waypoints, make a consistent floor |
| Generation.PlacedFloorIndexed | core/instance.py:128-152 | a floor with placed pods and robots has every reference in range, and pods and waypoints agree |
| Generation.GeneratedValid | core/instance.py:56-154 | a generated floor is consistent, is searchable, and has the grid graph and in-range stations |
| Generation.PlacedPods | core/instance.py:122-138 | pods placed on distinct storage cells are stored as configured |
| Generation.GeneratedPods | core/instance.py:122-138 | pod `p` of a generated floor is the `p`-th created, of the given capacity, alone on a storage cell; there are `count` pods, or one per storage cell when there are fewer; each is seeded within capacity with positive counts of its names |
| Generation.PlacedBots | core/instance.py:140-152 | robots placed on distinct free cells are spawned as configured |
| Generation.GeneratedBots | core/instance.py:140-152 | robot `b` of a generated floor is the `b`-th created, of the given speed, idle and alone on a free waypoint; there are `count` robots, or one per free waypoint when there are fewer |
| Generation.SitesStations | core/instance.py:88-108 | each waypoint refers to the last station placed on it, or to none |
| Generation.RowStations | core/instance.py:92-98 | one row of stations on the grid graph leaves the loop's references |
| Generation.PoddedKeepsStations | core/instance.py:128-132 | placing pods leaves the station references |
| Generation.GeneratedStations | core/instance.py:88-108 | input stations stand on the first row and output stations on the last, at their station columns; waypoints refer to them, to the station itself when the spacing is positive, and no other waypoint refers to one |
| Generation.ConfiguredStations | core/instance.py:88-108 | both station rows of a configuration, on the grid graph, are placed as configured |
| Generation.GridUpToAll | core/instance.py:64-70 | after the building loop every grid position is in the grid map |
| Generation.GridGraphPositions | core/instance.py:64-70 | the grid graph has the ids and positions of the building loop |
| Generation.StationRow | core/instance.py:91-108 | a non-empty station row on a row of the grid is the stations at their station columns; an empty one is the empty list |
| Generation.StationFault | core/instance.py:95 | a station loop raises `KeyError` exactly when there are stations and the grid is empty, at the first station's cell |
| Generation.SitesFault | core/instance.py:88-120 | the first `KeyError` of the station and storage loops is the one generation fails with, whatever the random draws; none means generation succeeds |
| Generation.MarkedEnds | core/instance.py:116-120 | before the band nothing is marked; after it the whole band is |
| Generation.MarkedRowEnd | core/instance.py:117 | a band row ends at column `width - 2` |
| Generation.MarkedStep | core/instance.py:117-120 | one column of a band row is marked exactly when it is a storage column |
| Generation.PoddedExtend | core/instance.py:130-132 | one more pod makes its waypoint hold it and changes nothing else |
| Generation.NewPodsExtend | core/instance.py:129-138 | one more pod goes at the end of the table |
| Generation.NewBotsExtend | core/instance.py:147-152 | one more bot goes at the end of the table |
| World.GeneratedFloorValid | core/instance.py:56-154 | a generated floor, with its stations, is consistent and can be searched |
| World.ValidFromParts | core/instance.py:20-54 | a floor in range, with a grid map naming only its waypoints, is a valid instance with no orders |
| World.GeneratedInstanceValid | core/instance.py:56-154 | a freshly generated instance, with its grid and no orders, is valid and consistent |
| World.FrameKeepsValid | core/bot.py:53-185 | any transition of the floor keeps the instance valid |
| World.SetBotKeepsValid | core/bot.py:53-185 | replacing one bot by one in range with the same id keeps the instance valid |
| World.DequeueKeepsValid | core/instance.py:192 | taking the front order keeps the instance valid, and its station is in range |
| World.Instance.constructor | core/instance.py:20-54 | a new instance has empty tables, the clock at zero, the configured time step (default 0.1), is neither running nor paused, and has zero statistics and no orders |
| World.Instance.PickUpPod | core/bot.py:158-165 | the instance's floor becomes `Bots.PickUp` of the old one, and the instance stays valid |
| World.Instance.DropPod | core/bot.py:167-176 | the instance's floor becomes `Bots.Drop` of the old one, and the instance stays valid |
| World.Instance.CompleteTask | core/bot.py:178-185 | the instance's floor becomes `Bots.CompleteTask` of the old one |
| World.Instance.CalculatePath | core/bot.py:64-75 | the path comes from the search on the current floor, and the step is `Bots.CalculatePath` with that route |
| World.Instance.AssignTask | core/bot.py:53-62 | the floor becomes that of `Bots.AssignTask`, with the path query answered by the search |
| World.Instance.CompleteOrder | core/instance.py:210-215 | the orders in progress and the statistics become `Orders.CompleteOrder` of the old ones |
| World.Instance.OnDestinationReached | core/bot.py:131-156 | outcome, floor and books are those of `Bots.Arrive`, its query answered by the search |
| World.Instance.Fetch | core/bot.py:134-139 | outcome and floor are those of `Bots.Fetch` |
| World.Instance.Deliver | core/bot.py:140-149 | outcome and floor are those of `Bots.Deliver`, and the bot's order is completed |
| World.Instance.Reload | core/bot.py:146-149 | outcome and floor are those of `Bots.Reload` |
| World.Instance.Move | core/bot.py:87-129 | outcome, floor and books are those of `Bots.Move` |
| World.Instance.UpdateBot | core/bot.py:77-85 | outcome, floor and books are those of `Bots.BotUpdate` |
| World.Instance.UpdateIdle | core/bot.py:79-81 | the idle case of `bot.update`, as `Bots.BotUpdate` describes it |
| World.Instance.UpdateMoving | core/bot.py:83-85 | the moving case of `bot.update`, as `Bots.BotUpdate` describes it |
| World.Instance.PutBot | core/bot.py:53-185 | writing back one bot record keeps the instance valid and changes that bot only |
| World.Instance.Update | core/instance.py:156-172 | when paused nothing changes; otherwise the clock advances by `dt` and the instance makes the tick `Ticks.Tick` describes, every path query answered by the search |
| World.Instance.Advance | core/instance.py:164-172 | the bot loop, order generation and assignment of a running `update` make the tick `Ticks.Tick` describes |
| World.Instance.FinishTick | core/instance.py:168-172 | after a sweep that did not raise, queuing and assignment complete the tick |
| World.Instance.Restock | core/instance.py:168-172 | the queue gains the generated order, and the idle bots take the queued orders round by round |
| World.Instance.UpdateBots | core/instance.py:164-165 | every bot updates in table order, and the first update that raises ends the loop; the result is `Ticks.Swept` |
| World.Instance.FindPodWithItems | core/instance.py:201-208 | the nested loop returns `Orders.FindPodWithItems` of the pods |
| World.Instance.GenerateRandomOrder | core/instance.py:174-182 | the queue gains `Ticks.NewOrder` for the queue length at its back |
| World.Instance.MaybeGenerateOrder | core/instance.py:168-169 | the queue becomes `Ticks.Enqueued` of the old queue |
| World.Instance.AssignTasks | core/instance.py:184-199 | as many orders as idle bots or queued orders, whichever is fewer, are taken from the front; each idle bot in table order takes one, getting the fetch task and its order filed when a pod and a station are found |
| World.Instance.TakeFront | core/instance.py:189-199 | one round takes the front order and extends the rounds so far |
| World.Instance.PopFront | core/instance.py:192 | `pop(0)` returns the front order and leaves the rest of the queue in order |
| World.Instance.TakeOrder | core/instance.py:194-199 | with no pod or no station nothing changes; otherwise the bot takes the fetch task and the order is filed under its id |
| World.Instance.ResetStatistics | core/instance.py:217-227 | the statistics become zero, started at the given time |
| World.Instance.BuildGrid | core/instance.py:64-70 | the building loop gives `width * height` new waypoints at their grid positions, each in the grid map |
| World.Instance.LinkTo | core/instance.py:76-86 | one `if` of the connecting loop links the waypoint in one more direction |
| World.Instance.LinkWaypoint | core/instance.py:74-86 | linking one waypoint gives the connected grid cell |
| World.Instance.ConnectGrid | core/instance.py:72-86 | the connecting loop gives the connected grid |
| World.Instance.PlaceStations | core/instance.py:88-108 | a station loop raises exactly at `Generation.StationFault`, changing nothing; otherwise the stations of its row are appended and their waypoints refer to them |
| World.Instance.PlaceRow | core/instance.py:92-98 | a station row raises exactly when it has stations and its first cell is off the grid; otherwise it places the row's stations |
| World.Instance.MarkStorage | core/instance.py:110-120 | the storage loop raises exactly at `Generation.StorageFault`, leaving the band rows before the failing one marked; otherwise it marks the storage cells |
| World.Instance.MarkRow | core/instance.py:117-120 | a band row raises at column 2, before marking anything, exactly when it has storage columns and is off the grid; otherwise it marks its storage columns |
| World.Instance.StockPod | core/instance.py:136-137 | seeding a pod gives `Pods.Stocked` |
| World.Instance.PlacePod | core/instance.py:129-138 | one pod round adds the next pod on its waypoint, which refers to it, seeded with its names |
| World.Instance.PlacePods | core/instance.py:122-138 | the shuffled storage cells receive pods while both last, each on its cell and seeded |
| World.Instance.PlaceAll | core/instance.py:128-138 | the pod rounds place pod `i` on cell `i` |
| World.Instance.SpawnRobots | core/instance.py:140-152 | the shuffled free waypoints receive idle bots of the given speed while both last |
| World.Instance.LayOutSites | core/instance.py:63-120 | it raises the first `KeyError` of the station and storage loops, or lays out the grid, stations and storage cells |
| World.Instance.GenerateLayout | core/instance.py:56-154 | `generate_layout` raises exactly the `KeyError` that `Generation.Generate` predicts, or builds exactly its floor and stations with the grid map; the result is consistent and, with no orders queued, valid |
| World.Instance.Furnish | core/instance.py:122-152 | the pod and robot loops give the floor of `Generation.Generate` |

## Left out

- Continuous motion: `move`'s interpolation, `math.sqrt`, the 0.1 snap threshold, `speed`, the float positions `x`, `y`, `target_x` and `target_y` of bots and pods, and `distance_traveled` are not modelled. Each bot update takes a `reached` flag that stands for the distance test.
- Ticks.Tick: `total_distance_traveled` in the statistics is never increased, because movement has no length in the model.
- Waypoints.SqDistance: `get_distance` is modelled in squared form, without the square root. On the unit grid every edge still costs 1, but edge costs between points further apart differ from the source.
- Randomness is supplied by the caller: the 5% draw and the order of `update`, the station choice of `generate_random_order`, the shuffles in `generate_layout`, and the items seeded into each pod.
- Floating point: times, capacities, weights and utilization are exact `real`s, so no rounding is modelled.
- `print_statistics` is left out. Only the utilization it computes is modelled (`Orders.Utilization`).
- `reset_statistics` takes the wall-clock time as a parameter instead of calling `time.time()`.
- core/station.py is not part of this model beyond a `Station(id, waypoint)` record. Its counters are never updated in the source.
- The simulator loop, main.py, the visualization and the `__repr__` methods are I/O and are not part of this model.
- Unused fields are not modelled: `bots_approaching`, `bots_leaving` and `is_queue` of waypoints, `name`, `config` and `running` transitions of the instance, and the `picking`/`dropping` bot states, which nothing sets.
- Bots.CalculatePath: the source's `calculate_path(None)` crashes inside the search. The model returns `Raised(DestinationIsNone)` at once instead of modelling the partly run search first; the search changes nothing before it crashes.
- Pathfinding.FindPath: the open set is popped as "first entry with least score", not with Python's `heapq`. The source's heap raises on score ties (see Findings), so the model states the behaviour the code evidently intends.
- Pathfinding.FindPath: only soundness is proved. With stale priorities the search is not claimed to return a shortest path.
- World.Instance.GenerateLayout: only generation into a new, empty instance is modelled. After a raise, `generate_layout` itself promises nothing about the half-filled tables (the exception leaves the program). `World.Instance.MarkStorage` states which band rows it left marked, but the whole layout does not carry that through, and the pod and robot loops cannot fail once the stations and the storage loop have succeeded.
- Ticks.NewOrder: ids of generated orders are the queue length, as in the source, so ids can repeat after orders are taken. Nothing in the model relies on unique order ids.
- Configuration counts, width and height are `nat`: negative configuration values are not modelled.
- World.Instance.AssignTasks: no exclusivity of pods is claimed, because the source does not reserve a pod at assignment.
- Waypoints.AddPath and Pods.AddItem / Pods.RemoveItem are functions that return the updated record, which the instance stores back into its table. The success flag of `add_item` is returned alongside.

## Findings

| source | as written | input that shows it | evidently intended | confidence | as-written member | corrected member |
|---|---|---|---|---|---|---|
| core/pathfinding.py:59 | `heapq.heappush(open_set, (f_score[neighbor], neighbor))` compares the tuples, and on a score tie compares two `Waypoint`s, which define no order, so it raises `TypeError` | on an empty 3 by 3 grid, from waypoint 0 to waypoint 8, the neighbours 1 and 3 both score 4, so the second push raises | the search orders entries by score only, popping one of the least | not executed | PyHeap.FirstExpansionRaises | Pathfinding.FindPath |
