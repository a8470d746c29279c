# AI-For-Games in Dafny

A model of the game logic of AI-For-Games, a Unity top-down stealth game. Its
enemies patrol a randomly generated dungeon, plan paths over a navigation
graph and chase the player when they see them. The model covers six parts.

1. **The dungeon generator** (`MapGen`, file `mapgen.dfy`, with the grid
   values of `grids.dfy`).
   - A random list of direction tokens with no immediate reversals.
   - A walk from the grid centre that carves open rooms into an `int` matrix
     in place and surrounds them with walls.
   - The VIP room at three quarters of the walk, the exit at its end, and
     the retry rule that redraws the whole walk and sometimes shortens it.
   - The grid is specified as a value by pure functions. The methods carve
     an `array2<int>` and are proved to agree with those functions cell by
     cell (`Agree`).
2. **The path planner** (`Dijkstra`). Nearest-node scans with first-wins
   tie breaking, the half-plane "in front" filter with its fallback, and
   Dijkstra's algorithm with the sorted-list frontier and predecessor
   backtracking. `FindShortestPath` is proved to return a lightest path of
   the graph, or the empty list exactly when the target cannot be reached.
   Its dictionary misses are modelled as `Failure`.
3. **The navigation graph** (`NodeGraph`). The grid of candidate node
   positions and the touch/keep rule of `NodeSpawner.SpawnNodeGrid`, the
   usability flag of `Node` (it only ever moves from true to false), and the
   edge rule of `ConnectNodes`.
4. **The path-following controller** (`EnemyNav`). Both `EnemyController`
   files: the replan throttle, the path index, the rotation counter, the
   stuck timer, and the two versions of `isPlayerInSight`, which are proved
   equal.
5. **The behaviour state machine** (`EnemyAI`, with the field of view it
   drives in `EnemyFov`).
   - Five states, per-frame countdown timers and the attack-mode override of
     the field of view.
   - The `WaitBeforeSearch` and `SmoothSearchRoutine` coroutines, as explicit
     sub-states of one routine slot.
6. **The field-of-view meshes** (`FovMesh`, shared by `EnemyFov`,
   `FieldOfView` and `FieldOfViewCian`). The triangle fan the three
   components fill ray by ray into arrays: every write is in bounds, vertex
   `i + 1` is the end of ray `i`, and triangle `t` is `(0, t + 1, t + 2)`.
   It also covers the parameter setters and the angle wrap of
   `GetAngleFromVectorFloat`.

Everything Unity provides becomes a parameter: physics queries (overlaps,
ray casts, line casts), vector maths, Atan2 and the quaternion helpers,
`Random.Range` and `Time.deltaTime`. Each such parameter is a function or a
sequence, so each property holds for every physics world and every random
stream. Integers are unbounded, distances and angles are `real`, and
`float.MaxValue` is an explicit `Infinite` value.

Two facts about the generator's retry rule (MapGen.cs:63, 98-112):
- With `PathLength` at most 4 the VIP index names the last token, so the
  VIP room always falls on the exit or the entrance and every attempt
  retries. `PathLength` shrinks only from 6 or more, so such a run never
  ends (`MapGen.ShortPathNeverGenerates`).
- The walk shrinks on every fifth counted bounds failure while
  `PathLength` is at least 6, and coincident layouts are not counted
  (`MapGen.RetuneFacts`).

## Model

| member | source | states |
|---|---|---|
| Grids.Filled | MapGen.cs:51 | the fresh matrix: an n by n grid holding one value (0) in every cell |
| Grids.Set | MapGen.cs:57 | one matrix write: the written cell takes the value and every other cell keeps its own |
| MapGen.IsInBounds | MapGen.cs:181-184 | accepted exactly when 1 <= x, y < gridDimension - 1, so all eight neighbours of an accepted cell are cells of the grid |
| MapGen.Slot | MapGen.cs:185-219 | each neighbour of the centre has exactly one of the eight guarded writes aimed at it; a cell that is no neighbour has none |
| MapGen.SlotFacts | MapGen.cs:185-219 | the eight writes hit eight different cells, and no test reads a cell that an earlier write has already changed |
| MapGen.WallIf | MapGen.cs:189-190 | one guarded write of PlaceWallsAround keeps a well-formed grid |
| MapGen.WallsFrom | MapGen.cs:185-219 | writes k..7 of PlaceWallsAround keep a well-formed grid |
| MapGen.PlaceWalls | MapGen.cs:185-219 | PlaceWallsAround as a function on grids keeps a well-formed grid |
| MapGen.WallsFromCell | MapGen.cs:185-219 | writes k..7 wall a cell exactly when its slot is k or later and its test passes on the grid they start from |
| MapGen.PlaceWallsCell | MapGen.cs:185-219 | the eight sequential writes act as one simultaneous rule: a cell becomes a wall exactly when its test passes on the starting grid, and every other cell keeps its value |
| MapGen.PlaceWallsEffect | MapGen.cs:185-219 | PlaceWallsAround writes only 3, only to neighbours of an in-bounds centre, never over 1, 4 or 5, and over 2 only at the right-hand neighbour under the test as written |
| MapGen.RightNeighbourExitOverwritten | MapGen.cs:200-202 | on a 3 by 3 grid with the exit right of the centre, the right-hand test as written walls the exit and the corrected test keeps it |
| MapGen.DrawTokensFacts | MapGen.cs:220-255 | the kept tokens: at most max(x, 0) of them, exactly that many unless the draws run out, each one of u, d, l, r, none the reverse of the one before; the unused draws are a suffix |
| MapGen.Directions | MapGen.cs:220-255 | the loop returns the reference token list: max(x, 0) well-formed tokens unless the draws run out, a reversing draw discarded without counting |
| MapGen.VipIndexRange | MapGen.cs:63 | directions.Count * 3 / 4 names a token of the list, and names the last one exactly when there are at most four |
| MapGen.WalkPrefix | MapGen.cs:67-121 | the walk over the first k tokens keeps a well-formed grid while it goes on |
| MapGen.CarveKeepsWalkGrid | MapGen.cs:91-95 | carving an open room and walling it keeps the entrance as the only 1 and every cell empty, wall or open room, and never closes an earlier open room |
| MapGen.WalkFactsStart | MapGen.cs:53-65 | before the first token the walk stands on the entrance, the only cell holding 1, with the VIP cell at the entrance |
| MapGen.VipAfterStep | MapGen.cs:115-120 | the VIP position is captured after the valid token numbered vipRoomIndex and at no other token |
| MapGen.InvalidTokenStep | MapGen.cs:85-87 | an invalid token is skipped: the walk does not move and the step cannot fail |
| MapGen.CarriedFacts | MapGen.cs:90-120 | after an accepted valid token the walk invariant holds at the new cell |
| MapGen.ValidTokenStep | MapGen.cs:70-95 | a valid token is accepted exactly when the new cell is in bounds and not the entrance, and then it is carved as an open room with walls around it |
| MapGen.WalkFactsStep | MapGen.cs:68-120 | one token: the walk goes on exactly when that step is accepted, and the invariant carries over |
| MapGen.WalkPrefixFacts | MapGen.cs:68-121 | the walk over k tokens survives exactly when every valid step among them is accepted, and then the invariant holds |
| MapGen.AttemptKindIff | MapGen.cs:91-133 | an attempt is abandoned exactly when some valid step leaves the inner ring or lands on the entrance; otherwise it retries as coincident exactly when two of entrance, VIP and exit share a cell |
| MapGen.AttemptKindMatches | MapGen.cs:91-133 | how an attempt ends depends on the walk's geometry alone, not on the grid or the wall test |
| MapGen.ShortWalkNeverSucceeds | MapGen.cs:116-133 | an attempt with at most four tokens never builds a dungeon |
| MapGen.VipPhase | MapGen.cs:135-140 | after the exit, the VIP room and its walls: one entrance, one VIP room, exit values only at the exit, open rooms other than VIP and exit kept |
| MapGen.EntrancePhase | MapGen.cs:142-143 | the walls around the entrance keep the finished-grid shape and touch the exit only as its right-hand neighbour under the test as written |
| MapGen.SuccessLayout | MapGen.cs:135-146 | on success the entrance holds 1 and the VIP cell holds 5, each the only cell holding it; the exit holds 2 unless it is the right-hand neighbour of the VIP room or the entrance under the test as written (then 3); every other walked cell is an open room |
| MapGen.CorrectedKeepsExit | MapGen.cs:200-202 | with the right-hand test reading [x+1, y], every successful layout has exactly one exit cell |
| MapGen.AsWrittenLosesExit | MapGen.cs:136-143 | with the test as written, the 7 by 7 walk u, u, l, d, r succeeds with no cell holding 2 |
| MapGen.WallCell | MapGen.cs:189-218 | one guarded write on the matrix equals the corresponding write on the grid value |
| MapGen.PlaceWallsAround | MapGen.cs:185-219 | the method's eight in-place writes leave the matrix equal to PlaceWalls of the grid it held |
| MapGen.RejectedStays | MapGen.cs:96-113 | once a step is rejected the walk never resumes: the rejection holds at the last token |
| MapGen.AttemptRejected | MapGen.cs:96-113 | a rejected step makes the attempt a bounds failure |
| MapGen.AttemptAfterWalk | MapGen.cs:123-143 | a completed walk ends coincident when VIP, entrance or exit coincide, and otherwise with the layout finished from the walk's grid |
| MapGen.StepTarget | MapGen.cs:70-88 | the switch: valid exactly for u, d, l, r, moving the current cell by that token's offset |
| MapGen.WalkStep | MapGen.cs:68-121 | one loop pass on the matrix: accepted exactly when the walk goes on, and then the matrix holds the walk's grid |
| MapGen.FinishLayout | MapGen.cs:135-143 | the finishing writes leave the matrix equal to the finished grid value |
| MapGen.WalkAll | MapGen.cs:68-121 | the whole loop on the matrix: completes exactly when the walk survives every token, and then the matrix holds its grid |
| MapGen.GenerateAttempt | MapGen.cs:49-143 | one attempt on a fresh matrix ends as AttemptKind says; on success the matrix holds the layout, with the VIP and exit cells |
| MapGen.RetuneFacts | MapGen.cs:98-110 | a bounds failure counts one more failure; PathLength drops by one exactly when it is at least 6 and the count is a multiple of 5, so never below min(PathLength, 5) |
| MapGen.Run | MapGen.cs:96-133 | the retries: a dungeon is built only from directions whose attempt succeeds; PathLength never grows, never drops below min(start, 5), and drops at most once per multiple of 5 passed; the failure count never falls |
| MapGen.RunDone | MapGen.cs:135-148 | a run whose first attempt succeeds builds that dungeon with no bookkeeping change |
| MapGen.RunExhausted | MapGen.cs:98-111 | a failed attempt whose redraw runs out of random values ends the run |
| MapGen.RunRetry | MapGen.cs:96-133 | a failed attempt redraws PathLength tokens with the length in force before the failure is counted, then updates the bookkeeping only after a bounds failure |
| MapGen.ShortPathNeverGenerates | MapGen.cs:96-133 | with PathLength at most 4 and at most four tokens in hand, no run ever builds a dungeon |
| MapGen.MapGenerator.constructor | MapGen.cs:14-18 | the inspector sizes: tileSize 10, gridDimension 20, PathLength 10, Count 0 |
| MapGen.MapGenerator.Redraw | MapGen.cs:96-113 | the retry branch: a fresh PathLength-token list from the random stream, and on a bounds failure Count and PathLength updated as Retune says |
| MapGen.MapGenerator.GenerateDungeonFromDirections | MapGen.cs:49-149 | the fields end as Run says; on success the dungeon matrix holds the successful attempt's layout and the spawn is (startX * tileSize, startY * tileSize, 0); otherwise the dungeon and spawn are unchanged |
| MapGen.MapGenerator.Generate | MapGen.cs:49-149 | the recursion of GenerateDungeonFromDirections carries out the run it is given |
| MapGen.MapGenerator.Start | MapGen.cs:30-40 | gridDimension becomes the map size and PathLength ten times it; the first list is drawn, then generation runs as Run says; on success the dungeon is mapSize wide and the player spawns at the entrance's tile position; on failure the dungeon, the built flag and the spawn position keep their old values |
| Dijkstra.FirstClosest | Dijkstra.cs:11-25 | nothing exactly when no node is accepted; otherwise the first node in list order of least distance among the accepted ones |
| Dijkstra.FirstClosestUnique | Dijkstra.cs:11-25 | the first closest accepted node is unique, so the scan returns index i exactly when i is that node |
| Dijkstra.FirstClosestStep | Dijkstra.cs:14-23 | one more node replaces the running minimum only when it is accepted and strictly closer |
| Dijkstra.NotInFrontOfItself | Dijkstra.cs:38-41 | when normalising the zero vector gives zero, a node at the query position has dot product 0, so it is never in front |
| Dijkstra.FindClosestNode | Dijkstra.cs:6-26 | null exactly for an empty node list; otherwise the first node of least distance |
| Dijkstra.FindClosestNodeInFront | Dijkstra.cs:28-60 | the first closest node whose normalised direction has a positive dot product with the normalised forward direction and that is unobstructed; when there is none, exactly FindClosestNode; when normalising zero gives zero, a node at the query position comes only from that fallback |
| Dijkstra.WeightCons | Dijkstra.cs:106 | a path's weight is its first edge's weight plus the weight of the rest |
| Dijkstra.FrontierBound | Dijkstra.cs:91-121 | a path from the start to a node not yet taken passes a frontier node whose distance is no greater than the path's weight |
| Dijkstra.MinIsOptimal | Dijkstra.cs:93-96 | the frontier node of least distance has the least weight of any path to it |
| Dijkstra.ExhaustedReach | Dijkstra.cs:91-121 | once the frontier is empty, a node never taken from it cannot be reached |
| Dijkstra.RelaxedIsFresh | Dijkstra.cs:101-119 | only a usable node, not yet taken and not the start, ever gets a shorter distance |
| Dijkstra.RelaxShape | Dijkstra.cs:108-119 | a relaxation keeps the table keys, the non-negative distances and a duplicate-free frontier of exactly the reached untaken nodes |
| Dijkstra.RelaxChains | Dijkstra.cs:108-119 | a relaxation keeps every predecessor link an edge that accounts exactly for the distance |
| Dijkstra.RelaxSettled | Dijkstra.cs:108-119 | a relaxation keeps the taken nodes' distances optimal and no greater than any frontier distance |
| Dijkstra.RelaxRelaxed | Dijkstra.cs:108-119 | a relaxation keeps the edges already relaxed relaxed |
| Dijkstra.InitTables | Dijkstra.cs:76-84 | distance and previous get keys for exactly the usable listed nodes, at float.MaxValue and null |
| Dijkstra.PopMin | Dijkstra.cs:93-96 | the node taken has the least distance in the frontier, and the others all stay, without duplicates |
| Dijkstra.RelaxEdge | Dijkstra.cs:103-119 | after one neighbour the invariant holds and the neighbour's distance is at most the distance through the current node |
| Dijkstra.TakeKeeps | Dijkstra.cs:93-96 | taking the nearest node out keeps the invariant, with only its own edges left to relax |
| Dijkstra.TakeShape | Dijkstra.cs:93-96 | taking a node out keeps the table and frontier shape |
| Dijkstra.TakeChains | Dijkstra.cs:93-96 | taking a node out keeps the predecessor links, numbering it next in the order of removal |
| Dijkstra.TakeSettled | Dijkstra.cs:93-96 | taking the nearest node out keeps every taken node's distance optimal |
| Dijkstra.RelaxedAll | Dijkstra.cs:101-120 | once every neighbour of the node is relaxed, all edges out of taken nodes are relaxed |
| Dijkstra.ExpandStep | Dijkstra.cs:101-120 | one neighbour: an unusable one is skipped, a usable one without a distance throws, any other is relaxed |
| Dijkstra.Expand | Dijkstra.cs:101-120 | the neighbour loop throws only on a missing key, never when the node has a list and every edge leads to a keyed node; otherwise the invariant holds with all its edges relaxed |
| Dijkstra.Backtrack | Dijkstra.cs:123-138 | following previous from the target gives a path of the graph from the start whose weight is the target's distance; empty exactly when the target was never reached; throws exactly when the target, or a start on the chain, has no key; [start] when target = start |
| Dijkstra.FewerLeft | Dijkstra.cs:91-121 | each pass of the main loop takes out a node not taken before, so the loop ends |
| Dijkstra.Visit | Dijkstra.cs:91-121 | one pass of the main loop takes a fresh node out and keeps the loop invariant |
| Dijkstra.StartSearch | Dijkstra.cs:76-88 | before the loop the start has distance 0 and is the only frontier node |
| Dijkstra.SearchDone | Dijkstra.cs:91-121 | when the loop stops the target was taken exactly when it is reachable, and then its distance is a lower bound on every path to it |
| Dijkstra.FindShortestPath | Dijkstra.cs:62-139 | a non-empty result is a graph path from start to target no heavier than any other; the empty result means the target is unreachable; an unusable or unlisted target throws; a well-formed graph never throws; from a usable node to itself the path is [start] |
| NodeGraph.UsableMonotone | Node.cs:31-38 | the check only moves isUsable from true to false, clears it exactly when the overlap is non-empty, and otherwise leaves it |
| NodeGraph.UsableIdempotent | Node.cs:31-38 | checking the same overlap twice is checking it once |
| NodeGraph.TouchingObjects | Node.cs:40-68 | the collected colliders are other objects' colliders from the query, no more of them than there were hits |
| NodeGraph.TouchingObjectsNonEmpty | Node.cs:46-67 | something is collected exactly when some hit is another object's collider |
| NodeGraph.StartAfterInitialize | Node.cs:71-78 | the check in Start, on the same world, gives what Initialize already set |
| NodeGraph.Node.constructor | NodeSpawner.cs:44 | Instantiate copies the prefab's isUsable and checkRadius at the spawn position |
| NodeGraph.Node.CheckIfUsable | Node.cs:31-38 | isUsable after the "Objects" overlap at the node, position and radius unchanged |
| NodeGraph.Node.Initialize | Node.cs:18-28 | position and radius set first, then the usability check at the new ones |
| NodeGraph.Node.Start | Node.cs:71-78 | the check runs again only while playing |
| NodeGraph.Node.CheckIfTouching | Node.cs:40-68 | true exactly when some overlap hit is a non-null collider of another object |
| NodeGraph.Column | NodeSpawner.cs:36-42 | a column has nodeCountY candidate cells |
| NodeGraph.CandidatesCount | NodeSpawner.cs:28-42 | there are nodeCountX * nodeCountY candidates |
| NodeGraph.CandidatesCells | NodeSpawner.cs:28-42 | the candidates are exactly the cells (x, y), x below nodeCountX and y below nodeCountY, at origin + (-width/2 + x * spacing, -height/2 + y * spacing) |
| NodeGraph.KeptPositions | NodeSpawner.cs:34-58 | no more nodes are kept than there are candidates |
| NodeGraph.KeptPositionsMember | NodeSpawner.cs:46-57 | a position is kept exactly when it is a candidate that touches something and the prefab's isUsable flag, which Instantiate copies before Initialize runs its own check, is set |
| NodeGraph.SpawnCountBound | NodeSpawner.cs:28-58 | at most nodeCountX * nodeCountY nodes are kept |
| NodeGraph.NeighboursUpTo | NodeSpawner.cs:70-84 | a node gets at most one neighbour per node scanned |
| NodeGraph.NeighboursUpToMember | NodeSpawner.cs:70-84 | a node among the first k is a neighbour exactly when the edge rule holds |
| NodeGraph.NeighboursMember | NodeSpawner.cs:64-84 | other is a neighbour exactly when it is listed, both nodes are usable, they differ, the line cast is clear and the distance is at most connectionDistance; no self-loops; an unusable node has none |
| NodeGraph.NeighboursUpToDistinct | NodeSpawner.cs:70-84 | a list without repeats gives neighbour prefixes without repeats |
| NodeGraph.NeighboursDistinct | NodeSpawner.cs:70-84 | a list without repeats gives neighbour lists without repeats |
| NodeGraph.NeighboursSymmetric | NodeSpawner.cs:70-84 | with a symmetric line cast and distance the graph is undirected |
| NodeGraph.NodeSpawner.constructor | NodeSpawner.cs:6-13 | the inspector defaults 10, 10, 2 and 1, and an empty private list and graph |
| NodeGraph.NodeSpawner.SpawnNodeGrid | NodeSpawner.cs:22-61 | the shared list is cleared, then holds fresh distinct nodes at exactly the kept positions in x-major order, each initialised there |
| NodeGraph.NodeSpawner.SpawnColumn | NodeSpawner.cs:36-59 | the inner loop spawns the kept nodes of column x, in order |
| NodeGraph.NodeSpawner.SpawnOne | NodeSpawner.cs:38-58 | one candidate: a node is appended exactly when it touches something and is usable |
| NodeGraph.NodeSpawner.ConnectNodes | NodeSpawner.cs:62-86 | every listed node gets a fresh neighbour list built by the edge rule in list order; other entries are kept |
| NodeGraph.NodeSpawner.ConnectNode | NodeSpawner.cs:64-85 | one outer pass stores the neighbour list of one node, empty when it is unusable |
| NodeGraph.NodeSpawner.Start | NodeSpawner.cs:15-21 | the grid is mapSize * 10 square, then spawned and connected; the spawner's own list and graph stay as they were |
| NodeGraph.NodeSpawner.GetAllNodes | NodeSpawner.cs:88-91 | the private list, which is never written, is empty |
| NodeGraph.NodeSpawner.GetNodeGraph | NodeSpawner.cs:92-95 | the private graph, which is never written, is empty |
| EnemyNav.MoveToHereFacts | EnemyController_Cian.cs:217-252 | below the threshold only the counter moves; at it the counter resets and the new path is taken: a non-empty one from index 0 and moving, without a step yet; on an empty one the enemy steps towards the target by MoveTowards, turning to face it when the direction is nonzero and the player is not in view, with the path flags untouched (same code at EnemyController.cs:201-236) |
| EnemyNav.TickOfMoveToHere | EnemyController_Cian.cs:219-229 | the counter after a call is the throttle's next value |
| EnemyNav.ThrottleFirstPeriod | EnemyController_Cian.cs:219-229 | from a fresh component the first timer - 1 calls only count |
| EnemyNav.ThrottlePeriodic | EnemyController_Cian.cs:219-229 | the counter repeats with period timer, so every timer-th call replans |
| EnemyNav.ReplanIffReset | EnemyController_Cian.cs:219-229 | a call replans exactly when it brings the counter back to 0 |
| EnemyNav.FollowPathAtEnd | EnemyController_Cian.cs:255-259 | at or past the end of the path FollowPath only clears isMoving (same at EnemyController.cs:239-243) |
| EnemyNav.FollowPathIndex | EnemyController_Cian.cs:315-318 | the index moves on by exactly one when within 0.1 of the node captured at the start, from where it was or from 0 after a stuck replan (same at EnemyController.cs:298-301) |
| EnemyNav.MoveToHereValid | EnemyController_Cian.cs:217-252 | the throttle keeps the counters non-negative and leaves the rotation counter, the view flag and a path alone |
| EnemyNav.UnstickValid | EnemyController_Cian.cs:295-312 | whatever the stuck timer was, afterwards it is at most 2 |
| EnemyNav.FollowPathCounters | EnemyController_Cian.cs:267-286 | with a nonzero direction to the current node the rotation counter resets to 0 exactly when it is past rotationTimer and the index is beyond the first node, and otherwise counts up by one; with a zero direction or past the end of the path it stays; the state stays valid (same at EnemyController.cs:251-270) |
| EnemyNav.UpdateValid | EnemyController_Cian.cs:58-83 | a frame keeps the counters valid and records whether the player was seen, whatever paths the sighting replan and the stuck replan return |
| EnemyNav.StuckTriggersReplan | EnemyController_Cian.cs:295-312 | the stuck timer resets when the enemy is far from the node; past 2 it triggers a throttled MoveToHere and resets; otherwise no replan (same at EnemyController.cs:279-296) |
| EnemyNav.ReplanThenAdvance | EnemyController_Cian.cs:261-318 | one FollowPath call can reset the index to 0 by a stuck replan and move it on to 1 |
| EnemyNav.InSightAgree | EnemyController.cs:111-160 | the nested isPlayerInSight equals the guard chain of EnemyController_Cian.cs:141-176 on every input, and both are true exactly when a player is assigned, nearer than viewDistance, within fov/2 and hit by the ray |
| EnemyNav.EnemyController.constructor | EnemyController_Cian.cs:36-56 | the throttle and rotation settings 50 and 2, the stuck threshold 0.1, zero counters, no path, not moving |
| EnemyNav.EnemyController.GoTo | EnemyController_Cian.cs:195-216 | turn to face the target unless the player is in view, then step towards it |
| EnemyNav.EnemyController.MoveToHere | EnemyController_Cian.cs:217-252 | the fields change as the throttle and replan rule say, the settings never |
| EnemyNav.EnemyController.FollowPath | EnemyController_Cian.cs:253-319 | the fields change as one FollowPath step says |
| EnemyNav.EnemyController.Turn | EnemyController_Cian.cs:267-288 | the rotation counter and facing change as the rotation rule says |
| EnemyNav.EnemyController.Unstick | EnemyController_Cian.cs:295-312 | the stuck timer and the throttled replan change the fields as the stuck rule says |
| EnemyNav.EnemyController.Update | EnemyController_Cian.cs:58-83 | the view flag takes the guard chain's result, then the movement fields change as one frame says, with one path for the replan towards the player and another for the stuck replan towards the current node |
| FovMesh.RayAngleClosed | FieldOfView.cs:29-65 | after i decrements the angle is the first angle less i steps |
| FovMesh.FanRaysIndex | FieldOfView.cs:40-66 | the loop's ray list has one entry per ray, entry i the end of the ray at angle i |
| FovMesh.FanRayAt | FieldOfView.cs:34-66 | rayCount + 2 vertices, the centre first, vertex i + 1 the end of the ray cast at first - i * step |
| FovMesh.FanTriangle | FieldOfView.cs:56-62 | rayCount * 3 triangle slots, triangle t being (0, t + 1, t + 2) |
| FovMesh.FanTrianglesInBounds | FieldOfView.cs:32-62 | every triangle slot names one of the rayCount + 2 vertices |
| FovMesh.FanVerticesIff | FieldOfView.cs:34-54 | a vertex list is the fan exactly when it has the centre first and the end of ray i at i + 1 |
| FovMesh.FanTrianglesIff | FieldOfView.cs:56-62 | a triangle list is the fan's exactly when it holds the rayCount triples (0, t + 1, t + 2) in order |
| FovMesh.FanTrianglesPrefix | FieldOfView.cs:56-62 | each triangle extends the list written so far by one triple |
| FovMesh.PutVertex | FieldOfView.cs:54 | a vertex write extends the prefix written so far |
| FovMesh.PutTriangle | FieldOfView.cs:58-61 | the three writes from the two counters extend the fan's triangle prefix |
| FovMesh.FanDone | FieldOfView.cs:40-66 | a loop that has cast every ray has written the whole fan |
| FovMesh.CastRay | FieldOfView.cs:42-65 | one pass: ray i stored at vertexIndex, the triangle back to the previous ray added, both counters and the angle moved on in step |
| FovMesh.FanByCounters | FieldOfView.cs:28-66 | the counter loop, shared with FieldOfView_Cian.cs:52-88, fills fresh arrays with exactly the fan's vertices and triangles, every write in bounds |
| EnemyFov.StartRecordsDefaults | EnemyFov.cs:18-26 | Start records fov and viewDistance as the defaults, keeps both, and aligns the starting angle with up |
| EnemyFov.SettersChangeOwnField | EnemyFov.cs:35-53 | SetFOV, SetViewDistance and SetAttackMode each change only their own field, plus the starting angle for the first and last |
| EnemyFov.AttackModeOffset | EnemyFov.cs:64-72 | attack mode turns the starting angle a further 45 degrees |
| EnemyFov.SettersKeepDefaults | EnemyFov.cs:35-53 | no run of setters changes the defaults or the direction, and the starting angle stays forwardAngle - fov/2 (- 45 in attack mode) |
| EnemyFov.ResetForgetsSetters | EnemyFov.cs:55-62 | a reset after any run of setters gives the state of a reset right away |
| EnemyFov.ResetRestoresDefaults | EnemyFov.cs:55-62 | after a reset fov and viewDistance are the recorded defaults and attack mode is off |
| EnemyFov.MeshShape | EnemyFov.cs:74-105 | 52 vertices, the local origin first, vertex i + 1 the local end of the ray at startingAngle + 90 - i * fov / 50; triangle t is (0, t + 1, t + 2) and every index is a vertex |
| EnemyFov.FirstSpottedIff | EnemyFov.cs:114-137 | the player found is the collider at the first index within fov/2 whose ray hits the player; none exactly when no collider qualifies |
| EnemyFov.CastLocalRay | EnemyFov.cs:85-105 | one pass writes vertices[i + 1] and, from the second ray, triangle i - 1 at slots 3(i - 1) |
| EnemyFov.LocalFan | EnemyFov.cs:80-105 | the loop fills fresh arrays with exactly the local fan and its triangles |
| EnemyFov.EnemyFOV.constructor | EnemyFov.cs:6-16 | the inspector values 90 and 7, and an empty mesh |
| EnemyFov.EnemyFOV.Start | EnemyFov.cs:18-26 | the defaults recorded, facing up, mesh drawn |
| EnemyFov.EnemyFOV.SetDirection | EnemyFov.cs:28-33 | the normalised direction, its starting angle, mesh drawn |
| EnemyFov.EnemyFOV.SetFOV | EnemyFov.cs:35-40 | the new fov and its starting angle, mesh drawn |
| EnemyFov.EnemyFOV.SetViewDistance | EnemyFov.cs:42-46 | the new view distance, starting angle untouched, mesh drawn |
| EnemyFov.EnemyFOV.SetAttackMode | EnemyFov.cs:48-53 | the new mode and its starting angle, mesh drawn |
| EnemyFov.EnemyFOV.ResetToDefault | EnemyFov.cs:55-62 | the defaults restored, attack mode off, mesh drawn |
| EnemyFov.EnemyFOV.UpdateStartingAngle | EnemyFov.cs:64-72 | only the starting angle changes |
| EnemyFov.EnemyFOV.GenerateMesh | EnemyFov.cs:74-112 | the mesh holds the fan of the current state, nothing else changes |
| EnemyFov.EnemyFOV.IsPlayerInFOV | EnemyFov.cs:114-137 | true with the first spotted collider in range, otherwise false and no player |
| FieldOfView.MeshShape | FieldOfView.cs:26-72 | 52 vertices, the origin first, vertex i + 1 the end of the ray at startingAngle + 90 - i * fov / 50; triangle t is (0, t + 1, t + 2) and every index is a vertex |
| FieldOfView.AimedFan | FieldOfView.cs:79-83 | after SetAimDirection the rays run from aim + 90 - fov/2 to aim + 90 - 3 fov/2, centred on the aim exactly when fov is 90 |
| FieldOfView.FieldOfView.constructor | FieldOfView.cs:9-12 | the inspector values 90 and 7, an empty mesh |
| FieldOfView.FieldOfView.Start | FieldOfView.cs:14-19 | a fresh empty mesh and the origin at the transform position |
| FieldOfView.FieldOfView.LateUpdate | FieldOfView.cs:21-24 | the mesh holds the fan of the current state |
| FieldOfView.FieldOfView.GenerateMesh | FieldOfView.cs:26-72 | the mesh holds the fan of the current state, the fields unchanged |
| FieldOfView.FieldOfView.SetOrigin | FieldOfView.cs:74-77 | only the origin changes |
| FieldOfView.FieldOfView.SetAimDirection | FieldOfView.cs:79-83 | only the starting angle changes, to angle(aim) - fov/2 |
| FieldOfViewCian.GetAngleFromVectorFloat | FieldOfView_Cian.cs:118-127 | an Atan2 heading in (-180, 180] maps into [0, 360), to itself or itself plus 360, unchanged when non-negative |
| FieldOfViewCian.AngleWrapUnique | FieldOfView_Cian.cs:118-127 | the wrapped angle is the one angle in [0, 360) that differs from the heading by 0 or 360 |
| FieldOfViewCian.MeshShape | FieldOfView_Cian.cs:49-95 | 62 vertices, the origin first, vertex i + 1 the end of the ray at startingAngle + fov - i * fov / 60; triangle t is (0, t + 1, t + 2) and every index is a vertex |
| FieldOfViewCian.AimUsesPreviousFov | EnemyController_Cian.cs:133-140 | the aim is set before the fov, so the fan is centred on the aim exactly when the fov did not change |
| FieldOfViewCian.FieldOfView.constructor | FieldOfView_Cian.cs:10-13 | the field initialisers 90 and 50, an empty mesh |
| FieldOfViewCian.FieldOfView.LateUpdate | FieldOfView_Cian.cs:49-95 | the mesh holds the fan of the current state, the fields unchanged |
| FieldOfViewCian.FieldOfView.SetFov | FieldOfView_Cian.cs:98-101 | only fov changes |
| FieldOfViewCian.FieldOfView.SetViewDistance | FieldOfView_Cian.cs:103-106 | only viewDistance changes |
| FieldOfViewCian.FieldOfView.SetOrigin | FieldOfView_Cian.cs:108-111 | only the origin changes |
| FieldOfViewCian.FieldOfView.SetAimDirection | FieldOfView_Cian.cs:113-116 | only the starting angle changes, to the wrapped angle less the fov current at the call |
| FieldOfViewCian.UpdateFieldOfView | EnemyController_Cian.cs:133-140 | aim, origin, fov and view distance set in that order, the mesh untouched |
| EnemyAI.StartsWandering | EnemyAI.cs:30-34 | the enemy starts wandering with wanderTimer = its wanderTime setting, facing a random direction, with no routine |
| EnemyAI.SpottedEntersAttack | EnemyAI.cs:38-48 | seeing the player enters Attack; from any other state with fov 45, view distance 17 and attack mode on; in Attack no parameter changes; a running routine is left alone |
| EnemyAI.LostStartsWait | EnemyAI.cs:49-76 | with a positive searchWaitTime, losing the player in Attack switches to WaitingToSearch in the same Update, the wait's first pass already run (timer searchWaitTime - dt), and the dispatch then does nothing |
| EnemyAI.IdleCountdown | EnemyAI.cs:98-107 | the idle timer drops by dt; at or below 0 a new direction and Wandering, with the idle timer not reset |
| EnemyAI.WanderCountdown | EnemyAI.cs:82-96 | the wander timer runs only on frames already within 0.1 degrees of the direction; at or below 0 the enemy idles with both timers set from its idleTime and wanderTime settings |
| EnemyAI.WaitCountdown | EnemyAI.cs:128-149 | a respot enters Attack and ends the wait; otherwise the timer drops by dt while positive, then the search begins |
| EnemyAI.RespotEndsOnlyTheTurn | EnemyAI.cs:187-206 | a respot inside SmoothRotate enters Attack but ends only that rotation; the search goes on to its pause with its timer unchanged |
| EnemyAI.SearchCycleEnd | EnemyAI.cs:170-185 | a cycle without the player takes 1.5 off the search timer; at or below 0 the enemy wanders with the default fov and a new direction |
| EnemyAI.TurnKeepsSearching | EnemyAI.cs:187-206 | a first or second turn that does not see the player keeps the search and its timer |
| EnemyAI.SearchLastsTwoCycles | EnemyAI.cs:151-181 | for any searchDuration in (1.5, 3], the default 3 among them: the search starts its first cycle with the full duration, a first cycle that ends without the player goes on with 1.5 less, and a second one returns the enemy to wandering with no routine |
| EnemyAI.RespotConsistent | EnemyAI.cs:218-227 | entering Attack from a coroutine keeps the routine slot consistent with the state |
| EnemyAI.SearchHeadConsistent | EnemyAI.cs:157-185 | the search loop head leaves the routine slot consistent and playerVisible as it was |
| EnemyAI.TurnConsistent | EnemyAI.cs:187-206 | a SmoothRotate step leaves the routine slot consistent and playerVisible as it was |
| EnemyAI.AfterTurnConsistent | EnemyAI.cs:164-184 | the pause or cycle end after a turn leaves the routine slot consistent and playerVisible as it was |
| EnemyAI.WaitConsistent | EnemyAI.cs:128-149 | the wait loop, for any searchWaitTime, leaves the routine slot consistent and playerVisible as it was |
| EnemyAI.ResumeConsistent | EnemyAI.cs:128-206 | resuming the routine keeps the slot consistent |
| EnemyAI.UpdateConsistent | EnemyAI.cs:36-80 | Update keeps the slot consistent |
| EnemyAI.FrameKeepsConsistent | EnemyAI.cs:36-80 | every frame keeps a wait only while waiting (or in Attack after a respot), a search only while searching or in Attack, and nothing while wandering or idle |
| EnemyAI.EnemyAI.constructor | EnemyAI.cs:9-28 | Wandering, zero timers, no player and no routine, and the declared settings: rotationSpeed 100, wanderTime, idleTime and searchWaitTime 2, searchDuration 3 |
| EnemyAI.EnemyAI.Start | EnemyAI.cs:30-34 | a random direction and a full wander timer |
| EnemyAI.EnemyAI.SetNewDirection | EnemyAI.cs:229-233 | the next random draw's direction |
| EnemyAI.EnemyAI.EnterAttackMode | EnemyAI.cs:218-227 | the Attack state, fov 45, view distance 17, attack mode on, facing the player |
| EnemyAI.EnemyAI.ExitSearchMode | EnemyAI.cs:208-216 | Wandering, the field of view reset and a new direction |
| EnemyAI.EnemyAI.WaitBeforeSearch | EnemyAI.cs:128-149 | one resumption of the wait coroutine |
| EnemyAI.EnemyAI.EnterSearchMode | EnemyAI.cs:151-155 | the Searching state and the search coroutine's first pass |
| EnemyAI.EnemyAI.SearchHead | EnemyAI.cs:157-185 | the search loop head: at or below 0 the search ends, otherwise the first turn starts |
| EnemyAI.EnemyAI.StartTurn | EnemyAI.cs:187-191 | SmoothRotate's target relative to the current rotation |
| EnemyAI.EnemyAI.Turn | EnemyAI.cs:192-205 | one SmoothRotate step: finished within 0.1 degrees, a respot, or a rotation step and a yield |
| EnemyAI.EnemyAI.AfterTurn | EnemyAI.cs:164-184 | the pause after a turn, or the end of a cycle |
| EnemyAI.EnemyAI.Resume | EnemyAI.cs:128-206 | the running coroutine's next step |
| EnemyAI.EnemyAI.StartWait | EnemyAI.cs:128-135 | the waiting state and the wait's first pass at once |
| EnemyAI.PerceiveNext | EnemyAI.cs:38-57 | afterwards playerVisible holds exactly when the field of view sees the player, and a visible player is always remembered, even when losing it starts the wait and the wait goes straight on to the search |
| EnemyAI.EnemyAI.Perceive | EnemyAI.cs:38-57 | the perception half of Update |
| EnemyAI.EnemyAI.Wander | EnemyAI.cs:82-96 | one Wander frame |
| EnemyAI.EnemyAI.Idle | EnemyAI.cs:98-107 | one Idle frame |
| EnemyAI.EnemyAI.Attack | EnemyAI.cs:109-126 | one Attack frame: turning to the player, facing the field of view at them within a degree, or starting the wait |
| EnemyAI.EnemyAI.Dispatch | EnemyAI.cs:59-76 | the switch on the state |
| EnemyAI.EnemyAI.Update | EnemyAI.cs:36-80 | perceive, dispatch, face the field of view along the up vector; the result says whether a wait was started; the mesh is drawn |
| EnemyAI.EnemyAI.Frame | EnemyAI.cs:36-80 | one frame: Update, then the routine unless Update has just started it |

## Findings

| source | as written | input that shows it | evidently intended | confidence | as-written member | corrected member |
|---|---|---|---|---|---|---|
| MapGen.cs:201 | the right-hand wall test reads matrix[x + 1, y + 1] != 2 | 7 by 7 grid, directions u, u, l, d, r: the VIP room is (2, 4) and the exit its right-hand neighbour (3, 4), which the VIP room's walls overwrite, leaving no exit | read matrix[x + 1, y] != 2, as the other seven tests read the cell they write | high, not executed | MapGen.AsWrittenLosesExit | MapGen.CorrectedKeepsExit |

The wall test is a parameter (`WallRule`) of the generator, its methods and
its lemmas. Every property above holds for both rules except those that name
one. `MapGen.RightNeighbourExitOverwritten` is the smallest grid that shows
the difference.

## Left out

- PlayerMovement.cs: keyboard input, camera and transform movement; its only logic is picking a speed.
- Unity lifecycle and rendering: Instantiate and Destroy, BuildGridFromMatrix, SpawnPlayerAtEntrance, SpawnNodeSpawnerAndPathfinder, sorting layers, mesh uv arrays, RecalculateNormals and RecalculateBounds, mesh.bounds, and the Start of FieldOfView_Cian.cs (player lookup and renderer set-up, maxDistance, expandAmount).
- Audio, ShootBullet, FacePlayer's quaternion, Spin, Debug.Log, DrawRay, DrawLine and DrawPathLines: side effects only.
- Physics, vector maths and trigonometry are parameters. This covers OverlapCircleAll, Raycast and Linecast (including the 3D Physics.Linecast at Dijkstra.cs:45), Vector3.Distance, MoveTowards, Vector3.normalized in the front scan of Dijkstra.cs:38-39, Atan2, Quaternion.Angle and RotateTowards, GetVectorFromAngle, UtilsClass and InverseTransformPoint. No IEEE float rounding is modelled.
- `Random.Range` is a sequence of draws (MapGen) or a function of the draw count (EnemyAI). `Time.deltaTime` is a parameter.
- Integer overflow: the source's `int` counters are unbounded integers here.
- Coroutine scheduling: EnemyAI keeps one routine slot. Starting WaitBeforeSearch replaces a running routine, where Unity would run both. A started coroutine first resumes on the next frame. A finished SmoothRotate continues its search routine in the same frame.
- EnemyAI.cs: the inspector settings rotationSpeed and the four timer lengths are a Settings record that every lemma quantifies over; the search cycle of 1.5, the pause of 0.5 and the attack field of view 45 and distance 17 are literals in the source and constants here. The rotation step comes in as rotateTowards(from, to, speed, dt), Quaternion.RotateTowards with a step of speed * dt.
- EnemyAI.cs: Translate movement, the speeds wanderSpeed and chaseSpeed, lastKnownPosition (written, never read) and the enemy's position are not modelled. The scene, including the enemy's position, is fixed for the frame.
- EnemyAI.cs: the else branch of Attack (a wait started from Attack) cannot be reached from Update, since Update switches to waiting first; it is modelled but has no lemma.
- EnemyController.cs lines 308-461: fragments outside the class that do not compile and repeat EnemyAI.cs.
- EnemyController.cs lines 1-305: modelled by the same members as EnemyController_Cian.cs. Its movement code is identical, and its nested isPlayerInSight is modelled separately and proved equal.
- EnemyNav: the movement step moveSpeed * deltaTime is folded into the frame's MoveTowards function; where the transform goes is not modelled beyond that function.
- EnemyNav: the pathfinder's answer to each replan is a parameter (the path it would return), not a call into Dijkstra. A frame can replan twice, towards the player and, when stuck, towards the current node; each gets its own path. The model does not require the two answers to be consistent with one graph.
- EnemyNav.GoToNext: tests the raw direction against zero, where the source first normalises it; Vector3.Normalize also turns a direction shorter than 1e-5 into zero, and then the source does not turn.
- NodeGraph: the graph NodeSpawner builds is not linked to the Graph value the Dijkstra model takes.
- GameManager.Instance is not part of this model; its node list and graph are passed explicitly.
- FieldOfView.cs drops the z coordinate of the ray direction (Vector2); the model assumes GetVectorFromAngle returns z = 0.
- List.Sort is unstable: of several equally near frontier nodes, Dijkstra.PopMin takes the first in frontier order, where the source takes whichever the sort puts first.
- Dijkstra.FindShortestPath: a KeyNotFoundException is a Failure value, not an exception.
- MapGen.Directions: when the random draws run out it returns the tokens kept so far, fewer than asked for; the source never runs out of draws.
- MapGen.GenerateAttempt: requires a grid size of at least 1, as the walk lemmas do. At a size below 0 `new int[n, n]` throws OverflowException, and at 0 the write `matrix[startX, startY] = 1` is out of range (MapGen.cs:51-57); the model does not represent those exceptions.
- MapGen.MapGenerator.GenerateDungeonFromDirections, MapGen.MapGenerator.Generate: require gridDimension >= 1, for the same reason.
- MapGen.MapGenerator.Start: requires mapSize >= 1, for the same reason.
- NodeGraph.NodeSpawner.SpawnNodeGrid: the physics world is one overlap function for the whole loop. In the source each candidate is instantiated into the scene before its touch test (NodeSpawner.cs:44), and a rejected one is destroyed only at the end of the frame (NodeSpawner.cs:48). Nodes have colliders (Node.cs:51), and the touch test's overlap has no layer mask (Node.cs:46), so an earlier candidate, kept or not, can make a later one touch. The model takes the scene as fixed during the loop, and NodeGraph.KeptPositionsMember holds for that fixed scene.
- MapGen.Run: the source recurses for ever. The model bounds the retries with fuel and ends when the random draws run out.
- NodeGraph.CellCount, and so every member that uses it, requires spacing > 0; the source divides by spacing without a check.
