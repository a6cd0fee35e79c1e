# o3dtoydefense: the board, the path finder and the bookkeeping, in Dafny

This project models the core of the O3D tower-defense game: the grid the creeps walk on and the towers stand on, the shortest-path tree that tells every creep where to go, the priority queue the tree is built with, and the tower and high-score bookkeeping. Rendering, sound, input and creep physics are not modelled.

The project is organised by the game's own source files. Where a source object updates its fields in place, the project has a `class` with those fields. Each method of such a class is proved against a value-level function of the same module: its `ensures` says that the new state, read through `Model()`, is that function of the old state. The properties the game relies on are then proved about those functions.

| file | module | models |
|---|---|---|
| `wrappers.dfy` | `Wrappers` | `Option` and `Result`, for the source's `null`/`undefined` and its thrown errors |
| `states.dfy` | `States` | the cell states of game/world.js and `isABlockedState` |
| `heappriorityqueue.dfy` | `PriorityQueue` | game/heappriorityqueue.js: the binary min-heap over two parallel arrays (`Heap`, value level) and `HeapPriorityQueue` (class) |
| `gridnode.dfy` | `GridNodes` | game/gridnode.js: a grid cell's bookkeeping (`Node`, value level) and `GridNode` (class) |
| `sptmodel.dfy` | `SptModel` | game/shortestpathtree.js at the value level: the board, seeding, relaxation, `addToTree`, `step` |
| `sptproofs.dfy` | `SptProofs` | the invariant of the tree computation: what `run` ends with and what `isValid` means |
| `sptclass.dfy` | `ShortestPathTrees` | the `ShortestPathTree` object with its grid, flags and heap |
| `tower.dfy` | `Towers` | game/tower.js: level tables, costs, targeting, upgrades, `expandRange` |
| `worldmodel.dfy` | `WorldModel` | game/world.js pure parts: cursor clamping, the 2x2 footprint, faking, the board a tree reads, `promoteSptState`, the initial layout |
| `world.dfy` | `Worlds` | the `World` object: its invariant, `init`, `setupSpt`/`runSpt`, `buildTower` and its steps |
| `highscores.dfy` | `HighScores` | game/highscoretable.js: the row format, its parser, `sort`, `addScore` |

Main results:

- **Priority queue.** `push` and `pop` keep the heap invariant. They add or remove exactly one (element, cost) pair, and `pop` returns a pair of minimal cost. Popping until empty yields every entry once, in non-decreasing cost order. `rehash` fails exactly in its two error cases. Otherwise it keeps the heap, and it writes the new cost only where the element moved, which is the source's behaviour. `verify(0)` holds exactly when the heap invariant holds.
- **Shortest-path tree.** Along `run`, every cell the tree has reached points by a unit step at a DONE neighbour, and costs that neighbour's cost plus 1 or sqrt(2). `run` throws 'No reachable nodes' exactly when no exit has a passable neighbour. Otherwise it ends complete, and `isValid` holds exactly when every POPULATED cell and every entrance has a walk to an exit. The costs are not claimed to be shortest.
- **Grid nodes.** Every operation keeps the cell's counts, creep set and state consistent. Adding and then removing gives the cell back. A move between cells notifies exactly the towers in the two set differences.
- **Towers.** The cost and level tables hold, targeting is split between flying and walking creeps, and the target is always one of the choices. `expandRange` registers the tower once with every cell of its disc and with nothing else.
- **World.** The `World` class keeps an invariant saying that while `haveValidSptData` is true, every creep and every entrance can walk to an exit. `buildTower` fails in the source's order: "Can't build there.", "You can't afford it.", the path-data check, then 'Blocking'. It builds exactly when the board with the tower still leaves every route open.
- **High scores.** What `saveScores` writes the constructor reads back. `sort` orders the table by descending score. `addScore` grows a table with room by one, keeps a full table's size, and replaces the last entry only when it is beaten.

Numbers are exact: costs, ranges and delays are `real`. The value of sqrt(2) is the decimal value of the double `Math.sqrt(2)`. Ids (guids) are natural numbers, and creeps are their guid and whether they fly.

## Model

| member | source | states |
|---|---|---|
| PriorityQueue.IndexOf | game/heappriorityqueue.js:189-196 | the identity scan of `rehash`: the first index at or after `from` holding the element, or the size when there is none |
| PriorityQueue.Heap.Entries | game/heappriorityqueue.js:46-64 | the stored (element, cost) pairs, one per array slot, in array order |
| PriorityQueue.Heap.BubbleUp | game/heappriorityqueue.js:77-93 | `bubbleUp_` keeps the two arrays parallel and the size unchanged |
| PriorityQueue.Heap.Exchange | game/heappriorityqueue.js:77-93 | one swap of the bubbling loops keeps the arrays parallel and the size unchanged |
| PriorityQueue.Heap.BubbleDown | game/heappriorityqueue.js:118-157 | `bubbleDown_` keeps the two arrays parallel and the size unchanged |
| PriorityQueue.Heap.Child | game/heappriorityqueue.js:118-157 | the child `bubbleDown_` compares against is a child of `index` of minimal cost among its children |
| PriorityQueue.RootIsMinimal | game/heappriorityqueue.js:163-179 | in a heap, the cost at index 0 is at most every stored cost |
| PriorityQueue.BubbleUpKeepsHeap | game/heappriorityqueue.js:77-93 | from a hole that may be lowered, `bubbleUp_` leaves a heap |
| PriorityQueue.BubbleUpEntries | game/heappriorityqueue.js:77-93 | `bubbleUp_` permutes the elements; if it does not move, nothing changes, otherwise the element's stored cost becomes the new cost |
| PriorityQueue.BubbleDownKeepsHeap | game/heappriorityqueue.js:118-157 | from a hole that may be raised, `bubbleDown_` leaves a heap |
| PriorityQueue.BubbleDownEntries | game/heappriorityqueue.js:118-157 | `bubbleDown_` only permutes the stored pairs |
| PriorityQueue.PushSpec | game/heappriorityqueue.js:101-106 | `push` grows the queue by one, keeps the heap invariant and adds exactly the pushed pair |
| PriorityQueue.PopSpec | game/heappriorityqueue.js:163-179 | `pop` fails with 'Heap underflow!' exactly on an empty queue; otherwise it returns the element at index 0, of minimal cost, and leaves a heap one smaller holding the other pairs |
| PriorityQueue.RehashSpec | game/heappriorityqueue.js:187-204 | `rehash` fails exactly when the element is absent or its stored cost is below the new one; otherwise it keeps the heap and the elements, and the element's stored cost becomes the new cost only if it moved |
| PriorityQueue.DrainPermutes | game/heappriorityqueue.js:163-179 | popping a heap until empty yields every stored pair exactly once |
| PriorityQueue.DrainAscending | game/heappriorityqueue.js:163-179 | popping a heap until empty yields the pairs in non-decreasing cost order |
| PriorityQueue.VerifySubtree | game/heappriorityqueue.js:221-237 | `verify(i)` holds exactly when every parent in the subtree of `i` costs at most its children |
| PriorityQueue.VerifySpec | game/heappriorityqueue.js:221-237 | `verify(0)` holds exactly when the heap invariant holds, and `verify()` without an index always holds |
| PriorityQueue.HeapPriorityQueue.constructor | game/heappriorityqueue.js:46-64 | a new queue is empty and a heap |
| PriorityQueue.HeapPriorityQueue.BubbleUp | game/heappriorityqueue.js:77-93 | the swap loop ends in the state `Heap.BubbleUp` describes |
| PriorityQueue.HeapPriorityQueue.Push | game/heappriorityqueue.js:101-106 | the queue grows by one, stays a heap and holds one more pair, the pushed one |
| PriorityQueue.HeapPriorityQueue.BubbleDown | game/heappriorityqueue.js:118-157 | the swap loop ends in the state `Heap.BubbleDown` describes |
| PriorityQueue.HeapPriorityQueue.Pop | game/heappriorityqueue.js:163-179 | on an empty queue, 'Heap underflow!' and no change; otherwise a minimal-cost element is returned and exactly its pair removed, the heap kept |
| PriorityQueue.HeapPriorityQueue.Rehash | game/heappriorityqueue.js:187-204 | the scan, the two thrown errors with no change, then `bubbleUp_`, as `Heap.Rehash` |
| PriorityQueue.HeapPriorityQueue.Empty | game/heappriorityqueue.js:210-212 | true exactly when no pair is stored |
| PriorityQueue.HeapPriorityQueue.Verify | game/heappriorityqueue.js:221-237 | the recursive check returns `verify`'s value: the heap invariant from index 0, true with no index |
| GridNodes.FreshIsConsistent | game/gridnode.js:46-57 | a new node is OPEN, with no creep, zero counts, no occupant and no targeting tower, and its bookkeeping is consistent |
| GridNodes.AddCreepSpec | game/gridnode.js:76-92 | `addCreep` fails exactly on a creep already there or a walking creep on a cell other than OPEN, POPULATED or ENTRANCE; otherwise it adds the creep, counts it by kind, and turns OPEN into POPULATED for a walking creep only |
| GridNodes.RemoveCreepSpec | game/gridnode.js:100-116 | `removeCreep` fails on an absent creep; otherwise it removes it, decrements its count, and the last walking creep leaving a POPULATED cell makes it OPEN |
| GridNodes.OperationsKeepConsistent | game/gridnode.js:76-228 | every successful node operation keeps the creep set, the two counts and the state consistent |
| GridNodes.MoveKeepsConsistent | game/gridnode.js:128-167 | a successful move keeps both cells consistent |
| GridNodes.AddThenRemove | game/gridnode.js:76-116 | removing a creep just added gives back the cell |
| GridNodes.AddThenRemoveObject | game/gridnode.js:180-197 | `addObject` needs an empty OPEN cell and leaves it occupied and not OPEN; `removeObject` of that object gives the cell back |
| GridNodes.RegisterThenUnregister | game/gridnode.js:213-228 | `registerTargetingTower` returns the cell's creeps, and unregistering the same tower gives back the cell |
| GridNodes.MoveIsRemoveThenAdd | game/gridnode.js:128-167 | a move succeeds exactly when the removal and the addition do, ends as they do, and notifies exactly the towers watching only the old cell (unregister) and only the new cell (register) |
| GridNodes.NoMoveInPlace | game/gridnode.js:128-167 | a creep cannot be moved from a cell to itself |
| GridNodes.MoveBack | game/gridnode.js:128-167 | moving a creep back restores both cells and notifies the same towers the other way round |
| GridNodes.GridNode.constructor | game/gridnode.js:46-57 | the new node's fields are those of a fresh node |
| GridNodes.GridNode.SetState | game/gridnode.js:66-68 | only the state changes |
| GridNodes.GridNode.AddCreep | game/gridnode.js:76-92 | the node becomes what `AddCreepSpec` describes, returning the towers to notify, or is unchanged with the error |
| GridNodes.GridNode.RemoveCreep | game/gridnode.js:100-116 | the node becomes what `RemoveCreepSpec` describes, returning the towers to notify, or the error |
| GridNodes.GridNode.MoveCreepBetweenGridNodes | game/gridnode.js:128-167 | both nodes change as `MoveIsRemoveThenAdd` describes and the two tower sets are returned, or neither changes |
| GridNodes.GridNode.AddTower | game/gridnode.js:169-171 | `addObject` with the TOWER state |
| GridNodes.GridNode.AddObject | game/gridnode.js:180-187 | the node takes the occupant and state, or reports the failed assertion |
| GridNodes.GridNode.RemoveObject | game/gridnode.js:192-197 | the occupant is removed and the node made OPEN, or the node is unchanged with the error |
| GridNodes.GridNode.RemoveTower | game/gridnode.js:202-204 | `removeObject` for the tower |
| GridNodes.GridNode.RegisterTargetingTower | game/gridnode.js:213-217 | the tower is added and the cell's creeps returned, or a duplicate is refused with no change |
| GridNodes.GridNode.UnregisterTargetingTower | game/gridnode.js:225-228 | a registered tower is removed; an unregistered one is an error with no change |
| States.IsABlockedState | game/world.js:255-257 | only BLOCKED and TOWER block; OPEN, POPULATED, ENTRANCE and EXIT are passable |
| SptModel.SeedGrid | game/shortestpathtree.js:112-136 | every cell of the board gets the seed of its state |
| SptModel.ColumnScan | game/shortestpathtree.js:112-136 | the cells of one column with a given state, and only those |
| SptModel.Scan | game/shortestpathtree.js:112-136 | the cells of the first `i` columns with a given state, and only those |
| SptModel.ExitsSeeded | game/shortestpathtree.js:137-139 | every listed exit is on the board and seeded DONE at cost 0 |
| SptModel.Tree.Relax | game/shortestpathtree.js:214-266 | relaxing a neighbour changes at most that neighbour, never a DONE one, and no flag or list |
| SptModel.Tree.RelaxColumn | game/shortestpathtree.js:214-266 | one column of relaxations leaves the expanding cell and every DONE cell unchanged |
| SptModel.Tree.RelaxColumns | game/shortestpathtree.js:214-266 | all columns of relaxations leave the expanding cell and every DONE cell unchanged |
| SptModel.Tree.Finish | game/shortestpathtree.js:288-292 | the cell becomes DONE; a set-up tree with an empty frontier becomes complete and stops being set up |
| SptModel.Tree.AddToTree | game/shortestpathtree.js:206-293 | the cell becomes DONE and no other DONE cell changes |
| SptModel.Tree.AddAll | game/shortestpathtree.js:137-139 | adding the exits keeps the board, the lists and, before set-up, the flags |
| SptModel.Tree.Step | game/shortestpathtree.js:354-366 | a step keeps the board |
| SptModel.Init | game/shortestpathtree.js:56-146 | the constructor's tree is set up and not complete, and lists the POPULATED cells and the entrances |
| SptProofs.RelaxCases | game/shortestpathtree.js:219-239 | under the invariant a relaxation never fails; it updates the neighbour exactly when the neighbour is INIT or its cost strictly drops, and otherwise changes nothing |
| SptProofs.AddToTreeKeeps | game/shortestpathtree.js:206-293 | `addToTree` keeps the invariant, marks the cell DONE, and sets `complete` exactly when the set-up frontier empties |
| SptProofs.StepKeeps | game/shortestpathtree.js:354-366 | a step on a set-up tree with a non-empty frontier keeps the invariant and finishes one more cell |
| SptProofs.Run | game/shortestpathtree.js:371-381 | `run` as repeated steps keeps the board |
| SptProofs.RunSpec | game/shortestpathtree.js:371-381 | `run` throws 'No reachable nodes' exactly when it starts set up with an empty frontier; otherwise it ends complete with the invariant kept |
| SptProofs.DoneReachesExit | game/shortestpathtree.js:219-239 | following the directions from a passable DONE cell leads to an exit |
| SptProofs.ReachesExitDone | game/shortestpathtree.js:288-292 | with no cell left on the frontier, every cell that can walk to an exit is DONE |
| SptProofs.CompleteIff | game/shortestpathtree.js:289-292 | in a complete tree, a passable cell is DONE exactly when a creep on it can walk to an exit |
| SptProofs.ValidIff | game/shortestpathtree.js:331-348 | `isValid` holds exactly when the tree is complete and every POPULATED cell and entrance can walk to an exit |
| SptProofs.ListedDoneIff | game/shortestpathtree.js:331-348 | the listed cells of a passable state are all DONE exactly when all of them can walk to an exit |
| SptProofs.DirectionIsUnit | game/shortestpathtree.js:219-239 | a reached passable non-exit cell points by a unit step (each component in -1..1, not both 0) at a DONE neighbour, and costs that neighbour's cost plus the step, so at least 1 |
| SptProofs.ExitNeighbourCost | game/shortestpathtree.js:221-233 | a non-exit cell one orthogonal step from an exit costs exactly 1; one diagonal step away, between 1 and sqrt(2) |
| SptProofs.InitKeeps | game/shortestpathtree.js:56-146 | the constructor never fails and establishes the invariant |
| SptProofs.InitSpec | game/shortestpathtree.js:112-136 | after the constructor, exits are DONE at cost 0 with step (0, 0), walls and towers DONE at infinity with step (0, 0), and INIT cells are at infinity with no step |
| SptProofs.InitFrontierEmpty | game/shortestpathtree.js:137-145 | after the constructor the frontier is empty exactly when no exit has a passable non-exit neighbour |
| SptProofs.EmptyFrontierNoExitNeighbour | game/shortestpathtree.js:137-145 | an empty frontier before the first step means no exit has a passable non-exit neighbour |
| SptProofs.FrontierExitNeighbour | game/shortestpathtree.js:137-145 | a non-empty frontier before the first step means some exit has a passable non-exit neighbour |
| SptProofs.RunValid | game/shortestpathtree.js:371-381 | on a new tree, `run` throws exactly when no exit has a passable neighbour; otherwise `isValid` holds exactly when every POPULATED cell and entrance can walk to an exit |
| ShortestPathTrees.ShortestPathTree.constructor | game/shortestpathtree.js:56-146 | the object's state is `Init` of the board, and the invariant holds |
| ShortestPathTrees.ShortestPathTree.AddExits | game/shortestpathtree.js:137-139 | the loop over the exits ends in the state `Tree.AddAll` describes |
| ShortestPathTrees.ShortestPathTree.RelaxNeighbour | game/shortestpathtree.js:214-266 | the in-place relaxation ends in the state, or the error, `Tree.Relax` describes |
| ShortestPathTrees.ShortestPathTree.RelaxColumn | game/shortestpathtree.js:214-266 | the inner loop ends as `Tree.RelaxColumn` describes |
| ShortestPathTrees.ShortestPathTree.AddToTree | game/shortestpathtree.js:206-293 | the two loops and the finish end as `Tree.AddToTree` describes |
| ShortestPathTrees.ShortestPathTree.Step | game/shortestpathtree.js:354-366 | the invariant is kept and the state is `Tree.Step`'s; on an error nothing changes |
| ShortestPathTrees.ShortestPathTree.Run | game/shortestpathtree.js:371-381 | the while loop ends in `Run`'s result, with the invariant kept |
| ShortestPathTrees.ShortestPathTree.IsValid | game/shortestpathtree.js:331-348 | the scan returns `isValid` of the state |
| ShortestPathTrees.SeedCells | game/shortestpathtree.js:112-136 | the nested loops seed every cell and list the exits, POPULATED cells and entrances column by column |
| ShortestPathTrees.SeedColumn | game/shortestpathtree.js:112-136 | one column seeded and its cells of each kind appended |
| ShortestPathTrees.SeedCell | game/shortestpathtree.js:112-136 | one cell seeded by its state and appended to the list of its kind |
| Towers.Ceil | game/tower.js:717-728 | `Math.ceil`: the least integer at or above `x` |
| Towers.NewLevelInfo | game/tower.js:717-728 | both delays are rounded up and every other field is stored as given |
| Towers.Levels | game/tower.js:752-757 | each tower type has three levels |
| Towers.GetLevelInfo | game/tower.js:110-120 | the level's row exactly for levels 0 to 2, undefined otherwise |
| Towers.TableValues | game/tower.js:98-108 | build costs are 20, 10 and 5; fully upgraded towers cost 100, 70 and 50; every range is positive; the rounded delays |
| Towers.TargetingSplitsCreeps | game/tower.js:776-778 | Cannon towers target exactly the flying creeps; Heavy and Fast towers exactly the walking ones |
| Towers.Registered | game/tower.js:145-173 | the grid with the tower added to the targeting towers of the given cells, and nothing else |
| Towers.WithTower | game/tower.js:194-205 | taking the footprint keeps the grid's shape |
| Towers.TargetingKeepsValid | game/tower.js:318-350 | registering and unregistering keep the target, when there is one, among the choices |
| Towers.RegisterSpec | game/tower.js:318-327 | `registerTargetCreep` fails exactly on a creep already a choice; it adds a live targetable creep and aims at it when there was no target, and ignores other creeps |
| Towers.UnregisterSpec | game/tower.js:335-350 | `unregisterTargetCreep` fails exactly when the creep's presence does not match its targetability; otherwise it removes the creep and drops the target exactly when it was that creep |
| Towers.RegisterThenUnregister | game/tower.js:318-350 | unregistering a creep just registered gives back a tower that had a target |
| Towers.UpgradeSpec | game/tower.js:628-649 | `upgrade` succeeds exactly when `canUpgrade`; it raises the level by one and adds the increment to the cost, keeping the invariant |
| Towers.TotalCostSum | game/tower.js:485-489 | a tower's cost is at least the build cost and grows with every level |
| Towers.ExpandKeepsValid | game/tower.js:145-173 | `expandRange` keeps the invariant, never loses a choice, and leaves every cell in range a target node |
| Towers.ExpandIdempotent | game/tower.js:145-173 | a second `expandRange` at the same range changes nothing |
| Towers.ExpandRegistersDisc | game/tower.js:145-173 | a cell gains the tower's guid exactly when it is in the disc and was not yet a target node, and changes nothing else |
| Towers.BoxCoversDisc | game/tower.js:145-173 | the clamped box the loops sweep holds every cell of the disc |
| Towers.WithTowerSpec | game/tower.js:194-205 | the four footprint cells become TOWER cells of the new tower, and every other cell is unchanged |
| Towers.Tower.constructor | game/tower.js:74-91 | the new tower's state is `NewTower` of its type, cell and guid |
| Towers.Tower.Init | game/tower.js:183-256 | the footprint is taken, the range expanded, and a target picked among the creeps found |
| Towers.Tower.SetBuilding | game/tower.js:442-459 | the state becomes `Building`: the build delay outside the setup phase, and the level's range |
| Towers.Tower.PickTarget | game/tower.js:247-255 | a tower without a target aims at one of its choices, if any |
| Towers.Tower.PlaceFootprint | game/tower.js:194-205 | the grid becomes `WithTower` of the footprint |
| Towers.Tower.ExpandRange | game/tower.js:145-173 | the nested loops end in the state and grid `TowerState.ExpandRange` describes |
| Towers.Tower.SweepRow | game/tower.js:145-173 | one row of the sweep extends the swept set by that row |
| Towers.Tower.SweepCell | game/tower.js:145-173 | one cell of the sweep: the distance test, then registration unless already a target node |
| Towers.Tower.AddChoices | game/tower.js:145-173 | the creeps found in a new cell that the tower may shoot at become choices |
| Towers.Tower.RegisterTargetCreep | game/tower.js:318-327 | the state becomes `RegisterTargetCreep`'s, or is unchanged with the error |
| Towers.Tower.UnregisterTargetCreep | game/tower.js:335-350 | the creep is removed; when the target goes, one of the remaining choices, if any, becomes the target |
| Towers.Tower.SetTargetCreepGuid | game/tower.js:401-408 | the target is set, or a mismatch is refused with no change |
| Towers.Tower.SetUpgrading | game/tower.js:485-623 | the level and cost fields are updated, then the range expanded when the level's range applies |
| Towers.Tower.Upgrade | game/tower.js:645-649 | as `UpgradeSpec`: an error with no change, or one more level with its cost paid |
| WorldModel.Clamp | game/world.js:768-775 | `Math.max(lo, Math.min(hi, x))` lies in the range and leaves a value inside it alone |
| WorldModel.MotionSpec | game/world.js:768-775 | the cursor always ends with i in [2, cols-4] and j in [1, rows-3], its four cells legal creep locations; a move inside the range is made exactly |
| WorldModel.ClearIff | game/world.js:496-501 | `clearToBuildTower` holds exactly when the four cells (i,j), (i,j+1), (i+1,j), (i+1,j+1) are on the grid and OPEN |
| WorldModel.MapFootprint | game/world.js:438-458 | exactly the four footprint cells are rewritten |
| WorldModel.FakeThenUnfake | game/world.js:438-494 | faking a clear footprint and unfaking it gives back the grid, cell for cell |
| WorldModel.BoardOf | game/shortestpathtree.js:112-136 | the board a tree built on the world reads holds every cell's state |
| WorldModel.EquivalentReaches | game/world.js:255-257 | boards that differ only between BLOCKED and TOWER have the same walks to an exit |
| WorldModel.TowerLikeFake | game/world.js:438-458 | the faked grid and the grid with the tower built are equivalent boards |
| WorldModel.Promoted | game/world.js:830-841 | every cell's route holds its tree cell's cost and direction |
| WorldModel.LayoutSpec | game/world.js:585-618 | the layout's entrances are column 0 and its exits the last column, in the gate rows floor(rows/2-1) to floor(rows/2+1)-1; every legal creep location is OPEN |
| Worlds.Blank | game/world.js:630-639 | `cols` columns of `rows` new nodes |
| Worlds.ValidTreeRoutes | game/world.js:861-871 | a valid tree vouches for every equivalent board: every creep and entrance on it can walk to an exit |
| Worlds.InvalidTreeBlocks | game/world.js:530-533 | a complete tree that is not valid shows its board blocked |
| Worlds.BlankOk | game/world.js:630-639 | a grid of new nodes keeps the world's invariant with nothing recorded |
| Worlds.MakeObjectKeeps | game/world.js:320-354 | a wall, entrance or exit on an OPEN node keeps the invariant |
| Worlds.RemoveObjectKeeps | game/world.js:363-370 | removing a wall, entrance or exit with no walking creep keeps the invariant |
| Worlds.MakeThenRemove | game/world.js:320-370 | removing an object just made gives back the world, apart from the guid counter, the stale path data and the entrance list |
| Worlds.FootprintWrites | game/world.js:438-494 | the four single-cell writes of faking and unfaking rewrite exactly the footprint |
| Worlds.ClearIsFree | game/world.js:496-501 | a footprint clear to build on holds no occupant and no walking creep |
| Worlds.TowerFits | game/world.js:399-427 | a new tower's `expandRange` can run on the world's grid |
| Worlds.InitTakes | game/world.js:399-427 | the grid a new tower's `init` leaves is the grid taken by the tower |
| Worlds.PlaceTowerKeeps | game/world.js:399-427 | placing a tower on a clear footprint the world can pay for keeps the invariant |
| Worlds.FakeJudgesTower | game/world.js:503-534 | every route is open on the faked grid exactly when it is open with the tower built |
| Worlds.TakenLikeFake | game/world.js:503-534 | a grid taken by a tower is, for path finding, the faked grid |
| Worlds.GatesLayout | game/world.js:585-618 | the three loops of `init` leave exactly the layout `LayoutSpec` describes |
| Worlds.JudgeTrial | game/world.js:524 | the trial tree is valid exactly when every route stays open with the footprint faked |
| Worlds.RunTrial | game/world.js:521-522 | a new tree run on a board is complete on it, or fails with 'No reachable nodes' |
| Worlds.PlaceNewTower | game/world.js:399-427 | `makeTowerAtNode` at the value level: the tower placed, its cost paid, the invariant kept |
| Worlds.RaiseTower | game/world.js:399-427 | the new tower costs its build cost, takes its footprint and aims at one of the creeps in range |
| Worlds.MakeGrid | game/world.js:630-639 | `makeGrid` returns the blank grid |
| Worlds.World.ValidRoutes | game/world.js:861-871 | while the world claims valid path data, no creep and no entrance is cut off from the exits |
| Worlds.World.constructor | game/world.js:61-227 | a blank grid, nothing recorded, no tree, no money, the cursor where `createCursor`'s `handleMotion(0, 0)` (game/world.js:648-715) leaves it, the clamped `Motion` from (0, 0), which is (2, 1), and the invariant |
| Worlds.World.SetCursorPos | game/world.js:734-759 | only the cursor changes |
| Worlds.World.HandleMotion | game/world.js:768-775 | the cursor moves as `Motion`, clamped (see `MotionSpec`) |
| Worlds.World.SetMoney | game/world.js:1053-1055 | only the money changes |
| Worlds.World.MakeObjectAtNode | game/world.js:345-354 | the node takes the object, the object is recorded, and only that cell's state changes |
| Worlds.World.RemoveObjectAtNode | game/world.js:363-370 | the object is removed and forgotten and the node is OPEN |
| Worlds.World.ClearNode | game/world.js:382-390 | an OPEN node is left alone; a wall, entrance or exit is removed |
| Worlds.World.Wall | game/world.js:591-604 | one cell cleared and walled |
| Worlds.World.Init | game/world.js:585-618 | every cell gets its `Layout` state and the two entrances are listed |
| Worlds.World.WallTopBottom | game/world.js:587-590 | the first loop walls the top and bottom rows |
| Worlds.World.WallSides | game/world.js:591-604 | the second loop walls the two outer columns at each side |
| Worlds.World.WallRow | game/world.js:591-604 | one turn of the second loop |
| Worlds.World.OpenGates | game/world.js:605-615 | the third loop opens the entrances, exits and inner cells of the gate rows |
| Worlds.World.GateRow | game/world.js:605-615 | one turn of the third loop |
| Worlds.World.Gate | game/world.js:605-615 | one entrance or exit made and its inner cell cleared |
| Worlds.World.PromoteSptState | game/world.js:830-841 | every node's route becomes its tree cell's cost and direction |
| Worlds.World.SetupSpt | game/world.js:846-859 | a tree still set up is kept; otherwise a new tree on the grid replaces it |
| Worlds.World.NewSpt | game/world.js:846-859 | a new tree on the current grid, set up and not complete |
| Worlds.World.RunSpt | game/world.js:861-871 | the tree ends complete on the grid, and the world claims valid path data exactly when every route is open; the tree's error propagates |
| Worlds.World.RunSetUpSpt | game/world.js:861-871 | `runSpt` once the tree is set up |
| Worlds.World.RunTree | game/world.js:866-867 | the run tree is valid exactly when every route on the grid is open |
| Worlds.World.AdoptRoutes | game/world.js:867-870 | the routes are promoted and the path data is valid |
| Worlds.World.FakeTowerAtNode | game/world.js:438-458 | the four footprint nodes become walls with the fake occupant |
| Worlds.World.UnfakeTowerAtNode | game/world.js:463-494 | the four footprint nodes become OPEN with no occupant |
| Worlds.World.BuildTower | game/world.js:503-534 | "Can't build there." exactly on an unclear footprint, then "You can't afford it."; an invalid world changes nothing; 'Blocking' leaves grid, money and towers and means some route would close; success takes the footprint, pays the cost, records the tower and keeps every route open; the world's tree is then the new trial tree, built on the board with the footprint faked, and the routes are promoted from it |
| Worlds.World.BuildAffordable | game/world.js:511-534 | the path-data check, then the trial, with the outcomes of `BuildTower` |
| Worlds.World.TryBuild | game/world.js:520-534 | on valid path data: the tower is built or refused as blocking, or the tree's error leaves the footprint faked |
| Worlds.World.Decide | game/world.js:524-533 | a valid trial tree builds the tower and becomes the world's tree; an invalid one refuses it as blocking |
| Worlds.World.EnsureSptData | game/world.js:513-516 | valid path data is kept; otherwise the tree is set up and run, and the data is valid exactly when every route is open |
| Worlds.World.CommitTower | game/world.js:524-529 | the tower is made, the trial tree adopted and its routes promoted |
| Worlds.World.AdoptTree | game/world.js:527-529 | the tree becomes the world's and its routes are promoted |
| Worlds.World.TryTower | game/world.js:520-523 | fake, build and run a new tree, unfake; the tree reads the faked board |
| Worlds.World.MakeTowerAtNode | game/world.js:399-427 | the tower is placed on its footprint, its cost paid, it is recorded, and the path data is stale |
| Worlds.World.RecordTower | game/world.js:399-427 | the field writes once the tower stands |
| HighScores.Split | game/highscoretable.js:77-83 | `String.split` on one character: at least one piece, no piece holds the separator, one piece exactly when the separator is absent |
| HighScores.JoinSplit | game/highscoretable.js:77-83 | joining the pieces of a split gives back the string |
| HighScores.SplitJoin | game/highscoretable.js:105-108 | splitting what was joined gives back the pieces when none holds the separator |
| HighScores.Decimal | game/highscoretable.js:105-108 | the decimal text of a number is a non-empty run of digits |
| HighScores.DigitRun | game/highscoretable.js:88-91 | the length of the leading run of digits `parseInt` reads |
| HighScores.NumText | game/highscoretable.js:105-108 | the text of a number or NaN holds no ':' and no ';' |
| HighScores.DecimalValue | game/highscoretable.js:88-91 | the digits of `n` read back as `n` |
| HighScores.ParseNumText | game/highscoretable.js:88-91 | `parseInt` reads back every number `toString` writes, NaN included |
| HighScores.ParseRow | game/highscoretable.js:83-92 | a row gives an entry exactly when it holds a ':'; others are skipped |
| HighScores.ParsedRows | game/highscoretable.js:78-94 | the row loop yields at most one entry per row |
| HighScores.EntryRoundTrip | game/highscoretable.js:105-108 | a row written by `toString` reads back as its entry, fields 1 to 4 as score, hitPoints, wave and money |
| HighScores.TableRoundTrip | game/highscoretable.js:121-126 | the rows of a table's text read back as the table; the empty piece after the last ';' is skipped |
| HighScores.SaveLoadRoundTrip | game/highscoretable.js:121-130 | what `saveScores` stores, the constructor loads again, the empty table included |
| HighScores.InsertBack | game/highscoretable.js:110-116 | one insertion step of the sort adds one entry, and the table ends with the inserted entry or with its old last entry |
| HighScores.InsertBackPermutes | game/highscoretable.js:110-116 | insertion adds exactly the inserted entry to the table's entries |
| HighScores.InsertBackOrdered | game/highscoretable.js:110-116 | insertion into an ordered table keeps it ordered |
| HighScores.SortByScore | game/highscoretable.js:110-116 | `sort` permutes the table and leaves no entry scoring more than the one before it |
| HighScores.SortOrderedIsIdentity | game/highscoretable.js:110-116 | sorting an ordered table leaves it as it is |
| HighScores.OrderedDescending | game/highscoretable.js:110-116 | an ordered table of numeric scores is in descending order of score |
| HighScores.SortDescending | game/highscoretable.js:110-116 | after `sort`, a table of numeric scores is in descending order and holds the same entries |
| HighScores.AddScoreSize | game/highscoretable.js:147-159 | `addScore` grows a table with room by one, keeps a full table's size, so a table of at most 10 stays so |
| HighScores.AddScoreContents | game/highscoretable.js:147-159 | with room the entry is added; when full, the last entry is replaced exactly when the new score beats it, else the entries are unchanged |
| HighScores.AddScoreRejected | game/highscoretable.js:151-155 | on a full sorted table, a score not beating the last leaves the table exactly as it was |
| HighScores.AddScoreDescending | game/highscoretable.js:147-159 | after `addScore` a table of numeric scores is in descending order |
| HighScores.LoadUndefined | game/highscoretable.js:120-130 | the text an empty table is saved as ("undefined", from encoding an unset variable) loads as the empty table |
| HighScores.LoadRows | game/highscoretable.js:77-93 | the constructor's row loop yields exactly the entries of the rows with a ':', in order |
| HighScores.HighScoreTable.constructor | game/highscoretable.js:65-98 | the table is the sorted entries of the rows with a ':', in order |
| HighScores.HighScoreTable.Sort | game/highscoretable.js:110-116 | the table becomes `SortByScore` of itself, ordered |
| HighScores.HighScoreTable.AddScore | game/highscoretable.js:147-159 | push or replace, then sort; grows by one with room, keeps its size when full, unchanged when a sorted full table is not beaten |

## Left out

- Rendering, scene graph, sound, popups and `updateDisplay` are not modelled. This includes the tree's debug lines (game/shortestpathtree.js:245-262, 267-287), `Drawing.setupShape` and `dumpSptGrid`. Those calls go to a plugin whose code is not part of this model.
- Creep movement, missiles and explosions (floating-point kinematics, `Math.random`), `stepGame`, waves, game phases and `stepSpt` are not modelled. Creeps appear only as a guid and a flying flag.
- `sellTower` and `upgradeTower` of the world are not modelled. The tower's own `upgrade` and `setUpgrading` are.
- Floating point: every cost, range and delay is an exact `real`. sqrt(2) is the exact value of the double `Math.sqrt(2)`, and the rounding of sums of costs is not modelled.
- SptProofs.RunSpec: the costs are not claimed to be shortest. Because of the heap's `rehash` quirk, a lowered cost that does not move keeps the old key, so Dijkstra's order is not guaranteed. What is proved is reachability and the local cost relation (`DirectionIsUnit`).
- The literal push/pop sequences of game/heappriorityqueue_test.js are not replayed. The general `DrainPermutes` and `DrainAscending` cover them.
- The literal grids of game/shortestpathtree_test.js are not replayed, and `run` is not evaluated on them. `RunValid` and `ValidIff` state the general rule behind each test's expected `isValid`. `ExitNeighbourCost` gives testMultipleInAndOut's `grid[1][0].cost == 1`. The other three tested costs are not established: `grid[2][0].cost == 2` (testSimpleGrid0), `grid[2][1].cost == 2` (testSimpleGrid1) and `grid[0][0].cost == 4` (testCutOffEmptyCorner). They are shortest-path costs, and the model does not prove costs shortest (see SptProofs.RunSpec above).
- Towers.Tower.Init, Towers.Tower.UnregisterTargetCreep and Towers.Tower.PickTarget: the JavaScript `for-in` order that picks a new target is not modelled. The contracts say only that one of the remaining choices, if any, becomes the target (`Retargeted`).
- Towers.Tower.SetUpgrading: the sounds, the drawings and the display of the upgrade are not modelled, only its level, cost and range updates.
- The source's `assert` calls become preconditions. Examples are `expandRange`'s clamped 36x36 box, the free footprint of `init`, `setMoney`'s non-negative amount and `promoteSptState`'s valid tree. The failing assertion is not modelled as an outcome.
- Worlds.World.TryTower: the source runs the trial tree while the footprint is faked and unfakes afterwards. The model takes the tree's copy of the faked board, unfakes, then runs the tree, which gives the same result. When the run fails, it fakes the footprint again, so the world is left as the source leaves it.
- Worlds.World.MakeTowerAtNode states the tower's identity, the footprint, the cost and the record. Its range and target are stated by `Worlds.RaiseTower`.
- Worlds.World.SetCursorPos: only the cursor position is modelled; the cursor's drawing and icon are not.
- Worlds.World.MakeObjectAtNode, Worlds.World.RemoveObjectAtNode, Worlds.World.ClearNode: these require the world to have no tree, as `init` calls them; towers are cleared only by `sellTower`, which is not modelled.
- HighScores.HighScoreTable.constructor: reading `document.cookie` and the outer `decodeURIComponent` are not modelled. The table text comes in as a parameter, `None` when no cookie is found.
- HighScores.SaveLoadRoundTrip: writing the cookie, its expiry date and the outer `encodeURIComponent` are not modelled. `encodeURIComponent` and `decodeURIComponent` of names are a pair of functions passed in. They are assumed inverse, with no ':' or ';' in encoded text. A `URIError` from a malformed name is not modelled.
- HighScores.ParseNumText: `parseInt` is modelled on an optional sign and decimal digits. Leading white space, the `0x` prefix and the loss of precision of very large numbers are not modelled.
- HighScores.SortByScore: JavaScript's `Array.prototype.sort` need not be stable, and a comparator returning NaN leaves the order implementation-defined. The model is a stable insertion sort that keeps a NaN score where it stands. Descending order is proved when every score is a number.
- HighScores.AddScoreSize: the bound of 10 entries holds only for a table that had at most 10 before. A cookie edited by hand can load more rows, and `addScore` then keeps that size.
- Worlds.World.constructor requires at least 6 columns and 4 rows, the smallest grid on which `init`'s walls, gates and cursor range fit. `setCursorPos(0, 0)` creates the cursor, whose `createCursor` clamps it to (2, 1) through `handleMotion(0, 0)`; that position is modelled, the cursor's drawings are not.
