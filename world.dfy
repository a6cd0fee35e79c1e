/**
 * The `World` object of game/world.js: the grid of nodes, the permanent
 * objects (walls, entrances, exits) and towers it records by guid, the
 * shortest-path tree it keeps for the creeps, the player's money and the
 * cursor.  The methods update these fields in place, as the source does;
 * what they compute is stated with the value functions of `WorldModel`,
 * `Towers` and `SptModel`, and the invariant `Valid` they all keep says
 * that whenever the world claims valid path data, every creep and every
 * entrance can still walk to an exit.
 */
module Worlds {
  import opened Wrappers
  import opened States
  import opened GridNodes
  import opened SptModel
  import SptProofs
  import opened ShortestPathTrees
  import opened Towers
  import opened WorldModel

  // ---------------------------------------------------------------------
  // What the world keeps true of its grid
  // ---------------------------------------------------------------------

  /** `makeGrid`'s grid: `cols` columns of `rows` new nodes. */
  function Blank(cols: nat, rows: nat): (g: Grid)
    ensures Rect(g, cols, rows)
    ensures forall a, b :: 0 <= a < cols && 0 <= b < rows ==> g[a][b] == GridNodes.Fresh
  {
    seq(cols, _ => seq(rows, _ => GridNodes.Fresh))
  }

  /** A node keeps its own bookkeeping, holds no occupant when OPEN, and
      knows only towers whose guid was already handed out. */
  ghost predicate NodeOk(n: Node, next: nat) {
    && n.Consistent()
    && (n.state == OPEN ==> n.objGuid.None?)
    && (forall t :: t in n.targetingTowerGuids ==> t < next)
  }

  /** Every node of the grid is in order. */
  ghost predicate CellsOk(g: Grid, next: nat) {
    forall a, b {:trigger NodeOk(g[a][b], next)} :: 0 <= a < |g| && 0 <= b < |g[a]| ==> NodeOk(g[a][b], next)
  }

  /** Cells `c` and `d`, when distinct and on the grid, hold no creep in
      common. */
  ghost predicate Apart(g: Grid, c: Cell, d: Cell) {
    OnGrid(g, c) && OnGrid(g, d) && c != d ==> g[c.i][c.j].creepGuids !! g[d.i][d.j].creepGuids
  }

  /** No creep stands in two nodes at once. */
  ghost predicate CreepsApart(g: Grid) {
    forall c, d {:trigger Apart(g, c, d)} :: Apart(g, c, d)
  }

  /** Node `n`, at cell `c`, is a wall, entrance or exit recorded in
      `objects` with its cell and type, or a tower recorded in `towers`,
      or neither. */
  ghost predicate Recorded(n: Node, c: Cell, objects: map<nat, (Cell, CellState)>, towers: map<nat, Tower>) {
    && (n.state == BLOCKED || n.state == ENTRANCE || n.state == EXIT ==>
          n.objGuid.Some? && n.objGuid.value in objects && objects[n.objGuid.value] == (c, n.state))
    && (n.state == TOWER ==> n.objGuid.Some? && n.objGuid.value in towers)
  }

  /** `objectsByGuid` and `towersByGuid`: every node is recorded, and every
      recorded guid was handed out. */
  ghost predicate ObjectsOk(g: Grid, objects: map<nat, (Cell, CellState)>, towers: map<nat, Tower>, next: nat) {
    && (forall k :: k in objects ==> 1 <= k < next)
    && (forall k :: k in towers ==> 1 <= k < next)
    && forall a, b {:trigger Recorded(g[a][b], Cell(a, b), objects, towers)} ::
         0 <= a < |g| && 0 <= b < |g[a]| ==> Recorded(g[a][b], Cell(a, b), objects, towers)
  }

  /** No creep and no entrance of board `b` is cut off from every exit. */
  ghost predicate AllRoutesOpen(b: Board) {
    forall c :: b.Contains(c) && (b.At(c) == POPULATED || b.At(c) == ENTRANCE) ==> b.ReachesExit(c)
  }

  /** `AllRoutesOpen` for the board of a grid of the world's size. */
  ghost predicate RoutesOpen(g: Grid, cols: nat, rows: nat) {
    Rect(g, cols, rows) && AllRoutesOpen(BoardOf(g, cols, rows))
  }

  /** `b` is the board a new tree takes from grid `g` of the world's size
      with the footprint at `c` faked. */
  ghost predicate FakedBoard(b: Board, g: Grid, c: Cell, cols: nat, rows: nat) {
    Rect(g, cols, rows) && b == BoardOf(Faked(g, c), cols, rows)
  }

  /** How `buildTower` refuses a blocking tower: the world is `w` with
      its path data stale, and the grid with the footprint faked leaves some
      creep or entrance with no way out. */
  ghost predicate Blocked(w: WorldState, w': WorldState, c: Cell) {
    w' == w.(haveValidSptData := false) && !RoutesOpen(Faked(w.grid, c), w.cols, w.rows)
  }

  /** How `buildTower` builds: the grid with the footprint faked leaves
      every creep and entrance a way out; the tower takes the footprint under
      the next guid and is paid for; the world takes the new tree's routes
      and holds valid path data, and no route is cut off. */
  ghost predicate Built(w: WorldState, w': WorldState, c: Cell, kind: TowerType) {
    && RoutesOpen(Faked(w.grid, c), w.cols, w.rows)
    && w.nextGuid in w'.towers
    && w' == w.PlaceTower(w'.grid, w'.towers[w.nextGuid], Towers.Cost(kind))
               .(spt := w'.spt, routes := w'.routes, haveValidSptData := true)
    && TowerTaken(w.grid, w'.grid, c, w.nextGuid)
    && RoutesOpen(w'.grid, w'.cols, w'.rows)
  }

  /** A valid tree vouches for every board equivalent to its own: on such a
      board every creep and every entrance can reach an exit. */
  lemma ValidTreeRoutes(t: Tree, b: Board)
    requires SptProofs.Inv(t) && t.IsValid() && Equivalent(t.board, b)
    ensures AllRoutesOpen(b)
  {
    SptProofs.ValidIff(t);
    forall c | b.Contains(c) && (b.At(c) == POPULATED || b.At(c) == ENTRANCE) ensures b.ReachesExit(c) {
      assert t.board.Contains(c);
      assert t.board.At(c) == b.At(c);
      EquivalentReaches(t.board, b, c);
    }
  }

  /** A complete tree that is not valid shows its board blocked: some creep
      or some entrance has no way out. */
  lemma InvalidTreeBlocks(t: Tree)
    requires SptProofs.Inv(t) && t.complete && !t.IsValid()
    ensures !AllRoutesOpen(t.board)
  {
    SptProofs.ValidIff(t);
  }

  /** A grid of new nodes keeps every part of the world's invariant, with
      nothing recorded. */
  lemma BlankOk(cols: nat, rows: nat, objects: map<nat, (Cell, CellState)>, towers: map<nat, Tower>, next: nat)
    requires objects == map[] && towers == map[] && next >= 1
    ensures CellsOk(Blank(cols, rows), next) && CreepsApart(Blank(cols, rows))
    ensures ObjectsOk(Blank(cols, rows), objects, towers, next)
  {
    var g: Grid := Blank(cols, rows);
    forall a, b | 0 <= a < |g| && 0 <= b < |g[a]|
      ensures g[a][b].state == OPEN && g[a][b].objGuid.None? && g[a][b].creepGuids == {}
      ensures g[a][b].creepCount == 0 && g[a][b].flyingCreepCount == 0 && g[a][b].targetingTowerGuids == {}
    {
    }
    assert CellsOk(g, next);
    assert CreepsApart(g);
    assert ObjectsOk(g, objects, towers, next);
  }

  /** Rewriting the state and occupant of one node keeps its creeps and
      tower registrations, so the creeps stay apart. */
  lemma SameCreepsApart(g: Grid, g': Grid)
    requires CreepsApart(g) && |g'| == |g|
    requires forall a :: 0 <= a < |g| ==> |g'[a]| == |g[a]|
    requires forall a, b :: 0 <= a < |g| && 0 <= b < |g[a]| ==> g'[a][b].creepGuids == g[a][b].creepGuids
    ensures CreepsApart(g')
  {
    forall c, d
      ensures Apart(g', c, d)
    {
      assert Apart(g, c, d);
    }
  }

  // ---------------------------------------------------------------------
  // The world's fields as a value
  // ---------------------------------------------------------------------

  /** The fields of a `World`: the grid and the routes promoted into it,
      `objectsByGuid` (the cell and type of each wall, entrance and exit),
      `towersByGuid`, the listed entrances, the tree, the money, the cursor,
      and the next guid `guidForType` hands out (the global counter). */
  datatype WorldState = WorldState(
    cols: nat, rows: nat, grid: Grid, routes: seq<seq<Route>>,
    objects: map<nat, (Cell, CellState)>, towers: map<nat, Tower>,
    entranceNodes: seq<Cell>, spt: ShortestPathTree?, haveValidSptData: bool,
    money: int, cursorI: int, cursorJ: int, nextGuid: nat)
  {
    /** What the world keeps true of its fields as values: a board at least
        6 by 4, the cursor's four cells on it, money never negative, and
        the grid's bookkeeping in order. */
    ghost predicate Inv() {
      && cols >= 6 && rows >= 4
      && Rect(grid, cols, rows) && Rect(routes, cols, rows)
      && 0 <= cursorI && cursorI + 1 < cols && 0 <= cursorJ && cursorJ + 1 < rows
      && money >= 0 && nextGuid >= 1
      && CellsOk(grid, nextGuid) && CreepsApart(grid)
      && ObjectsOk(grid, objects, towers, nextGuid)
    }

    /** `makeObjectAtNode`: the node holds the object under the next guid,
        which is recorded; an entrance is listed; the path data is stale. */
    function MakeObject(c: Cell, s: CellState): WorldState
      requires 0 <= c.i < |grid| && 0 <= c.j < |grid[c.i]|
    {
      this.(grid := grid[c.i := grid[c.i][c.j := grid[c.i][c.j].(state := s, objGuid := Some(nextGuid))]],
            objects := objects[nextGuid := (c, s)],
            entranceNodes := entranceNodes + (if s == ENTRANCE then [c] else []),
            haveValidSptData := false,
            nextGuid := nextGuid + 1)
    }

    /** `removeObjectAtNode`: the node is OPEN and empty, and its object is
        forgotten. */
    function RemoveObject(c: Cell): WorldState
      requires 0 <= c.i < |grid| && 0 <= c.j < |grid[c.i]|
    {
      this.(grid := grid[c.i := grid[c.i][c.j := grid[c.i][c.j].(state := OPEN, objGuid := None)]],
            objects := if grid[c.i][c.j].objGuid.Some? then objects - {grid[c.i][c.j].objGuid.value} else objects)
    }

    /** `makeTowerAtNode`: the grid the new tower left, the tower recorded
        under the next guid, its cost paid, and the path data stale. */
    function PlaceTower(g': Grid, tw: Tower, cost: nat): WorldState {
      this.(grid := g', towers := towers[nextGuid := tw], money := money - cost,
            haveValidSptData := false, nextGuid := nextGuid + 1)
    }

    /** Placing a tower makes the path data stale whether or not it was. */
    lemma StalePlace(g': Grid, tw: Tower, cost: nat)
      ensures this.(haveValidSptData := false).PlaceTower(g', tw, cost) == PlaceTower(g', tw, cost)
    {
    }
  }

  /** Giving an OPEN node a wall, entrance or exit keeps the invariant, and
      the object is found at the node under its guid. */
  lemma MakeObjectKeeps(w: WorldState, c: Cell, s: CellState)
    requires w.Inv() && 0 <= c.i < w.cols && 0 <= c.j < w.rows && w.grid[c.i][c.j].state == OPEN
    requires s == BLOCKED || s == ENTRANCE || s == EXIT
    ensures w.MakeObject(c, s).Inv()
  {
    var g := w.grid;
    var next := w.nextGuid;
    var g' := w.MakeObject(c, s).grid;
    var objects' := w.MakeObject(c, s).objects;
    SameCreepsApart(g, g');
    forall a, b | 0 <= a < |g'| && 0 <= b < |g'[a]|
      ensures NodeOk(g'[a][b], next + 1) && Recorded(g'[a][b], Cell(a, b), objects', w.towers)
    {
      assert NodeOk(g[a][b], next) && Recorded(g[a][b], Cell(a, b), w.objects, w.towers);
      if a != c.i || b != c.j {
        assert g'[a][b] == g[a][b];
      }
    }
    assert CellsOk(g', next + 1);
    assert ObjectsOk(g', objects', w.towers, next + 1);
  }

  /** Emptying a wall, entrance or exit node with no walking creep keeps
      the invariant. */
  lemma RemoveObjectKeeps(w: WorldState, c: Cell)
    requires w.Inv() && 0 <= c.i < w.cols && 0 <= c.j < w.rows && w.grid[c.i][c.j].creepCount == 0
    requires w.grid[c.i][c.j].state == BLOCKED || w.grid[c.i][c.j].state == ENTRANCE || w.grid[c.i][c.j].state == EXIT
    ensures w.grid[c.i][c.j].objGuid.Some?
    ensures w.RemoveObject(c).Inv()
  {
    var g := w.grid;
    var g' := w.RemoveObject(c).grid;
    var objects' := w.RemoveObject(c).objects;
    SameCreepsApart(g, g');
    assert NodeOk(g[c.i][c.j], w.nextGuid) && Recorded(g[c.i][c.j], c, w.objects, w.towers);
    forall a, b | 0 <= a < |g'| && 0 <= b < |g'[a]|
      ensures NodeOk(g'[a][b], w.nextGuid) && Recorded(g'[a][b], Cell(a, b), objects', w.towers)
    {
      assert NodeOk(g[a][b], w.nextGuid) && Recorded(g[a][b], Cell(a, b), w.objects, w.towers);
      if a != c.i || b != c.j {
        assert g'[a][b] == g[a][b];
      }
    }
    assert CellsOk(g', w.nextGuid);
    assert ObjectsOk(g', objects', w.towers, w.nextGuid);
  }

  /** Removing an object just made gives back the grid and the records:
      only the guid counter, the entrance list and the staleness of the
      path data remember it. */
  lemma MakeThenRemove(w: WorldState, c: Cell, s: CellState)
    requires w.Inv() && 0 <= c.i < w.cols && 0 <= c.j < w.rows && w.grid[c.i][c.j].state == OPEN
    ensures w.MakeObject(c, s).RemoveObject(c) ==
      w.(entranceNodes := w.MakeObject(c, s).entranceNodes, haveValidSptData := false, nextGuid := w.nextGuid + 1)
  {
    var w' := w.MakeObject(c, s).RemoveObject(c);
    assert NodeOk(w.grid[c.i][c.j], w.nextGuid);
    assert w'.grid[c.i] == w.grid[c.i];
    assert w'.grid == w.grid;
    assert w.nextGuid !in w.objects;
    assert w'.objects == w.objects;
  }

  // ---------------------------------------------------------------------
  // Towers on the grid
  // ---------------------------------------------------------------------

  /** What a tower with guid `guid` leaves of grid `g` when it takes the
      footprint at `c` and registers with the cells in its range: the four
      cells are TOWER cells holding the tower, every other node keeps its
      state and occupant, and every node keeps its creeps and learns at
      most the new tower's guid. */
  ghost predicate TowerTaken(g: Grid, g': Grid, c: Cell, guid: nat) {
    && |g'| == |g| && (forall a :: 0 <= a < |g| ==> |g'[a]| == |g[a]|)
    && forall a, b :: 0 <= a < |g| && 0 <= b < |g[a]| ==>
         && g'[a][b].(targetingTowerGuids := g[a][b].targetingTowerGuids) ==
              (if Cell(a, b) in Footprint(c.i, c.j) then g[a][b].(state := TOWER, objGuid := Some(guid)) else g[a][b])
         && g'[a][b].targetingTowerGuids <= g[a][b].targetingTowerGuids + {guid}
  }

  /** The grid with node `n` written at cell `d`. */
  function Put(g: Grid, d: Cell, n: Node): (r: Grid)
    requires OnGrid(g, d)
    ensures |r| == |g| && forall a :: 0 <= a < |g| ==> |r[a]| == |g[a]|
  {
    g[d.i := g[d.i][d.j := n]]
  }

  /** Rewriting the four nodes of a footprint one after another, as
      `fakeTowerAtNode` and `unfakeTowerAtNode` do, rewrites the footprint. */
  lemma FootprintWrites(g: Grid, c: Cell, f: Node -> Node)
    requires FootprintOnGrid(g, c)
    ensures var g1 := Put(g, Cell(c.i, c.j), f(g[c.i][c.j]));
      var g2 := Put(g1, Cell(c.i, c.j + 1), f(g1[c.i][c.j + 1]));
      var g3 := Put(g2, Cell(c.i + 1, c.j), f(g2[c.i + 1][c.j]));
      Put(g3, Cell(c.i + 1, c.j + 1), f(g3[c.i + 1][c.j + 1])) == MapFootprint(g, c, f)
  {
    var g1 := Put(g, Cell(c.i, c.j), f(g[c.i][c.j]));
    var g2 := Put(g1, Cell(c.i, c.j + 1), f(g1[c.i][c.j + 1]));
    var g3 := Put(g2, Cell(c.i + 1, c.j), f(g2[c.i + 1][c.j]));
    var g4 := Put(g3, Cell(c.i + 1, c.j + 1), f(g3[c.i + 1][c.j + 1]));
    forall a | 0 <= a < |g| ensures g4[a] == MapFootprint(g, c, f)[a] {
    }
  }

  /** A footprint the world finds clear to build on is free for a tower:
      its OPEN nodes hold no occupant and no walking creep. */
  lemma ClearIsFree(w: WorldState, c: Cell)
    requires w.Inv() && FootprintOnGrid(w.grid, c) && ClearToBuildTower(w.grid, c)
    ensures FootprintFree(w.grid, c.i, c.j)
  {
    forall d | d in Footprint(c.i, c.j)
      ensures OnGrid(w.grid, d) && w.grid[d.i][d.j].state == OPEN && w.grid[d.i][d.j].objGuid.None? && w.grid[d.i][d.j].creepCount == 0
    {
      assert NodeOk(w.grid[d.i][d.j], w.nextGuid);
    }
  }

  /** On a world at least as large as the game's board, a new tower under
      the next guid meets what `expandRange` asserts: a positive range, no
      cell that already knows its guid, and no creep in two cells. */
  lemma TowerFits(w: WorldState, c: Cell, kind: TowerType, settingUp: bool)
    requires w.Inv() && IMax <= w.cols && JMax <= w.rows
    ensures NewTower(kind, c.i, c.j, w.nextGuid).Building(settingUp).CanExpand(w.grid)
  {
    TableValues();
    var t := NewTower(kind, c.i, c.j, w.nextGuid).Building(settingUp);
    var g: Grid := w.grid;
    forall d | d in t.Gain()
      ensures t.guid !in g[d.i][d.j].targetingTowerGuids && g[d.i][d.j].creepGuids !! t.choices
    {
      assert NodeOk(g[d.i][d.j], w.nextGuid);
    }
    forall d, e | d in t.Gain() && e in t.Gain() && d != e
      ensures g[d.i][d.j].creepGuids !! g[e.i][e.j].creepGuids
    {
      assert Apart(g, d, e);
    }
  }

  /** The grid a new tower's `init` leaves is the grid taken by the tower. */
  lemma InitTakes(g: Grid, c: Cell, guid: nat, t: TowerState, flying: set<nat>)
    requires FootprintFree(g, c.i, c.j) && t.guid == guid
    ensures TowerTaken(g, t.ExpandRange(WithTower(g, c.i, c.j, guid), flying).1, c, guid)
  {
    WithTowerSpec(g, c.i, c.j, guid);
  }

  /** Placing a tower on a clear footprint the world can pay for keeps the
      invariant. */
  lemma PlaceTowerKeeps(w: WorldState, c: Cell, g': Grid, tw: Tower, cost: nat)
    requires w.Inv() && FootprintOnGrid(w.grid, c) && ClearToBuildTower(w.grid, c)
    requires TowerTaken(w.grid, g', c, w.nextGuid) && cost <= w.money
    ensures w.PlaceTower(g', tw, cost).Inv()
  {
    var g: Grid := w.grid;
    var next := w.nextGuid;
    var towers' := w.towers[next := tw];
    ClearIsFree(w, c);
    SameCreepsApart(g, g');
    forall a, b | 0 <= a < |g'| && 0 <= b < |g'[a]|
      ensures NodeOk(g'[a][b], next + 1) && Recorded(g'[a][b], Cell(a, b), w.objects, towers')
    {
      assert NodeOk(g[a][b], next) && Recorded(g[a][b], Cell(a, b), w.objects, w.towers);
      assert g'[a][b].(targetingTowerGuids := g[a][b].targetingTowerGuids).state == g'[a][b].state;
      assert g'[a][b].(targetingTowerGuids := g[a][b].targetingTowerGuids).objGuid == g'[a][b].objGuid;
    }
    assert CellsOk(g', next + 1);
    assert ObjectsOk(g', w.objects, towers', next + 1);
  }

  /** The fake footprint judges the tower fairly: with the footprint faked
      as walls, every creep and entrance can reach an exit exactly when it
      can with the tower standing there. */
  lemma FakeJudgesTower(g: Grid, g': Grid, c: Cell, cols: nat, rows: nat)
    requires Rect(g, cols, rows) && Rect(g', cols, rows)
    requires forall a, b :: 0 <= a < cols && 0 <= b < rows ==>
      g'[a][b].state == if Cell(a, b) in Footprint(c.i, c.j) then TOWER else g[a][b].state
    ensures AllRoutesOpen(BoardOf(Faked(g, c), cols, rows)) <==> AllRoutesOpen(BoardOf(g', cols, rows))
  {
    var b1 := BoardOf(Faked(g, c), cols, rows);
    var b2 := BoardOf(g', cols, rows);
    TowerLikeFake(g, g', c, cols, rows);
    forall d | b1.Contains(d) ensures b1.ReachesExit(d) <==> b2.ReachesExit(d) {
      EquivalentReaches(b1, b2, d);
    }
  }
  /** A grid taken by a tower is, for path finding, the grid with the
      footprint faked: its board is equivalent to the faked one. */
  lemma TakenLikeFake(g: Grid, g': Grid, c: Cell, guid: nat, cols: nat, rows: nat)
    requires Rect(g, cols, rows) && TowerTaken(g, g', c, guid)
    ensures Rect(g', cols, rows)
    ensures Equivalent(BoardOf(Faked(g, c), cols, rows), BoardOf(g', cols, rows))
  {
    forall a, b | 0 <= a < cols && 0 <= b < rows
      ensures g'[a][b].state == if Cell(a, b) in Footprint(c.i, c.j) then TOWER else g[a][b].state
    {
      assert g'[a][b].(targetingTowerGuids := g[a][b].targetingTowerGuids).state == g'[a][b].state;
    }
    TowerLikeFake(g, g', c, cols, rows);
  }


  // ---------------------------------------------------------------------
  // The stages of init
  // ---------------------------------------------------------------------

  /** The state of cell (a, b) after `init`'s first loop has walled the
      top and bottom rows of the first `i` columns. */
  function TopBottom(rows: nat, i: int, a: int, b: int): CellState {
    if a < i && (b == 0 || b == rows - 1) then BLOCKED else OPEN
  }

  /** ... after the second loop has walled the two outer columns on each
      side in the first `j` rows. */
  function Sides(cols: nat, rows: nat, j: int, a: int, b: int): CellState {
    if (a == 0 || a == 1 || a == cols - 2 || a == cols - 1) && b < j then BLOCKED
    else TopBottom(rows, cols, a, b)
  }

  /** ... after the third loop has opened the gate rows from `GateLo` up
      to `j`, with an entrance on the left and an exit on the right. */
  function Gates(cols: nat, rows: nat, j: int, a: int, b: int): CellState {
    if GateLo(rows) <= b < j && a == 0 then ENTRANCE
    else if GateLo(rows) <= b < j && a == cols - 1 then EXIT
    else if GateLo(rows) <= b < j && (a == 1 || a == cols - 2) then OPEN
    else Sides(cols, rows, rows, a, b)
  }

  /** The three loops of `init` leave exactly the layout `WorldModel.Layout`. */
  lemma GatesLayout(cols: nat, rows: nat)
    requires cols >= 6 && rows >= 4
    ensures forall a, b :: 0 <= a < cols && 0 <= b < rows ==> Gates(cols, rows, GateHi(rows), a, b) == Layout(cols, rows, a, b)
  {
  }

  class World {
    const cols: nat
    const rows: nat
    var grid: Grid
    /** The fields `promoteSptState` writes into each `GridNode`. */
    var routes: seq<seq<Route>>
    /** `objectsByGuid`: the cell and type of each wall, entrance and exit. */
    var objects: map<nat, (Cell, CellState)>
    /** `towersByGuid`. */
    var towers: map<nat, Tower>
    var entranceNodes: seq<Cell>
    var spt: ShortestPathTree?
    var haveValidSptData: bool
    var money: int
    var cursorI: int
    var cursorJ: int
    /** The next guid `guidForType` hands out (the global counter). */
    var nextGuid: nat

    function Model(): WorldState
      reads this
    {
      WorldState(cols, rows, grid, routes, objects, towers, entranceNodes, spt, haveValidSptData, money, cursorI, cursorJ, nextGuid)
    }

    /** The tree object and its queue. */
    ghost function SptRepr(): set<object>
      reads this
    {
      if spt == null then {} else {spt, spt.reachableSet}
    }

    /** The tree keeps its own invariant and is as large as the board; one
        with work left was set up on the current grid; and when the world
        claims valid path data, the tree is complete and valid for a board
        equivalent to the grid, and the grid holds its routes. */
    ghost predicate SptOk()
      reads this, SptRepr()
      requires Rect(grid, cols, rows)
    {
      && (spt != null ==>
            && spt.Valid() && spt.board.cols == cols && spt.board.rows == rows
            && (spt.setUp && spt.Model().reachable.Size() > 0 ==> spt.board == BoardOf(grid, cols, rows)))
      && (haveValidSptData ==>
            && spt != null && spt.Valid() && spt.complete && spt.Model().IsValid()
            && Equivalent(spt.board, BoardOf(grid, cols, rows))
            && Rect(spt.grid, cols, rows) && routes == Promoted(spt.grid, cols, rows))
    }

    ghost predicate Valid()
      reads this, SptRepr()
    {
      Model().Inv() && SptOk()
    }

    /** No path computation is under way: there is no tree, or it is
        complete, or its run has failed. */
    ghost predicate Settled()
      reads this, SptRepr()
    {
      spt == null || !spt.setUp || spt.Model().reachable.Size() == 0
    }

    /** A tree on the current grid keeps `SptOk` while the world claims no
        valid path data. */
    lemma FreshTreeOk()
      requires Rect(grid, cols, rows) && !haveValidSptData
      requires spt != null && spt.Valid() && spt.board == BoardOf(grid, cols, rows)
      ensures SptOk()
    {
    }

    /** Path data that was valid stays a valid stale state when nothing but
        the flag changes. */
    twostate lemma StaleValid(keep: set<object>)
      requires old(Valid()) && old(haveValidSptData)
      requires Model() == old(Model()).(haveValidSptData := false)
      requires keep == old(SptRepr()) && unchanged(keep)
      ensures Valid()
    {
    }

    /** A complete tree as large as the board keeps `SptOk` while the
        world claims no valid path data. */
    lemma CompleteTreeOk()
      requires Rect(grid, cols, rows) && !haveValidSptData
      requires spt != null && spt.Valid() && spt.complete
      requires spt.board.cols == cols && spt.board.rows == rows
      ensures SptOk()
    {
    }

    /** While the world holds valid path data, no creep and no entrance is
        cut off from the exits. */
    lemma ValidRoutes()
      requires Valid() && haveValidSptData
      ensures AllRoutesOpen(BoardOf(grid, cols, rows))
    {
      ValidTreeRoutes(spt.Model(), BoardOf(grid, cols, rows));
    }

    /** The constructor: a grid of new nodes, nothing recorded, no tree.
        Its `setCursorPos(0, 0)` finds no cursor yet, so `createCursor`
        puts the cursor at (0, 0) and then `handleMotion(0, 0)` clamps it
        to the first legal position, (2, 1). */
    constructor(cols: nat, rows: nat)
      requires cols >= 6 && rows >= 4
      ensures Valid() && Settled() && this.cols == cols && this.rows == rows
      ensures Model() == WorldState(cols, rows, Blank(cols, rows), seq(cols, _ => seq(rows, _ => Unset)), map[], map[],
                                    [], null, false, 0, Motion(cols, rows, 0, 0, 0, 0).i, Motion(cols, rows, 0, 0, 0, 0).j, 1)
      ensures cursorI == CursorMinIOffset && cursorJ == CursorMinJOffset
    {
      this.cols := cols;
      this.rows := rows;
      var g := MakeGrid(cols, rows);
      grid := g;
      routes := seq(cols, _ => seq(rows, _ => Unset));
      objects := map[];
      towers := map[];
      entranceNodes := [];
      spt := null;
      haveValidSptData := false;
      money := 0;
      cursorI := 0;
      cursorJ := 0;
      nextGuid := 1;
      new;
      BlankOk(cols, rows, objects, towers, nextGuid);
      HandleMotion(0, 0);
    }

    /** `setCursorPos`, whose callers keep the cursor's four cells on the grid. */
    method SetCursorPos(i: int, j: int)
      requires Valid() && 0 <= i && i + 1 < cols && 0 <= j && j + 1 < rows
      modifies this
      ensures Valid() && Model() == old(Model()).(cursorI := i, cursorJ := j)
    {
      cursorI := i;
      cursorJ := j;
    }

    /** `handleMotion`: the cursor moves by (di, dj), clamped to the
        playing field (see `WorldModel.MotionSpec`). */
    method HandleMotion(di: int, dj: int)
      requires Valid()
      modifies this
      ensures Valid()
      ensures Model() == old(Model()).(cursorI := Motion(cols, rows, old(cursorI), old(cursorJ), di, dj).i,
                                       cursorJ := Motion(cols, rows, old(cursorI), old(cursorJ), di, dj).j)
    {
      var curI := Clamp(CursorMinIOffset, CursorMaxI(cols), cursorI + di);
      var curJ := Clamp(CursorMinJOffset, CursorMaxJ(rows), cursorJ + dj);
      SetCursorPos(curI, curJ);
    }

    /** `setMoney`, which asserts that the amount is not negative. */
    method SetMoney(val: int)
      requires Valid() && val >= 0
      modifies this
      ensures Valid() && Model() == old(Model()).(money := val)
    {
      money := val;
    }

    /** `makeObjectAtNode` with `makeObject`: a wall, entrance or exit on
        an OPEN node gets the next guid and is recorded, the path data is
        no longer valid, and an entrance is listed. */
    method MakeObjectAtNode(c: Cell, s: CellState)
      requires Valid() && spt == null
      requires 0 <= c.i < cols && 0 <= c.j < rows && grid[c.i][c.j].state == OPEN
      requires s == BLOCKED || s == ENTRANCE || s == EXIT
      modifies this
      ensures Valid()
      ensures Model() == old(Model()).MakeObject(c, s)
      ensures forall a, b :: 0 <= a < cols && 0 <= b < rows ==>
        grid[a][b].state == if a == c.i && b == c.j then s else old(grid)[a][b].state
    {
      var guid := nextGuid;
      nextGuid := nextGuid + 1;
      assert NodeOk(grid[c.i][c.j], guid);
      var (n, e) := grid[c.i][c.j].AddObject(guid, s);
      assert e.None?;
      grid := grid[c.i := grid[c.i][c.j := n]];
      objects := objects[guid := (c, s)];
      haveValidSptData := false;
      if s == ENTRANCE {
        entranceNodes := entranceNodes + [c];
      }
      assert Model() == old(Model()).MakeObject(c, s);
      MakeObjectKeeps(old(Model()), c, s);
    }

    /** `removeObjectAtNode`: the wall, entrance or exit on the node is
        removed and forgotten, and the node is OPEN. */
    method RemoveObjectAtNode(c: Cell)
      requires Valid() && spt == null
      requires 0 <= c.i < cols && 0 <= c.j < rows
      requires grid[c.i][c.j].state == BLOCKED || grid[c.i][c.j].state == ENTRANCE || grid[c.i][c.j].state == EXIT
      requires grid[c.i][c.j].creepCount == 0
      modifies this
      ensures Valid()
      ensures Model() == old(Model()).RemoveObject(c)
    {
      assert Recorded(grid[c.i][c.j], c, objects, towers);
      var guid := grid[c.i][c.j].objGuid.value;
      var r := grid[c.i][c.j].RemoveObject(guid);
      grid := grid[c.i := grid[c.i][c.j := r.value]];
      objects := objects - {guid};
      assert Model() == old(Model()).RemoveObject(c);
      RemoveObjectKeeps(old(Model()), c);
    }

    /** `clearNode` on anything but a tower: an OPEN node is left alone,
        and a wall, entrance or exit is removed. */
    method ClearNode(c: Cell)
      requires Valid() && spt == null
      requires 0 <= c.i < cols && 0 <= c.j < rows
      requires grid[c.i][c.j].state != TOWER && grid[c.i][c.j].state != POPULATED
      requires grid[c.i][c.j].state == ENTRANCE ==> grid[c.i][c.j].creepCount == 0
      modifies this
      ensures Valid()
      ensures Model() == old(Model()).(grid := grid, objects := objects)
      ensures forall a, b :: 0 <= a < cols && 0 <= b < rows ==>
        grid[a][b].state == if a == c.i && b == c.j then OPEN else old(grid)[a][b].state
      ensures old(grid[c.i][c.j].state) == OPEN ==> Model() == old(Model())
      ensures old(grid[c.i][c.j].state) != OPEN ==> Model() == old(Model()).RemoveObject(c)
    {
      if grid[c.i][c.j].state == OPEN {
        return;
      }
      assert NodeOk(grid[c.i][c.j], nextGuid);
      RemoveObjectAtNode(c);
    }

    /** One turn of the second loop of `init` on one cell: the cell is
        cleared and walled. */
    method Wall(c: Cell)
      requires Valid() && spt == null
      requires 0 <= c.i < cols && 0 <= c.j < rows
      requires grid[c.i][c.j].state == OPEN || grid[c.i][c.j].state == BLOCKED
      modifies this
      ensures Valid() && spt == null && entranceNodes == old(entranceNodes)
      ensures Model() == old(Model()).(grid := grid, objects := objects, nextGuid := nextGuid, haveValidSptData := false)
      ensures forall a, b :: 0 <= a < cols && 0 <= b < rows ==>
        grid[a][b].state == if a == c.i && b == c.j then BLOCKED else old(grid)[a][b].state
    {
      ClearNode(c);
      MakeObjectAtNode(c, BLOCKED);
    }

    /** `init`, called on a new world: walls along the top and bottom rows
        and the two outer columns on each side, two entrances on the left
        and two exits on the right of the middle rows (with the inner wall
        columns open there).  The run of the first tree that follows, in
        `setGamePhase`, is not part of this model. */
    method Init()
      requires Valid() && spt == null && entranceNodes == []
      requires forall a, b :: 0 <= a < cols && 0 <= b < rows ==> grid[a][b].state == OPEN
      modifies this
      ensures Valid() && spt == null
      ensures forall a, b :: 0 <= a < cols && 0 <= b < rows ==> grid[a][b].state == Layout(cols, rows, a, b)
      ensures entranceNodes == [Cell(0, GateLo(rows)), Cell(0, GateLo(rows) + 1)]
      ensures Model() == old(Model()).(grid := grid, objects := objects, entranceNodes := entranceNodes, nextGuid := nextGuid)
    {
      WallTopBottom();
      WallSides();
      OpenGates();
      GatesLayout(cols, rows);
    }

    /** The first loop of `init`. */
    method WallTopBottom()
      requires Valid() && spt == null && entranceNodes == []
      requires forall a, b :: 0 <= a < cols && 0 <= b < rows ==> grid[a][b].state == OPEN
      modifies this
      ensures Valid() && spt == null && entranceNodes == []
      ensures Model() == old(Model()).(grid := grid, objects := objects, nextGuid := nextGuid)
      ensures forall a, b :: 0 <= a < cols && 0 <= b < rows ==> grid[a][b].state == TopBottom(rows, cols, a, b)
    {
      for i := 0 to cols
        invariant Valid() && spt == null && entranceNodes == []
        invariant Model() == old(Model()).(grid := grid, objects := objects, nextGuid := nextGuid)
        invariant forall a, b :: 0 <= a < cols && 0 <= b < rows ==> grid[a][b].state == TopBottom(rows, i, a, b)
      {
        MakeObjectAtNode(Cell(i, 0), BLOCKED);
        MakeObjectAtNode(Cell(i, rows - 1), BLOCKED);
      }
    }

    /** The second loop of `init`. */
    method WallSides()
      requires Valid() && spt == null && entranceNodes == []
      requires forall a, b :: 0 <= a < cols && 0 <= b < rows ==> grid[a][b].state == TopBottom(rows, cols, a, b)
      modifies this
      ensures Valid() && spt == null && entranceNodes == []
      ensures Model() == old(Model()).(grid := grid, objects := objects, nextGuid := nextGuid)
      ensures forall a, b :: 0 <= a < cols && 0 <= b < rows ==> grid[a][b].state == Sides(cols, rows, rows, a, b)
    {
      for j := 0 to rows
        invariant Valid() && spt == null && entranceNodes == []
        invariant Model() == old(Model()).(grid := grid, objects := objects, nextGuid := nextGuid)
        invariant forall a, b :: 0 <= a < cols && 0 <= b < rows ==> grid[a][b].state == Sides(cols, rows, j, a, b)
      {
        WallRow(j);
      }
    }

    /** One turn of the second loop of `init`: the two outer cells at each
        end of row `j` are walled. */
    method WallRow(j: int)
      requires Valid() && spt == null && entranceNodes == [] && 0 <= j < rows
      requires forall a, b :: 0 <= a < cols && 0 <= b < rows ==> grid[a][b].state == Sides(cols, rows, j, a, b)
      modifies this
      ensures Valid() && spt == null && entranceNodes == []
      ensures Model() == old(Model()).(grid := grid, objects := objects, nextGuid := nextGuid)
      ensures forall a, b :: 0 <= a < cols && 0 <= b < rows ==> grid[a][b].state == Sides(cols, rows, j + 1, a, b)
    {
      Wall(Cell(0, j));
      Wall(Cell(1, j));
      Wall(Cell(cols - 2, j));
      Wall(Cell(cols - 1, j));
    }

    /** The third loop of `init`. */
    method OpenGates()
      requires Valid() && spt == null && entranceNodes == []
      requires forall a, b :: 0 <= a < cols && 0 <= b < rows ==> grid[a][b].state == Sides(cols, rows, rows, a, b)
      modifies this
      ensures Valid() && spt == null
      ensures entranceNodes == [Cell(0, GateLo(rows)), Cell(0, GateLo(rows) + 1)]
      ensures Model() == old(Model()).(grid := grid, objects := objects, entranceNodes := entranceNodes, nextGuid := nextGuid)
      ensures forall a, b :: 0 <= a < cols && 0 <= b < rows ==> grid[a][b].state == Gates(cols, rows, GateHi(rows), a, b)
    {
      for j := GateLo(rows) to GateHi(rows)
        invariant Valid() && spt == null
        invariant entranceNodes == seq(j - GateLo(rows), k => Cell(0, GateLo(rows) + k))
        invariant Model() == old(Model()).(grid := grid, objects := objects, entranceNodes := entranceNodes, nextGuid := nextGuid)
        invariant forall a, b :: 0 <= a < cols && 0 <= b < rows ==> grid[a][b].state == Gates(cols, rows, j, a, b)
      {
        GateRow(j);
      }
    }

    /** One turn of the third loop of `init`: the entrance and the exit of
        row `j`, with the inner wall cells beside them cleared. */
    method GateRow(j: int)
      requires Valid() && spt == null && GateLo(rows) <= j < GateHi(rows)
      requires forall a, b :: 0 <= a < cols && 0 <= b < rows ==> grid[a][b].state == Gates(cols, rows, j, a, b)
      modifies this
      ensures Valid() && spt == null
      ensures entranceNodes == old(entranceNodes) + [Cell(0, j)]
      ensures Model() == old(Model()).(grid := grid, objects := objects, entranceNodes := entranceNodes, nextGuid := nextGuid)
      ensures forall a, b :: 0 <= a < cols && 0 <= b < rows ==> grid[a][b].state == Gates(cols, rows, j + 1, a, b)
    {
      Gate(Cell(0, j), Cell(1, j), ENTRANCE);
      Gate(Cell(cols - 1, j), Cell(cols - 2, j), EXIT);
    }

    /** Half a turn of the third loop of `init`: the gate cell and the
        inner cell beside it are cleared, and the gate cell gets its
        entrance or exit. */
    method Gate(c: Cell, inner: Cell, s: CellState)
      requires Valid() && spt == null && 0 <= c.i < cols && 0 <= c.j < rows && 0 <= inner.i < cols && 0 <= inner.j < rows
      requires c != inner && (s == ENTRANCE || s == EXIT)
      requires grid[c.i][c.j].state == BLOCKED && grid[inner.i][inner.j].state == BLOCKED
      modifies this
      ensures Valid() && spt == null
      ensures entranceNodes == old(entranceNodes) + (if s == ENTRANCE then [c] else [])
      ensures Model() == old(Model()).(grid := grid, objects := objects, entranceNodes := entranceNodes, nextGuid := nextGuid, haveValidSptData := false)
      ensures forall a, b :: 0 <= a < cols && 0 <= b < rows ==>
        grid[a][b].state == if a == c.i && b == c.j then s else if a == inner.i && b == inner.j then OPEN else old(grid)[a][b].state
    {
      ClearNode(c);
      ClearNode(inner);
      MakeObjectAtNode(c, s);
    }

    // -------------------------------------------------------------------
    // The shortest-path tree
    // -------------------------------------------------------------------

    /** `promoteSptState`, which asserts that the tree is valid: every
        node's route becomes its tree cell's cost and direction. */
    method PromoteSptState()
      requires spt != null && spt.Listed() && spt.Model().IsValid()
      requires spt.board.cols == cols && spt.board.rows == rows && Rect(routes, cols, rows)
      modifies this
      ensures Model() == old(Model()).(routes := Promoted(old(spt.grid), cols, rows))
    {
      var sg := spt.grid;
      assert Rect(sg, cols, rows);
      for i := 0 to cols
        invariant Model() == old(Model()).(routes := routes) && Rect(routes, cols, rows)
        invariant forall a, b :: 0 <= a < i && 0 <= b < rows ==> routes[a][b] == RouteOf(sg[a][b])
      {
        for j := 0 to rows
          invariant Model() == old(Model()).(routes := routes) && Rect(routes, cols, rows)
          invariant forall a, b :: 0 <= a < i && 0 <= b < rows ==> routes[a][b] == RouteOf(sg[a][b])
          invariant forall b :: 0 <= b < j ==> routes[i][b] == RouteOf(sg[i][b])
        {
          routes := routes[i := routes[i][j := RouteOf(sg[i][j])]];
        }
      }
      forall a | 0 <= a < cols
        ensures routes[a] == Promoted(sg, cols, rows)[a]
      {
      }
    }

    /** `setupSpt`: a tree still set up is kept (the source says so in a
        popup); otherwise a new tree is built on the grid and set up. */
    method SetupSpt()
      requires Valid() && !haveValidSptData
      modifies this
      ensures Valid() && spt != null && spt.setUp
      ensures Model() == old(Model()).(spt := spt)
      ensures old(spt) != null && old(spt.setUp) ==> spt == old(spt)
      ensures old(spt) == null || !old(spt.setUp) ==>
        fresh(spt) && fresh(spt.reachableSet) && spt.board == BoardOf(grid, cols, rows) && !spt.complete
    {
      if spt != null && spt.setUp {
        return;
      }
      NewSpt();
    }

    /** `new ShortestPathTree(world)`, made the world's tree: a new tree
        on the current grid, set up and not complete. */
    method NewSpt()
      requires Rect(grid, cols, rows) && !haveValidSptData
      modifies this
      ensures Model() == old(Model()).(spt := spt) && Rect(grid, cols, rows) && SptOk()
      ensures spt != null && fresh(spt) && fresh(spt.reachableSet)
      ensures spt.board == BoardOf(grid, cols, rows) && spt.setUp && !spt.complete
    {
      spt := new ShortestPathTree(BoardOf(grid, cols, rows));
      FreshTreeOk();
    }

    /** `runSpt`: the tree is set up if need be and run; when it is valid
        its routes are promoted into the grid and the world holds valid
        path data, which happens exactly when no creep and no entrance is
        cut off from the exits.  An error of the tree's `run` propagates. */
    method RunSpt() returns (r: Result<(), SptError>)
      requires Valid() && !haveValidSptData
      modifies this, SptRepr()
      ensures Valid() && Settled() && spt != null
      ensures Model() == old(Model()).(spt := spt, routes := routes, haveValidSptData := haveValidSptData)
      ensures r.Err? ==> r.error == NoReachableNodes && !haveValidSptData
      ensures r.Ok? ==> spt.complete && spt.board == BoardOf(grid, cols, rows)
      ensures r.Ok? ==> (haveValidSptData <==> AllRoutesOpen(BoardOf(grid, cols, rows)))
    {
      if spt == null || !spt.setUp {
        SetupSpt();
      }
      r := RunSetUpSpt();
    }

    /** The rest of `runSpt`, once the tree is set up. */
    method RunSetUpSpt() returns (r: Result<(), SptError>)
      requires Valid() && !haveValidSptData && spt != null && spt.setUp
      modifies this, SptRepr()
      ensures Valid() && Settled() && spt == old(spt)
      ensures Model() == old(Model()).(routes := routes, haveValidSptData := haveValidSptData)
      ensures r.Err? ==> r.error == NoReachableNodes && !haveValidSptData
      ensures r.Ok? ==> spt.complete && spt.board == BoardOf(grid, cols, rows)
      ensures r.Ok? ==> (haveValidSptData <==> AllRoutesOpen(BoardOf(grid, cols, rows)))
    {
      var valid;
      r, valid := RunTree();
      if r.Ok? && valid {
        AdoptRoutes();
      }
    }

    /** The middle of `runSpt`: the set-up tree is run and asked whether
        it is valid, which it is exactly when no creep and no entrance is
        cut off from the exits. */
    method RunTree() returns (r: Result<(), SptError>, valid: bool)
      requires Valid() && !haveValidSptData && spt != null && spt.setUp
      modifies SptRepr()
      ensures Valid() && Settled() && Model() == old(Model())
      ensures r.Err? ==> r.error == NoReachableNodes
      ensures r.Ok? ==> spt.complete && spt.board == BoardOf(grid, cols, rows)
      ensures r.Ok? ==> (valid <==> spt.Model().IsValid()) && (valid <==> AllRoutesOpen(BoardOf(grid, cols, rows)))
    {
      ghost var t0 := spt.Model();
      SptProofs.RunSpec(t0);
      r := spt.Run();
      valid := false;
      if r.Err? {
        return;
      }
      spt.ValidListed();
      valid := spt.IsValid();
      if valid {
        ValidTreeRoutes(spt.Model(), BoardOf(grid, cols, rows));
      } else {
        InvalidTreeBlocks(spt.Model());
      }
    }

    /** The end of `runSpt` on a valid tree: its routes are promoted and
        the world holds valid path data. */
    method AdoptRoutes()
      requires Valid() && spt != null && spt.complete && spt.Model().IsValid()
      requires Equivalent(spt.board, BoardOf(grid, cols, rows))
      modifies this
      ensures Valid() && haveValidSptData
      ensures Model() == old(Model()).(routes := Promoted(spt.grid, cols, rows), haveValidSptData := true)
    {
      spt.ValidListed();
      PromoteSptState();
      haveValidSptData := true;
    }

    // -------------------------------------------------------------------
    // Towers
    // -------------------------------------------------------------------

    /** `fakeTowerAtNode`, which asserts that the footprint is clear: its
        four nodes become walls with the fake occupant. */
    method FakeTowerAtNode(c: Cell)
      requires Rect(grid, cols, rows) && FootprintOnGrid(grid, c) && ClearToBuildTower(grid, c)
      modifies this
      ensures Model() == old(Model()).(grid := Faked(old(grid), c), haveValidSptData := false)
    {
      FootprintWrites(grid, c, Fake);
      grid := Put(grid, Cell(c.i, c.j), Fake(grid[c.i][c.j]));
      grid := Put(grid, Cell(c.i, c.j + 1), Fake(grid[c.i][c.j + 1]));
      grid := Put(grid, Cell(c.i + 1, c.j), Fake(grid[c.i + 1][c.j]));
      grid := Put(grid, Cell(c.i + 1, c.j + 1), Fake(grid[c.i + 1][c.j + 1]));
      haveValidSptData := false;
    }

    /** `unfakeTowerAtNode`, which asserts that the footprint is faked: its
        four nodes become OPEN with no occupant. */
    method UnfakeTowerAtNode(c: Cell)
      requires Rect(grid, cols, rows) && FootprintOnGrid(grid, c) && IsFaked(grid, c)
      modifies this
      ensures Model() == old(Model()).(grid := Unfaked(old(grid), c), haveValidSptData := false)
    {
      FootprintWrites(grid, c, Unfake);
      grid := Put(grid, Cell(c.i, c.j), Unfake(grid[c.i][c.j]));
      grid := Put(grid, Cell(c.i, c.j + 1), Unfake(grid[c.i][c.j + 1]));
      grid := Put(grid, Cell(c.i + 1, c.j), Unfake(grid[c.i + 1][c.j]));
      grid := Put(grid, Cell(c.i + 1, c.j + 1), Unfake(grid[c.i + 1][c.j + 1]));
      haveValidSptData := false;
    }

    /** `buildTower` at the cursor: a footprint that is not clear is
        refused, then a purse that does not cover the tower's cost; without
        valid path data the tree is set up and run, and a world still without
        it is refused as invalid.  Otherwise the footprint is tried with a
        fake tower: the tower is built exactly when the faked grid leaves
        every creep and every entrance a way out, and is refused as blocking
        otherwise.  An error of a tree's run propagates, and then the world
        is left as that run left it. */
    method BuildTower(kind: TowerType, settingUp: bool, flying: set<nat>) returns (r: Result<(), WorldError>)
      requires Valid() && IMax <= cols && JMax <= rows
      modifies this, SptRepr()
      ensures var c := Cell(old(cursorI), old(cursorJ));
        && (r == Err(CantBuildThere) <==> !ClearToBuildTower(old(grid), c))
        && (r == Err(CantAfford) <==> ClearToBuildTower(old(grid), c) && old(money) < Towers.Cost(kind))
      ensures r.Err? && r.error.SptFailed? ==> r.error.e == NoReachableNodes
      ensures (r.Err? && r.error.SptFailed?) || Valid()
      ensures r == Err(InvalidWorld) ==> grid == old(grid) && money == old(money)
      ensures r == Err(InvalidWorld) ==> !RoutesOpen(grid, cols, rows)
      ensures var c := Cell(old(cursorI), old(cursorJ));
        r == Err(Blocking) ==>
          && grid == old(grid) && money == old(money) && towers == old(towers) && !haveValidSptData
          && !RoutesOpen(Faked(old(grid), c), cols, rows)
      ensures var c := Cell(old(cursorI), old(cursorJ));
        r.Ok? ==>
          && money == old(money) - Towers.Cost(kind) && old(nextGuid) in towers && nextGuid == old(nextGuid) + 1
          && TowerTaken(old(grid), grid, c, old(nextGuid))
          && haveValidSptData && RoutesOpen(grid, cols, rows)
          && RoutesOpen(Faked(old(grid), c), cols, rows)
      ensures var c := Cell(old(cursorI), old(cursorJ));
        r.Ok? ==> fresh(spt) && FakedBoard(spt.board, old(grid), c, cols, rows) && routes == Promoted(spt.grid, cols, rows)
    {
      var c := Cell(cursorI, cursorJ);
      if !ClearToBuildTower(grid, c) {
        return Err(CantBuildThere);
      }
      if money < Towers.Cost(kind) {
        return Err(CantAfford);
      }
      r := BuildAffordable(c, kind, settingUp, flying);
    }

    /** `buildTower` once the footprint is clear and paid for: the sanity
        check on the path data, then the trial. */
    method BuildAffordable(c: Cell, kind: TowerType, settingUp: bool, flying: set<nat>) returns (r: Result<(), WorldError>)
      requires Valid() && IMax <= cols && JMax <= rows
      requires FootprintOnGrid(grid, c) && ClearToBuildTower(grid, c) && Towers.Cost(kind) <= money
      modifies this, SptRepr()
      ensures r.Ok? || r == Err(InvalidWorld) || r == Err(Blocking) || r == Err(SptFailed(NoReachableNodes))
      ensures (r.Err? && r.error.SptFailed?) || Valid()
      ensures r == Err(InvalidWorld) ==> grid == old(grid) && money == old(money)
      ensures r == Err(InvalidWorld) ==> !RoutesOpen(grid, cols, rows)
      ensures r == Err(Blocking) ==>
          && grid == old(grid) && money == old(money) && towers == old(towers) && !haveValidSptData
          && !RoutesOpen(Faked(old(grid), c), cols, rows)
      ensures r.Ok? ==>
          && money == old(money) - Towers.Cost(kind) && old(nextGuid) in towers && nextGuid == old(nextGuid) + 1
          && TowerTaken(old(grid), grid, c, old(nextGuid))
          && haveValidSptData && RoutesOpen(grid, cols, rows)
          && RoutesOpen(Faked(old(grid), c), cols, rows)
      ensures r.Ok? ==> fresh(spt) && FakedBoard(spt.board, old(grid), c, cols, rows)
    {
      var e := EnsureSptData();
      if e.Err? {
        return Err(SptFailed(e.error));
      }
      if !haveValidSptData {
        return Err(InvalidWorld);
      }
      r := TryBuild(c, kind, settingUp, flying);
    }

    /** The second half of `buildTower`, on a world with valid path data
        and a clear footprint it can pay for. */
    method TryBuild(c: Cell, kind: TowerType, settingUp: bool, flying: set<nat>) returns (r: Result<(), WorldError>)
      requires Valid() && haveValidSptData && IMax <= cols && JMax <= rows
      requires FootprintOnGrid(grid, c) && ClearToBuildTower(grid, c) && Towers.Cost(kind) <= money
      modifies this
      ensures r.Ok? || r == Err(Blocking) || r == Err(SptFailed(NoReachableNodes))
      ensures r == Err(SptFailed(NoReachableNodes)) ==> grid == Faked(old(grid), c)
      ensures !r.Err? || !r.error.SptFailed? ==> Valid()
      ensures r == Err(Blocking) ==> Blocked(old(Model()), Model(), c)
      ensures r.Ok? ==> Built(old(Model()), Model(), c, kind)
      ensures r.Ok? ==> fresh(spt) && FakedBoard(spt.board, old(grid), c, cols, rows)
    {
      ClearIsFree(Model(), c);
      ghost var w0 := Model();
      ghost var keep := SptRepr();
      var t := TryTower(c, keep);
      if t.Err? {
        return Err(SptFailed(t.error));
      }
      StaleValid(keep);
      r := Decide(c, kind, settingUp, flying, t.value, w0);
    }

    /** The end of `buildTower` once the speculative tree has run on the
        world `w0` with the footprint faked: a valid tree commits the tower,
        an invalid one refuses it as blocking. */
    method Decide(c: Cell, kind: TowerType, settingUp: bool, flying: set<nat>, tree: ShortestPathTree, ghost w0: WorldState)
      returns (r: Result<(), WorldError>)
      requires Valid() && IMax <= cols && JMax <= rows && Model() == w0.(haveValidSptData := false)
      requires FootprintOnGrid(grid, c) && ClearToBuildTower(grid, c) && Towers.Cost(kind) <= money
      requires tree.Valid() && tree.complete && FakedBoard(tree.board, grid, c, cols, rows)
      modifies this
      ensures Valid() && (r.Ok? || r == Err(Blocking))
      ensures r == Err(Blocking) ==> Blocked(w0, Model(), c)
      ensures r.Ok? ==> Built(w0, Model(), c, kind)
      ensures r.Ok? ==> spt == tree
    {
      var valid := JudgeTrial(tree, grid, c, cols, rows);
      if !valid {
        return Err(Blocking);
      }
      var _ := CommitTower(c, kind, settingUp, flying, tree);
      w0.StalePlace(grid, towers[w0.nextGuid], Towers.Cost(kind));
      r := Ok(());
    }

    /** The sanity check at the head of `buildTower`: without valid path
        data the tree is set up and run.  Nothing but the tree and the
        routes changes, and afterwards the world holds valid path data
        exactly when no creep and no entrance is cut off from the exits. */
    method EnsureSptData() returns (r: Result<(), SptError>)
      requires Valid()
      modifies this, SptRepr()
      ensures Valid()
      ensures Model() == old(Model()).(spt := spt, routes := routes, haveValidSptData := haveValidSptData)
      ensures old(haveValidSptData) ==> r.Ok? && haveValidSptData
      ensures r.Err? ==> r.error == NoReachableNodes && !haveValidSptData
      ensures r.Ok? ==> (haveValidSptData <==> AllRoutesOpen(BoardOf(grid, cols, rows)))
    {
      r := Ok(());
      if haveValidSptData {
        ValidRoutes();
        return;
      }
      SetupSpt();
      r := RunSpt();
    }

    /** The end of a `buildTower` whose speculative tree is valid: the tower
        is made on the footprint, the tree becomes the world's, and its
        routes are promoted, so the world holds valid path data for the
        grid with the tower. */
    method CommitTower(c: Cell, kind: TowerType, settingUp: bool, flying: set<nat>, tree: ShortestPathTree)
      returns (tw: Tower)
      requires Model().Inv() && !haveValidSptData && IMax <= cols && JMax <= rows
      requires FootprintOnGrid(grid, c) && ClearToBuildTower(grid, c) && Towers.Cost(kind) <= money
      requires tree.Valid() && tree.complete && tree.Model().IsValid()
      requires tree.board == BoardOf(Faked(grid, c), cols, rows)
      modifies this
      ensures Valid() && haveValidSptData && spt == tree && RoutesOpen(grid, cols, rows)
      ensures fresh(tw) && tw.kind == kind && tw.i == c.i && tw.j == c.j && tw.guid == old(nextGuid)
      ensures Model() == old(Model()).PlaceTower(grid, tw, Towers.Cost(kind))
                           .(spt := tree, routes := routes, haveValidSptData := true)
      ensures TowerTaken(old(grid), grid, c, old(nextGuid))
    {
      tw := MakeTowerAtNode(c, kind, settingUp, flying);
      TakenLikeFake(old(grid), grid, c, old(nextGuid), cols, rows);
      AdoptTree(tree);
    }

    /** `this.spt = spt`, `promoteSptState` and the flag: a complete,
        valid tree for a board equivalent to the grid becomes the world's
        and its routes are promoted. */
    method AdoptTree(tree: ShortestPathTree)
      requires Model().Inv() && !haveValidSptData
      requires tree.Valid() && tree.complete && tree.Model().IsValid()
      requires Equivalent(tree.board, BoardOf(grid, cols, rows))
      modifies this
      ensures Valid() && haveValidSptData && spt == tree && RoutesOpen(grid, cols, rows)
      ensures Model() == old(Model()).(spt := tree, routes := routes, haveValidSptData := true)
    {
      spt := tree;
      CompleteTreeOk();
      AdoptRoutes();
      ValidRoutes();
    }

    /** The speculative run of `buildTower`: the footprint is faked, a new
        tree takes the grid so changed, and the footprint is unfaked again,
        leaving the grid as it was and the path data stale.  The tree holds
        its own copy of the board, so it is run here after the unfaking;
        when that run fails the footprint is faked again, which leaves the
        world as `buildTower` leaves it when the error propagates.  Objects
        in `keep` (the current tree) are not touched. */
    method TryTower(c: Cell, ghost keep: set<object>) returns (r: Result<ShortestPathTree, SptError>)
      requires this !in keep
      requires Rect(grid, cols, rows) && FootprintOnGrid(grid, c) && ClearToBuildTower(grid, c)
      requires forall d :: d in Footprint(c.i, c.j) ==> grid[d.i][d.j].objGuid.None?
      modifies this
      ensures r.Ok? ==> Model() == old(Model()).(haveValidSptData := false)
      ensures r.Ok? ==> fresh(r.value) && fresh(r.value.reachableSet) && r.value.Valid() && r.value.complete
      ensures r.Ok? ==> FakedBoard(r.value.board, old(grid), c, cols, rows)
      ensures r.Err? ==> Model() == old(Model()).(grid := Faked(old(grid), c), haveValidSptData := false)
      ensures r.Err? ==> r.error == NoReachableNodes
      ensures unchanged(keep)
    {
      ghost var g0 := grid;
      FakeTowerAtNode(c);
      var b := BoardOf(grid, cols, rows);
      FakeThenUnfake(g0, c);
      UnfakeTowerAtNode(c);
      r := RunTrial(b);
      if r.Err? {
        FakeTowerAtNode(c);
      }
    }

    /** `makeTowerAtNode` with `Tower.newInstance`, which assert that the
        footprint is clear and the money suffices: the tower takes the
        footprint under the next guid and registers with the cells in its
        range, its cost is paid, it is recorded, and the path data is stale. */
    method MakeTowerAtNode(c: Cell, kind: TowerType, settingUp: bool, flying: set<nat>) returns (tw: Tower)
      requires Model().Inv() && IMax <= cols && JMax <= rows
      requires FootprintOnGrid(grid, c) && ClearToBuildTower(grid, c) && Towers.Cost(kind) <= money
      modifies this
      ensures fresh(tw) && Model().Inv()
      ensures Model() == old(Model()).PlaceTower(grid, tw, Towers.Cost(kind))
      ensures TowerTaken(old(grid), grid, c, old(nextGuid))
      ensures tw.kind == kind && tw.i == c.i && tw.j == c.j && tw.guid == old(nextGuid)
    {
      var w';
      tw, w' := PlaceNewTower(Model(), c, kind, settingUp, flying);
      RecordTower(w'.grid, tw, Towers.Cost(kind));
    }

    /** The field writes of `makeTowerAtNode` once the tower stands. */
    method RecordTower(g': Grid, tw: Tower, cost: nat)
      modifies this
      ensures Model() == old(Model()).PlaceTower(g', tw, cost)
    {
      grid := g';
      money := money - cost;
      towers := towers[nextGuid := tw];
      haveValidSptData := false;
      nextGuid := nextGuid + 1;
    }
  }

  /** `spt.isValid()` on the speculative tree of `buildTower`: it is valid
      exactly when the grid with the footprint faked leaves every creep and
      every entrance a way out. */
  method JudgeTrial(tree: ShortestPathTree, g: Grid, c: Cell, cols: nat, rows: nat) returns (valid: bool)
    requires Rect(g, cols, rows) && tree.Valid() && tree.complete
    requires tree.board == BoardOf(Faked(g, c), cols, rows)
    ensures valid == tree.Model().IsValid()
    ensures valid <==> RoutesOpen(Faked(g, c), cols, rows)
  {
    tree.ValidListed();
    valid := tree.IsValid();
    if valid {
      ValidTreeRoutes(tree.Model(), tree.board);
    } else {
      InvalidTreeBlocks(tree.Model());
    }
  }

  /** `new ShortestPathTree(world)` and `run` on a board: a fresh tree,
      complete on that board, or the tree's error, 'No reachable nodes'. */
  method RunTrial(b: Board) returns (r: Result<ShortestPathTree, SptError>)
    requires b.WellFormed()
    ensures r.Ok? ==> fresh(r.value) && fresh(r.value.reachableSet) && r.value.Valid()
    ensures r.Ok? ==> r.value.complete && r.value.board == b
    ensures r.Err? ==> r.error == NoReachableNodes
  {
    var tree := new ShortestPathTree(b);
    SptProofs.RunSpec(tree.Model());
    var e := tree.Run();
    if e.Err? {
      return Err(e.error);
    }
    r := Ok(tree);
  }

  /** `makeTowerAtNode` on world values: on a footprint the world finds
      clear and a purse that covers the cost, the new tower takes its cells,
      is recorded under the next guid and paid for, and the world's
      invariant holds after. */
  method PlaceNewTower(w: WorldState, c: Cell, kind: TowerType, settingUp: bool, flying: set<nat>)
    returns (tw: Tower, w': WorldState)
    requires w.Inv() && IMax <= w.cols && JMax <= w.rows
    requires FootprintOnGrid(w.grid, c) && ClearToBuildTower(w.grid, c) && Towers.Cost(kind) <= w.money
    ensures fresh(tw) && w'.Inv()
    ensures w' == w.PlaceTower(w'.grid, tw, Towers.Cost(kind))
    ensures TowerTaken(w.grid, w'.grid, c, w.nextGuid)
    ensures tw.kind == kind && tw.i == c.i && tw.j == c.j && tw.guid == w.nextGuid
  {
    ClearIsFree(w, c);
    TowerFits(w, c, kind, settingUp);
    var g';
    tw, g' := RaiseTower(w.grid, c, kind, w.nextGuid, settingUp, flying);
    PlaceTowerKeeps(w, c, g', tw, Towers.Cost(kind));
    w' := w.PlaceTower(g', tw, Towers.Cost(kind));
  }

  /** `Tower.newInstance` and `init` on a free footprint: a fresh tower
      whose cells are taken in the returned grid, registered with the cells
      in its range and aimed at one of the creeps it found there. */
  method RaiseTower(g: Grid, c: Cell, kind: TowerType, guid: nat, settingUp: bool, flying: set<nat>)
    returns (tw: Tower, g': Grid)
    requires FootprintFree(g, c.i, c.j) && NewTower(kind, c.i, c.j, guid).Building(settingUp).CanExpand(g)
    ensures fresh(tw) && tw.cost == Towers.Cost(kind)
    ensures tw.kind == kind && tw.i == c.i && tw.j == c.j && tw.guid == guid
    ensures TowerTaken(g, g', c, guid)
    ensures Retargeted(NewTower(kind, c.i, c.j, guid).Building(settingUp)
                         .ExpandRange(WithTower(g, c.i, c.j, guid), flying).0, tw.Model())
  {
    tw := new Tower(c.i, c.j, kind, guid);
    TableValues();
    g' := tw.Init(g, settingUp, flying);
    InitTakes(g, c, guid, NewTower(kind, c.i, c.j, guid).Building(settingUp), flying);
  }

  /** `makeGrid`. */
  method MakeGrid(cols: nat, rows: nat) returns (g: Grid)
    ensures g == Blank(cols, rows)
  {
    g := [];
    for i := 0 to cols
      invariant g == Blank(i, rows)
    {
      var column: seq<Node> := [];
      for j := 0 to rows
        invariant column == seq(j, _ => GridNodes.Fresh)
      {
        column := column + [GridNodes.Fresh];
      }
      g := g + [column];
    }
  }
}
