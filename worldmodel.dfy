/**
 * The board logic of game/world.js as values: the legal creep area, the
 * cursor clamp, the 2x2 footprint check, the speculative blocking of a
 * footprint, the board a shortest-path tree is computed on, the copy of a
 * finished tree into the grid, and the wall/entrance/exit layout of `init`.
 *
 * The grid is a `seq` of columns of `Node` values (game/gridnode.js); the
 * fields a `GridNode` gets from `promoteSptState` are kept beside it as a
 * grid of `Route`s.
 */
module WorldModel {
  import opened Wrappers
  import opened States
  import opened GridNodes
  import opened SptModel
  import opened Towers

  // The cursor constants of game/constants.js.
  const CursorMinIOffset: int := 2
  const CursorMaxIOffset: int := 2
  const CursorMinJOffset: int := 1
  const CursorMaxJOffset: int := 1
  const CursorScale: int := 2

  /** The occupant id `fakeTowerAtNode` writes (the string 'FAKE' in the
      source); the ids the world hands out start at 1. */
  const FakeGuid: nat := 0

  /** The errors `buildTower` throws: the three user errors and the
      invalid-world error, and an error of the tree's own `run`. */
  datatype WorldError =
    | CantBuildThere     // "Can't build there."
    | CantAfford         // "You can't afford it."
    | InvalidWorld       // 'The state of the world is invalid for SPT purposes.'
    | Blocking           // 'Blocking'
    | SptFailed(e: SptError)

  /** The fields `promoteSptState` copies into a `GridNode`; a node that
      was never promoted has none of them. */
  datatype Route = Unset | Route(sptCost: Cost, dI: Option<int>, dJ: Option<int>)

  // ---------------------------------------------------------------------
  // The legal area and the cursor
  // ---------------------------------------------------------------------

  /** `isLegalCreepLocation`: inside the walls, whatever stands there. */
  predicate IsLegalCreepLocation(cols: int, rows: int, i: int, j: int) {
    && CursorMinIOffset <= i < cols - CursorMaxIOffset
    && CursorMinJOffset <= j < rows - CursorMaxJOffset
  }

  /** `cursorMaxI` and `cursorMaxJ` of the World constructor. */
  function CursorMaxI(cols: int): int { cols - CursorMaxIOffset - CursorScale }
  function CursorMaxJ(rows: int): int { rows - CursorMaxJOffset - CursorScale }

  /** `Math.max(lo, Math.min(hi, x))`. */
  function Clamp(lo: int, hi: int, x: int): (r: int)
    ensures lo <= hi ==> lo <= r <= hi
    ensures lo <= x <= hi ==> r == x
    ensures x < lo ==> r == lo
    ensures lo <= hi < x ==> r == hi
  {
    Max(lo, Min(hi, x))
  }

  /** Where `handleMotion` moves the cursor from (ci, cj) when asked to
      move by (di, dj). */
  function Motion(cols: int, rows: int, ci: int, cj: int, di: int, dj: int): Cell {
    Cell(Clamp(CursorMinIOffset, CursorMaxI(cols), ci + di), Clamp(CursorMinJOffset, CursorMaxJ(rows), cj + dj))
  }

  /** The cursor stays in columns 2 .. cols-4 and rows 1 .. rows-3, where
      all four cells under it are legal creep locations; a move that stays
      inside is made exactly; and a clamped cursor that is not moved stays. */
  lemma MotionSpec(cols: int, rows: int, ci: int, cj: int, di: int, dj: int)
    requires cols >= 6 && rows >= 4
    ensures var c := Motion(cols, rows, ci, cj, di, dj);
      && 2 <= c.i <= cols - 4 && 1 <= c.j <= rows - 3
      && (forall d :: d in Footprint(c.i, c.j) ==> IsLegalCreepLocation(cols, rows, d.i, d.j))
      && Motion(cols, rows, c.i, c.j, 0, 0) == c
    ensures 2 <= ci + di <= cols - 4 && 1 <= cj + dj <= rows - 3 ==>
      Motion(cols, rows, ci, cj, di, dj) == Cell(ci + di, cj + dj)
  {
  }

  // ---------------------------------------------------------------------
  // Footprints
  // ---------------------------------------------------------------------

  type Grid = seq<seq<Node>>

  /** The four cells of a footprint whose lower-left cell is `c` are on
      the grid. */
  predicate FootprintOnGrid(g: Grid, c: Cell) {
    0 <= c.i && c.i + 1 < |g| && 0 <= c.j && c.j + 1 < |g[c.i]| && c.j + 1 < |g[c.i + 1]|
  }

  /** `clearToBuildTower`: all four cells are OPEN. */
  predicate ClearToBuildTower(g: Grid, c: Cell)
    requires FootprintOnGrid(g, c)
  {
    && g[c.i][c.j].state == OPEN && g[c.i][c.j + 1].state == OPEN
    && g[c.i + 1][c.j].state == OPEN && g[c.i + 1][c.j + 1].state == OPEN
  }

  lemma ClearIff(g: Grid, c: Cell)
    requires FootprintOnGrid(g, c)
    ensures ClearToBuildTower(g, c) <==> forall d :: d in Footprint(c.i, c.j) ==> OnGrid(g, d) && g[d.i][d.j].state == OPEN
  {
    if ClearToBuildTower(g, c) {
      forall d | d in Footprint(c.i, c.j) ensures OnGrid(g, d) && g[d.i][d.j].state == OPEN {
      }
    } else {
      assert Cell(c.i, c.j) in Footprint(c.i, c.j) && Cell(c.i, c.j + 1) in Footprint(c.i, c.j);
      assert Cell(c.i + 1, c.j) in Footprint(c.i, c.j) && Cell(c.i + 1, c.j + 1) in Footprint(c.i, c.j);
    }
  }

  /** The grid with every cell of the footprint at `c` rewritten by `f`. */
  function MapFootprint(g: Grid, c: Cell, f: Node -> Node): (r: Grid)
    ensures |r| == |g| && forall a :: 0 <= a < |g| ==> |r[a]| == |g[a]|
    ensures forall a, b :: 0 <= a < |g| && 0 <= b < |g[a]| ==>
      r[a][b] == if Cell(a, b) in Footprint(c.i, c.j) then f(g[a][b]) else g[a][b]
  {
    seq(|g|, a requires 0 <= a < |g| =>
      seq(|g[a]|, b requires 0 <= b < |g[a]| =>
        if Cell(a, b) in Footprint(c.i, c.j) then f(g[a][b]) else g[a][b]))
  }

  function Fake(n: Node): Node { n.(state := BLOCKED, objGuid := Some(FakeGuid)) }
  function Unfake(n: Node): Node { n.(state := OPEN, objGuid := None) }

  /** `fakeTowerAtNode`: the footprint BLOCKED, with the fake occupant. */
  function Faked(g: Grid, c: Cell): Grid {
    MapFootprint(g, c, Fake)
  }

  /** What `unfakeTowerAtNode` asserts: the footprint is faked. */
  predicate IsFaked(g: Grid, c: Cell) {
    forall d :: d in Footprint(c.i, c.j) ==> OnGrid(g, d) && g[d.i][d.j].state == BLOCKED && g[d.i][d.j].objGuid == Some(FakeGuid)
  }

  /** `unfakeTowerAtNode`: the footprint OPEN, with no occupant. */
  function Unfaked(g: Grid, c: Cell): Grid {
    MapFootprint(g, c, Unfake)
  }

  /** Faking a clear footprint whose cells hold no occupant and then
      unfaking it gives back the grid: the asserts of the unfake hold, and
      no cell, inside the footprint or out, is left changed. */
  lemma FakeThenUnfake(g: Grid, c: Cell)
    requires FootprintOnGrid(g, c) && ClearToBuildTower(g, c)
    requires forall d :: d in Footprint(c.i, c.j) ==> g[d.i][d.j].objGuid.None?
    ensures IsFaked(Faked(g, c), c)
    ensures Unfaked(Faked(g, c), c) == g
  {
    ClearIff(g, c);
    var g1 := Unfaked(Faked(g, c), c);
    forall a | 0 <= a < |g| ensures g1[a] == g[a] {
      forall b | 0 <= b < |g[a]| ensures g1[a][b] == g[a][b] {
        if Cell(a, b) in Footprint(c.i, c.j) {
          assert g[a][b].state == OPEN && g[a][b].objGuid.None?;
        }
      }
    }
  }

  // ---------------------------------------------------------------------
  // The board of a shortest-path tree
  // ---------------------------------------------------------------------

  /** The board a tree built on the world reads: the state of every cell. */
  function BoardOf(g: Grid, cols: nat, rows: nat): (b: Board)
    requires Rect(g, cols, rows)
    ensures b.WellFormed() && b.cols == cols && b.rows == rows
    ensures forall c :: b.Contains(c) ==> b.At(c) == g[c.i][c.j].state
  {
    Board(cols, rows, seq(cols, a requires 0 <= a < cols => seq(rows, b requires 0 <= b < rows => g[a][b].state)))
  }

  /** Two boards of the same size that agree on every cell, except that
      one may hold a wall where the other holds a tower. */
  ghost predicate Equivalent(b1: Board, b2: Board) {
    && b1.cols == b2.cols && b1.rows == b2.rows
    && forall c :: b1.Contains(c) ==> b1.At(c) == b2.At(c) || (IsABlockedState(b1.At(c)) && IsABlockedState(b2.At(c)))
  }

  /** On equivalent boards the same cells can reach an exit: a tree
      computed with a footprint faked as walls holds for the footprint
      taken by a tower. */
  lemma EquivalentReaches(b1: Board, b2: Board, c: Cell)
    requires Equivalent(b1, b2)
    ensures b1.ReachesExit(c) <==> b2.ReachesExit(c)
  {
    forall a, d ensures b1.Move(a, d) <==> b2.Move(a, d) {
      if b1.Move(a, d) || b2.Move(a, d) {
        assert b1.IsBlocked(Cell(a.i, d.j)) <==> b2.IsBlocked(Cell(a.i, d.j));
        assert b1.IsBlocked(Cell(d.i, a.j)) <==> b2.IsBlocked(Cell(d.i, a.j));
      }
    }
    if b1.ReachesExit(c) {
      var p :| b1.IsExitPath(p) && p[0] == c;
      assert b2.IsExitPath(p);
    }
    if b2.ReachesExit(c) {
      var p :| b2.IsExitPath(p) && p[0] == c;
      assert b1.IsExitPath(p);
    }
  }

  /** A grid whose footprint at `c` is taken by a tower and which is
      otherwise `g`, cell state by cell state, is equivalent, as a board,
      to `g` with the footprint faked. */
  lemma TowerLikeFake(g: Grid, g': Grid, c: Cell, cols: nat, rows: nat)
    requires Rect(g, cols, rows) && Rect(g', cols, rows)
    requires forall a, b :: 0 <= a < cols && 0 <= b < rows ==>
      g'[a][b].state == if Cell(a, b) in Footprint(c.i, c.j) then TOWER else g[a][b].state
    ensures Equivalent(BoardOf(Faked(g, c), cols, rows), BoardOf(g', cols, rows))
  {
  }

  // ---------------------------------------------------------------------
  // Promotion
  // ---------------------------------------------------------------------

  /** The cost and direction of a tree cell, as `promoteSptState` stores
      them in the grid. */
  function RouteOf(s: SptState): Route {
    Route(s.cost, s.dI, s.dJ)
  }

  /** The grid fields after `promoteSptState`: every cell's route is its
      tree cell's. */
  function Promoted(sg: seq<seq<SptState>>, cols: nat, rows: nat): (r: seq<seq<Route>>)
    requires Rect(sg, cols, rows)
    ensures Rect(r, cols, rows)
    ensures forall a, b :: 0 <= a < cols && 0 <= b < rows ==>
      r[a][b].Route? && r[a][b].sptCost == sg[a][b].cost && r[a][b].dI == sg[a][b].dI && r[a][b].dJ == sg[a][b].dJ
  {
    seq(cols, a requires 0 <= a < cols => seq(rows, b requires 0 <= b < rows => RouteOf(sg[a][b])))
  }

  // ---------------------------------------------------------------------
  // The layout of init
  // ---------------------------------------------------------------------

  /** The first and one-past-last rows of the entrances and exits:
      Math.floor(rows / 2 - 1) and Math.floor(rows / 2 + 1). */
  function GateLo(rows: nat): int { rows / 2 - 1 }
  function GateHi(rows: nat): int { rows / 2 + 1 }

  /** The state `init` leaves in cell (i, j): walls along the top and
      bottom rows and the two outer columns on each side, except in the
      gate rows, where the outermost columns hold the entrances (left)
      and exits (right) and the inner wall columns are open. */
  function Layout(cols: nat, rows: nat, i: int, j: int): CellState {
    if GateLo(rows) <= j < GateHi(rows) && i == 0 then ENTRANCE
    else if GateLo(rows) <= j < GateHi(rows) && i == cols - 1 then EXIT
    else if GateLo(rows) <= j < GateHi(rows) && (i == 1 || i == cols - 2) then OPEN
    else if j == 0 || j == rows - 1 || i == 0 || i == 1 || i == cols - 2 || i == cols - 1 then BLOCKED
    else OPEN
  }

  /** The layout of a board at least 6 wide and 4 high: two entrances and
      two exits, the playing field open, and every open cell of the field
      a legal creep location. */
  lemma LayoutSpec(cols: nat, rows: nat)
    requires cols >= 6 && rows >= 4
    ensures 1 <= GateLo(rows) && GateHi(rows) <= rows - 1 && GateHi(rows) - GateLo(rows) == 2
    ensures forall i, j :: 0 <= i < cols && 0 <= j < rows ==>
      (Layout(cols, rows, i, j) == ENTRANCE <==> i == 0 && GateLo(rows) <= j < GateHi(rows))
    ensures forall i, j :: 0 <= i < cols && 0 <= j < rows ==>
      (Layout(cols, rows, i, j) == EXIT <==> i == cols - 1 && GateLo(rows) <= j < GateHi(rows))
    ensures forall i, j :: IsLegalCreepLocation(cols, rows, i, j) ==> Layout(cols, rows, i, j) == OPEN
  {
  }
}
