/**
 * The value-level model of game/shortestpathtree.js: a multi-source Dijkstra
 * computation over the game board that finds, for every cell, a way to an
 * EXIT and its cost.
 *
 * Every EXIT cell is a root of cost 0, every BLOCKED or TOWER cell is final
 * from the start at cost +infinity, and a creep moves to any of its eight
 * neighbours: 1 for an orthogonal step, sqrt(2) for a diagonal one, and no
 * diagonal step past a blocked corner.  The frontier is the heap of
 * game/heappriorityqueue.js, holding the coordinates of the cells.
 *
 * A `Tree` is the whole state of one computation; `Init`, `AddToTree`,
 * `Step` and `Run` are the source's constructor and methods.  An exception
 * the source can throw is an `Err`.
 */
module SptModel {
  import opened Wrappers
  import opened States
  import opened PriorityQueue

  /** O3D_TD_SQRT_2, the double nearest to the square root of two, written
      out exactly. */
  const Sqrt2: real := 1.4142135623730951454746218587388284504413604736328125

  /** A path cost: a finite number or Number.POSITIVE_INFINITY. */
  datatype Cost = Fin(r: real) | Inf

  /** `a > b` on costs, infinity above every finite cost. */
  predicate Above(a: Cost, b: real) {
    a.Inf? || a.r > b
  }

  /** Math.max and Math.min on integers. */
  function Max(a: int, b: int): int { if a > b then a else b }
  function Min(a: int, b: int): int { if a < b then a else b }

  /** A board position: column i, row j. */
  datatype Cell = Cell(i: int, j: int)

  /** The price of one step between neighbouring cells. */
  function StepCost(diagonal: bool): real {
    if diagonal then Sqrt2 else 1.0
  }

  /** The board as the tree reads it: its size and every cell's state. */
  datatype Board = Board(cols: nat, rows: nat, states: seq<seq<CellState>>)
  {
    predicate WellFormed() {
      |states| == cols && forall i :: 0 <= i < cols ==> |states[i]| == rows
    }

    predicate Contains(c: Cell) {
      0 <= c.i < cols && 0 <= c.j < rows
    }

    /** The state of a cell (`getNode(i, j).state`); only ever read on the
        board, where it is the stored state. */
    function At(c: Cell): CellState {
      if 0 <= c.i < |states| && 0 <= c.j < |states[c.i]| then states[c.i][c.j] else BLOCKED
    }

    /** `World.prototype.isBlocked`. */
    predicate IsBlocked(c: Cell) {
      IsABlockedState(At(c))
    }

    /** A creep standing on `a` may step to `b`: they are distinct
        neighbours on the board, neither is blocked, and a diagonal step
        does not cut a blocked corner. */
    predicate Move(a: Cell, b: Cell) {
      && Contains(a) && Contains(b) && a != b
      && -1 <= a.i - b.i <= 1 && -1 <= a.j - b.j <= 1
      && !IsBlocked(a) && !IsBlocked(b)
      && (a.i != b.i && a.j != b.j ==> !IsBlocked(Cell(a.i, b.j)) && !IsBlocked(Cell(b.i, a.j)))
    }

    /** A walk of legal steps that ends on an EXIT. */
    ghost predicate IsExitPath(p: seq<Cell>) {
      && |p| > 0
      && Contains(p[|p| - 1]) && At(p[|p| - 1]) == EXIT
      && forall k :: 0 <= k < |p| - 1 ==> Move(p[k], p[k + 1])
    }

    /** A creep at `c` can walk off the board. */
    ghost predicate ReachesExit(c: Cell) {
      exists p :: IsExitPath(p) && p[0] == c
    }
  }

  /** Progress of one cell in the computation. */
  datatype TreeState = INIT | REACHABLE | DONE

  /** `SptState`, without its position (the index it is stored at) and its
      debug lines: the step (dI, dJ) towards the next cell of the way out
      (null while unknown), the cost of the way out and the progress. */
  datatype SptState = SptState(dI: Option<int>, dJ: Option<int>, cost: Cost, state: TreeState)

  /** The errors the computation throws. */
  datatype SptError =
    | NotInitialized       // 'The tree is neither initialized or complete!'
    | NoReachableNodes     // 'No reachable nodes, yet we're not complete!'
    | QueueError(e: HeapError)

  /** A grid with `cols` columns of `rows` entries each. */
  predicate Rect<T>(g: seq<seq<T>>, cols: nat, rows: nat) {
    |g| == cols && forall i :: 0 <= i < cols ==> |g[i]| == rows
  }

  /** The grid with the entry of cell `c` replaced by `v`. */
  function Update(g: seq<seq<SptState>>, cols: nat, rows: nat, c: Cell, v: SptState): (r: seq<seq<SptState>>)
    requires Rect(g, cols, rows) && 0 <= c.i < cols && 0 <= c.j < rows
    ensures Rect(r, cols, rows)
    ensures forall i, j :: 0 <= i < cols && 0 <= j < rows ==>
      r[i][j] == if i == c.i && j == c.j then v else g[i][j]
  {
    g[c.i := g[c.i][c.j := v]]
  }

  /** The state the constructor gives a cell of the board. */
  function Seed(s: CellState): SptState {
    if IsABlockedState(s) then SptState(Some(0), Some(0), Inf, DONE)
    else if s == EXIT then SptState(Some(0), Some(0), Fin(0.0), DONE)
    else SptState(None, None, Inf, INIT)
  }

  function SeedGrid(b: Board): (g: seq<seq<SptState>>)
    ensures Rect(g, b.cols, b.rows)
    ensures forall i, j :: 0 <= i < b.cols && 0 <= j < b.rows ==> g[i][j] == Seed(b.At(Cell(i, j)))
  {
    seq(b.cols, i requires 0 <= i < b.cols => seq(b.rows, j requires 0 <= j < b.rows => Seed(b.At(Cell(i, j)))))
  }

  /** The cells of state `s` in rows 0 .. j-1 of column i, in row order. */
  function ColumnScan(b: Board, s: CellState, i: int, j: nat): (r: seq<Cell>)
    ensures forall c :: c in r <==> c.i == i && 0 <= c.j < j && b.At(c) == s
  {
    if j == 0 then []
    else ColumnScan(b, s, i, j - 1) + (if b.At(Cell(i, j - 1)) == s then [Cell(i, j - 1)] else [])
  }

  /** The cells of state `s` in columns 0 .. i-1, in the constructor's
      column-by-column order. */
  function Scan(b: Board, s: CellState, i: nat): (r: seq<Cell>)
    ensures forall c :: c in r <==> 0 <= c.i < i && 0 <= c.j < b.rows && b.At(c) == s
  {
    if i == 0 then [] else Scan(b, s, i - 1) + ColumnScan(b, s, i - 1, b.rows)
  }

  lemma ExitsSeeded(b: Board, exits: seq<Cell>, g: seq<seq<SptState>>)
    requires b.WellFormed() && exits == Scan(b, EXIT, b.cols) && g == SeedGrid(b)
    ensures forall k :: 0 <= k < |exits| ==> b.Contains(exits[k]) && g[exits[k].i][exits[k].j] == Seed(EXIT)
  {
    forall k | 0 <= k < |exits| ensures b.Contains(exits[k]) && g[exits[k].i][exits[k].j] == Seed(EXIT) {
      assert exits[k] in exits;
    }
  }

  /** The whole state of a `ShortestPathTree`. */
  datatype Tree = Tree(
    board: Board,
    grid: seq<seq<SptState>>,
    reachable: Heap<Cell>,
    populated: seq<Cell>,
    entrances: seq<Cell>,
    setUp: bool,
    complete: bool)
  {
    predicate Shaped() {
      board.WellFormed() && Rect(grid, board.cols, board.rows) && reachable.WellFormed()
    }

    function Get(c: Cell): SptState
      requires Shaped() && board.Contains(c)
    {
      grid[c.i][c.j]
    }

    function Put(c: Cell, v: SptState): (t: Tree)
      requires Shaped() && board.Contains(c)
      ensures t.Shaped() && t == this.(grid := t.grid)
      ensures t.Get(c) == v
      ensures forall d :: board.Contains(d) && d != c ==> t.Get(d) == Get(d)
    {
      this.(grid := Update(grid, board.cols, board.rows, c, v))
    }

    /** The relaxation of neighbour `n` by the cell `x` being added to the
        tree (the body of the inner loop of `addToTree`). */
    function Relax(x: Cell, n: Cell): (r: Result<Tree, SptError>)
      requires Shaped() && board.Contains(x) && board.Contains(n) && Get(x).cost.Fin?
      ensures r.Ok? ==> r.value.Shaped() && r.value.board == board
      ensures r.Ok? ==> forall c :: board.Contains(c) && c != n ==> r.value.Get(c) == Get(c)
      ensures r.Ok? ==> Get(n).state == DONE ==> r.value.Get(n) == Get(n)
      ensures r.Ok? ==> r.value.populated == populated && r.value.entrances == entrances
      ensures r.Ok? ==> r.value.setUp == setUp && r.value.complete == complete
    {
      if n == x then Ok(this)
      else
        var neighbor := Get(n);
        if neighbor.state == DONE then Ok(this)
        else
          var dI := x.i - n.i;
          var dJ := x.j - n.j;
          var diagonal := dI != 0 && dJ != 0;
          if diagonal && (board.IsBlocked(Cell(x.i, n.j)) || board.IsBlocked(Cell(n.i, x.j))) then Ok(this)
          else
            var cost := Get(x).cost.r + StepCost(diagonal);
            var wasInit := neighbor.state == INIT;
            if wasInit || Above(neighbor.cost, cost) then
              var t := Put(n, SptState(Some(dI), Some(dJ), Fin(cost), REACHABLE));
              if wasInit then Ok(t.(reachable := reachable.Push(n, cost)))
              else
                match reachable.Rehash(n, cost)
                case Ok(h) => Ok(t.(reachable := h))
                case Err(e) => Err(QueueError(e))
            else Ok(this)
    }

    /** The inner loop of `addToTree`: rows j .. jMax of column i. */
    function RelaxColumn(x: Cell, i: int, j: int, jMax: int): (r: Result<Tree, SptError>)
      requires Shaped() && board.Contains(x) && Get(x).cost.Fin?
      requires 0 <= i < board.cols && 0 <= j && jMax < board.rows
      ensures r.Ok? ==> r.value.Shaped() && r.value.board == board && r.value.Get(x) == Get(x)
      ensures r.Ok? ==> forall c :: board.Contains(c) && Get(c).state == DONE ==> r.value.Get(c) == Get(c)
      ensures r.Ok? ==> r.value.populated == populated && r.value.entrances == entrances
      ensures r.Ok? ==> r.value.setUp == setUp && r.value.complete == complete
      decreases jMax - j
    {
      if j > jMax then Ok(this)
      else
        match Relax(x, Cell(i, j))
        case Err(e) => Err(e)
        case Ok(t) =>
          t.RelaxColumn(x, i, j + 1, jMax)
    }

    /** The outer loop of `addToTree`: columns i .. iMax. */
    function RelaxColumns(x: Cell, i: int, iMax: int, jMin: int, jMax: int): (r: Result<Tree, SptError>)
      requires Shaped() && board.Contains(x) && Get(x).cost.Fin?
      requires 0 <= i && iMax < board.cols && 0 <= jMin && jMax < board.rows
      ensures r.Ok? ==> r.value.Shaped() && r.value.board == board && r.value.Get(x) == Get(x)
      ensures r.Ok? ==> forall c :: board.Contains(c) && Get(c).state == DONE ==> r.value.Get(c) == Get(c)
      ensures r.Ok? ==> r.value.populated == populated && r.value.entrances == entrances
      ensures r.Ok? ==> r.value.setUp == setUp && r.value.complete == complete
      decreases iMax - i
    {
      if i > iMax then Ok(this)
      else
        match RelaxColumn(x, i, jMin, jMax)
        case Err(e) => Err(e)
        case Ok(t) => t.RelaxColumns(x, i + 1, iMax, jMin, jMax)
    }

    /** The end of `addToTree`: `x` is DONE, and a set-up computation whose
        frontier is empty is complete. */
    function Finish(x: Cell): (r: Tree)
      requires Shaped() && board.Contains(x)
      ensures r.Shaped() && r.board == board && r.reachable == reachable
      ensures r.populated == populated && r.entrances == entrances
      ensures r.Get(x) == Get(x).(state := DONE)
      ensures forall d :: board.Contains(d) && d != x ==> r.Get(d) == Get(d)
      ensures r.complete <==> complete || (setUp && reachable.Size() == 0)
      ensures r.setUp <==> setUp && reachable.Size() != 0
    {
      var t := Put(x, Get(x).(state := DONE));
      if t.setUp && t.reachable.Size() == 0 then t.(setUp := false, complete := true) else t
    }

    /** `addToTree`: relaxes the up to eight neighbours of `x`, marks `x`
        DONE, and completes the computation once it is set up and the
        frontier is empty. */
    function AddToTree(x: Cell): (r: Result<Tree, SptError>)
      requires Shaped() && board.Contains(x) && Get(x).cost.Fin?
      ensures r.Ok? ==> r.value.Shaped() && r.value.board == board
      ensures r.Ok? ==> r.value.Get(x) == Get(x).(state := DONE)
      ensures r.Ok? ==> forall c :: board.Contains(c) && c != x && Get(c).state == DONE ==> r.value.Get(c) == Get(c)
      ensures r.Ok? ==> r.value.populated == populated && r.value.entrances == entrances
      ensures r.Ok? && !setUp ==> !r.value.setUp && r.value.complete == complete
    {
      match RelaxColumns(x, Max(x.i - 1, 0), Min(x.i + 1, board.cols - 1), Max(x.j - 1, 0), Min(x.j + 1, board.rows - 1))
      case Err(e) => Err(e)
      case Ok(t) => Ok(t.Finish(x))
    }

    /** Every cell in the frontier is on the board and has a finite cost. */
    ghost predicate FrontierFinite()
      requires Shaped()
    {
      forall c :: c in reachable.elts ==> board.Contains(c) && Get(c).cost.Fin?
    }

    /** The constructor's loop over the exits: `addToTree` on each in turn. */
    function AddAll(xs: seq<Cell>): (r: Result<Tree, SptError>)
      requires Shaped()
      requires forall k :: 0 <= k < |xs| ==> board.Contains(xs[k]) && Get(xs[k]).state == DONE && Get(xs[k]).cost.Fin?
      ensures r.Ok? ==> r.value.Shaped() && r.value.board == board
      ensures r.Ok? ==> r.value.populated == populated && r.value.entrances == entrances
      ensures r.Ok? && !setUp ==> !r.value.setUp && r.value.complete == complete
      decreases |xs|
    {
      if xs == [] then Ok(this)
      else
        match AddToTree(xs[0])
        case Err(e) => Err(e)
        case Ok(t) => t.AddAll(xs[1..])
    }

    /** `step`: a finished computation is left alone, an uninitialized one
        throws, and otherwise the cheapest frontier cell is added to the tree. */
    function Step(): (r: Result<Tree, SptError>)
      requires Shaped() && FrontierFinite()
      ensures r.Ok? ==> r.value.Shaped() && r.value.board == board
    {
      if !setUp then
        if !complete then Err(NotInitialized) else Ok(this)
      else if reachable.Size() == 0 then Err(NoReachableNodes)
      else
        var x := reachable.elts[0];
        this.(reachable := reachable.Pop().value.1).AddToTree(x)
    }

    /** Every listed cell is on the board and DONE. */
    predicate AllDone(cs: seq<Cell>)
      requires Shaped()
    {
      forall k :: 0 <= k < |cs| ==> board.Contains(cs[k]) && Get(cs[k]).state == DONE
    }

    /** `isValid`: the computation finished and reached every cell that held
        creeps, and every entrance. */
    predicate IsValid()
      requires Shaped()
    {
      complete && AllDone(populated) && AllDone(entrances)
    }
  }

  /** The `ShortestPathTree` constructor: every cell seeded, the POPULATED
      and ENTRANCE cells listed, and every EXIT added to the tree.  The
      computation is set up only at the very end, so adding the exits never
      completes it. */
  /** The constructor's tree before the exits are added: every cell
      seeded, the lists filled, the frontier empty, neither flag set. */
  function SeedTree(b: Board): Tree
    requires b.WellFormed()
  {
    Tree(b, SeedGrid(b), Heap([], []), Scan(b, POPULATED, b.cols), Scan(b, ENTRANCE, b.cols), false, false)
  }

  function Init(b: Board): (r: Result<Tree, SptError>)
    requires b.WellFormed()
    ensures r.Ok? ==> r.value.Shaped() && r.value.board == b && r.value.setUp && !r.value.complete
    ensures r.Ok? ==> r.value.populated == Scan(b, POPULATED, b.cols) && r.value.entrances == Scan(b, ENTRANCE, b.cols)
  {
    var t := SeedTree(b);
    var exits := Scan(b, EXIT, b.cols);
    ExitsSeeded(b, exits, SeedGrid(b));
    match t.AddAll(exits)
    case Err(e) => Err(e)
    case Ok(t') => Ok(t'.(setUp := true))
  }
}
