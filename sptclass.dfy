/**
 * The `ShortestPathTree` object of game/shortestpathtree.js as the source
 * writes it: a grid of per-cell states and a priority queue that its
 * methods update in place.  Each method is proved against the value model
 * of `SptModel` (`Tree.AddToTree`, `Tree.Step`, `Init`, `Run`,
 * `Tree.IsValid`), about which `SptProofs` proves what the computation
 * guarantees.
 */
module ShortestPathTrees {
  import opened Wrappers
  import opened States
  import opened PriorityQueue
  import opened SptModel
  import opened SptProofs

  class ShortestPathTree {
    /** The playing field, with its width and height (`world_`, `cols_`, `rows_`). */
    const board: Board
    var grid: seq<seq<SptState>>
    const reachableSet: HeapPriorityQueue<Cell>
    var populatedNodes: seq<Cell>
    var entranceNodes: seq<Cell>
    var setUp: bool
    var complete: bool

    /** The object's state as a value. */
    function Model(): Tree
      reads this, reachableSet
    {
      Tree(board, grid, reachableSet.Model(), populatedNodes, entranceNodes, setUp, complete)
    }

    /** Between calls the object keeps the invariant of `SptProofs`, its
        frontier cells all carry finite costs, and the queue's arrays hold
        exactly its entries. */
    ghost predicate Valid()
      reads this, reachableSet
    {
      Inv(Model()) && Model().FrontierFinite() && reachableSet.Sized()
    }

    /** The part of `Valid` that `isValid` relies on: every listed cell
        is on the board. */
    ghost predicate Listed()
      reads this, reachableSet
    {
      Model().Shaped() &&
      (forall c :: c in populatedNodes ==> board.Contains(c)) &&
      (forall c :: c in entranceNodes ==> board.Contains(c))
    }

    lemma ValidListed()
      requires Valid()
      ensures Listed()
    {
    }

    /** The constructor: seeds every cell from the board, lists the
        POPULATED and ENTRANCE cells, adds every exit to the tree and only
        then sets the computation up. */
    constructor(b: Board)
      requires b.WellFormed()
      ensures Init(b) == Ok(Model()) && Valid() && fresh(reachableSet)
    {
      board := b;
      complete := false;
      reachableSet := new HeapPriorityQueue<Cell>();
      var g, startingSptNodes, populated, entrances := SeedCells(b);
      grid := g;
      populatedNodes := populated;
      entranceNodes := entrances;
      setUp := false;
      new;
      ghost var t0 := Model();
      assert t0 == SeedTree(b);
      SeededCore(b);
      ExitsSeeded(b, startingSptNodes, g);
      AddExits(startingSptNodes);
      ghost var t1 := Model();
      setUp := true;
      assert Init(b) == Ok(t1.(setUp := true));
      InitKeeps(b);
      SoundFrontierFinite(Init(b).value);
    }

    /** The constructor's loop over the exits: `addToTree` on each in turn. */
    method AddExits(exits: seq<Cell>)
      requires reachableSet.Valid() && Core(Model(), Cells(exits)) && OnlySeedsDone(Model()) && !setUp
      requires forall c :: c in exits ==> board.Contains(c) && board.At(c) == EXIT
      modifies this, reachableSet
      ensures reachableSet.Valid() && Model().Shaped()
      ensures old(Model()).AddAll(exits) == Ok(Model())
    {
      for k := 0 to |exits|
        invariant reachableSet.Valid() && !setUp
        invariant Core(Model(), Cells(exits[k..])) && OnlySeedsDone(Model())
        invariant forall c :: c in exits[k..] ==> board.Contains(c) && board.At(c) == EXIT
        invariant Model().AddAll(exits[k..]) == old(Model()).AddAll(exits)
      {
        var rest := exits[k..];
        ghost var t' := AddAllStep(Model(), rest);
        assert rest[1..] == exits[k + 1..];
        var e := AddToTree(exits[k]);
        assert Model() == t';
      }
    }

    /** One pass of the inner loop of `addToTree`: the neighbour `n` of `x`
        gets the cost of a move from `x` if that is cheaper than what it
        has, enters the frontier if it was untouched, and has its queue
        entry lowered otherwise. */
    method RelaxNeighbour(x: Cell, n: Cell) returns (r: Result<(), SptError>)
      requires Model().Shaped() && reachableSet.Valid()
      requires board.Contains(x) && board.Contains(n) && Model().Get(x).cost.Fin?
      modifies this, reachableSet
      ensures reachableSet.Valid() && Model().Shaped()
      ensures r.Ok? ==> old(Model()).Relax(x, n) == Ok(Model())
      ensures r.Err? ==> old(Model()).Relax(x, n) == Err(r.error)
    {
      if n == x {
        return Ok(());
      }
      var neighbor := grid[n.i][n.j];
      if neighbor.state == DONE {
        return Ok(());
      }
      var dI := x.i - n.i;
      var dJ := x.j - n.j;
      var cost := grid[x.i][x.j].cost.r;
      var diagonal := dI != 0 && dJ != 0;
      if diagonal {
        if board.IsBlocked(Cell(x.i, n.j)) || board.IsBlocked(Cell(n.i, x.j)) {
          return Ok(());
        }
        cost := cost + Sqrt2;
      } else {
        cost := cost + 1.0;
      }
      var wasInit := neighbor.state == INIT;
      if wasInit || Above(neighbor.cost, cost) {
        grid := Update(grid, board.cols, board.rows, n, SptState(Some(dI), Some(dJ), Fin(cost), REACHABLE));
        if wasInit {
          reachableSet.Push(n, cost);
        } else {
          var e := reachableSet.Rehash(n, cost);
          if e.Err? {
            return Err(QueueError(e.error));
          }
        }
      }
      return Ok(());
    }

    /** The inner loop of `addToTree`: the neighbours of `x` in rows
        `jMin` .. `jMax` of column `i`. */
    method RelaxColumn(x: Cell, i: int, jMin: int, jMax: int) returns (r: Result<(), SptError>)
      requires Model().Shaped() && reachableSet.Valid()
      requires board.Contains(x) && Model().Get(x).cost.Fin?
      requires 0 <= i < board.cols && 0 <= jMin && jMax < board.rows
      modifies this, reachableSet
      ensures reachableSet.Valid() && Model().Shaped()
      ensures r.Ok? ==> old(Model()).RelaxColumn(x, i, jMin, jMax) == Ok(Model())
      ensures r.Err? ==> old(Model()).RelaxColumn(x, i, jMin, jMax) == Err(r.error)
    {
      var j := jMin;
      while j <= jMax
        invariant jMin <= j && (jMin <= jMax + 1 ==> j <= jMax + 1)
        invariant reachableSet.Valid() && Model().Shaped()
        invariant Model().Get(x) == old(Model()).Get(x)
        invariant old(Model()).RelaxColumn(x, i, jMin, jMax) == Model().RelaxColumn(x, i, j, jMax)
      {
        ghost var before := Model();
        var e := RelaxNeighbour(x, Cell(i, j));
        if e.Err? {
          assert before.RelaxColumn(x, i, j, jMax) == Err(e.error);
          return Err(e.error);
        }
        j := j + 1;
      }
      return Ok(());
    }

    /** `addToTree`: relaxes every neighbour of `x` in the box around it,
        marks `x` DONE, and completes a set-up computation whose frontier
        is empty. */
    method AddToTree(x: Cell) returns (r: Result<(), SptError>)
      requires Model().Shaped() && reachableSet.Valid()
      requires board.Contains(x) && Model().Get(x).cost.Fin?
      modifies this, reachableSet
      ensures reachableSet.Valid() && Model().Shaped()
      ensures r.Ok? ==> old(Model()).AddToTree(x) == Ok(Model())
      ensures r.Err? ==> old(Model()).AddToTree(x) == Err(r.error)
    {
      var iMin := Max(x.i - 1, 0);
      var jMin := Max(x.j - 1, 0);
      var iMax := Min(x.i + 1, board.cols - 1);
      var jMax := Min(x.j + 1, board.rows - 1);
      ghost var goal := old(Model()).RelaxColumns(x, iMin, iMax, jMin, jMax);
      AddToTreeScans(old(Model()), x, iMin, iMax, jMin, jMax);
      var i := iMin;
      while i <= iMax
        invariant iMin <= i <= iMax + 1
        invariant reachableSet.Valid() && Model().Shaped()
        invariant Model().Get(x) == old(Model()).Get(x)
        invariant Model().RelaxColumns(x, i, iMax, jMin, jMax) == goal
      {
        ghost var before := Model();
        var e := RelaxColumn(x, i, jMin, jMax);
        if e.Err? {
          assert before.RelaxColumns(x, i, iMax, jMin, jMax) == Err(e.error);
          return Err(e.error);
        }
        i := i + 1;
      }
      ghost var t1 := Model();
      assert t1.RelaxColumns(x, i, iMax, jMin, jMax) == Ok(t1);
      grid := Update(grid, board.cols, board.rows, x, grid[x.i][x.j].(state := DONE));
      var empty := reachableSet.Empty();
      assert empty <==> reachableSet.Model().Size() == 0 by {
        if reachableSet.Model().Size() > 0 {
          assert reachableSet.Model().Entries()[0] in multiset(reachableSet.Model().Entries());
        }
      }
      if setUp && empty {
        setUp := false;
        complete := true;
      }
      assert Model() == t1.Finish(x);
      return Ok(());
    }

    /** `step`: throws on an uninitialized computation, leaves a finished
        one alone, throws when the frontier is empty, and otherwise pops
        the cheapest frontier cell and adds it to the tree. */
    method Step() returns (r: Result<(), SptError>)
      requires Valid()
      modifies this, reachableSet
      ensures Valid()
      ensures r.Ok? ==> old(Model()).Step() == Ok(Model())
      ensures r.Err? ==> old(Model()).Step() == Err(r.error) && Model() == old(Model())
    {
      if !setUp {
        if !complete {
          return Err(NotInitialized);
        }
        return Ok(());
      }
      var empty := reachableSet.Empty();
      if empty {
        return Err(NoReachableNodes);
      }
      assert reachableSet.Model().Size() > 0;
      ghost var t' := StepKeeps(Model());
      var node := reachableSet.Pop();
      r := AddToTree(node.value);
      SoundFrontierFinite(Model());
    }

    /** `run`: throws on an uninitialized computation, leaves a finished
        one alone, and otherwise steps until the computation is complete. */
    method Run() returns (r: Result<(), SptError>)
      requires Valid()
      modifies this, reachableSet
      ensures Valid()
      ensures r.Ok? ==> SptProofs.Run(old(Model())) == Ok(Model())
      ensures r.Err? ==> SptProofs.Run(old(Model())) == Err(r.error)
      ensures r.Err? && old(Model()).setUp ==> Model().setUp && Model().reachable.Size() == 0
    {
      if !setUp {
        if !complete {
          return Err(NotInitialized);
        }
        return Ok(());
      }
      while !complete
        invariant Valid()
        invariant SptProofs.Run(Model()) == SptProofs.Run(old(Model()))
        decreases NotDone(Model())
      {
        ghost var before := Model();
        if before.reachable.Size() > 0 {
          StepShrinks(before);
        }
        var e := Step();
        if e.Err? {
          return Err(e.error);
        }
      }
      return Ok(());
    }

    /** `isValid`: the computation is complete and every POPULATED cell
        and every entrance is in the tree. */
    method IsValid() returns (valid: bool)
      requires Listed()
      ensures valid == Model().IsValid()
    {
      if !complete {
        return false;
      }
      for k := 0 to |populatedNodes|
        invariant Model().AllDone(populatedNodes[..k])
      {
        var node := populatedNodes[k];
        assert node in populatedNodes;
        if grid[node.i][node.j].state != DONE {
          return false;
        }
      }
      assert populatedNodes[..|populatedNodes|] == populatedNodes;
      for k := 0 to |entranceNodes|
        invariant Model().AllDone(entranceNodes[..k])
      {
        var node := entranceNodes[k];
        assert node in entranceNodes;
        if grid[node.i][node.j].state != DONE {
          return false;
        }
      }
      assert entranceNodes[..|entranceNodes|] == entranceNodes;
      return true;
    }
  }

  /** The constructor's loops over the board: every cell seeded, and the
      exits, POPULATED cells and entrances listed column by column. */
  method SeedCells(b: Board) returns (g: seq<seq<SptState>>, exits: seq<Cell>, populated: seq<Cell>, entrances: seq<Cell>)
    requires b.WellFormed()
    ensures g == SeedGrid(b)
    ensures exits == Scan(b, EXIT, b.cols)
    ensures populated == Scan(b, POPULATED, b.cols)
    ensures entrances == Scan(b, ENTRANCE, b.cols)
  {
    exits, populated, entrances, g := [], [], [], [];
    ghost var seeds := SeedGrid(b);
    for i := 0 to b.cols
      invariant g == seeds[..i]
      invariant exits == Scan(b, EXIT, i)
      invariant populated == Scan(b, POPULATED, i)
      invariant entrances == Scan(b, ENTRANCE, i)
    {
      var column;
      column, exits, populated, entrances := SeedColumn(b, i, exits, populated, entrances);
      PrefixSnoc(seeds, i);
      g := g + [column];
    }
    PrefixAll(seeds);
  }

  /** The inner loop of the constructor: column `i` seeded, and its
      exits, POPULATED cells and entrances appended to the lists. */
  method SeedColumn(b: Board, i: nat, exits0: seq<Cell>, populated0: seq<Cell>, entrances0: seq<Cell>)
    returns (column: seq<SptState>, exits: seq<Cell>, populated: seq<Cell>, entrances: seq<Cell>)
    requires b.WellFormed() && i < b.cols
    ensures column == SeedGrid(b)[i]
    ensures exits == exits0 + ColumnScan(b, EXIT, i, b.rows)
    ensures populated == populated0 + ColumnScan(b, POPULATED, i, b.rows)
    ensures entrances == entrances0 + ColumnScan(b, ENTRANCE, i, b.rows)
  {
    column, exits, populated, entrances := [], exits0, populated0, entrances0;
    ghost var seeds := SeedGrid(b)[i];
    for j := 0 to b.rows
      invariant column == seeds[..j]
      invariant exits == exits0 + ColumnScan(b, EXIT, i, j)
      invariant populated == populated0 + ColumnScan(b, POPULATED, i, j)
      invariant entrances == entrances0 + ColumnScan(b, ENTRANCE, i, j)
    {
      ColumnScanNext(b, EXIT, i, j, exits0);
      ColumnScanNext(b, POPULATED, i, j, populated0);
      ColumnScanNext(b, ENTRANCE, i, j, entrances0);
      var sptNode;
      sptNode, exits, populated, entrances := SeedCell(b, Cell(i, j), exits, populated, entrances);
      PrefixSnoc(seeds, j);
      column := column + [sptNode];
    }
    PrefixAll(seeds);
  }

  /** The body of the constructor's inner loop: the seed of cell `c`, and
      `c` appended to the list of its kind when it is an exit, POPULATED
      or an entrance. */
  method SeedCell(b: Board, c: Cell, exits0: seq<Cell>, populated0: seq<Cell>, entrances0: seq<Cell>)
    returns (sptNode: SptState, exits: seq<Cell>, populated: seq<Cell>, entrances: seq<Cell>)
    ensures sptNode == Seed(b.At(c))
    ensures exits == exits0 + if b.At(c) == EXIT then [c] else []
    ensures populated == populated0 + if b.At(c) == POPULATED then [c] else []
    ensures entrances == entrances0 + if b.At(c) == ENTRANCE then [c] else []
  {
    exits, populated, entrances := exits0, populated0, entrances0;
    var state := b.At(c);
    var isExit := state == EXIT;
    sptNode := if isExit then SptState(Some(0), Some(0), Fin(0.0), DONE) else SptState(None, None, Inf, INIT);
    if isExit {
      exits := exits + [c];
    } else if state == POPULATED {
      populated := populated + [c];
    } else if state == ENTRANCE {
      entrances := entrances + [c];
    }
    if IsABlockedState(state) {
      sptNode := SptState(Some(0), Some(0), Inf, DONE);
    }
  }

  /** One more row of a column scan, after the cells already listed. */
  lemma ColumnScanNext(b: Board, s: CellState, i: int, j: nat, xs: seq<Cell>)
    ensures xs + ColumnScan(b, s, i, j + 1) ==
      (xs + ColumnScan(b, s, i, j)) + if b.At(Cell(i, j)) == s then [Cell(i, j)] else []
  {
  }

  lemma PrefixSnoc<T>(s: seq<T>, i: nat)
    requires i < |s|
    ensures s[..i + 1] == s[..i] + [s[i]]
  {
  }

  lemma PrefixAll<T>(s: seq<T>)
    ensures s[..|s|] == s
  {
  }
}
