/**
 * The invariant of the shortest-path tree computation and what it gives:
 * when the computation completes, a passable cell is DONE exactly when a
 * creep standing on it can walk to an EXIT, so `isValid` holds exactly when
 * every entrance and every creep-filled cell has a way out.
 *
 * The frontier heap does not always hold a cell's current cost (a
 * decrease-key that does not move the cell keeps the old, higher key), so
 * nothing here claims that the costs are the shortest ones; what is proved
 * is that every cost is the cost of an actual way out, and that the cells
 * next to an exit get the exact cost of the one step.
 */
module SptProofs {
  import opened Wrappers
  import opened States
  import opened PriorityQueue
  import opened SptModel

  // ---------------------------------------------------------------------
  // Ways out
  // ---------------------------------------------------------------------

  lemma ExitReachesExit(b: Board, e: Cell)
    requires b.Contains(e) && b.At(e) == EXIT
    ensures b.ReachesExit(e)
  {
    assert b.IsExitPath([e]);
  }

  /** A creep one legal step away from a cell with a way out has one too. */
  lemma StepTowardExit(b: Board, n: Cell, x: Cell)
    requires b.Move(n, x) && b.ReachesExit(x)
    ensures b.ReachesExit(n)
  {
    var p :| b.IsExitPath(p) && p[0] == x;
    var q := [n] + p;
    forall k | 0 <= k < |q| - 1 ensures b.Move(q[k], q[k + 1]) {
      if k > 0 {
        assert q[k] == p[k - 1] && q[k + 1] == p[k];
      }
    }
    assert b.IsExitPath(q);
  }

  // ---------------------------------------------------------------------
  // The frontier
  // ---------------------------------------------------------------------

  lemma EntryOfIndex<T>(h: Heap<T>, k: nat)
    requires h.WellFormed() && k < h.Size()
    ensures (h.elts[k], h.costs[k]) in multiset(h.Entries())
  {
    assert h.Entries()[k] == (h.elts[k], h.costs[k]);
  }

  lemma EntryInElts<T>(h: Heap<T>, e: (T, real))
    requires h.WellFormed() && e in multiset(h.Entries())
    ensures e.0 in h.elts
  {
    assert e in h.Entries();
    var k :| 0 <= k < |h.Entries()| && h.Entries()[k] == e;
    assert h.elts[k] == e.0;
  }

  // ---------------------------------------------------------------------
  // The invariant, piece by piece
  // ---------------------------------------------------------------------

  /** Walls, towers and exits keep their seeds; an INIT cell is untouched. */
  ghost predicate Seeded(t: Tree)
    requires t.Shaped()
  {
    forall c :: t.board.Contains(c) ==>
      && (t.board.IsBlocked(c) ==> t.Get(c) == Seed(BLOCKED))
      && (t.board.At(c) == EXIT ==> t.Get(c) == Seed(EXIT))
      && (t.Get(c).state == INIT ==> t.Get(c) == Seed(OPEN))
  }

  /** The frontier is a heap of distinct REACHABLE cells, each keyed at
      least at its current cost. */
  ghost predicate HeapSound(t: Tree)
    requires t.Shaped()
  {
    && IsHeap(t.reachable.costs)
    && (forall c :: multiset(t.reachable.elts)[c] <= 1)
    && (forall e | e in multiset(t.reachable.Entries()) ::
          t.board.Contains(e.0) && t.Get(e.0).state == REACHABLE &&
          t.Get(e.0).cost.Fin? && t.Get(e.0).cost.r <= e.1)
  }

  /** Every REACHABLE cell outside `skip` is in the frontier. */
  ghost predicate HeapComplete(t: Tree, skip: set<Cell>)
    requires t.Shaped()
  {
    forall c :: t.board.Contains(c) && t.Get(c).state == REACHABLE && c !in skip ==> c in t.reachable.elts
  }

  /** Cell `c` points, by a legal step, at a DONE cell (or at a cell of
      `cur`, being added to the tree), and its cost is that cell's cost
      plus the step. */
  ghost predicate Parented(t: Tree, c: Cell, cur: set<Cell>)
    requires t.Shaped() && t.board.Contains(c)
  {
    var s := t.Get(c);
    && s.dI.Some? && s.dJ.Some?
    && var p := Cell(c.i + s.dI.value, c.j + s.dJ.value);
    && t.board.Move(c, p)
    && (t.Get(p).state == DONE || p in cur)
    && s.cost.Fin? && t.Get(p).cost.Fin?
    && s.cost.r == t.Get(p).cost.r + StepCost(s.dI.value != 0 && s.dJ.value != 0)
  }

  ghost predicate AllParented(t: Tree, cur: set<Cell>)
    requires t.Shaped()
  {
    forall c {:trigger Parented(t, c, cur)} :: t.board.Contains(c) && !t.board.IsBlocked(c) && t.board.At(c) != EXIT && t.Get(c).state != INIT ==>
      Parented(t, c, cur)
  }

  ghost predicate NonNegative(t: Tree)
    requires t.Shaped()
  {
    forall c :: t.board.Contains(c) && t.Get(c).cost.Fin? ==> t.Get(c).cost.r >= 0.0
  }

  /** Every passable DONE cell outside `pending` has been expanded: no cell
      a legal step away from it is still INIT. */
  ghost predicate Closed(t: Tree, pending: set<Cell>)
    requires t.Shaped()
  {
    forall y, n ::
      (t.board.Contains(y) && t.Get(y).state == DONE && !t.board.IsBlocked(y) && y !in pending && t.board.Move(n, y))
      ==> t.Get(n).state != INIT
  }

  /** Every cell one legal step from an exit outside `pending` costs at
      most that step. */
  ghost predicate ExitBound(t: Tree, pending: set<Cell>)
    requires t.Shaped()
  {
    forall e, n ::
      (t.board.Contains(e) && t.board.At(e) == EXIT && e !in pending && t.board.Move(n, e) && t.board.At(n) != EXIT)
      ==> t.Get(n).cost.Fin? && t.Get(n).cost.r <= StepCost(n.i != e.i && n.j != e.j)
  }

  /** Only walls, towers and exits are DONE (true until the first step). */
  ghost predicate OnlySeedsDone(t: Tree)
    requires t.Shaped()
  {
    forall c :: t.board.Contains(c) && t.Get(c).state == DONE ==> t.board.IsBlocked(c) || t.board.At(c) == EXIT
  }

  /** The invariant between calls, the exits of `pending` not yet added. */
  ghost predicate Core(t: Tree, pending: set<Cell>) {
    && t.Shaped() && Seeded(t) && HeapSound(t) && HeapComplete(t, {}) && AllParented(t, {})
    && NonNegative(t) && Closed(t, pending) && ExitBound(t, pending)
  }

  /** The state while `x` is being added to the tree. */
  ghost predicate Relaxing(t: Tree, x: Cell, pending: set<Cell>) {
    && t.Shaped() && t.board.Contains(x) && !t.board.IsBlocked(x) && t.Get(x).state != INIT
    && t.Get(x).cost.Fin? && x !in t.reachable.elts
    && Seeded(t) && HeapSound(t) && HeapComplete(t, {x}) && AllParented(t, {x})
    && NonNegative(t) && Closed(t, pending + {x}) && ExitBound(t, pending + {x})
  }

  /** Cells only move forward: INIT to REACHABLE to DONE, costs only drop,
      and a DONE cell is frozen. */
  ghost predicate Progress(t: Tree, t': Tree)
    requires t.Shaped() && t'.Shaped() && t'.board == t.board
  {
    forall c :: t.board.Contains(c) ==>
      && (t.Get(c).state != INIT ==> t'.Get(c).state != INIT)
      && (t.Get(c).cost.Fin? ==> t'.Get(c).cost.Fin? && t'.Get(c).cost.r <= t.Get(c).cost.r)
      && (t.Get(c).state == DONE ==> t'.Get(c) == t.Get(c))
  }

  lemma ProgressTrans(t: Tree, t': Tree, t'': Tree)
    requires t.Shaped() && t'.Shaped() && t''.Shaped() && t'.board == t.board && t''.board == t.board
    requires Progress(t, t') && Progress(t', t'')
    ensures Progress(t, t'')
  {
  }

  // ---------------------------------------------------------------------
  // One relaxation
  // ---------------------------------------------------------------------

  /** What a relaxation that changes something does to the grid: `n`, a
      legal step from `x` and not DONE, gets the cost through `x` (lower
      than before unless it was INIT) and points at `x`; nothing else
      changes. */
  ghost predicate GridUpdatedBy(t: Tree, t': Tree, x: Cell, n: Cell)
    requires t.Shaped() && t.board.Contains(x) && t.Get(x).cost.Fin?
  {
    && t'.Shaped() && t'.board == t.board && t'.populated == t.populated && t'.entrances == t.entrances
    && t'.setUp == t.setUp && t'.complete == t.complete
    && t.board.Move(n, x) && t.Get(n).state != DONE
    && var cost := t.Get(x).cost.r + StepCost(n.i != x.i && n.j != x.j);
    && (t.Get(n).state == INIT || Above(t.Get(n).cost, cost))
    && t'.Get(n) == SptState(Some(x.i - n.i), Some(x.j - n.j), Fin(cost), REACHABLE)
    && (forall c :: t.board.Contains(c) && c != n ==> t'.Get(c) == t.Get(c))
  }

  /** What it does to the frontier: an INIT `n` is pushed at `cost`, a
      REACHABLE one keeps its place in the multiset and gets a key of at
      least `cost`. */
  ghost predicate QueueUpdatedBy(h: Heap<Cell>, h': Heap<Cell>, n: Cell, wasInit: bool, cost: real)
    requires h.WellFormed() && h'.WellFormed()
  {
    && IsHeap(h'.costs)
    && (wasInit ==>
          && multiset(h'.Entries()) == multiset(h.Entries()) + multiset{(n, cost)}
          && multiset(h'.elts) == multiset(h.elts) + multiset{n})
    && (!wasInit ==>
          && multiset(h'.elts) == multiset(h.elts)
          && forall e | e in multiset(h'.Entries()) :: e in multiset(h.Entries()) || (e.0 == n && e.1 >= cost))
  }

  ghost predicate UpdatedBy(t: Tree, t': Tree, x: Cell, n: Cell)
    requires t.Shaped() && t.board.Contains(x) && t.Get(x).cost.Fin?
  {
    && GridUpdatedBy(t, t', x, n)
    && QueueUpdatedBy(t.reachable, t'.reachable, n, t.Get(n).state == INIT,
                      t.Get(x).cost.r + StepCost(n.i != x.i && n.j != x.j))
  }

  lemma GridUpdate(t: Tree, x: Cell, n: Cell, cost: real, h: Heap<Cell>)
    requires t.Shaped() && t.board.Contains(x) && t.board.Contains(n) && t.Get(x).cost.Fin?
    requires t.board.Move(n, x) && t.Get(n).state != DONE && h.WellFormed()
    requires cost == t.Get(x).cost.r + StepCost(n.i != x.i && n.j != x.j)
    requires t.Get(n).state == INIT || Above(t.Get(n).cost, cost)
    ensures GridUpdatedBy(t, t.Put(n, SptState(Some(x.i - n.i), Some(x.j - n.j), Fin(cost), REACHABLE))
                             .(reachable := h), x, n)
  {
  }

  lemma PushUpdate(h: Heap<Cell>, n: Cell, cost: real)
    requires h.WellFormed() && IsHeap(h.costs)
    ensures h.Push(n, cost).WellFormed() && QueueUpdatedBy(h, h.Push(n, cost), n, true, cost)
  {
    PushSpec(h, n, cost);
  }

  lemma RehashUpdate(h: Heap<Cell>, n: Cell, cost: real)
    requires h.WellFormed() && IsHeap(h.costs) && n in h.elts
    requires forall e | e in multiset(h.Entries()) && e.0 == n :: e.1 > cost
    ensures h.Rehash(n, cost).Ok?
    ensures h.Rehash(n, cost).value.WellFormed() && QueueUpdatedBy(h, h.Rehash(n, cost).value, n, false, cost)
  {
    var index := IndexOf(h.elts, n, 0);
    EntryOfIndex(h, index);
    RehashSpec(h, n, cost);
  }

  /** The neighbour frontier cell's keys are above a cost below its own. */
  lemma KeysAbove(t: Tree, n: Cell, cost: real)
    requires t.Shaped() && t.board.Contains(n) && HeapSound(t) && n in t.reachable.elts
    requires Above(t.Get(n).cost, cost)
    ensures forall e | e in multiset(t.reachable.Entries()) && e.0 == n :: e.1 > cost
  {
  }

  /** What `Relax` does when it updates `n`. */
  lemma RelaxUnfold(t: Tree, x: Cell, n: Cell)
    requires t.Shaped() && t.board.Contains(x) && t.board.Contains(n) && t.Get(x).cost.Fin?
    requires t.board.Move(n, x) && t.Get(n).state != DONE
    requires var cost := t.Get(x).cost.r + StepCost(n.i != x.i && n.j != x.j);
      t.Get(n).state == INIT || Above(t.Get(n).cost, cost)
    ensures var cost := t.Get(x).cost.r + StepCost(n.i != x.i && n.j != x.j);
      var t1 := t.Put(n, SptState(Some(x.i - n.i), Some(x.j - n.j), Fin(cost), REACHABLE));
      t.Relax(x, n) ==
        if t.Get(n).state == INIT then Ok(t1.(reachable := t.reachable.Push(n, cost)))
        else match t.reachable.Rehash(n, cost)
          case Ok(h) => Ok(t1.(reachable := h))
          case Err(e) => Err(QueueError(e))
  {
  }

  /** Relax in the case where it updates `n`. */
  lemma RelaxUpdates(t: Tree, x: Cell, n: Cell)
    requires t.Shaped() && t.board.Contains(x) && t.board.Contains(n) && t.Get(x).cost.Fin?
    requires HeapSound(t) && HeapComplete(t, {x})
    requires t.board.Move(n, x) && t.Get(n).state != DONE
    requires var cost := t.Get(x).cost.r + StepCost(n.i != x.i && n.j != x.j);
      t.Get(n).state == INIT || Above(t.Get(n).cost, cost)
    ensures t.Relax(x, n).Ok? && UpdatedBy(t, t.Relax(x, n).value, x, n)
  {
    var cost := t.Get(x).cost.r + StepCost(n.i != x.i && n.j != x.j);
    if t.Get(n).state != INIT {
      assert n in t.reachable.elts;
      KeysAbove(t, n, cost);
    }
    RelaxUpdatesQueue(t, x, n, cost);
  }

  /** `RelaxUpdates` given only what it needs of the frontier: a heap, and
      a REACHABLE `n` stored in it at keys above the new cost. */
  lemma RelaxUpdatesQueue(t: Tree, x: Cell, n: Cell, cost: real)
    requires t.Shaped() && t.board.Contains(x) && t.board.Contains(n) && t.Get(x).cost.Fin?
    requires IsHeap(t.reachable.costs)
    requires t.board.Move(n, x) && t.Get(n).state != DONE
    requires cost == t.Get(x).cost.r + StepCost(n.i != x.i && n.j != x.j)
    requires t.Get(n).state == INIT || Above(t.Get(n).cost, cost)
    requires t.Get(n).state != INIT ==>
      n in t.reachable.elts && (forall e | e in multiset(t.reachable.Entries()) && e.0 == n :: e.1 > cost)
    ensures t.Relax(x, n).Ok? && UpdatedBy(t, t.Relax(x, n).value, x, n)
  {
    RelaxUnfold(t, x, n);
    if t.Get(n).state == INIT {
      PushUpdate(t.reachable, n, cost);
      GridUpdate(t, x, n, cost, t.reachable.Push(n, cost));
    } else {
      RehashUpdate(t.reachable, n, cost);
      GridUpdate(t, x, n, cost, t.reachable.Rehash(n, cost).value);
    }
  }

  /** Relaxing `n` through `x` improves it: a legal step into a cell not
      yet DONE that is INIT or costs more than the route through `x`. */
  ghost predicate Improves(t: Tree, x: Cell, n: Cell)
    requires t.Shaped() && t.board.Contains(x) && t.Get(x).cost.Fin?
  {
    && t.board.Move(n, x) && t.Get(n).state != DONE
    && (t.Get(n).state == INIT || Above(t.Get(n).cost, t.Get(x).cost.r + StepCost(n.i != x.i && n.j != x.j)))
  }

  /** A relaxation never fails while the invariant holds; it is an update
      exactly when it improves `n`, and otherwise changes nothing. */
  lemma RelaxCases(t: Tree, x: Cell, n: Cell)
    requires t.Shaped() && t.board.Contains(x) && t.board.Contains(n) && t.Get(x).cost.Fin?
    requires !t.board.IsBlocked(x) && -1 <= n.i - x.i <= 1 && -1 <= n.j - x.j <= 1
    requires Seeded(t) && HeapSound(t) && HeapComplete(t, {x})
    ensures t.Relax(x, n).Ok?
    ensures Improves(t, x, n) ==> UpdatedBy(t, t.Relax(x, n).value, x, n)
    ensures !Improves(t, x, n) ==> t.Relax(x, n).value == t
  {
    if n == x || t.Get(n).state == DONE {
      assert t.Relax(x, n) == Ok(t);
    } else {
      var diagonal := x.i - n.i != 0 && x.j - n.j != 0;
      if diagonal && (t.board.IsBlocked(Cell(x.i, n.j)) || t.board.IsBlocked(Cell(n.i, x.j))) {
        assert !t.board.Move(n, x);
        assert t.Relax(x, n) == Ok(t);
      } else {
        var cost := t.Get(x).cost.r + StepCost(diagonal);
        assert !t.board.IsBlocked(n);
        assert t.board.Move(n, x);
        if t.Get(n).state == INIT || Above(t.Get(n).cost, cost) {
          RelaxUpdates(t, x, n);
        } else {
          assert t.Relax(x, n) == Ok(t);
        }
      }
    }
  }

  // ---------------------------------------------------------------------
  // An update keeps each piece of the invariant
  // ---------------------------------------------------------------------

  lemma UpdateSeeded(t: Tree, t': Tree, x: Cell, n: Cell)
    requires t.Shaped() && t.board.Contains(x) && t.Get(x).cost.Fin?
    requires UpdatedBy(t, t', x, n) && Seeded(t)
    ensures Seeded(t')
  {
  }

  lemma UpdateHeapSound(t: Tree, t': Tree, x: Cell, n: Cell)
    requires t.Shaped() && t.board.Contains(x) && t.Get(x).cost.Fin?
    requires UpdatedBy(t, t', x, n) && HeapSound(t)
    ensures HeapSound(t')
  {
    if t.Get(n).state == INIT {
      PushedHeapSound(t, t', x, n);
    } else {
      RekeyedHeapSound(t, t', x, n);
    }
  }

  lemma PushedHeapSound(t: Tree, t': Tree, x: Cell, n: Cell)
    requires t.Shaped() && t.board.Contains(x) && t.Get(x).cost.Fin?
    requires UpdatedBy(t, t', x, n) && HeapSound(t) && t.Get(n).state == INIT
    ensures HeapSound(t')
  {
    var cost := t.Get(x).cost.r + StepCost(n.i != x.i && n.j != x.j);
    if n in t.reachable.elts {
      EntryOfIndex(t.reachable, IndexOf(t.reachable.elts, n, 0));
    }
    assert n !in t.reachable.elts;
    assert multiset(t.reachable.elts)[n] == 0;
    forall c ensures multiset(t'.reachable.elts)[c] <= 1 {
    }
    forall e | e in multiset(t'.reachable.Entries())
      ensures t'.board.Contains(e.0) && t'.Get(e.0).state == REACHABLE &&
              t'.Get(e.0).cost.Fin? && t'.Get(e.0).cost.r <= e.1
    {
      if e != (n, cost) {
        assert e in multiset(t.reachable.Entries());
        EntryInElts(t.reachable, e);
        assert e.0 != n;
      }
    }
  }

  lemma RekeyedHeapSound(t: Tree, t': Tree, x: Cell, n: Cell)
    requires t.Shaped() && t.board.Contains(x) && t.Get(x).cost.Fin?
    requires UpdatedBy(t, t', x, n) && HeapSound(t) && t.Get(n).state != INIT
    ensures HeapSound(t')
  {
    var cost := t.Get(x).cost.r + StepCost(n.i != x.i && n.j != x.j);
    assert t.Get(n).state == REACHABLE;
    forall e | e in multiset(t'.reachable.Entries())
      ensures t'.board.Contains(e.0) && t'.Get(e.0).state == REACHABLE &&
              t'.Get(e.0).cost.Fin? && t'.Get(e.0).cost.r <= e.1
    {
      if e.0 != n {
        assert e in multiset(t.reachable.Entries());
      }
    }
  }

  lemma UpdateHeapComplete(t: Tree, t': Tree, x: Cell, n: Cell)
    requires t.Shaped() && t.board.Contains(x) && t.Get(x).cost.Fin?
    requires UpdatedBy(t, t', x, n) && HeapComplete(t, {x})
    ensures HeapComplete(t', {x})
  {
    forall c | t'.board.Contains(c) && t'.Get(c).state == REACHABLE && c !in {x}
      ensures c in t'.reachable.elts
    {
      assert c in multiset(t'.reachable.elts);
    }
  }

  /** `Parented` only looks at the cell and the cell it points at. */
  lemma ParentedFrame(t: Tree, t': Tree, c: Cell, cur: set<Cell>)
    requires t.Shaped() && t'.Shaped() && t'.board == t.board && t.board.Contains(c)
    requires Parented(t, c, cur) && t'.Get(c) == t.Get(c)
    requires var s := t.Get(c); var p := Cell(c.i + s.dI.value, c.j + s.dJ.value); t'.Get(p) == t.Get(p)
    ensures Parented(t', c, cur)
  {
  }

  lemma UpdateParented(t: Tree, t': Tree, x: Cell, n: Cell)
    requires t.Shaped() && t.board.Contains(x) && t.Get(x).cost.Fin?
    requires UpdatedBy(t, t', x, n) && AllParented(t, {x})
    ensures AllParented(t', {x})
  {
    assert GridUpdatedBy(t, t', x, n);
    forall c | t'.board.Contains(c) && !t'.board.IsBlocked(c) && t'.board.At(c) != EXIT && t'.Get(c).state != INIT
      ensures Parented(t', c, {x})
    {
      if c == n {
        assert Cell(c.i + (x.i - n.i), c.j + (x.j - n.j)) == x;
        assert t'.Get(x) == t.Get(x);
      } else {
        assert t'.Get(c) == t.Get(c);
        assert Parented(t, c, {x});
        var s := t.Get(c);
        var p := Cell(c.i + s.dI.value, c.j + s.dJ.value);
        assert p != n;
        ParentedFrame(t, t', c, {x});
      }
    }
  }

  lemma UpdateNonNegative(t: Tree, t': Tree, x: Cell, n: Cell)
    requires t.Shaped() && t.board.Contains(x) && t.Get(x).cost.Fin?
    requires UpdatedBy(t, t', x, n) && NonNegative(t)
    ensures NonNegative(t')
  {
  }

  lemma UpdateClosed(t: Tree, t': Tree, x: Cell, n: Cell, pending: set<Cell>)
    requires t.Shaped() && t.board.Contains(x) && t.Get(x).cost.Fin?
    requires UpdatedBy(t, t', x, n) && Closed(t, pending)
    ensures Closed(t', pending)
  {
  }

  lemma UpdateExitBound(t: Tree, t': Tree, x: Cell, n: Cell, pending: set<Cell>)
    requires t.Shaped() && t.board.Contains(x) && t.Get(x).cost.Fin?
    requires UpdatedBy(t, t', x, n) && ExitBound(t, pending) && Seeded(t)
    ensures ExitBound(t', pending)
  {
  }

  lemma UpdateProgress(t: Tree, t': Tree, x: Cell, n: Cell)
    requires t.Shaped() && t.board.Contains(x) && t.Get(x).cost.Fin?
    requires UpdatedBy(t, t', x, n) && AllParented(t, {x}) && Seeded(t)
    ensures Progress(t, t')
  {
    if t.Get(n).state != INIT {
      assert Parented(t, n, {x});
    }
  }

  lemma UpdateOnlySeedsDone(t: Tree, t': Tree, x: Cell, n: Cell)
    requires t.Shaped() && t.board.Contains(x) && t.Get(x).cost.Fin?
    requires UpdatedBy(t, t', x, n) && OnlySeedsDone(t)
    ensures OnlySeedsDone(t')
  {
  }

  // ---------------------------------------------------------------------
  // Adding a cell to the tree
  // ---------------------------------------------------------------------

  /** Cell `n` lies in the 3x3 box `addToTree` scans around `x`. */
  predicate Around(x: Cell, n: Cell) {
    -1 <= n.i - x.i <= 1 && -1 <= n.j - x.j <= 1
  }

  /** The cost bound an exit gives its neighbour `n` once expanded. */
  ghost predicate ExitStepBound(t: Tree, x: Cell, n: Cell)
    requires t.Shaped()
  {
    t.board.Move(n, x) && t.board.At(n) != EXIT ==>
      t.Get(n).cost.Fin? && t.Get(n).cost.r <= StepCost(n.i != x.i && n.j != x.j)
  }

  lemma ProgressRefl(t: Tree)
    requires t.Shaped()
    ensures Progress(t, t)
  {
  }

  /** An update leaves `x` itself, and its absence from the frontier, alone. */
  lemma UpdateKeepsX(t: Tree, t': Tree, x: Cell, n: Cell)
    requires t.Shaped() && t.board.Contains(x) && t.Get(x).cost.Fin? && t.Get(x).state != INIT
    requires x !in t.reachable.elts && UpdatedBy(t, t', x, n)
    ensures t'.Shaped() && t'.board == t.board && t'.Get(x) == t.Get(x) && x !in t'.reachable.elts
  {
    assert n != x;
    if t.Get(n).state == INIT {
      assert multiset(t'.reachable.elts)[x] == multiset(t.reachable.elts)[x];
    } else {
      assert multiset(t'.reachable.elts) == multiset(t.reachable.elts);
      assert x !in multiset(t.reachable.elts);
    }
  }

  lemma UpdateRelaxing(t: Tree, t': Tree, x: Cell, n: Cell, pending: set<Cell>)
    requires Relaxing(t, x, pending) && UpdatedBy(t, t', x, n)
    ensures Relaxing(t', x, pending) && Progress(t, t')
    ensures OnlySeedsDone(t) ==> OnlySeedsDone(t')
  {
    UpdateKeepsX(t, t', x, n);
    UpdateSeeded(t, t', x, n);
    UpdateHeapSound(t, t', x, n);
    UpdateHeapComplete(t, t', x, n);
    UpdateParented(t, t', x, n);
    UpdateNonNegative(t, t', x, n);
    UpdateClosed(t, t', x, n, pending + {x});
    UpdateExitBound(t, t', x, n, pending + {x});
    UpdateProgress(t, t', x, n);
    if OnlySeedsDone(t) {
      UpdateOnlySeedsDone(t, t', x, n);
    }
  }

  /** What the scan around `x` leaves behind at `n`: not INIT if it is a
      legal step away, and, when `x` is a freshly seeded exit, no dearer
      than that step. */
  ghost predicate Relaxed(t: Tree, x: Cell, n: Cell, seeds: bool)
    requires t.Shaped()
  {
    && (t.board.Move(n, x) ==> t.Get(n).state != INIT)
    && (seeds ==> ExitStepBound(t, x, n))
  }

  lemma RelaxKeeps(t: Tree, x: Cell, n: Cell, pending: set<Cell>, seeds: bool) returns (t': Tree)
    requires Relaxing(t, x, pending) && t.board.Contains(n) && Around(x, n)
    requires seeds ==> OnlySeedsDone(t) && t.Get(x).cost == Fin(0.0)
    ensures t.Relax(x, n) == Ok(t')
    ensures Relaxing(t', x, pending) && t'.board == t.board && Progress(t, t') && t'.Get(x) == t.Get(x)
    ensures seeds ==> OnlySeedsDone(t')
    ensures Relaxed(t', x, n, seeds)
  {
    RelaxCases(t, x, n);
    t' := t.Relax(x, n).value;
    if Improves(t, x, n) {
      UpdateRelaxing(t, t', x, n, pending);
    } else {
      ProgressRefl(t);
      if seeds && t.board.Move(n, x) && t.board.At(n) != EXIT {
        assert !t.board.IsBlocked(n);
        assert t.Get(n).state != DONE;
      }
    }
  }

  lemma RelaxedProgress(t: Tree, t': Tree, x: Cell, n: Cell, seeds: bool)
    requires t.Shaped() && t'.Shaped() && t'.board == t.board && Progress(t, t')
    requires t.board.Contains(n) && Relaxed(t, x, n, seeds)
    ensures Relaxed(t', x, n, seeds)
  {
  }

  // ---------------------------------------------------------------------
  // The two loops of `addToTree`
  // ---------------------------------------------------------------------

  /** Relaxing `n` by `x` in `s` succeeds, keeps `P`, leaves `x` alone,
      gives `n` the property `R` and keeps `R` wherever it held. */
  ghost predicate StepKept(P: Tree -> bool, R: (Tree, Cell) -> bool, s: Tree, x: Cell, n: Cell)
    requires s.Shaped() && s.board.Contains(x) && s.board.Contains(n) && s.Get(x).cost.Fin?
  {
    && s.Relax(x, n).Ok? && P(s.Relax(x, n).value)
    && s.Relax(x, n).value.Get(x) == s.Get(x)
    && R(s.Relax(x, n).value, n)
    && (forall m :: R(s, m) ==> R(s.Relax(x, n).value, m))
  }

  /** Every relaxation by `x` of a cell `n` of the box `[i0..i1] x [j0..j1]`
      is a `StepKept` one. */
  ghost predicate PreservedBy(P: Tree -> bool, R: (Tree, Cell) -> bool, b: Board, x: Cell, v: SptState,
                              i0: int, i1: int, j0: int, j1: int)
  {
    forall s: Tree, n: Cell {:trigger s.Relax(x, n)} {:trigger StepKept(P, R, s, x, n)} |
      && P(s) && s.Shaped() && s.board == b && b.Contains(x) && s.Get(x) == v && v.cost.Fin?
      && b.Contains(n) && i0 <= n.i <= i1 && j0 <= n.j <= j1
      :: StepKept(P, R, s, x, n)
  }

  /** The inner loop keeps whatever one relaxation keeps. */
  lemma {:induction false} ColumnPreserves(P: Tree -> bool, R: (Tree, Cell) -> bool, t: Tree, x: Cell,
                                           i: int, j: int, jMax: int) returns (t': Tree)
    requires t.Shaped() && t.board.Contains(x) && t.Get(x).cost.Fin?
    requires 0 <= i < t.board.cols && 0 <= j && jMax < t.board.rows
    requires P(t) && PreservedBy(P, R, t.board, x, t.Get(x), i, i, j, jMax)
    ensures t.RelaxColumn(x, i, j, jMax) == Ok(t')
    ensures P(t') && t'.Get(x) == t.Get(x)
    decreases jMax - j
  {
    if j <= jMax {
      var t1 := t.Relax(x, Cell(i, j)).value;
      t' := ColumnPreserves(P, R, t1, x, i, j + 1, jMax);
    } else {
      t' := t;
    }
  }

  /** ... and leaves every cell of its column with `R`, keeping `R` where
      it held. */
  lemma {:induction false} ColumnCovers(P: Tree -> bool, R: (Tree, Cell) -> bool, t: Tree, x: Cell,
                                        i: int, j: int, jMax: int, t': Tree)
    requires t.Shaped() && t.board.Contains(x) && t.Get(x).cost.Fin?
    requires 0 <= i < t.board.cols && 0 <= j && jMax < t.board.rows
    requires P(t) && PreservedBy(P, R, t.board, x, t.Get(x), i, i, j, jMax)
    requires t.RelaxColumn(x, i, j, jMax) == Ok(t')
    ensures forall m :: R(t, m) ==> R(t', m)
    ensures forall n: Cell :: t.board.Contains(n) && n.i == i && j <= n.j <= jMax ==> R(t', n)
    decreases jMax - j
  {
    if j <= jMax {
      var t1 := t.Relax(x, Cell(i, j)).value;
      ColumnCovers(P, R, t1, x, i, j + 1, jMax, t');
    }
  }

  /** The outer loop keeps whatever one relaxation keeps, and leaves every
      cell of its box with `R`. */
  lemma {:induction false} ColumnsPreserve(P: Tree -> bool, R: (Tree, Cell) -> bool, t: Tree, x: Cell,
                                           i: int, iMax: int, jMin: int, jMax: int) returns (t': Tree)
    requires t.Shaped() && t.board.Contains(x) && t.Get(x).cost.Fin?
    requires 0 <= i && iMax < t.board.cols && 0 <= jMin && jMax < t.board.rows
    requires P(t) && PreservedBy(P, R, t.board, x, t.Get(x), i, iMax, jMin, jMax)
    ensures t.RelaxColumns(x, i, iMax, jMin, jMax) == Ok(t')
    ensures P(t') && t'.Get(x) == t.Get(x)
    ensures forall m :: R(t, m) ==> R(t', m)
    ensures forall n: Cell :: t.board.Contains(n) && i <= n.i <= iMax && jMin <= n.j <= jMax ==> R(t', n)
    decreases iMax - i
  {
    if i <= iMax {
      var t1 := ColumnPreserves(P, R, t, x, i, jMin, jMax);
      ColumnCovers(P, R, t, x, i, jMin, jMax, t1);
      t' := ColumnsPreserve(P, R, t1, x, i + 1, iMax, jMin, jMax);
    } else {
      t' := t;
    }
  }

  // ---------------------------------------------------------------------
  // Adding a cell to the tree
  // ---------------------------------------------------------------------

  /** `t'` is `t` with `x` marked DONE, whatever the flags say. */
  ghost predicate Marked(t: Tree, t': Tree, x: Cell)
    requires t.Shaped() && t.board.Contains(x)
  {
    && t'.Shaped() && t'.board == t.board && t'.reachable == t.reachable
    && t'.Get(x) == t.Get(x).(state := DONE)
    && (forall c :: t.board.Contains(c) && c != x ==> t'.Get(c) == t.Get(c))
  }

  lemma MarkSeeded(t: Tree, t': Tree, x: Cell)
    requires t.Shaped() && t.board.Contains(x) && Marked(t, t', x) && Seeded(t)
    requires !t.board.IsBlocked(x)
    ensures Seeded(t')
  {
  }

  lemma MarkHeap(t: Tree, t': Tree, x: Cell)
    requires t.Shaped() && t.board.Contains(x) && Marked(t, t', x)
    requires HeapSound(t) && HeapComplete(t, {x}) && x !in t.reachable.elts
    ensures HeapSound(t') && HeapComplete(t', {})
  {
    forall e | e in multiset(t'.reachable.Entries())
      ensures t.board.Contains(e.0) && t'.Get(e.0).state == REACHABLE
      ensures t'.Get(e.0).cost.Fin? && t'.Get(e.0).cost.r <= e.1
    {
      EntryInElts(t.reachable, e);
    }
  }

  lemma MarkParented(t: Tree, t': Tree, x: Cell)
    requires t.Shaped() && t.board.Contains(x) && Marked(t, t', x)
    requires AllParented(t, {x}) && t.Get(x).state != INIT
    ensures AllParented(t', {})
  {
    forall c | t.board.Contains(c) && !t.board.IsBlocked(c) && t.board.At(c) != EXIT && t'.Get(c).state != INIT
      ensures Parented(t', c, {})
    {
      assert Parented(t, c, {x});
    }
  }

  lemma MarkClosed(t: Tree, t': Tree, x: Cell, pending: set<Cell>)
    requires t.Shaped() && t.board.Contains(x) && Marked(t, t', x)
    requires Closed(t, pending + {x})
    requires forall n :: t.board.Move(n, x) ==> t.Get(n).state != INIT
    ensures Closed(t', pending)
  {
    forall y, n | t.board.Contains(y) && t'.Get(y).state == DONE && !t.board.IsBlocked(y) && y !in pending && t.board.Move(n, y)
      ensures t'.Get(n).state != INIT
    {
      if y != x {
        assert t.Get(y).state == DONE;
      }
    }
  }

  lemma MarkExitBound(t: Tree, t': Tree, x: Cell, pending: set<Cell>)
    requires t.Shaped() && t.board.Contains(x) && Marked(t, t', x)
    requires ExitBound(t, pending + {x})
    requires t.board.At(x) == EXIT ==> forall n :: ExitStepBound(t, x, n)
    ensures ExitBound(t', pending)
  {
    forall e, n | t.board.Contains(e) && t.board.At(e) == EXIT && e !in pending && t.board.Move(n, e) && t.board.At(n) != EXIT
      ensures t'.Get(n).cost.Fin? && t'.Get(n).cost.r <= StepCost(n.i != e.i && n.j != e.j)
    {
      if e == x {
        assert ExitStepBound(t, x, n);
      }
    }
  }

  lemma MarkProgress(t: Tree, t': Tree, x: Cell)
    requires t.Shaped() && t.board.Contains(x) && Marked(t, t', x)
    ensures Progress(t, t') && (NonNegative(t) ==> NonNegative(t'))
    ensures OnlySeedsDone(t) && (t.board.IsBlocked(x) || t.board.At(x) == EXIT) ==> OnlySeedsDone(t')
  {
  }

  /** Marking `x` DONE once its neighbours are relaxed restores the
      invariant between calls. */
  lemma MarkDone(t: Tree, t': Tree, x: Cell, pending: set<Cell>)
    requires Relaxing(t, x, pending) && Marked(t, t', x)
    requires forall n :: t.board.Move(n, x) ==> t.Get(n).state != INIT
    requires t.board.At(x) == EXIT ==> forall n :: ExitStepBound(t, x, n)
    ensures Core(t', pending) && Progress(t, t')
    ensures OnlySeedsDone(t) && t.board.At(x) == EXIT ==> OnlySeedsDone(t')
  {
    MarkSeeded(t, t', x);
    MarkHeap(t, t', x);
    MarkParented(t, t', x);
    MarkClosed(t, t', x, pending);
    MarkExitBound(t, t', x, pending);
    MarkProgress(t, t', x);
  }

  /** What the scans of `addToTree` keep: the relaxing invariant, the
      progress since `t`, and, while only seeds are DONE, that fact. */
  ghost function KeepsRelaxing(t: Tree, x: Cell, pending: set<Cell>, seeds: bool): Tree -> bool
    requires t.Shaped()
  {
    (s: Tree) => Relaxing(s, x, pending) && s.board == t.board && Progress(t, s) && (seeds ==> OnlySeedsDone(s))
  }

  /** What the scans of `addToTree` leave at each cell they relax. */
  ghost function RelaxedBy(x: Cell, seeds: bool): (Tree, Cell) -> bool {
    (s: Tree, n: Cell) => s.Shaped() && s.board.Contains(n) && Relaxed(s, x, n, seeds)
  }

  /** One relaxation around `x` keeps both. */
  lemma RelaxStepKeeps(t: Tree, s: Tree, x: Cell, n: Cell, pending: set<Cell>, seeds: bool)
    requires t.Shaped() && KeepsRelaxing(t, x, pending, seeds)(s) && s.Get(x) == t.Get(x)
    requires seeds ==> t.Get(x).cost == Fin(0.0)
    requires s.board.Contains(n) && Around(x, n)
    ensures StepKept(KeepsRelaxing(t, x, pending, seeds), RelaxedBy(x, seeds), s, x, n)
  {
    var s' := RelaxKeeps(s, x, n, pending, seeds);
    ProgressTrans(t, s, s');
    forall m | RelaxedBy(x, seeds)(s, m) ensures RelaxedBy(x, seeds)(s', m) {
      RelaxedProgress(s, s', x, m, seeds);
    }
  }

  /** Every relaxation of the box around `x` keeps those. */
  lemma AroundPreserved(t: Tree, x: Cell, pending: set<Cell>, seeds: bool, i0: int, i1: int, j0: int, j1: int)
    requires t.Shaped() && t.board.Contains(x)
    requires seeds ==> t.Get(x).cost == Fin(0.0)
    requires x.i - 1 <= i0 && i1 <= x.i + 1 && x.j - 1 <= j0 && j1 <= x.j + 1
    ensures PreservedBy(KeepsRelaxing(t, x, pending, seeds), RelaxedBy(x, seeds), t.board, x, t.Get(x), i0, i1, j0, j1)
  {
    var P := KeepsRelaxing(t, x, pending, seeds);
    var R := RelaxedBy(x, seeds);
    forall s: Tree, n: Cell |
      && P(s) && s.Shaped() && s.board == t.board && t.board.Contains(x) && s.Get(x) == t.Get(x) && t.Get(x).cost.Fin?
      && t.board.Contains(n) && i0 <= n.i <= i1 && j0 <= n.j <= j1
      ensures StepKept(P, R, s, x, n)
    {
      RelaxStepKeeps(t, s, x, n, pending, seeds);
    }
  }

  /** `addToTree` is the scan of the clamped box followed by `Finish`. */
  lemma AddToTreeScans(t: Tree, x: Cell, iMin: int, iMax: int, jMin: int, jMax: int)
    requires t.Shaped() && t.board.Contains(x) && t.Get(x).cost.Fin?
    requires iMin == Max(x.i - 1, 0) && iMax == Min(x.i + 1, t.board.cols - 1)
    requires jMin == Max(x.j - 1, 0) && jMax == Min(x.j + 1, t.board.rows - 1)
    ensures var r := t.RelaxColumns(x, iMin, iMax, jMin, jMax);
      t.AddToTree(x) == if r.Ok? then Ok(r.value.Finish(x)) else Err(r.error)
  {
  }

  /** The scans of `addToTree` reach every neighbour of `x` and keep the
      relaxing invariant. */
  lemma ScanKeeps(t: Tree, x: Cell, pending: set<Cell>, seeds: bool) returns (t1: Tree)
    requires Relaxing(t, x, pending)
    requires seeds ==> OnlySeedsDone(t) && t.Get(x).cost == Fin(0.0)
    ensures Relaxing(t1, x, pending) && t1.board == t.board && Progress(t, t1)
    ensures t.AddToTree(x) == Ok(t1.Finish(x))
    ensures seeds ==> OnlySeedsDone(t1)
    ensures t1.setUp == t.setUp && t1.complete == t.complete
    ensures t1.populated == t.populated && t1.entrances == t.entrances
    ensures forall n :: t1.board.Move(n, x) ==> RelaxedBy(x, seeds)(t1, n)
  {
    var iMin, iMax := Max(x.i - 1, 0), Min(x.i + 1, t.board.cols - 1);
    var jMin, jMax := Max(x.j - 1, 0), Min(x.j + 1, t.board.rows - 1);
    var P := KeepsRelaxing(t, x, pending, seeds);
    var R := RelaxedBy(x, seeds);
    ProgressRefl(t);
    assert P(t);
    AroundPreserved(t, x, pending, seeds, iMin, iMax, jMin, jMax);
    t1 := ColumnsPreserve(P, R, t, x, iMin, iMax, jMin, jMax);
    AddToTreeScans(t, x, iMin, iMax, jMin, jMax);
    assert P(t1);
    forall n | t1.board.Move(n, x) ensures R(t1, n) {
      assert iMin <= n.i <= iMax && jMin <= n.j <= jMax;
    }
  }

  /** `addToTree` keeps the invariant: it only moves cells forward, makes
      `x` DONE and, for a freshly seeded exit, gives every neighbour at most
      the cost of the step. */
  lemma AddToTreeKeeps(t: Tree, x: Cell, pending: set<Cell>, seeds: bool) returns (t': Tree)
    requires Relaxing(t, x, pending)
    requires seeds ==> OnlySeedsDone(t) && t.Get(x).cost == Fin(0.0)
    requires t.board.At(x) == EXIT ==> seeds
    ensures t.AddToTree(x) == Ok(t')
    ensures Core(t', pending) && t'.board == t.board && Progress(t, t')
    ensures t'.Get(x) == t.Get(x).(state := DONE)
    ensures seeds && t.board.At(x) == EXIT ==> OnlySeedsDone(t')
    ensures t'.populated == t.populated && t'.entrances == t.entrances
    ensures t'.complete <==> t.complete || (t.setUp && t'.reachable.Size() == 0)
    ensures t'.setUp <==> t.setUp && t'.reachable.Size() != 0
  {
    var t1 := ScanKeeps(t, x, pending, seeds);
    assert forall n :: t1.board.Move(n, x) ==> Relaxed(t1, x, n, seeds);
    t' := t1.Finish(x);
    MarkDone(t1, t', x, pending);
    ProgressTrans(t, t1, t');
  }

  // ---------------------------------------------------------------------
  // Steps
  // ---------------------------------------------------------------------

  /** The invariant of a constructed tree: the pieces above with no exit
      pending, exactly one of `setUp` and `complete`, an empty frontier
      once complete, and the POPULATED and ENTRANCE cells listed. */
  ghost predicate Inv(t: Tree) {
    && Core(t, {})
    && t.setUp != t.complete
    && (t.complete ==> t.reachable.Size() == 0)
    && t.populated == Scan(t.board, POPULATED, t.board.cols)
    && t.entrances == Scan(t.board, ENTRANCE, t.board.cols)
  }

  /** The cells not yet DONE: what every step shrinks. */
  ghost function NotDone(t: Tree): set<Cell>
    requires t.Shaped()
  {
    set i, j | 0 <= i < t.board.cols && 0 <= j < t.board.rows && t.grid[i][j].state != DONE :: Cell(i, j)
  }

  /** Every frontier cell is on the board with a finite cost. */
  lemma SoundFrontierFinite(t: Tree)
    requires t.Shaped() && HeapSound(t)
    ensures t.FrontierFinite()
  {
    forall c | c in t.reachable.elts ensures t.board.Contains(c) && t.Get(c).cost.Fin? {
      var k :| 0 <= k < |t.reachable.elts| && t.reachable.elts[k] == c;
      EntryOfIndex(t.reachable, k);
    }
  }

  /** Popping a heap of distinct elements removes the root and nothing else. */
  lemma PopDistinct<T>(h: Heap<T>) returns (x: T, h': Heap<T>)
    requires h.WellFormed() && IsHeap(h.costs) && h.Size() > 0
    requires forall c :: multiset(h.elts)[c] <= 1
    ensures h.Pop() == Ok((x, h')) && x == h.elts[0] && h'.WellFormed() && IsHeap(h'.costs)
    ensures (x, h.costs[0]) in multiset(h.Entries())
    ensures x !in h'.elts
    ensures forall c :: multiset(h'.elts)[c] <= 1
    ensures forall e | e in multiset(h'.Entries()) :: e in multiset(h.Entries())
    ensures forall c :: c in h.elts && c != x ==> c in h'.elts
  {
    x := h.elts[0];
    PopSpec(h);
    h' := h.Pop().value.1;
    assert multiset(h'.elts)[x] == 0;
    forall c ensures multiset(h'.elts)[c] <= 1 {
      assert multiset(h'.elts)[c] <= multiset(h.elts)[c];
    }
    forall c | c in h.elts && c != x ensures c in h'.elts {
      assert multiset(h'.elts)[c] == multiset(h.elts)[c];
    }
  }

  /** Parents DONE, or in `cur`, stay so in a tree with the same grid and
      a larger `cur`. */
  lemma ParentedWiden(t: Tree, t': Tree, cur: set<Cell>, cur': set<Cell>)
    requires t.Shaped() && t'.Shaped() && t'.board == t.board && t'.grid == t.grid
    requires AllParented(t, cur) && cur <= cur'
    ensures AllParented(t', cur')
  {
    forall c | t.board.Contains(c) && !t.board.IsBlocked(c) && t.board.At(c) != EXIT && t'.Get(c).state != INIT
      ensures Parented(t', c, cur')
    {
      assert Parented(t, c, cur);
    }
  }

  /** Popping the frontier of a tree under the invariant leaves the popped
      cell ready to be added to the tree. */
  lemma PopRelaxing(t: Tree) returns (x: Cell, t1: Tree)
    requires Core(t, {}) && t.reachable.Size() > 0
    ensures t.reachable.Pop().Ok? && x == t.reachable.elts[0]
    ensures t1 == t.(reachable := t.reachable.Pop().value.1)
    ensures Relaxing(t1, x, {}) && t.Get(x).state == REACHABLE && t.board.At(x) != EXIT
  {
    var h';
    x, h' := PopDistinct(t.reachable);
    t1 := t.(reachable := h');
    assert t.Get(x).state == REACHABLE;
    assert HeapSound(t1);
    assert HeapComplete(t1, {x});
    ParentedWiden(t, t1, {}, {x});
  }

  /** A step of a set-up tree with a non-empty frontier adds its cheapest
      cell to the tree, keeps the invariant, and only moves cells forward;
      afterwards the tree is complete exactly when the frontier ran dry. */
  lemma StepKeeps(t: Tree) returns (t': Tree)
    requires Inv(t) && t.setUp && t.reachable.Size() > 0
    ensures t.FrontierFinite() && t.Step() == Ok(t')
    ensures Inv(t') && t'.board == t.board && Progress(t, t')
    ensures NotDone(t') < NotDone(t)
    ensures t'.complete <==> t'.reachable.Size() == 0
  {
    SoundFrontierFinite(t);
    var x, t1 := PopRelaxing(t);
    t' := AddToTreeKeeps(t1, x, {}, false);
    assert t.Step() == t1.AddToTree(x);
    NotDoneShrinks(t1, t', x);
    assert NotDone(t1) == NotDone(t);
  }

  /** A move forward that adds `x` to the tree shrinks the cells not DONE. */
  lemma NotDoneShrinks(t: Tree, t': Tree, x: Cell)
    requires t.Shaped() && t'.Shaped() && t'.board == t.board && Progress(t, t')
    requires t.board.Contains(x) && t.Get(x).state != DONE && t'.Get(x).state == DONE
    ensures NotDone(t') < NotDone(t)
  {
    assert x in NotDone(t) && x !in NotDone(t');
    forall c | c in NotDone(t') ensures c in NotDone(t) {
      assert t.board.Contains(c) && t'.Get(c).state != DONE;
    }
  }

  /** The facts of `StepKeeps` about `Step()` itself. */
  lemma StepShrinks(t: Tree)
    requires Inv(t) && t.setUp && t.reachable.Size() > 0
    ensures t.FrontierFinite() && t.Step().Ok? && Inv(t.Step().value)
    ensures NotDone(t.Step().value) < NotDone(t)
  {
    var t' := StepKeeps(t);
  }

  // ---------------------------------------------------------------------
  // Runs
  // ---------------------------------------------------------------------

  /** `run`: a finished computation is left alone, an uninitialized one
      throws, and otherwise `step` is repeated until the tree is complete. */
  ghost function Run(t: Tree): (r: Result<Tree, SptError>)
    requires Inv(t)
    ensures r.Ok? ==> r.value.Shaped() && r.value.board == t.board
    decreases NotDone(t)
  {
    if !t.setUp then
      if !t.complete then Err(NotInitialized) else Ok(t)
    else if t.complete then Ok(t)
    else if t.reachable.Size() == 0 then (SoundFrontierFinite(t); t.Step())
    else
      StepShrinks(t);
      match t.Step()
      case Err(e) => Err(e)
      case Ok(t') => Run(t')
  }

  /** `run` fails only on a set-up tree whose frontier is already empty,
      with 'No reachable nodes'; otherwise it ends with a complete tree
      that keeps the invariant and has only moved cells forward. */
  lemma {:induction false} RunSpec(t: Tree)
    requires Inv(t)
    ensures Run(t).Err? <==> t.setUp && t.reachable.Size() == 0
    ensures Run(t).Err? ==> Run(t).error == NoReachableNodes
    ensures Run(t).Ok? ==> Inv(Run(t).value) && Run(t).value.complete
    ensures Run(t).Ok? ==> Run(t).value.board == t.board && Progress(t, Run(t).value)
    decreases NotDone(t)
  {
    if t.setUp && t.reachable.Size() > 0 {
      var t' := StepKeeps(t);
      if !t'.complete {
        RunSpec(t');
        ProgressTrans(t, t', Run(t').value);
      }
    } else {
      SoundFrontierFinite(t);
      ProgressRefl(t);
    }
  }

  // ---------------------------------------------------------------------
  // Ways out, once complete
  // ---------------------------------------------------------------------

  /** Following the parent pointers from a passable DONE cell leads to an
      exit: the cost drops by at least one per step and never below zero. */
  lemma {:induction false} DoneReachesExitBelow(t: Tree, c: Cell, n: nat)
    requires Core(t, {}) && t.board.Contains(c) && !t.board.IsBlocked(c) && t.Get(c).state == DONE
    requires t.Get(c).cost.Fin? && t.Get(c).cost.r < n as real
    ensures t.board.ReachesExit(c)
    decreases n
  {
    if t.board.At(c) == EXIT {
      ExitReachesExit(t.board, c);
    } else {
      assert Parented(t, c, {});
      var s := t.Get(c);
      var p := Cell(c.i + s.dI.value, c.j + s.dJ.value);
      assert t.Get(p).cost.r >= 0.0;
      DoneReachesExitBelow(t, p, n - 1);
      StepTowardExit(t.board, c, p);
    }
  }

  lemma DoneReachesExit(t: Tree, c: Cell)
    requires Core(t, {}) && t.board.Contains(c) && !t.board.IsBlocked(c) && t.Get(c).state == DONE
    ensures t.board.ReachesExit(c)
  {
    if t.board.At(c) == EXIT {
      ExitReachesExit(t.board, c);
    } else {
      assert Parented(t, c, {});
      DoneReachesExitBelow(t, c, t.Get(c).cost.r.Floor as nat + 1);
    }
  }

  /** With no cell left REACHABLE, every cell of a way out is DONE, from
      the exit backwards. */
  lemma {:induction false} ExitPathDone(t: Tree, p: seq<Cell>, k: nat)
    requires Core(t, {}) && t.board.IsExitPath(p) && k < |p|
    requires forall c :: t.board.Contains(c) ==> t.Get(c).state != REACHABLE
    ensures t.board.Contains(p[k]) && t.Get(p[k]).state == DONE
    decreases |p| - k
  {
    if k < |p| - 1 {
      assert t.board.Move(p[k], p[k + 1]);
      ExitPathDone(t, p, k + 1);
      assert t.board.Move(p[k], p[k + 1]);
    }
  }

  lemma ReachesExitDone(t: Tree, c: Cell)
    requires Core(t, {}) && t.board.Contains(c) && t.board.ReachesExit(c)
    requires forall c :: t.board.Contains(c) ==> t.Get(c).state != REACHABLE
    ensures t.Get(c).state == DONE
  {
    var p :| t.board.IsExitPath(p) && p[0] == c;
    ExitPathDone(t, p, 0);
  }

  /** Once the computation is complete, a passable cell is DONE exactly
      when a creep on it can walk to an exit. */
  lemma CompleteIff(t: Tree, c: Cell)
    requires Inv(t) && t.complete && t.board.Contains(c) && !t.board.IsBlocked(c)
    ensures t.Get(c).state == DONE <==> t.board.ReachesExit(c)
  {
    if t.Get(c).state == DONE {
      DoneReachesExit(t, c);
    } else if t.board.ReachesExit(c) {
      forall d | t.board.Contains(d) ensures t.Get(d).state != REACHABLE {
        if t.Get(d).state == REACHABLE {
          assert false;
        }
      }
      ReachesExitDone(t, c);
    }
  }

  /** `isValid` holds exactly when the computation is complete and every
      POPULATED and ENTRANCE cell has a way out. */
  lemma ValidIff(t: Tree)
    requires Inv(t)
    ensures t.IsValid() <==>
      t.complete && forall c :: t.board.Contains(c) && (t.board.At(c) == POPULATED || t.board.At(c) == ENTRANCE) ==>
        t.board.ReachesExit(c)
  {
    if t.complete {
      forall c | t.board.Contains(c) && !t.board.IsBlocked(c) ensures t.Get(c).state == DONE <==> t.board.ReachesExit(c) {
        CompleteIff(t, c);
      }
      ListedDoneIff(t, POPULATED, t.populated);
      ListedDoneIff(t, ENTRANCE, t.entrances);
    }
  }

  /** When DONE means having a way out, the cells of a passable state are
      all DONE exactly when they all have a way out. */
  lemma ListedDoneIff(t: Tree, s: CellState, cs: seq<Cell>)
    requires t.Shaped() && cs == Scan(t.board, s, t.board.cols) && !IsABlockedState(s)
    requires forall c :: t.board.Contains(c) && !t.board.IsBlocked(c) ==> (t.Get(c).state == DONE <==> t.board.ReachesExit(c))
    ensures t.AllDone(cs) <==> forall c :: t.board.Contains(c) && t.board.At(c) == s ==> t.board.ReachesExit(c)
  {
    if t.AllDone(cs) {
      forall c | t.board.Contains(c) && t.board.At(c) == s ensures t.board.ReachesExit(c) {
        assert c in cs;
        var k :| 0 <= k < |cs| && cs[k] == c;
      }
    }
  }

  // ---------------------------------------------------------------------
  // Costs and directions
  // ---------------------------------------------------------------------

  /** Every cell the computation has reached, other than walls, towers and
      exits, points by a unit step (each component -1, 0 or 1, not both 0)
      at a neighbour in the tree, and costs that neighbour's cost plus the
      step, so at least 1. */
  lemma DirectionIsUnit(t: Tree, c: Cell)
    requires Inv(t) && t.board.Contains(c) && !t.board.IsBlocked(c) && t.board.At(c) != EXIT
    requires t.Get(c).state != INIT
    ensures t.Get(c).dI.Some? && t.Get(c).dJ.Some?
    ensures var d := (t.Get(c).dI.value, t.Get(c).dJ.value);
      -1 <= d.0 <= 1 && -1 <= d.1 <= 1 && d != (0, 0)
    ensures var p := Cell(c.i + t.Get(c).dI.value, c.j + t.Get(c).dJ.value);
      t.board.Move(c, p) && t.Get(p).state == DONE && t.Get(c).cost.Fin? && t.Get(p).cost.Fin? &&
      t.Get(c).cost.r == t.Get(p).cost.r + StepCost(p.i != c.i && p.j != c.j)
    ensures t.Get(c).cost.Fin? && t.Get(c).cost.r >= 1.0
  {
    assert Parented(t, c, {});
    assert NonNegative(t);
    ParentStep(t, c);
  }

  /** The facts of `DirectionIsUnit` about one parented cell. */
  lemma ParentStep(t: Tree, c: Cell)
    requires t.Shaped() && t.board.Contains(c) && Parented(t, c, {}) && NonNegative(t)
    ensures t.Get(c).dI.Some? && t.Get(c).dJ.Some?
    ensures var d := (t.Get(c).dI.value, t.Get(c).dJ.value);
      -1 <= d.0 <= 1 && -1 <= d.1 <= 1 && d != (0, 0)
    ensures var p := Cell(c.i + t.Get(c).dI.value, c.j + t.Get(c).dJ.value);
      t.board.Move(c, p) && t.Get(p).state == DONE && t.Get(c).cost.Fin? && t.Get(p).cost.Fin? &&
      t.Get(c).cost.r == t.Get(p).cost.r + StepCost(p.i != c.i && p.j != c.j)
    ensures t.Get(c).cost.Fin? && t.Get(c).cost.r >= 1.0
  {
    var p := Cell(c.i + t.Get(c).dI.value, c.j + t.Get(c).dJ.value);
    assert t.Get(p).cost.r >= 0.0;
  }

  /** A cell one orthogonal step from an exit, not an exit itself, costs
      exactly 1; one diagonal step away, between 1 and sqrt(2). */
  lemma ExitNeighbourCost(t: Tree, e: Cell, n: Cell)
    requires Inv(t) && t.board.Contains(e) && t.board.At(e) == EXIT
    requires t.board.Move(n, e) && t.board.At(n) != EXIT
    ensures t.Get(n).cost.Fin?
    ensures n.i == e.i || n.j == e.j ==> t.Get(n).cost == Fin(1.0)
    ensures 1.0 <= t.Get(n).cost.r <= Sqrt2
  {
    assert t.Get(n).cost.Fin? && t.Get(n).cost.r <= StepCost(n.i != e.i && n.j != e.j);
    assert t.Get(n).state != INIT;
    DirectionIsUnit(t, n);
  }

  // ---------------------------------------------------------------------
  // The constructor
  // ---------------------------------------------------------------------

  function Cells(xs: seq<Cell>): set<Cell> {
    set c | c in xs
  }


  /** A tree straight from seeding: every cell seeded, the frontier empty. */
  ghost predicate Fresh(t: Tree) {
    t.Shaped() && t.grid == SeedGrid(t.board) && t.reachable == Heap([], [])
  }

  lemma FreshSeeded(t: Tree)
    requires Fresh(t)
    ensures Seeded(t) && NonNegative(t) && OnlySeedsDone(t)
  {
  }

  lemma FreshHeap(t: Tree)
    requires Fresh(t)
    ensures HeapSound(t) && HeapComplete(t, {})
  {
    assert t.reachable.Entries() == [];
  }

  lemma FreshParented(t: Tree)
    requires Fresh(t)
    ensures AllParented(t, {})
  {
    forall c | t.board.Contains(c) && !t.board.IsBlocked(c) && t.board.At(c) != EXIT
      ensures t.Get(c).state == INIT
    {
      assert t.Get(c) == Seed(t.board.At(c));
    }
  }

  lemma FreshClosed(t: Tree, exits: set<Cell>)
    requires Fresh(t) && forall c :: t.board.Contains(c) && t.board.At(c) == EXIT ==> c in exits
    ensures Closed(t, exits) && ExitBound(t, exits)
  {
  }

  lemma SeededCore(b: Board)
    requires b.WellFormed()
    ensures SeedTree(b).Shaped() && Core(SeedTree(b), Cells(Scan(b, EXIT, b.cols))) && OnlySeedsDone(SeedTree(b))
  {
    var t := SeedTree(b);
    assert Fresh(t);
    FreshSeeded(t);
    FreshHeap(t);
    FreshParented(t);
    FreshClosed(t, Cells(Scan(b, EXIT, b.cols)));
  }

  /** A tree under the invariant, with `x` an added cell of `pending + {x}`
      outside the frontier, is ready to add `x` again. */
  lemma CoreRelaxing(t: Tree, x: Cell, pending: set<Cell>)
    requires Core(t, pending + {x}) && t.board.Contains(x) && !t.board.IsBlocked(x)
    requires t.Get(x).state != INIT && t.Get(x).cost.Fin? && x !in t.reachable.elts
    ensures Relaxing(t, x, pending)
  {
    ParentedWiden(t, t, {}, {x});
  }

  /** One turn of the constructor's loop: adding the next exit keeps the
      invariant with the rest pending. */
  lemma AddAllStep(t: Tree, xs: seq<Cell>) returns (t': Tree)
    requires Core(t, Cells(xs)) && OnlySeedsDone(t) && !t.setUp && xs != []
    requires forall c :: c in xs ==> t.board.Contains(c) && t.board.At(c) == EXIT
    ensures t.Get(xs[0]).state == DONE && t.Get(xs[0]).cost.Fin?
    ensures t.AddToTree(xs[0]) == Ok(t')
    ensures Core(t', Cells(xs[1..])) && OnlySeedsDone(t') && !t'.setUp && t'.board == t.board
    ensures t'.populated == t.populated && t'.entrances == t.entrances && t'.complete == t.complete
  {
    var x := xs[0];
    assert t.Get(x) == Seed(EXIT);
    if x in t.reachable.elts {
      var k :| 0 <= k < |t.reachable.elts| && t.reachable.elts[k] == x;
      EntryOfIndex(t.reachable, k);
      assert false;
    }
    assert Cells(xs) == Cells(xs[1..]) + {x};
    CoreRelaxing(t, x, Cells(xs[1..]));
    t' := AddToTreeKeeps(t, x, Cells(xs[1..]), true);
  }

  /** The constructor's loop keeps the invariant, with the exits still to
      come pending, and leaves only walls, towers and exits DONE. */
  lemma {:induction false} AddAllKeeps(t: Tree, xs: seq<Cell>)
    requires Core(t, Cells(xs)) && OnlySeedsDone(t) && !t.setUp
    requires forall c :: c in xs ==> t.board.Contains(c) && t.board.At(c) == EXIT
    ensures forall k :: 0 <= k < |xs| ==> t.Get(xs[k]).state == DONE && t.Get(xs[k]).cost.Fin?
    ensures t.AddAll(xs).Ok?
    ensures var r := t.AddAll(xs).value;
      Core(r, {}) && OnlySeedsDone(r) && r.board == t.board && r.populated == t.populated &&
      r.entrances == t.entrances && !r.setUp && r.complete == t.complete
    decreases |xs|
  {
    if xs != [] {
      var t' := AddAllStep(t, xs);
      AddAllKeeps(t', xs[1..]);
      assert t.AddAll(xs) == t'.AddAll(xs[1..]);
    }
  }

  /** Setting the flag changes no cell and no frontier entry. */
  lemma SetUpKeeps(t: Tree)
    requires Core(t, {}) && OnlySeedsDone(t)
    ensures Core(t.(setUp := true), {}) && OnlySeedsDone(t.(setUp := true))
  {
    var t2 := t.(setUp := true);
    assert t2.grid == t.grid && t2.board == t.board && t2.reachable == t.reachable;
    assert Seeded(t2) && HeapSound(t2) && HeapComplete(t2, {});
    ParentedWiden(t, t2, {}, {});
    assert NonNegative(t2) && Closed(t2, {}) && ExitBound(t2, {});
  }

  /** The constructor never throws, and the tree it builds keeps the
      invariant with its computation set up and only walls, towers and
      exits DONE. */
  lemma InitKeeps(b: Board)
    requires b.WellFormed()
    ensures Init(b).Ok? && Inv(Init(b).value) && Init(b).value.board == b && OnlySeedsDone(Init(b).value)
  {
    var t := SeedTree(b);
    var exits := Scan(b, EXIT, b.cols);
    SeededCore(b);
    AddAllKeeps(t, exits);
    var r := t.AddAll(exits).value;
    assert Init(b) == Ok(r.(setUp := true));
    SetUpKeeps(r);
  }

  /** The constructor's result: set up and not complete; every exit DONE
      at cost 0 with step (0, 0), every wall and tower DONE at +infinity
      with step (0, 0), and every cell still INIT at +infinity with no
      step. */
  lemma InitSpec(b: Board)
    requires b.WellFormed()
    ensures Init(b).Ok?
    ensures var t := Init(b).value;
      t.board == b && t.setUp && !t.complete &&
      forall c :: b.Contains(c) ==>
        && (b.At(c) == EXIT ==> t.Get(c) == SptState(Some(0), Some(0), Fin(0.0), DONE))
        && (b.IsBlocked(c) ==> t.Get(c) == SptState(Some(0), Some(0), Inf, DONE))
        && (t.Get(c).state == INIT ==> t.Get(c) == SptState(None, None, Inf, INIT))
  {
    InitKeeps(b);
  }

  /** After the constructor the frontier is empty exactly when no exit has
      a passable neighbour a creep could step from. */
  lemma InitFrontierEmpty(b: Board)
    requires b.WellFormed()
    ensures Init(b).Ok?
    ensures Init(b).value.reachable.Size() == 0 <==>
      forall e, n :: b.Contains(e) && b.At(e) == EXIT && b.Move(n, e) ==> b.At(n) == EXIT
  {
    InitKeeps(b);
    var t := Init(b).value;
    if t.reachable.Size() == 0 {
      EmptyFrontierNoExitNeighbour(t);
    } else {
      FrontierExitNeighbour(t);
    }
  }

  /** Before the first step, an empty frontier means no exit has a
      passable non-exit neighbour. */
  lemma EmptyFrontierNoExitNeighbour(t: Tree)
    requires t.Shaped() && Seeded(t) && HeapComplete(t, {}) && ExitBound(t, {}) && OnlySeedsDone(t)
    requires t.reachable.Size() == 0
    ensures forall e, n :: t.board.Contains(e) && t.board.At(e) == EXIT && t.board.Move(n, e) ==> t.board.At(n) == EXIT
  {
    forall e, n | t.board.Contains(e) && t.board.At(e) == EXIT && t.board.Move(n, e) ensures t.board.At(n) == EXIT {
      if t.board.At(n) != EXIT {
        assert false;
      }
    }
  }

  /** Before the first step, the head of a non-empty frontier is a
      passable non-exit neighbour of an exit. */
  lemma FrontierExitNeighbour(t: Tree)
    requires t.Shaped() && Seeded(t) && HeapSound(t) && AllParented(t, {}) && NonNegative(t) && OnlySeedsDone(t)
    requires t.reachable.Size() > 0
    ensures exists e, n :: t.board.Contains(e) && t.board.At(e) == EXIT && t.board.Move(n, e) && t.board.At(n) != EXIT
  {
    var x := t.reachable.elts[0];
    EntryOfIndex(t.reachable, 0);
    assert t.Get(x).state == REACHABLE;
    assert Parented(t, x, {});
    ParentStep(t, x);
    var p := Cell(x.i + t.Get(x).dI.value, x.j + t.Get(x).dJ.value);
    assert t.board.Move(x, p) && t.board.At(p) == EXIT && t.board.At(x) != EXIT;
  }

  /** What a built and run tree says: `run` throws exactly when no exit has
      a passable neighbour; otherwise `isValid` holds exactly when every
      POPULATED and ENTRANCE cell has a way out. */
  lemma RunValid(b: Board) returns (t: Tree)
    requires b.WellFormed()
    ensures Init(b) == Ok(t) && Inv(t)
    ensures Run(t).Err? <==>
      forall e, n :: b.Contains(e) && b.At(e) == EXIT && b.Move(n, e) ==> b.At(n) == EXIT
    ensures Run(t).Ok? ==>
      (Run(t).value.IsValid() <==>
        forall c :: b.Contains(c) && (b.At(c) == POPULATED || b.At(c) == ENTRANCE) ==> b.ReachesExit(c))
  {
    InitKeeps(b);
    InitFrontierEmpty(b);
    t := Init(b).value;
    RunSpec(t);
    if Run(t).Ok? {
      ValidIff(Run(t).value);
    }
  }
}
