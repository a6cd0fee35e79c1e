/**
 * The cell states of the game board (the `States` table of game/world.js)
 * and the predicate telling which of them stop creeps.
 */
module States {
  /** What occupies a grid cell. */
  datatype CellState = OPEN | BLOCKED | POPULATED | ENTRANCE | EXIT | TOWER

  /** `World.isABlockedState`: walls and towers block; every other state,
      creep-filled cells, entrances and exits included, is passable. */
  predicate IsABlockedState(s: CellState): (r: bool)
    ensures r <==> !(s == OPEN || s == POPULATED || s == ENTRANCE || s == EXIT)
  {
    s == BLOCKED || s == TOWER
  }
}
