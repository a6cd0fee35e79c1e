/**
 * The per-cell registry of game/gridnode.js: what occupies a cell, which
 * creeps stand in it (and how many of them fly), and which towers can shoot
 * into it.
 *
 * `Node` is the value-level model of a cell's fields and of every operation;
 * the class `GridNode` keeps the source's fields and is proved to compute
 * exactly what the model computes.  A failed `assert` of the source (which
 * throws) is an `Err`; the calls a cell makes into the towers registered
 * with it (`registerTargetCreep`, `unregisterTargetCreep`) are returned as
 * the sets of tower ids to notify.
 */
module GridNodes {
  import opened Wrappers
  import opened States

  /** The two fields of a creep that a cell reads. */
  datatype Creep = Creep(guid: nat, flying: bool)

  /** The assertions of game/gridnode.js, one constructor per failing check. */
  datatype GridError =
    | CreepNotAdmitted        // a walking creep sent to a cell it cannot stand in
    | CreepAlreadyHere        // the creep is already registered with the cell
    | CreepNotHere            // the creep is not registered with the cell
    | CountUnderflow          // the creep count to decrement is already zero
    | NotOpen                 // an object placed on a cell that is not OPEN
    | Occupied                // an object placed on a cell that already holds one
    | HasCreeps               // an object placed on or removed from a cell with walking creeps
    | WrongOccupant           // removal of an object the cell does not hold
    | StillOpen               // an object whose state leaves the cell OPEN
    | TowerAlreadyTargeting   // a tower registered twice
    | TowerNotTargeting       // a tower unregistered that never registered

  /** The fields of a `GridNode` that change after construction. */
  datatype Node = Node(
    state: CellState,
    creepGuids: set<nat>,
    creepCount: nat,
    flyingCreepCount: nat,
    targetingTowerGuids: set<nat>,
    objGuid: Option<nat>)
  {
    /** The bookkeeping every operation keeps: each registered creep is
        counted once, as flying or as walking, and a cell is POPULATED
        exactly when walking creeps stand on a cell that was OPEN (an
        ENTRANCE keeps its state when creeps stand on it). */
    ghost predicate Consistent() {
      && |creepGuids| == creepCount + flyingCreepCount
      && (state == POPULATED ==> creepCount > 0)
      && (creepCount > 0 ==> state == POPULATED || state == ENTRANCE)
    }

    /** The states a creep may be registered in: walking creeps only on
        OPEN, POPULATED or ENTRANCE cells, flying creeps anywhere. */
    predicate Admits(c: Creep) {
      state == OPEN || state == POPULATED || state == ENTRANCE || c.flying
    }

    /** The count a creep of this kind is tallied in. */
    function CountFor(c: Creep): nat {
      if c.flying then flyingCreepCount else creepCount
    }

    /** Registration of a creep, once the checks have passed: the guid is
        recorded, the matching count goes up, and a walking creep turns an
        OPEN cell into a POPULATED one. */
    function Enter(c: Creep): Node {
      var n := this.(creepGuids := creepGuids + {c.guid});
      if c.flying then n.(flyingCreepCount := flyingCreepCount + 1)
      else n.(creepCount := creepCount + 1, state := if state == OPEN then POPULATED else state)
    }

    /** Deregistration of a creep's count, once its guid is gone: the
        matching count goes down, and the last walking creep leaving a
        POPULATED cell turns it back to OPEN. */
    function Decrement(c: Creep): Node
      requires CountFor(c) > 0
    {
      if c.flying then this.(flyingCreepCount := flyingCreepCount - 1)
      else
        this.(creepCount := creepCount - 1,
              state := if state == POPULATED && creepCount == 1 then OPEN else state)
    }

    /** `addCreep`. */
    function AddCreep(c: Creep): Result<Node, GridError> {
      if !Admits(c) then Err(CreepNotAdmitted)
      else if c.guid in creepGuids then Err(CreepAlreadyHere)
      else Ok(Enter(c))
    }

    /** `removeCreep`: the cell after the call and the error it throws, if
        any.  As in the source, the guid is deleted before the count is
        checked, so a call failing that check still loses the guid. */
    function RemoveCreep(c: Creep): (Node, Option<GridError>) {
      if c.guid !in creepGuids then (this, Some(CreepNotHere))
      else
        var n := this.(creepGuids := creepGuids - {c.guid});
        if CountFor(c) == 0 then (n, Some(CountUnderflow))
        else (n.Decrement(c), None)
    }

    /** `addObject`: a tower, entrance, exit or wall takes the cell; the
        cell after the call and the error it throws, if any.  The last check
        runs after the fields are written, so an object given the state OPEN
        stays recorded although the call fails. */
    function AddObject(obj: nat, s: CellState): (Node, Option<GridError>) {
      if state != OPEN then (this, Some(NotOpen))
      else if objGuid.Some? then (this, Some(Occupied))
      else if creepCount != 0 then (this, Some(HasCreeps))
      else
        var n := this.(objGuid := Some(obj), state := s);
        if s == OPEN then (n, Some(StillOpen)) else (n, None)
    }

    /** `removeObject`: the cell is emptied of its object and OPEN again. */
    function RemoveObject(obj: nat): Result<Node, GridError> {
      if objGuid != Some(obj) then Err(WrongOccupant)
      else if creepCount != 0 then Err(HasCreeps)
      else Ok(this.(objGuid := None, state := OPEN))
    }

    /** `registerTargetingTower`: the cell after the call, and the creeps
        handed back to the tower. */
    function RegisterTargetingTower(tower: nat): Result<(Node, set<nat>), GridError> {
      if tower in targetingTowerGuids then Err(TowerAlreadyTargeting)
      else Ok((this.(targetingTowerGuids := targetingTowerGuids + {tower}), creepGuids))
    }

    /** `unregisterTargetingTower`. */
    function UnregisterTargetingTower(tower: nat): Result<Node, GridError> {
      if tower !in targetingTowerGuids then Err(TowerNotTargeting)
      else Ok(this.(targetingTowerGuids := targetingTowerGuids - {tower}))
    }
  }

  /** A cell as `new GridNode` leaves it. */
  const Fresh := Node(OPEN, {}, 0, 0, {}, None)

  /** The outcome of a successful `MoveCreepBetweenGridNodes`: both cells
      afterwards, the towers told to drop the creep and the towers told to
      consider it. */
  datatype Move = Move(from: Node, to: Node, unregistered: set<nat>, registered: set<nat>)

  /** `GridNode.MoveCreepBetweenGridNodes`: the checks in the source's
      order, then the guid and the count move from one cell to the other;
      only the towers that see one cell and not the other are told. */
  function MoveCreep(from: Node, to: Node, c: Creep): Result<Move, GridError> {
    if from.CountFor(c) == 0 then Err(CountUnderflow)
    else if c.guid !in from.creepGuids then Err(CreepNotHere)
    else if !to.Admits(c) then Err(CreepNotAdmitted)
    else if c.guid in to.creepGuids then Err(CreepAlreadyHere)
    else
      Ok(Move(from.(creepGuids := from.creepGuids - {c.guid}).Decrement(c), to.Enter(c),
              from.targetingTowerGuids - to.targetingTowerGuids,
              to.targetingTowerGuids - from.targetingTowerGuids))
  }

  // ---------------------------------------------------------------------
  // Properties of the model
  // ---------------------------------------------------------------------

  lemma FreshIsConsistent()
    ensures Fresh.Consistent() && Fresh.state == OPEN
  {
  }

  /** `addCreep` fails exactly on a creep already present or a walking
      creep sent to a cell it cannot stand in; otherwise it records the
      creep, bumps only the matching count, turns OPEN into POPULATED for
      a walking creep and leaves every other state alone. */
  lemma AddCreepSpec(n: Node, c: Creep)
    ensures n.AddCreep(c).Err? <==> c.guid in n.creepGuids || !(n.state in {OPEN, POPULATED, ENTRANCE} || c.flying)
    ensures n.AddCreep(c).Ok? ==>
      var m := n.AddCreep(c).value;
      && m.creepGuids == n.creepGuids + {c.guid}
      && m.targetingTowerGuids == n.targetingTowerGuids && m.objGuid == n.objGuid
      && (c.flying ==> m.flyingCreepCount == n.flyingCreepCount + 1 && m.creepCount == n.creepCount && m.state == n.state)
      && (!c.flying ==> m.creepCount == n.creepCount + 1 && m.flyingCreepCount == n.flyingCreepCount)
      && (!c.flying && n.state == OPEN ==> m.state == POPULATED)
      && (n.state != OPEN ==> m.state == n.state)
  {
  }

  /** `removeCreep` fails on an absent creep, and the last walking creep
      leaving a POPULATED cell reverts it to OPEN. */
  lemma RemoveCreepSpec(n: Node, c: Creep)
    requires n.Consistent()
    ensures n.RemoveCreep(c).1.Some? <==> c.guid !in n.creepGuids || n.CountFor(c) == 0
    ensures c.guid !in n.creepGuids ==> n.RemoveCreep(c) == (n, Some(CreepNotHere))
    ensures n.RemoveCreep(c).1.None? ==>
      var m := n.RemoveCreep(c).0;
      && m.creepGuids == n.creepGuids - {c.guid}
      && m.CountFor(c) == n.CountFor(c) - 1
      && (m.state == OPEN <==> n.state == OPEN || (!c.flying && n.state == POPULATED && m.creepCount == 0))
  {
  }

  /** Every successful operation keeps the bookkeeping consistent (`addObject`
      as long as the object's state is not POPULATED, which no caller uses). */
  lemma OperationsKeepConsistent(n: Node, c: Creep, obj: nat, s: CellState, tower: nat)
    requires n.Consistent()
    ensures n.AddCreep(c).Ok? ==> n.AddCreep(c).value.Consistent()
    ensures n.RemoveCreep(c).1.None? ==> n.RemoveCreep(c).0.Consistent()
    ensures s != POPULATED && n.AddObject(obj, s).1.None? ==> n.AddObject(obj, s).0.Consistent()
    ensures n.RemoveObject(obj).Ok? ==> n.RemoveObject(obj).value.Consistent()
    ensures n.RegisterTargetingTower(tower).Ok? ==> n.RegisterTargetingTower(tower).value.0.Consistent()
    ensures n.UnregisterTargetingTower(tower).Ok? ==> n.UnregisterTargetingTower(tower).value.Consistent()
  {
  }

  lemma MoveKeepsConsistent(from: Node, to: Node, c: Creep)
    requires from.Consistent() && to.Consistent()
    ensures MoveCreep(from, to, c).Ok? ==>
      MoveCreep(from, to, c).value.from.Consistent() && MoveCreep(from, to, c).value.to.Consistent()
  {
  }

  /** Removing a creep just added gives back the cell it was added to. */
  lemma AddThenRemove(n: Node, c: Creep)
    requires n.Consistent() && n.AddCreep(c).Ok?
    ensures n.AddCreep(c).value.RemoveCreep(c) == (n, None)
  {
  }

  /** Removing an object just placed gives back the empty OPEN cell. */
  lemma AddThenRemoveObject(n: Node, obj: nat, s: CellState)
    requires n.AddObject(obj, s).1.None?
    ensures n.AddObject(obj, s).0.RemoveObject(obj) == Ok(n)
    ensures n.state == OPEN && n.objGuid.None? && n.creepCount == 0
    ensures n.AddObject(obj, s).0.state != OPEN && n.AddObject(obj, s).0.objGuid == Some(obj)
  {
  }

  /** Unregistering a tower just registered gives back the cell. */
  lemma RegisterThenUnregister(n: Node, tower: nat)
    requires n.RegisterTargetingTower(tower).Ok?
    ensures n.RegisterTargetingTower(tower).value.0.UnregisterTargetingTower(tower) == Ok(n)
    ensures n.RegisterTargetingTower(tower).value.1 == n.creepGuids
  {
  }

  /** A move is a removal from one cell followed by an addition to the
      other: it fails exactly when one of those would, leaves both cells as
      they would, and tells exactly the towers that see only the old cell to
      drop the creep and exactly those that see only the new cell to take
      it up (towers seeing both are not told). */
  lemma MoveIsRemoveThenAdd(from: Node, to: Node, c: Creep)
    ensures MoveCreep(from, to, c).Ok? <==> from.RemoveCreep(c).1.None? && to.AddCreep(c).Ok?
    ensures MoveCreep(from, to, c).Ok? ==>
      var mv := MoveCreep(from, to, c).value;
      && mv.from == from.RemoveCreep(c).0
      && mv.to == to.AddCreep(c).value
      && (forall t :: t in mv.unregistered <==> t in from.targetingTowerGuids && t !in to.targetingTowerGuids)
      && (forall t :: t in mv.registered <==> t in to.targetingTowerGuids && t !in from.targetingTowerGuids)
  {
  }

  /** A creep cannot be moved from a cell to itself. */
  lemma NoMoveInPlace(n: Node, c: Creep)
    ensures MoveCreep(n, n, c).Err?
  {
  }

  /** Moving a creep back where it came from restores both cells and
      notifies the same towers the other way round. */
  lemma MoveBack(from: Node, to: Node, c: Creep)
    requires from.Consistent() && to.Consistent() && MoveCreep(from, to, c).Ok?
    ensures var mv := MoveCreep(from, to, c).value;
      MoveCreep(mv.to, mv.from, c) == Ok(Move(to, from, mv.registered, mv.unregistered))
  {
    var mv := MoveCreep(from, to, c).value;
    MoveIsRemoveThenAdd(from, to, c);
    AddThenRemove(to, c);
    assert mv.from.AddCreep(c).Ok?;
    assert mv.from.AddCreep(c).value == from;
    MoveIsRemoveThenAdd(mv.to, mv.from, c);
  }

  // ---------------------------------------------------------------------
  // The class of game/gridnode.js
  // ---------------------------------------------------------------------

  /** One location of the game board. */
  class GridNode {
    var state: CellState
    const guid: nat
    var creepGuids: set<nat>
    var creepCount: nat
    var flyingCreepCount: nat
    var targetingTowerGuids: set<nat>
    var objGuid: Option<nat>
    const i: int
    const j: int

    function Model(): Node
      reads this
    {
      Node(state, creepGuids, creepCount, flyingCreepCount, targetingTowerGuids, objGuid)
    }

    constructor(guid: nat, i: int, j: int)
      ensures Model() == Fresh && this.guid == guid && this.i == i && this.j == j
    {
      state := OPEN;
      this.guid := guid;
      creepGuids := {};
      creepCount := 0;
      flyingCreepCount := 0;
      targetingTowerGuids := {};
      objGuid := None;
      this.i := i;
      this.j := j;
    }

    /** `setState`. */
    method SetState(s: CellState)
      modifies this
      ensures Model() == old(Model()).(state := s)
    {
      state := s;
    }

    /** `addCreep`: on success, the towers that must register the creep. */
    method AddCreep(c: Creep) returns (r: Result<set<nat>, GridError>)
      modifies this
      ensures old(Model()).AddCreep(c).Ok? ==>
        Model() == old(Model()).AddCreep(c).value && r == Ok(targetingTowerGuids)
      ensures old(Model()).AddCreep(c).Err? ==>
        Model() == old(Model()) && r == Err(old(Model()).AddCreep(c).error)
    {
      if !(state == OPEN || state == POPULATED || state == ENTRANCE || c.flying) {
        return Err(CreepNotAdmitted);
      }
      if c.guid in creepGuids {
        return Err(CreepAlreadyHere);
      }
      creepGuids := creepGuids + {c.guid};
      if c.flying {
        flyingCreepCount := flyingCreepCount + 1;
      } else {
        creepCount := creepCount + 1;
        if state == OPEN {
          SetState(POPULATED);
        }
      }
      r := Ok(targetingTowerGuids);
    }

    /** `removeCreep`: on success, the towers that must unregister the creep. */
    method RemoveCreep(c: Creep) returns (r: Result<set<nat>, GridError>)
      modifies this
      ensures Model() == old(Model()).RemoveCreep(c).0
      ensures r == match old(Model()).RemoveCreep(c).1
        case None => Ok(targetingTowerGuids)
        case Some(e) => Err(e)
    {
      if c.guid !in creepGuids {
        return Err(CreepNotHere);
      }
      creepGuids := creepGuids - {c.guid};
      if c.flying {
        if flyingCreepCount == 0 {
          return Err(CountUnderflow);
        }
        flyingCreepCount := flyingCreepCount - 1;
      } else {
        if creepCount == 0 {
          return Err(CountUnderflow);
        }
        creepCount := creepCount - 1;
        if state == POPULATED && creepCount == 0 {
          SetState(OPEN);
        }
      }
      r := Ok(targetingTowerGuids);
    }

    /** `GridNode.MoveCreepBetweenGridNodes`: on success, the towers that
        must unregister the creep and those that must register it. */
    static method MoveCreepBetweenGridNodes(fromNode: GridNode, toNode: GridNode, c: Creep)
      returns (r: Result<(set<nat>, set<nat>), GridError>)
      modifies fromNode, toNode
      ensures MoveCreep(old(fromNode.Model()), old(toNode.Model()), c).Ok? ==>
        var mv := MoveCreep(old(fromNode.Model()), old(toNode.Model()), c).value;
        fromNode.Model() == mv.from && toNode.Model() == mv.to &&
        r == Ok((mv.unregistered, mv.registered))
      ensures MoveCreep(old(fromNode.Model()), old(toNode.Model()), c).Err? ==>
        fromNode.Model() == old(fromNode.Model()) && toNode.Model() == old(toNode.Model()) &&
        r == Err(MoveCreep(old(fromNode.Model()), old(toNode.Model()), c).error)
    {
      if (c.flying && fromNode.flyingCreepCount == 0) || (!c.flying && fromNode.creepCount == 0) {
        return Err(CountUnderflow);
      }
      if c.guid !in fromNode.creepGuids {
        return Err(CreepNotHere);
      }
      if !(toNode.state == OPEN || toNode.state == POPULATED || toNode.state == ENTRANCE || c.flying) {
        return Err(CreepNotAdmitted);
      }
      if c.guid in toNode.creepGuids {
        return Err(CreepAlreadyHere);
      }
      ghost var oldTo := toNode.Model();
      fromNode.creepGuids := fromNode.creepGuids - {c.guid};
      if c.flying {
        fromNode.flyingCreepCount := fromNode.flyingCreepCount - 1;
        toNode.flyingCreepCount := toNode.flyingCreepCount + 1;
      } else {
        fromNode.creepCount := fromNode.creepCount - 1;
        if fromNode.state == POPULATED && fromNode.creepCount == 0 {
          fromNode.SetState(OPEN);
        }
        toNode.creepCount := toNode.creepCount + 1;
        if toNode.state == OPEN {
          toNode.SetState(POPULATED);
        }
      }
      toNode.creepGuids := toNode.creepGuids + {c.guid};
      r := Ok((fromNode.targetingTowerGuids - toNode.targetingTowerGuids,
               toNode.targetingTowerGuids - fromNode.targetingTowerGuids));
    }

    /** `addTower`. */
    method AddTower(tower: nat) returns (r: Option<GridError>)
      modifies this
      ensures (Model(), r) == old(Model()).AddObject(tower, TOWER)
    {
      r := AddObject(tower, TOWER);
    }

    /** `addObject`: the error thrown, if any. */
    method AddObject(obj: nat, s: CellState) returns (r: Option<GridError>)
      modifies this
      ensures (Model(), r) == old(Model()).AddObject(obj, s)
    {
      if state != OPEN {
        return Some(NotOpen);
      }
      if objGuid.Some? {
        return Some(Occupied);
      }
      if creepCount != 0 {
        return Some(HasCreeps);
      }
      objGuid := Some(obj);
      SetState(s);
      if state == OPEN {
        return Some(StillOpen);
      }
      r := None;
    }

    /** `removeObject`. */
    method RemoveObject(obj: nat) returns (r: Result<(), GridError>)
      modifies this
      ensures old(Model()).RemoveObject(obj).Ok? ==>
        Model() == old(Model()).RemoveObject(obj).value && r == Ok(())
      ensures old(Model()).RemoveObject(obj).Err? ==>
        Model() == old(Model()) && r == Err(old(Model()).RemoveObject(obj).error)
    {
      if objGuid != Some(obj) {
        return Err(WrongOccupant);
      }
      if creepCount != 0 {
        return Err(HasCreeps);
      }
      objGuid := None;
      SetState(OPEN);
      r := Ok(());
    }

    /** `removeTower`. */
    method RemoveTower(tower: nat) returns (r: Result<(), GridError>)
      modifies this
      ensures old(Model()).RemoveObject(tower).Ok? ==>
        Model() == old(Model()).RemoveObject(tower).value && r == Ok(())
      ensures old(Model()).RemoveObject(tower).Err? ==>
        Model() == old(Model()) && r == Err(old(Model()).RemoveObject(tower).error)
    {
      r := RemoveObject(tower);
    }

    /** `registerTargetingTower`: on success, the creeps in the cell. */
    method RegisterTargetingTower(tower: nat) returns (r: Result<set<nat>, GridError>)
      modifies this
      ensures old(Model()).RegisterTargetingTower(tower).Ok? ==>
        Model() == old(Model()).RegisterTargetingTower(tower).value.0 &&
        r == Ok(old(Model()).RegisterTargetingTower(tower).value.1)
      ensures old(Model()).RegisterTargetingTower(tower).Err? ==>
        Model() == old(Model()) && r == Err(old(Model()).RegisterTargetingTower(tower).error)
    {
      if tower in targetingTowerGuids {
        return Err(TowerAlreadyTargeting);
      }
      targetingTowerGuids := targetingTowerGuids + {tower};
      r := Ok(creepGuids);
    }

    /** `unregisterTargetingTower`. */
    method UnregisterTargetingTower(tower: nat) returns (r: Result<(), GridError>)
      modifies this
      ensures old(Model()).UnregisterTargetingTower(tower).Ok? ==>
        Model() == old(Model()).UnregisterTargetingTower(tower).value && r == Ok(())
      ensures old(Model()).UnregisterTargetingTower(tower).Err? ==>
        Model() == old(Model()) && r == Err(old(Model()).UnregisterTargetingTower(tower).error)
    {
      if tower !in targetingTowerGuids {
        return Err(TowerNotTargeting);
      }
      targetingTowerGuids := targetingTowerGuids - {tower};
      r := Ok(());
    }
  }
}
