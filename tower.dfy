/**
 * The towers of game/tower.js: what each kind costs and how it grows from
 * level to level, which creeps it may shoot at, the creeps it is currently
 * considering (`targetChoiceGuids`) and the one it aims at
 * (`targetCreepGuid`), and the cells of the board it registers with when
 * its range grows (`expandRange`).
 *
 * `TowerState` is the value-level model of a tower's fields and of every
 * operation; the class `Tower` keeps the source's fields and is proved to
 * compute what the model computes.  The board is the world's grid of
 * `GridNodes.Node` values, handed in and handed back.  A failed `assert` of
 * the source that an operation can reach is an `Err`; the assertions of
 * `expandRange` and of the placement in `init`, which the world's own
 * bookkeeping keeps true, are preconditions.
 */
module Towers {
  import opened Wrappers
  import opened States
  import opened GridNodes
  import opened SptModel

  /** O3D_TD_I_MAX and O3D_TD_J_MAX: the size of the game's board, which
      `expandRange` clamps the cells it visits to. */
  const IMax: nat := 36
  const JMax: nat := 36

  /** `Tower.Type`. */
  datatype TowerType = CANNON | FAST | HEAVY

  /** `Missile.Type`, as far as the level tables name it. */
  datatype MissileType = ARC | ZAP | BASIC

  /** `LevelInfo`: one row of a tower kind's level table. */
  datatype LevelInfo = LevelInfo(
    missileType: MissileType,
    damage: real,
    repeatDelay: int,
    towerHeight: real,
    missileSize: real,
    costIncrement: nat,
    buildDelay: int,
    range: real)

  /** The assertions of game/tower.js that a caller can trip. */
  datatype TowerError =
    | AlreadyAChoice       // a creep registered twice
    | NotAChoice           // a targetable creep unregistered that was never registered
    | UntargetableChoice   // an untargetable creep found among the choices
    | TargetMismatch       // a target set over another, or cleared when there is none
    | CannotUpgrade        // the upgrade cost asked of a busy or fully upgraded tower
    | Busy                 // an upgrade started while one is under way
    | NoNextLevel          // an upgrade past the last level (`levels[level + 1]` is undefined)

  // ---------------------------------------------------------------------
  // Level tables
  // ---------------------------------------------------------------------

  /** Math.ceil. */
  function Ceil(x: real): (r: int)
    ensures (r - 1) as real < x <= r as real
  {
    if x.Floor as real == x then x.Floor else x.Floor + 1
  }

  /** `new LevelInfo(...)`: both delays are rounded up to whole numbers and
      every other field is stored as given. */
  function NewLevelInfo(missileType: MissileType, damage: real, repeatDelay: real, towerHeight: real,
                        missileSize: real, costIncrement: nat, buildDelay: real, range: real): (l: LevelInfo)
    ensures (l.repeatDelay - 1) as real < repeatDelay <= l.repeatDelay as real
    ensures (l.buildDelay - 1) as real < buildDelay <= l.buildDelay as real
    ensures l.missileType == missileType && l.damage == damage && l.towerHeight == towerHeight
    ensures l.missileSize == missileSize && l.costIncrement == costIncrement && l.range == range
  {
    LevelInfo(missileType, damage, Ceil(repeatDelay), towerHeight, missileSize, costIncrement, Ceil(buildDelay), range)
  }

  /** The `levels` table of each kind.  The delays are the source's
      fractions of frames; as exact reals they round up to the same whole
      numbers as the doubles the source computes. */
  function Levels(kind: TowerType): (ls: seq<LevelInfo>)
    ensures |ls| == 3
  {
    match kind
    case CANNON => [
      NewLevelInfo(ARC, 1.0, 2.0, 0.7, 1.7, 20, 70.0 / 30.0, 5.0),
      NewLevelInfo(ARC, 3.0, 1.5, 0.7, 1.9, 30, 60.0 / 30.0, 6.25),
      NewLevelInfo(ARC, 6.0, 1.0, 0.7, 2.0, 50, 60.0 / 30.0, 7.5)]
    case FAST => [
      NewLevelInfo(ZAP, 0.25, 2.0, 0.7, 0.7, 10, 45.0 / 30.0, 5.0),
      NewLevelInfo(ZAP, 0.5, 1.0, 0.7, 0.9, 20, 30.0 / 30.0, 5.5),
      NewLevelInfo(ZAP, 2.0, 0.5, 0.7, 1.1, 40, 60.0 / 30.0, 6.0)]
    case HEAVY => [
      NewLevelInfo(BASIC, 0.5, 3.5, 0.7, 1.0, 5, 45.0 / 30.0, 5.0),
      NewLevelInfo(BASIC, 1.0, 2.5, 0.7, 1.2, 15, 10.0 / 30.0, 6.5),
      NewLevelInfo(BASIC, 2.0, 1.5, 0.7, 1.4, 30, 10.0 / 30.0, 8.0)]
  }

  /** `Tower.cost`: building a tower costs the increment of its first level. */
  function Cost(kind: TowerType): nat {
    Levels(kind)[0].costIncrement
  }

  /** `Tower.getLevelInfo`: the row of a level, or undefined past the table. */
  function GetLevelInfo(kind: TowerType, level: int): (r: Option<LevelInfo>)
    ensures r.Some? <==> 0 <= level < 3
    ensures r.Some? ==> r.value == Levels(kind)[level]
  {
    if 0 <= level < |Levels(kind)| then Some(Levels(kind)[level]) else None
  }

  /** What a tower of level `level` has cost in all: its build cost and the
      increments of every upgrade up to that level. */
  function TotalCost(kind: TowerType, level: nat): nat
    requires level < |Levels(kind)|
  {
    if level == 0 then Levels(kind)[0].costIncrement
    else TotalCost(kind, level - 1) + Levels(kind)[level].costIncrement
  }

  /** The numbers of the tables: build costs of 20, 10 and 5, upgrade
      increments, every range positive, and the rounded delays. */
  lemma TableValues()
    ensures Cost(CANNON) == 20 && Cost(FAST) == 10 && Cost(HEAVY) == 5
    ensures TotalCost(CANNON, 2) == 100 && TotalCost(FAST, 2) == 70 && TotalCost(HEAVY, 2) == 50
    ensures forall kind: TowerType, l :: 0 <= l < 3 ==> Levels(kind)[l].range > 0.0
    ensures Levels(CANNON)[0].buildDelay == 3 && Levels(FAST)[0].buildDelay == 2 && Levels(HEAVY)[1].buildDelay == 1
    ensures Levels(HEAVY)[0].repeatDelay == 4 && Levels(HEAVY)[1].repeatDelay == 3 && Levels(FAST)[2].repeatDelay == 1
  {
  }

  /** `canTargetCreep`: Cannon towers shoot only at flying creeps; the base
      version, which Fast towers keep, and Heavy towers only at walking ones. */
  predicate CanTargetCreep(kind: TowerType, c: Creep) {
    if kind == CANNON then c.flying else !c.flying
  }

  /** Every creep is a possible target of exactly one of a Cannon tower and
      a Heavy tower, and Fast towers choose as Heavy ones do. */
  lemma TargetingSplitsCreeps(c: Creep)
    ensures CanTargetCreep(CANNON, c) != CanTargetCreep(HEAVY, c)
    ensures CanTargetCreep(FAST, c) == CanTargetCreep(HEAVY, c)
    ensures CanTargetCreep(CANNON, c) <==> c.flying
  {
  }

  // ---------------------------------------------------------------------
  // The board around a tower
  // ---------------------------------------------------------------------

  /** The four cells a tower at (i, j) covers. */
  function Footprint(i: int, j: int): set<Cell> {
    {Cell(i, j), Cell(i + 1, j), Cell(i, j + 1), Cell(i + 1, j + 1)}
  }

  /** The grid is large enough for every cell `expandRange` can visit. */
  predicate Covers(g: seq<seq<Node>>) {
    IMax <= |g| && forall a :: 0 <= a < |g| ==> JMax <= |g[a]|
  }

  predicate OnGrid(g: seq<seq<Node>>, c: Cell) {
    0 <= c.i < |g| && 0 <= c.j < |g[c.i]|
  }

  /** The squared distance test of `expandRange`. */
  predicate InDisc(c: Cell, ci: real, cj: real, r: real) {
    (c.i as real - ci) * (c.i as real - ci) + (c.j as real - cj) * (c.j as real - cj) <= r * r
  }

  /** The cells of the game's board within range `r` of the point (ci, cj). */
  function Disc(ci: real, cj: real, r: real): set<Cell> {
    set a, b | 0 <= a < IMax && 0 <= b < JMax && InDisc(Cell(a, b), ci, cj, r) :: Cell(a, b)
  }

  /** The grid with `guid` added to the targeting towers of the given cells. */
  function Registered(g: seq<seq<Node>>, cells: set<Cell>, guid: nat): (r: seq<seq<Node>>)
    ensures |r| == |g| && forall a :: 0 <= a < |g| ==> |r[a]| == |g[a]|
    ensures forall a, b :: 0 <= a < |g| && 0 <= b < |g[a]| ==>
      r[a][b] == if Cell(a, b) in cells then g[a][b].(targetingTowerGuids := g[a][b].targetingTowerGuids + {guid}) else g[a][b]
  {
    seq(|g|, a requires 0 <= a < |g| =>
      seq(|g[a]|, b requires 0 <= b < |g[a]| =>
        if Cell(a, b) in cells then g[a][b].(targetingTowerGuids := g[a][b].targetingTowerGuids + {guid}) else g[a][b]))
  }

  /** The creeps standing in the given cells that a tower of this kind may
      shoot at; `flying` holds the guids of the flying creeps. */
  function Targetable(kind: TowerType, g: seq<seq<Node>>, cells: set<Cell>, flying: set<nat>): set<nat> {
    set c, x | c in cells && OnGrid(g, c) && x in g[c.i][c.j].creepGuids && CanTargetCreep(kind, Creep(x, x in flying)) :: x
  }

  /** Which of `creeps` a tower of this kind may shoot at. */
  function Eligible(kind: TowerType, creeps: set<nat>, flying: set<nat>): set<nat> {
    set x | x in creeps && CanTargetCreep(kind, Creep(x, x in flying))
  }

  /** Taking one more creep `x` out of `rest` adds `x` to the eligible
      creeps exactly when the tower may shoot at it. */
  lemma EligibleStep(kind: TowerType, creeps: set<nat>, rest: set<nat>, x: nat, flying: set<nat>)
    requires x in rest && rest <= creeps
    ensures Eligible(kind, creeps - (rest - {x}), flying) ==
      Eligible(kind, creeps - rest, flying) + if CanTargetCreep(kind, Creep(x, x in flying)) then {x} else {}
  {
    assert creeps - (rest - {x}) == (creeps - rest) + {x};
  }

  // ---------------------------------------------------------------------
  // The value-level tower
  // ---------------------------------------------------------------------

  /** The fields of a `Tower`: its kind, lower-left cell and guid, then
      what changes as it is built, upgraded and given targets.  The source's
      `targetNodesByGuid` is keyed by node; here it is the set of cells. */
  datatype TowerState = TowerState(
    kind: TowerType, i: int, j: int, guid: nat,
    level: nat, cost: nat, upgradeTimeLeft: real, range: real,
    choices: set<nat>, target: Option<nat>, targetNodes: set<Cell>)
  {
    /** `centerI`, `centerJ`: the middle of the 2x2 footprint. */
    function CenterI(): real { i as real + 0.5 }
    function CenterJ(): real { j as real + 0.5 }

    /** What every operation keeps: a level of the table, a cost that is
        the sum of the increments paid so far, and a target (if any) among
        the choices. */
    ghost predicate Valid() {
      && level < |Levels(kind)|
      && cost == TotalCost(kind, level)
      && (target.Some? ==> target.value in choices)
    }

    /** `isUpgrading`. */
    predicate IsUpgrading() {
      upgradeTimeLeft > 0.0
    }

    /** `canUpgrade`. */
    predicate CanUpgrade() {
      !IsUpgrading() && level + 1 < |Levels(kind)|
    }

    /** `getUpgradeCost`: the next level's increment. */
    function UpgradeCost(): Result<nat, TowerError> {
      if !CanUpgrade() then Err(CannotUpgrade) else Ok(Levels(kind)[level + 1].costIncrement)
    }

    /** `registerTargetCreep`: a creep already among the choices trips the
        assertion; an untargetable or dead one is ignored; otherwise the
        creep becomes a choice, and the target when there is none. */
    function RegisterTargetCreep(c: Creep, dead: bool): Result<TowerState, TowerError> {
      if c.guid in choices then Err(AlreadyAChoice)
      else if !CanTargetCreep(kind, c) || dead then Ok(this)
      else
        var t := this.(choices := choices + {c.guid});
        if target.None? then Ok(t.(target := Some(c.guid))) else Ok(t)
    }

    /** `unregisterTargetCreep`: the tower afterwards, and whether the
        target was dropped (the source then aims at one of the remaining
        choices, if any; see `Retargeted`). */
    function UnregisterTargetCreep(c: Creep): Result<(TowerState, bool), TowerError> {
      if !CanTargetCreep(kind, c) then
        if c.guid in choices then Err(UntargetableChoice) else Ok((this, false))
      else if c.guid !in choices then Err(NotAChoice)
      else
        var t := this.(choices := choices - {c.guid});
        if target == Some(c.guid) then Ok((t.(target := None), true)) else Ok((t, false))
    }

    /** `setTargetCreepGuid`: a target may be set only when there is none,
        and cleared only when there is one. */
    function SetTargetCreepGuid(g: Option<nat>): Result<TowerState, TowerError> {
      if g.Some? == target.Some? then Err(TargetMismatch) else Ok(this.(target := g))
    }

    /** The cells `expandRange` registers with: those in range not yet
        registered. */
    function Gain(): set<Cell> {
      Disc(CenterI(), CenterJ(), range) - targetNodes
    }

    /** The assertions `expandRange` makes, which hold on the world's
        grid: a positive range, a board large enough, no new cell that
        already knows the tower, and no creep of a new cell that is already a
        choice (in particular none standing in two new cells at once). */
    ghost predicate CanExpand(g: seq<seq<Node>>) {
      && range > 0.0
      && Covers(g)
      && (forall c :: c in Gain() ==> guid !in g[c.i][c.j].targetingTowerGuids && g[c.i][c.j].creepGuids !! choices)
      && (forall c, d :: c in Gain() && d in Gain() && c != d ==> g[c.i][c.j].creepGuids !! g[d.i][d.j].creepGuids)
    }

    /** Registering with the cells of `cells` not yet registered: they join
        the target nodes, learn the tower's guid, and hand it the creeps on
        them it may shoot at. */
    function ExpandOver(g: seq<seq<Node>>, flying: set<nat>, cells: set<Cell>): (TowerState, seq<seq<Node>>) {
      var gain := cells - targetNodes;
      (this.(targetNodes := targetNodes + gain, choices := choices + Targetable(kind, g, gain, flying)),
       Registered(g, gain, guid))
    }

    /** `expandRange`. */
    function ExpandRange(g: seq<seq<Node>>, flying: set<nat>): (TowerState, seq<seq<Node>>) {
      ExpandOver(g, flying, Disc(CenterI(), CenterJ(), range))
    }

    /** The field updates of `setUpgrading`: starting an upgrade pays the
        increment and moves up a level, and outside the setup phase the
        upgrade takes `delay` frames; the range is refreshed whenever the
        source then expands it (`Expands`). */
    function Upgrading(upgrading: bool, delay: int, addedCost: nat, settingUp: bool): TowerState
      requires upgrading ==> level + 1 < |Levels(kind)|
      requires !upgrading ==> level < |Levels(kind)|
    {
      var t1 := if upgrading then this.(cost := cost + addedCost, level := level + 1) else this;
      var t2 := if upgrading && !settingUp then t1.(upgradeTimeLeft := delay as real) else t1;
      if Expands(upgrading, t2.level, settingUp) then t2.(range := Levels(kind)[t2.level].range) else t2
    }

    /** `upgrade`: a busy tower trips the assertion, a fully upgraded one
        fails reading the delay of a level that does not exist; otherwise
        `setUpgrading(true, getUpgradeDelay(), getUpgradeCost())`, before the
        range is expanded. */
    function Upgrade(settingUp: bool): Result<TowerState, TowerError>
      requires level < |Levels(kind)|
    {
      if IsUpgrading() then Err(Busy)
      else if level + 1 >= |Levels(kind)| then Err(NoNextLevel)
      else Ok(Upgrading(true, Levels(kind)[level + 1].buildDelay, Levels(kind)[level + 1].costIncrement, settingUp))
    }

    /** The tower as `init` leaves it before its range is expanded: no
        choices and no target nodes, the build delay outside the setup
        phase, and the range of level 0. */
    function Building(settingUp: bool): TowerState
      requires level < |Levels(kind)|
    {
      var t := this.(choices := {}, targetNodes := {});
      var t := if settingUp then t else t.(upgradeTimeLeft := Levels(kind)[level].buildDelay as real);
      t.(range := Levels(kind)[level].range)
    }
  }

  /** The condition of `setUpgrading` for expanding the range: the end of a
      real upgrade, or any change during the setup phase. */
  predicate Expands(upgrading: bool, level: nat, settingUp: bool) {
    (!upgrading && level > 0) || settingUp
  }

  /** A new tower as `Tower.newInstance` and the first lines of `init` make
      it: level 0, having cost the build cost, nothing to shoot at. */
  function NewTower(kind: TowerType, i: int, j: int, guid: nat): TowerState {
    TowerState(kind, i, j, guid, 0, Cost(kind), 0.0, 0.0, {}, None, {})
  }

  /** A tower whose target was dropped aims at one of its remaining
      choices, if there are any, and changes nothing else. */
  ghost predicate Retargeted(t: TowerState, t': TowerState) {
    && t' == t.(target := t'.target)
    && (t'.target.None? <==> t.choices == {})
    && (t'.target.Some? ==> t'.target.value in t.choices)
  }

  /** The grid with the four cells of a footprint taken by tower `guid`
      (`node.addTower` on each). */
  function WithTower(g: seq<seq<Node>>, i: int, j: int, guid: nat): (r: seq<seq<Node>>)
    ensures |r| == |g| && forall a :: 0 <= a < |g| ==> |r[a]| == |g[a]|
  {
    seq(|g|, a requires 0 <= a < |g| =>
      seq(|g[a]|, b requires 0 <= b < |g[a]| =>
        if Cell(a, b) in Footprint(i, j) then g[a][b].AddObject(guid, TOWER).0 else g[a][b]))
  }

  /** The footprint of a tower at (i, j) is on the grid and free: OPEN, with
      no object and no walking creep. */
  ghost predicate FootprintFree(g: seq<seq<Node>>, i: int, j: int) {
    forall c :: c in Footprint(i, j) ==>
      OnGrid(g, c) && g[c.i][c.j].state == OPEN && g[c.i][c.j].objGuid.None? && g[c.i][c.j].creepCount == 0
  }

  // ---------------------------------------------------------------------
  // Properties of the model
  // ---------------------------------------------------------------------

  /** Registering and unregistering keep the invariant: the target, when
      there is one, is always among the choices. */
  lemma TargetingKeepsValid(t: TowerState, c: Creep, dead: bool, t': TowerState)
    requires t.Valid()
    ensures t.RegisterTargetCreep(c, dead).Ok? ==> t.RegisterTargetCreep(c, dead).value.Valid()
    ensures t.UnregisterTargetCreep(c).Ok? && !t.UnregisterTargetCreep(c).value.1 ==> t.UnregisterTargetCreep(c).value.0.Valid()
    ensures t.UnregisterTargetCreep(c).Ok? && t.UnregisterTargetCreep(c).value.1 && Retargeted(t.UnregisterTargetCreep(c).value.0, t') ==> t'.Valid()
  {
  }

  /** `registerTargetCreep` fails exactly on a creep already a choice; it
      adds exactly the live creeps the tower may shoot at, and aims at the
      new creep exactly when there was no target. */
  lemma RegisterSpec(t: TowerState, c: Creep, dead: bool)
    ensures t.RegisterTargetCreep(c, dead).Err? <==> c.guid in t.choices
    ensures t.RegisterTargetCreep(c, dead).Ok? ==>
      var t' := t.RegisterTargetCreep(c, dead).value;
      && t'.choices == (if CanTargetCreep(t.kind, c) && !dead then t.choices + {c.guid} else t.choices)
      && t'.target == (if t.target.None? && CanTargetCreep(t.kind, c) && !dead then Some(c.guid) else t.target)
      && t' == t.(choices := t'.choices, target := t'.target)
  {
  }

  /** `unregisterTargetCreep` removes a present targetable creep and
      nothing else; the target is dropped exactly when it was that creep. */
  lemma UnregisterSpec(t: TowerState, c: Creep)
    requires t.Valid()
    ensures t.UnregisterTargetCreep(c).Err? <==> (c.guid in t.choices <==> !CanTargetCreep(t.kind, c))
    ensures t.UnregisterTargetCreep(c).Ok? ==>
      var (t', dropped) := t.UnregisterTargetCreep(c).value;
      && t'.choices == t.choices - {c.guid}
      && (dropped <==> t.target == Some(c.guid))
      && t'.target == (if dropped then None else t.target)
      && t' == t.(choices := t'.choices, target := t'.target)
  {
  }

  /** Unregistering a creep just registered gives back the tower, as long
      as the tower already had a target to keep. */
  lemma RegisterThenUnregister(t: TowerState, c: Creep)
    requires t.Valid() && t.target.Some? && CanTargetCreep(t.kind, c)
    requires t.RegisterTargetCreep(c, false).Ok?
    ensures t.RegisterTargetCreep(c, false).value.UnregisterTargetCreep(c) == Ok((t, false))
  {
    var t1 := t.RegisterTargetCreep(c, false).value;
    assert t1.choices - {c.guid} == t.choices;
  }

  /** A finished upgrade (or any change in the setup phase) refreshes the
      range; starting an upgrade pays exactly the next increment and moves
      up exactly one level, keeping the invariant. */
  lemma UpgradeSpec(t: TowerState, settingUp: bool)
    requires t.Valid()
    ensures t.Upgrade(settingUp).Ok? <==> t.CanUpgrade()
    ensures t.CanUpgrade() ==>
      var t' := t.Upgrade(settingUp).value;
      && t'.Valid()
      && t'.level == t.level + 1
      && t'.cost == t.cost + t.UpgradeCost().value
      && (settingUp ==> !t'.IsUpgrading() && t'.range == Levels(t.kind)[t'.level].range)
      && (!settingUp ==> t'.upgradeTimeLeft == Levels(t.kind)[t'.level].buildDelay as real && t'.range == t.range)
      && t'.choices == t.choices && t'.target == t.target && t'.targetNodes == t.targetNodes
  {
  }

  /** The tower's cost is what its levels add up to: a fully upgraded tower
      has paid the build cost and both increments. */
  lemma TotalCostSum(kind: TowerType, level: nat)
    requires level < |Levels(kind)|
    ensures TotalCost(kind, level) >= Cost(kind)
    ensures level > 0 ==> TotalCost(kind, level) > TotalCost(kind, level - 1)
  {
  }

  /** `expandRange` keeps the invariant, and after it every cell in range
      is a target node. */
  lemma ExpandKeepsValid(t: TowerState, g: seq<seq<Node>>, flying: set<nat>)
    requires t.Valid()
    ensures t.ExpandRange(g, flying).0.Valid()
    ensures Disc(t.CenterI(), t.CenterJ(), t.range) <= t.ExpandRange(g, flying).0.targetNodes
    ensures t.ExpandRange(g, flying).0.choices >= t.choices
  {
  }

  /** A second `expandRange` at the same range registers nothing: each cell
      learns the tower's guid once. */
  lemma ExpandIdempotent(t: TowerState, g: seq<seq<Node>>, flying: set<nat>)
    ensures var (t1, g1) := t.ExpandRange(g, flying);
      t1.ExpandRange(g1, flying) == (t1, g1)
  {
    var (t1, g1) := t.ExpandRange(g, flying);
    var d := Disc(t.CenterI(), t.CenterJ(), t.range);
    assert d - t1.targetNodes == {};
    assert Targetable(t1.kind, g1, {}, flying) == {};
    var g2 := Registered(g1, {}, t1.guid);
    forall a | 0 <= a < |g1| ensures g2[a] == g1[a] {
      assert forall b :: 0 <= b < |g1[a]| ==> g2[a][b] == g1[a][b];
    }
    assert g2 == g1;
    assert t1.(targetNodes := t1.targetNodes + {}, choices := t1.choices + {}) == t1;
  }

  /** The cells that gain the tower's guid are exactly the cells in range
      that were not target nodes before; every other cell keeps its
      targeting towers, and no cell changes anything else. */
  lemma ExpandRegistersDisc(t: TowerState, g: seq<seq<Node>>, flying: set<nat>, a: int, b: int)
    requires t.CanExpand(g) && 0 <= a < |g| && 0 <= b < |g[a]|
    ensures var g1 := t.ExpandRange(g, flying).1;
      && (g1[a][b].targetingTowerGuids - g[a][b].targetingTowerGuids ==
          if Cell(a, b) in Disc(t.CenterI(), t.CenterJ(), t.range) && Cell(a, b) !in t.targetNodes then {t.guid} else {})
      && g1[a][b] == g[a][b].(targetingTowerGuids := g1[a][b].targetingTowerGuids)
  {
    var c := Cell(a, b);
    if c in t.Gain() {
      assert t.guid !in g[a][b].targetingTowerGuids;
    }
  }

  // ---------------------------------------------------------------------
  // The box `expandRange` sweeps
  // ---------------------------------------------------------------------

  /** The first row or column of the sweep: Math.max(0, Math.floor(centre - range)). */
  function BoxLo(centre: real, r: real): int {
    Max(0, (centre - r).Floor)
  }

  /** The last one: Math.min(n - 1, Math.ceil(centre + range)). */
  function BoxHi(centre: real, r: real, n: nat): int {
    Min(n - 1, Ceil(centre + r))
  }

  /** A coordinate within `r` of the centre, squared. */
  lemma SquareBound(d: real, e: real, r: real)
    requires r >= 0.0 && d * d + e * e <= r * r
    ensures -r <= d <= r
  {
    assert e * e >= 0.0;
    var a := if d >= 0.0 then d else -d;
    var k := a - r;
    assert a * a == d * d;
    assert a * a == r * r + 2.0 * r * k + k * k;
    assert k > 0.0 ==> k * k > 0.0 && r * k >= 0.0;
  }

  /** The sweep of `expandRange` misses no cell in range: a cell of the
      board lies in the disc exactly when it lies in the clamped box and
      passes the distance test. */
  lemma BoxCoversDisc(ci: real, cj: real, r: real, a: int, b: int)
    requires r >= 0.0
    ensures Cell(a, b) in Disc(ci, cj, r) <==>
      && BoxLo(ci, r) <= a <= BoxHi(ci, r, IMax) && BoxLo(cj, r) <= b <= BoxHi(cj, r, JMax)
      && InDisc(Cell(a, b), ci, cj, r)
  {
    if InDisc(Cell(a, b), ci, cj, r) {
      SquareBound(a as real - ci, b as real - cj, r);
      SquareBound(b as real - cj, a as real - ci, r);
    }
  }

  /** The box `expandRange` sweeps for tower `t`: rows `ILo(t)` to
      `IHi(t)`, columns `JLo(t)` to `JHi(t)`. */
  function ILo(t: TowerState): int { BoxLo(t.CenterI(), t.range) }
  function IHi(t: TowerState): int { BoxHi(t.CenterI(), t.range, IMax) }
  function JLo(t: TowerState): int { BoxLo(t.CenterJ(), t.range) }
  function JHi(t: TowerState): int { BoxHi(t.CenterJ(), t.range, JMax) }

  /** The cells in range the sweep of `t` has passed once it reaches
      (iT, jT). */
  function Swept(t: TowerState, iT: int, jT: int): set<Cell> {
    set a, b | ILo(t) <= a <= IHi(t) && JLo(t) <= b <= JHi(t) && (a < iT || (a == iT && b < jT))
      && InDisc(Cell(a, b), t.CenterI(), t.CenterJ(), t.range) :: Cell(a, b)
  }

  lemma SweptNext(t: TowerState, iT: int, jT: int)
    requires ILo(t) <= iT <= IHi(t) && JLo(t) <= jT <= JHi(t)
    ensures 0 <= iT < IMax && 0 <= jT < JMax
    ensures Swept(t, iT, jT) <= Disc(t.CenterI(), t.CenterJ(), t.range) && Cell(iT, jT) !in Swept(t, iT, jT)
    ensures Swept(t, iT, jT + 1) ==
      Swept(t, iT, jT) + if InDisc(Cell(iT, jT), t.CenterI(), t.CenterJ(), t.range) then {Cell(iT, jT)} else {}
  {
  }

  lemma SweptRow(t: TowerState, iT: int, jT: int)
    requires JHi(t) < jT
    ensures Swept(t, iT, jT) == Swept(t, iT + 1, JLo(t))
  {
  }

  /** Nothing is swept at the start; everything in range at the end. */
  lemma SweptEnds(t: TowerState)
    requires t.range >= 0.0
    ensures Swept(t, ILo(t), JLo(t)) == {}
    ensures Swept(t, Max(ILo(t), IHi(t) + 1), JLo(t)) == Disc(t.CenterI(), t.CenterJ(), t.range)
  {
    var s := Swept(t, Max(ILo(t), IHi(t) + 1), JLo(t));
    forall c | c in Disc(t.CenterI(), t.CenterJ(), t.range) ensures c in s {
      BoxCoversDisc(t.CenterI(), t.CenterJ(), t.range, c.i, c.j);
    }
  }

  // ---------------------------------------------------------------------
  // One cell of the sweep
  // ---------------------------------------------------------------------

  /** Expanding over no cells changes nothing. */
  lemma ExpandOverNone(t: TowerState, g: seq<seq<Node>>, flying: set<nat>)
    ensures t.ExpandOver(g, flying, {}) == (t, g)
  {
    assert {} - t.targetNodes == {};
    var (t1, g1) := t.ExpandOver(g, flying, {});
    forall a | 0 <= a < |g| ensures g1[a] == g[a] {
      assert forall b :: 0 <= b < |g[a]| ==> g1[a][b] == g[a][b];
    }
    assert g1 == g;
    assert Targetable(t.kind, g, {}, flying) == {};
    assert t1 == t;
  }

  lemma RegisteredAdd(g: seq<seq<Node>>, s: set<Cell>, c: Cell, guid: nat)
    requires OnGrid(g, c) && c !in s
    ensures var g1 := Registered(g, s, guid);
      Registered(g, s + {c}, guid) ==
        g1[c.i := g1[c.i][c.j := g[c.i][c.j].(targetingTowerGuids := g[c.i][c.j].targetingTowerGuids + {guid})]]
  {
    var g1 := Registered(g, s, guid);
    var g2 := Registered(g, s + {c}, guid);
    var g3 := g1[c.i := g1[c.i][c.j := g[c.i][c.j].(targetingTowerGuids := g[c.i][c.j].targetingTowerGuids + {guid})]];
    forall a | 0 <= a < |g| ensures g2[a] == g3[a] {
      assert forall b :: 0 <= b < |g[a]| ==> g2[a][b] == g3[a][b];
    }
  }

  lemma TargetableAdd(kind: TowerType, g: seq<seq<Node>>, s: set<Cell>, c: Cell, flying: set<nat>)
    requires OnGrid(g, c)
    ensures Targetable(kind, g, s + {c}, flying) ==
      Targetable(kind, g, s, flying) + Eligible(kind, g[c.i][c.j].creepGuids, flying)
  {
    var e := Eligible(kind, g[c.i][c.j].creepGuids, flying);
    forall x | x in e ensures x in Targetable(kind, g, s + {c}, flying) {
      assert c in s + {c} && x in g[c.i][c.j].creepGuids;
    }
  }

  /** The creeps of a new cell are none of the choices gathered so far:
      not the old ones, and not those of other new cells. */
  lemma NewCreepsApart(t: TowerState, g: seq<seq<Node>>, flying: set<nat>, s: set<Cell>, c: Cell)
    requires t.CanExpand(g) && s <= t.Gain() && c in t.Gain() && c !in s
    ensures g[c.i][c.j].creepGuids !! t.choices + Targetable(t.kind, g, s, flying)
  {
    forall x | x in Targetable(t.kind, g, s, flying) ensures x !in g[c.i][c.j].creepGuids {
      var d :| d in s && OnGrid(g, d) && x in g[d.i][d.j].creepGuids;
      assert g[c.i][c.j].creepGuids !! g[d.i][d.j].creepGuids;
    }
  }

  /** Taking the footprint changes only the state and occupant of its
      four cells. */
  lemma WithTowerKeeps(g: seq<seq<Node>>, i: int, j: int, guid: nat, a: int, b: int)
    requires 0 <= a < |g| && 0 <= b < |g[a]|
    ensures var n := WithTower(g, i, j, guid)[a][b];
      && n.creepGuids == g[a][b].creepGuids && n.targetingTowerGuids == g[a][b].targetingTowerGuids
      && n.creepCount == g[a][b].creepCount && n.flyingCreepCount == g[a][b].flyingCreepCount
  {
  }

  /** Taking the footprint does not disturb what `expandRange` needs. */
  lemma WithTowerCanExpand(t: TowerState, g: seq<seq<Node>>, i: int, j: int, guid: nat)
    requires t.CanExpand(g)
    ensures t.CanExpand(WithTower(g, i, j, guid))
  {
    var g1: seq<seq<Node>> := WithTower(g, i, j, guid);
    forall c: Cell | c in t.Gain()
      ensures g1[c.i][c.j].creepGuids == g[c.i][c.j].creepGuids
      ensures g1[c.i][c.j].targetingTowerGuids == g[c.i][c.j].targetingTowerGuids
    {
      WithTowerKeeps(g, i, j, guid, c.i, c.j);
    }
  }

  /** Taking a free footprint leaves its four cells TOWER cells of the new
      tower, and every other cell as it was. */
  lemma WithTowerSpec(g: seq<seq<Node>>, i: int, j: int, guid: nat)
    requires FootprintFree(g, i, j)
    ensures var g1 := WithTower(g, i, j, guid);
      forall a, b :: 0 <= a < |g| && 0 <= b < |g[a]| ==>
        g1[a][b] == if Cell(a, b) in Footprint(i, j) then g[a][b].(state := TOWER, objGuid := Some(guid)) else g[a][b]
  {
  }

  // ---------------------------------------------------------------------
  // The class of game/tower.js
  // ---------------------------------------------------------------------

  /** A tower on the board. */
  class Tower {
    const kind: TowerType
    const i: int
    const j: int
    const guid: nat
    var level: nat
    var cost: nat
    var upgradeTimeLeft: real
    var range: real
    var targetChoiceGuids: set<nat>
    var targetCreepGuid: Option<nat>
    var targetNodes: set<Cell>

    function Model(): TowerState
      reads this
    {
      TowerState(kind, i, j, guid, level, cost, upgradeTimeLeft, range, targetChoiceGuids, targetCreepGuid, targetNodes)
    }

    /** `Tower.newInstance` and the field assignments at the head of `init`. */
    constructor(i: int, j: int, kind: TowerType, guid: nat)
      ensures Model() == NewTower(kind, i, j, guid)
    {
      this.kind := kind;
      this.i := i;
      this.j := j;
      this.guid := guid;
      level := 0;
      cost := Levels(kind)[0].costIncrement;
      upgradeTimeLeft := 0.0;
      range := 0.0;
      targetChoiceGuids := {};
      targetCreepGuid := None;
      targetNodes := {};
    }

    /** The rest of `init`: the tower takes its four cells, gets the delay
        and range of its level (`setBuilding`), registers with every cell in
        range, and aims at one of the creeps it found, if any. */
    method Init(g: seq<seq<Node>>, settingUp: bool, flying: set<nat>) returns (g': seq<seq<Node>>)
      requires level < |Levels(kind)| && targetCreepGuid.None?
      requires FootprintFree(g, i, j) && Model().Building(settingUp).CanExpand(g)
      modifies this
      ensures var (t, g1) := old(Model()).Building(settingUp).ExpandRange(WithTower(g, i, j, guid), flying);
        g' == g1 && Retargeted(t, Model())
    {
      g' := PlaceFootprint(g);
      SetBuilding(settingUp);
      WithTowerCanExpand(Model(), g, i, j, guid);
      g' := ExpandRange(g', flying);
      PickTarget();
    }

    /** The fields `init` resets, then `setBuilding(false)`: the build
        delay outside the setup phase, and the range of the level. */
    method SetBuilding(settingUp: bool)
      requires level < |Levels(kind)|
      modifies this
      ensures Model() == old(Model()).Building(settingUp)
    {
      targetChoiceGuids := {};
      targetNodes := {};
      if !settingUp {
        upgradeTimeLeft := Levels(kind)[level].buildDelay as real;
      }
      range := Levels(kind)[level].range;
    }

    /** The loop that aims a tower without a target at the first of its
        choices, if any. */
    method PickTarget()
      requires targetCreepGuid.None?
      modifies this
      ensures Retargeted(old(Model()), Model())
    {
      if targetChoiceGuids != {} {
        var x :| x in targetChoiceGuids;
        var _ := SetTargetCreepGuid(Some(x));
      }
    }

    /** `node.addTower(this)` on each of the four covered cells. */
    method PlaceFootprint(g: seq<seq<Node>>) returns (g': seq<seq<Node>>)
      requires FootprintFree(g, i, j)
      ensures g' == WithTower(g, i, j, guid)
    {
      g' := g;
      var cells := [Cell(i, j), Cell(i + 1, j), Cell(i, j + 1), Cell(i + 1, j + 1)];
      for k := 0 to 4
        invariant |g'| == |g| && forall a :: 0 <= a < |g| ==> |g'[a]| == |g[a]|
        invariant forall a, b :: 0 <= a < |g| && 0 <= b < |g[a]| ==>
          g'[a][b] == if Cell(a, b) in cells[..k] then g[a][b].AddObject(guid, TOWER).0 else g[a][b]
      {
        var c := cells[k];
        assert c in Footprint(i, j);
        g' := g'[c.i := g'[c.i][c.j := g'[c.i][c.j].AddObject(guid, TOWER).0]];
      }
      assert cells[..4] == cells;
      assert forall c :: c in cells <==> c in Footprint(i, j);
      ghost var o := WithTower(g, i, j, guid);
      forall a | 0 <= a < |g| ensures g'[a] == o[a] {
        assert forall b :: 0 <= b < |g[a]| ==> g'[a][b] == o[a][b];
      }
    }

    /** `expandRange`: the sweep of the clamped box around the centre,
        registering with every cell in range not yet registered. */
    method ExpandRange(g: seq<seq<Node>>, flying: set<nat>) returns (g': seq<seq<Node>>)
      requires Model().CanExpand(g)
      modifies this
      ensures (Model(), g') == old(Model()).ExpandRange(g, flying)
    {
      var t0 := Model();
      var iMin, iMax, jMin, jMax := ILo(t0), IHi(t0), JLo(t0), JHi(t0);
      var range2 := t0.range * t0.range;
      SweptEnds(t0);
      ExpandOverNone(t0, g, flying);
      g' := g;
      var iT := iMin;
      while iT <= iMax
        invariant iMin <= iT <= Max(iMin, iMax + 1)
        invariant (Model(), g') == t0.ExpandOver(g, flying, Swept(t0, iT, jMin))
      {
        g' := SweepRow(t0, g, g', flying, iT, jMin, jMax, range2);
        iT := iT + 1;
      }
    }

    /** One row of the sweep: columns jMin to jMax of row iT. */
    method SweepRow(ghost t0: TowerState, ghost g: seq<seq<Node>>, g0: seq<seq<Node>>, flying: set<nat>,
                    iT: int, jMin: int, jMax: int, range2: real)
      returns (g': seq<seq<Node>>)
      requires t0.CanExpand(g) && ILo(t0) <= iT <= IHi(t0)
      requires jMin == JLo(t0) && jMax == JHi(t0) && range2 == t0.range * t0.range
      requires (Model(), g0) == t0.ExpandOver(g, flying, Swept(t0, iT, jMin))
      modifies this
      ensures (Model(), g') == t0.ExpandOver(g, flying, Swept(t0, iT + 1, jMin))
    {
      g' := g0;
      var jT := jMin;
      while jT <= jMax
        invariant jMin <= jT <= Max(jMin, jMax + 1)
        invariant (Model(), g') == t0.ExpandOver(g, flying, Swept(t0, iT, jT))
      {
        SweptNext(t0, iT, jT);
        g' := SweepCell(t0, g, g', flying, Swept(t0, iT, jT), Cell(iT, jT), range2);
        jT := jT + 1;
      }
      SweptRow(t0, iT, jT);
    }

    /** The body of the sweep at cell `c`: the distance test, then
        registration with the cell unless it is already a target node. */
    method SweepCell(ghost t0: TowerState, ghost g: seq<seq<Node>>, g0: seq<seq<Node>>, flying: set<nat>, ghost s: set<Cell>, c: Cell, range2: real)
      returns (g': seq<seq<Node>>)
      requires t0.CanExpand(g) && range2 == t0.range * t0.range
      requires s <= Disc(t0.CenterI(), t0.CenterJ(), t0.range) && c !in s
      requires 0 <= c.i < IMax && 0 <= c.j < JMax
      requires (Model(), g0) == t0.ExpandOver(g, flying, s)
      modifies this
      ensures var s' := s + if InDisc(c, t0.CenterI(), t0.CenterJ(), range) then {c} else {};
        (Model(), g') == t0.ExpandOver(g, flying, s')
    {
      g' := g0;
      assert range == t0.range;
      var dI := c.i as real - (i as real + 0.5);
      var dJ := c.j as real - (j as real + 0.5);
      assert InDisc(c, t0.CenterI(), t0.CenterJ(), range) <==> dI * dI + dJ * dJ <= range2;
      if dI * dI + dJ * dJ <= range2 {
        assert c in Disc(t0.CenterI(), t0.CenterJ(), t0.range);
        if c !in targetNodes {
          ghost var gain := s - t0.targetNodes;
          assert (s + {c}) - t0.targetNodes == gain + {c};
          assert c in t0.Gain() && gain <= t0.Gain();
          NewCreepsApart(t0, g, flying, gain, c);
          RegisteredAdd(g, gain, c, guid);
          TargetableAdd(kind, g, gain, c, flying);
          assert g0[c.i][c.j] == g[c.i][c.j];
          targetNodes := targetNodes + {c};
          var reg := g'[c.i][c.j].RegisterTargetingTower(guid);
          assert reg == Ok((g[c.i][c.j].(targetingTowerGuids := g[c.i][c.j].targetingTowerGuids + {guid}), g[c.i][c.j].creepGuids));
          g' := g'[c.i := g'[c.i][c.j := reg.value.0]];
          AddChoices(reg.value.1, flying);
          assert g' == t0.ExpandOver(g, flying, s + {c}).1;
          assert Model() == t0.ExpandOver(g, flying, s + {c}).0;
        } else {
          assert (s + {c}) - t0.targetNodes == s - t0.targetNodes;
          assert (Model(), g') == t0.ExpandOver(g, flying, s + {c});
        }
      } else {
        assert s + {} == s;
      }
    }

    /** The loop of `expandRange` over the creeps a new cell hands back:
        each is checked not to be a choice yet, and becomes one if the tower
        may shoot at it. */
    method AddChoices(creeps: set<nat>, flying: set<nat>)
      requires creeps !! targetChoiceGuids
      modifies this
      ensures Model() == old(Model()).(choices := old(targetChoiceGuids) + Eligible(kind, creeps, flying))
    {
      var rest := creeps;
      while rest != {}
        invariant rest <= creeps && rest !! targetChoiceGuids
        invariant targetChoiceGuids == old(targetChoiceGuids) + Eligible(kind, creeps - rest, flying)
        modifies this`targetChoiceGuids
        decreases |rest|
      {
        var x :| x in rest;
        EligibleStep(kind, creeps, rest, x, flying);
        if CanTargetCreep(kind, Creep(x, x in flying)) {
          targetChoiceGuids := targetChoiceGuids + {x};
        }
        rest := rest - {x};
      }
    }

    /** `registerTargetCreep`. */
    method RegisterTargetCreep(c: Creep, dead: bool) returns (r: Result<(), TowerError>)
      modifies this
      ensures old(Model()).RegisterTargetCreep(c, dead).Ok? ==>
        r.Ok? && Model() == old(Model()).RegisterTargetCreep(c, dead).value
      ensures old(Model()).RegisterTargetCreep(c, dead).Err? ==>
        r == Err(old(Model()).RegisterTargetCreep(c, dead).error) && Model() == old(Model())
    {
      if c.guid in targetChoiceGuids {
        return Err(AlreadyAChoice);
      }
      if !CanTargetCreep(kind, c) || dead {
        return Ok(());
      }
      targetChoiceGuids := targetChoiceGuids + {c.guid};
      if targetCreepGuid.None? {
        var _ := SetTargetCreepGuid(Some(c.guid));
      }
      r := Ok(());
    }

    /** `unregisterTargetCreep`: when the target goes, the tower aims at
        one of the remaining choices, if any. */
    method UnregisterTargetCreep(c: Creep) returns (r: Result<(), TowerError>)
      modifies this
      ensures old(Model()).UnregisterTargetCreep(c).Err? ==>
        r == Err(old(Model()).UnregisterTargetCreep(c).error) && Model() == old(Model())
      ensures old(Model()).UnregisterTargetCreep(c).Ok? ==> (r.Ok? &&
        var (t, dropped) := old(Model()).UnregisterTargetCreep(c).value;
        if dropped then Retargeted(t, Model()) else Model() == t)
    {
      if !CanTargetCreep(kind, c) {
        if c.guid in targetChoiceGuids {
          return Err(UntargetableChoice);
        }
        return Ok(());
      }
      if c.guid !in targetChoiceGuids {
        return Err(NotAChoice);
      }
      targetChoiceGuids := targetChoiceGuids - {c.guid};
      if targetCreepGuid == Some(c.guid) {
        var _ := SetTargetCreepGuid(None);
        PickTarget();
      }
      r := Ok(());
    }

    /** `setTargetCreepGuid`. */
    method SetTargetCreepGuid(g: Option<nat>) returns (r: Result<(), TowerError>)
      modifies this
      ensures old(Model()).SetTargetCreepGuid(g).Ok? ==>
        r.Ok? && Model() == old(Model()).SetTargetCreepGuid(g).value
      ensures old(Model()).SetTargetCreepGuid(g).Err? ==>
        r == Err(TargetMismatch) && Model() == old(Model())
    {
      if g.Some? == targetCreepGuid.Some? {
        return Err(TargetMismatch);
      }
      targetCreepGuid := g;
      r := Ok(());
    }

    /** `setUpgrading`, without its sounds and drawings: the field updates
        of `Upgrading`, then the range expanded when `Expands` says so. */
    method SetUpgrading(upgrading: bool, delay: int, addedCost: nat, settingUp: bool, g: seq<seq<Node>>, flying: set<nat>)
      returns (g': seq<seq<Node>>)
      requires upgrading ==> level + 1 < |Levels(kind)|
      requires !upgrading ==> level < |Levels(kind)|
      requires var t := Model().Upgrading(upgrading, delay, addedCost, settingUp);
        Expands(upgrading, t.level, settingUp) ==> t.CanExpand(g)
      modifies this
      ensures var t := old(Model()).Upgrading(upgrading, delay, addedCost, settingUp);
        if Expands(upgrading, t.level, settingUp) then (Model(), g') == t.ExpandRange(g, flying)
        else Model() == t && g' == g
    {
      if upgrading {
        cost := cost + addedCost;
        level := level + 1;
      }
      if upgrading && !settingUp {
        upgradeTimeLeft := delay as real;
      }
      g' := g;
      if Expands(upgrading, level, settingUp) {
        range := Levels(kind)[level].range;
        g' := ExpandRange(g, flying);
      }
    }

    /** `upgrade`. */
    method Upgrade(settingUp: bool, g: seq<seq<Node>>, flying: set<nat>) returns (r: Result<seq<seq<Node>>, TowerError>)
      requires level < |Levels(kind)|
      requires settingUp && Model().Upgrade(settingUp).Ok? ==> Model().Upgrade(settingUp).value.CanExpand(g)
      modifies this
      ensures old(Model()).Upgrade(settingUp).Err? ==>
        r == Err(old(Model()).Upgrade(settingUp).error) && Model() == old(Model())
      ensures old(Model()).Upgrade(settingUp).Ok? ==> (r.Ok? &&
        var t := old(Model()).Upgrade(settingUp).value;
        if settingUp then (Model(), r.value) == t.ExpandRange(g, flying) else Model() == t && r.value == g)
    {
      if upgradeTimeLeft > 0.0 {
        return Err(Busy);
      }
      if level + 1 >= |Levels(kind)| {
        return Err(NoNextLevel);
      }
      var delay := Levels(kind)[level + 1].buildDelay;
      var addedCost := Model().UpgradeCost().value;
      var g' := SetUpgrading(true, delay, addedCost, settingUp, g, flying);
      r := Ok(g');
    }
  }
}
