/**
 * The round loop of a level (`BattleManager`) and the unit-pick panel it
 * drives (`UnitSelectionUI`).  The two refer to each other, so they share
 * this module.
 *
 * A level is a sequence of rounds.  Each round revives and re-forms every
 * unit, spawns the round's enemy wave, and offers the player random unit
 * picks; once enough picks are made a delayed start begins the battle,
 * which locks the formation and switches every AI on.  Each frame of a
 * battle checks both teams: a team with no unit above zero health has
 * lost, the player's loss taking priority, and a win moves on to the next
 * round or ends the level.
 *
 * `all` is always what `FindObjectsByType<CharacterStats>` returns at that
 * moment: every unit that still exists, each once.  Every unit carries an
 * `EnemyAI`, whose `enabled` flag is `CharacterStats.aiEnabled`.
 */
module Battle {
  import opened Wrappers
  import opened Sequences
  import opened Characters
  import opened Definitions
  import opened Grid

  function Max(a: int, b: int): int { if a >= b then a else b }

  // ---------------------------------------------------------------------
  // Random unit picks

  /** The state of the draw loop: the indices chosen so far and the
      generator outputs not yet consumed. */
  datatype Roll = Roll(used: seq<nat>, rest: seq<nat>)

  /**
   * The `while (used.Count < countToSpawn)` loop.  The generator is an
   * oracle: its successive outputs are `stream`, and `rng.Next(len)`
   * returns the next one modulo `len`.  A draw already chosen is dropped.
   * The loop of the source runs until enough indices are drawn; this one
   * also stops when the oracle runs out.
   */
  function Draw(used: seq<nat>, stream: seq<nat>, len: nat, count: int): Roll
    requires len > 0
    decreases |stream|
  {
    if |used| >= count || |stream| == 0 then Roll(used, stream)
    else
      var index := stream[0] % len;
      Draw(if index in used then used else used + [index], stream[1..], len, count)
  }

  /** The chosen indices are distinct and below `len`, extend the ones
      chosen before, never exceed the count, and fall short of it only when
      the oracle is used up, every output of it then having been chosen
      already. */
  lemma {:induction false} DrawProperties(used: seq<nat>, stream: seq<nat>, len: nat, count: int)
    requires len > 0 && Distinct(used) && InRange(used, len)
    ensures var r := Draw(used, stream, len, count);
      Distinct(r.used) && InRange(r.used, len) &&
      |used| <= |r.used| && r.used[..|used|] == used && |r.used| <= Max(|used|, count) &&
      (|r.used| < count ==> r.rest == [] && forall i :: 0 <= i < |stream| ==> stream[i] % len in r.used)
    decreases |stream|
  {
    if |used| < count && |stream| > 0 {
      var index := stream[0] % len;
      var next := if index in used then used else used + [index];
      assert next[..|used|] == used;
      DrawProperties(next, stream[1..], len, count);
      var r := Draw(next, stream[1..], len, count);
      assert r.used[..|next|] == next;
      assert r.used[..|used|] == r.used[..|next|][..|used|];
      assert index in r.used by {
        assert index in next;
      }
      forall i | 0 <= i < |stream| && |r.used| < count
        ensures stream[i] % len in r.used
      {
        if i > 0 {
          assert stream[i] == stream[1..][i - 1];
        }
      }
    }
  }

  class UnitSelectionUI {
    /** `allUnits`; `None` for a null array. */
    const allUnits: Option<seq<UnitDefinition?>>
    const buttonsPerRoll: int
    var battleManager: BattleManager?
    /** The unit definitions of the buttons under `buttonsParent`, in order. */
    var buttons: seq<UnitDefinition?>
    /** The outputs `rng` has still to give. */
    var rng: seq<nat>
    /** `gameObject.activeSelf`. */
    var active: bool

    constructor (allUnits: Option<seq<UnitDefinition?>>, buttonsPerRoll: int, rng: seq<nat>)
      ensures this.allUnits == allUnits && this.buttonsPerRoll == buttonsPerRoll && this.rng == rng
      ensures battleManager == null && buttons == [] && active
    {
      this.allUnits := allUnits;
      this.buttonsPerRoll := buttonsPerRoll;
      this.rng := rng;
      battleManager := null;
      buttons := [];
      active := true;
    }

    /** Whether a roll has a pool to draw from. */
    predicate HasPool()
    {
      allUnits.Some? && |allUnits.value| > 0
    }

    /** The draw a roll makes from the generator outputs `stream`. */
    function RollFrom(stream: seq<nat>): Roll
      requires HasPool()
    {
      var len := |allUnits.value|;
      Draw([], stream, len, Min(buttonsPerRoll, len))
    }

    /** The buttons and the generator after a roll that started with the
        generator outputs `stream`. */
    predicate RolledFrom(stream: seq<nat>)
      reads this`buttons, this`rng
    {
      (!HasPool() ==> buttons == [] && rng == stream) &&
      (HasPool() ==>
        var r := RollFrom(stream);
        InRange(r.used, |allUnits.value|) && buttons == Pick(allUnits.value, r.used) && rng == r.rest)
    }

    /**
     * `RollNewUnits`: the previous buttons go, and with a non-empty pool
     * one button per drawn index is made, in draw order.  With enough
     * generator outputs exactly `min(buttonsPerRoll, len)` distinct
     * indices below `len` are drawn (`RollCount`, `RollExact`).
     */
    method RollNewUnits()
      modifies this`buttons, this`rng
      ensures RolledFrom(old(rng))
    {
      buttons := [];
      if allUnits.None? || |allUnits.value| == 0 {
        return;
      }
      var len := |allUnits.value|;
      var used: seq<nat> := [];
      var countToSpawn := Min(buttonsPerRoll, len);
      var stream: seq<nat> := rng;
      while |used| < countToSpawn && |stream| > 0
        invariant Distinct(used) && InRange(used, len)
        invariant Draw(used, stream, len, countToSpawn) == Draw([], old(rng), len, countToSpawn)
        decreases |stream|
      {
        var index := stream[0] % len;
        stream := stream[1..];
        if index !in used {
          used := used + [index];
        }
      }
      assert Draw(used, stream, len, countToSpawn) == Roll(used, stream);
      rng := stream;
      var made: seq<UnitDefinition?> := [];
      for j := 0 to |used|
        invariant made == Pick(allUnits.value, used[..j])
        invariant rng == stream
      {
        PickSnoc(allUnits.value, used[..j], used[j]);
        assert used[..j + 1] == used[..j] + [used[j]];
        made := made + [allUnits.value[used[j]]];
      }
      assert used[..|used|] == used;
      buttons := made;
    }

    /** `OnUnitChosen`: forwards the pick to the battle manager, if one is set. */
    method OnUnitChosen(def: UnitDefinition?) returns (ghost spawned: seq<CharacterStats>)
      requires battleManager != null ==> battleManager.Valid()
      modifies battleManager
      modifies if battleManager == null then {} else {battleManager.myGrid, battleManager.selectionUI}
      modifies if battleManager == null then [] else battleManager.MyChildren()
      ensures battleManager == old(battleManager)
      ensures battleManager == null ==> spawned == []
      ensures battleManager != null ==> battleManager.Valid() && battleManager.PickTaken(def, spawned)
    {
      spawned := [];
      if battleManager != null {
        spawned := battleManager.OnPlayerPickedUnit(def);
      }
    }
  }

  /** The draws are distinct indices into the pool, never more than the
      count, and fewer only when the generator outputs ran out. */
  lemma RollCount(ui: UnitSelectionUI, stream: seq<nat>)
    requires ui.HasPool()
    ensures var r := ui.RollFrom(stream); var len := |ui.allUnits.value|;
      Distinct(r.used) && InRange(r.used, len) && |r.used| <= Max(0, Min(ui.buttonsPerRoll, len)) &&
      (|r.used| < Min(ui.buttonsPerRoll, len) ==>
        r.rest == [] && forall i :: 0 <= i < |stream| ==> stream[i] % len in r.used)
  {
    DrawProperties([], stream, |ui.allUnits.value|, Min(ui.buttonsPerRoll, |ui.allUnits.value|));
  }

  /** A sequence holding every number below `n` has at least `n` entries. */
  lemma {:induction false} CoverLength(s: seq<nat>, n: nat)
    requires forall j :: 0 <= j < n ==> j in s
    ensures |s| >= n
  {
    if n > 0 {
      var t := RemoveFirst(s, n - 1);
      forall j | 0 <= j < n - 1
        ensures j in t
      {
        assert j in s;
        assert j in multiset(s);
        assert multiset(t)[j] == multiset(s)[j];
      }
      CoverLength(t, n - 1);
    }
  }

  /** The outputs of `stream` as indices into a pool of `len`. */
  function Residues(stream: seq<nat>, len: nat): (r: seq<nat>)
    requires len > 0
    ensures |r| == |stream| && forall i :: 0 <= i < |stream| ==> r[i] == stream[i] % len
  {
    seq(|stream|, i requires 0 <= i < |stream| => stream[i] % len)
  }

  /** When the generator outputs hit every index of the pool, a roll shows
      exactly `min(buttonsPerRoll, allUnits.Length)` buttons. */
  lemma RollExact(ui: UnitSelectionUI, stream: seq<nat>)
    requires ui.HasPool()
    requires forall j :: 0 <= j < |ui.allUnits.value| ==> j in Residues(stream, |ui.allUnits.value|)
    ensures |ui.RollFrom(stream).used| == Max(0, Min(ui.buttonsPerRoll, |ui.allUnits.value|))
  {
    var len := |ui.allUnits.value|;
    var r := ui.RollFrom(stream);
    var res := Residues(stream, len);
    RollCount(ui, stream);
    if |r.used| < Min(ui.buttonsPerRoll, len) {
      forall j | 0 <= j < len
        ensures j in r.used
      {
        assert j in res;
        var i :| 0 <= i < |res| && res[i] == j;
        assert stream[i] % len in r.used;
      }
      CoverLength(r.used, len);
    }
  }

  // ---------------------------------------------------------------------
  // Enemy waves

  /** `n` copies of `d`; none when `n` is not positive. */
  function Repeat(d: UnitDefinition, n: int): (r: seq<UnitDefinition>)
    ensures |r| == Max(0, n) && forall k :: 0 <= k < |r| ==> r[k] == d
  {
    seq(Max(0, n), _ => d)
  }

  /** The units one wave entry spawns: none for a null entry, a null unit
      or a unit without a prefab, else `count` copies. */
  function EntryUnits(e: Option<EnemySpawnEntry>): seq<UnitDefinition>
  {
    if e.None? || e.value.unit == null || !e.value.unit.hasPrefab then []
    else Repeat(e.value.unit, e.value.count)
  }

  /** An entry that spawns at least one unit. */
  predicate Yields(e: Option<EnemySpawnEntry>)
  {
    e.Some? && e.value.unit != null && e.value.unit.hasPrefab && e.value.count > 0
  }

  /** The units a wave spawns, entry by entry in array order. */
  function Roster(entries: seq<Option<EnemySpawnEntry>>): seq<UnitDefinition>
    decreases |entries|
  {
    if |entries| == 0 then []
    else Roster(entries[..|entries| - 1]) + EntryUnits(entries[|entries| - 1])
  }

  /** A wave made of two lists of entries spawns the first list's units,
      then the second's. */
  lemma {:induction false} RosterAppend(a: seq<Option<EnemySpawnEntry>>, b: seq<Option<EnemySpawnEntry>>)
    ensures Roster(a + b) == Roster(a) + Roster(b)
    decreases |b|
  {
    if |b| == 0 {
      assert a + b == a;
    } else {
      var b' := b[..|b| - 1];
      assert (a + b)[..|a + b| - 1] == a + b';
      RosterAppend(a, b');
    }
  }

  /** Every spawned unit comes from an entry with that unit and a prefab,
      and an entry with a prefab and a positive count spawns its unit. */
  lemma {:induction false} RosterMembers(entries: seq<Option<EnemySpawnEntry>>)
    ensures forall d :: d in Roster(entries) ==>
      exists j :: 0 <= j < |entries| && entries[j].Some? && entries[j].value.unit == d && d.hasPrefab
    ensures forall j :: 0 <= j < |entries| && Yields(entries[j]) ==> entries[j].value.unit in Roster(entries)
    decreases |entries|
  {
    if |entries| > 0 {
      var init := entries[..|entries| - 1];
      RosterMembers(init);
      var last := entries[|entries| - 1];
      forall d | d in Roster(entries)
        ensures exists j :: 0 <= j < |entries| && entries[j].Some? && entries[j].value.unit == d && d.hasPrefab
      {
        if d in Roster(init) {
          var j :| 0 <= j < |init| && init[j].Some? && init[j].value.unit == d && d.hasPrefab;
          assert entries[j] == init[j];
        } else {
          assert d in EntryUnits(last);
          assert entries[|entries| - 1] == last;
        }
      }
      forall j | 0 <= j < |entries| && Yields(entries[j])
        ensures entries[j].value.unit in Roster(entries)
      {
        if j < |init| {
          assert init[j] == entries[j];
        } else {
          assert EntryUnits(last)[0] == last.value.unit;
        }
      }
    }
  }

  /** A freshly spawned unit of definition `d` on `team`: the definition's
      stats at full health, alive, unlocked, and its AI off. */
  predicate SpawnedAs(u: CharacterStats, d: UnitDefinition, team: Team)
    reads u`team, u`monsterType, u`maxHealth, u`currentHealth, u`damage, u`moveSpeed,
          u`attackRange, u`attackCooldown, u`spawnCount, u`isDead, u`destroyed, u`aiEnabled
  {
    u.team == team && u.monsterType == d.monsterType &&
    u.maxHealth == d.maxHealth && u.currentHealth == d.maxHealth && u.damage == d.damage &&
    u.moveSpeed == d.moveSpeed && u.attackRange == d.attackRange &&
    u.attackCooldown == d.attackCooldown && u.spawnCount == d.spawnCount &&
    !u.isDead && !u.destroyed && !u.aiEnabled
  }

  predicate Spawned(units: seq<CharacterStats>, defs: seq<UnitDefinition>, team: Team)
    reads units`team, units`monsterType, units`maxHealth, units`currentHealth, units`damage, units`moveSpeed,
          units`attackRange, units`attackCooldown, units`spawnCount, units`isDead, units`destroyed, units`aiEnabled
  {
    |units| == |defs| && forall k :: 0 <= k < |units| ==> SpawnedAs(units[k], defs[k], team)
  }

  lemma SpawnedConcat(a: seq<CharacterStats>, b: seq<CharacterStats>, da: seq<UnitDefinition>,
                      db: seq<UnitDefinition>, team: Team)
    requires Spawned(a, da, team) && Spawned(b, db, team)
    ensures Spawned(a + b, da + db, team)
  {
    forall k | 0 <= k < |a + b|
      ensures SpawnedAs((a + b)[k], (da + db)[k], team)
    {
      if k >= |a| {
        assert (a + b)[k] == b[k - |a|] && (da + db)[k] == db[k - |a|];
      }
    }
  }

  /** No unit is a child of both grids. */
  predicate Disjoint(a: seq<CharacterStats?>, b: seq<CharacterStats?>)
  {
    forall i :: 0 <= i < |a| && a[i] != null ==> a[i] !in b
  }

  /** `AnyAlive(team)`: some unit of the team has health above zero. */
  predicate AnyAliveIn(all: seq<CharacterStats>, team: Team)
    reads all`team, all`currentHealth
  {
    exists i :: 0 <= i < |all| && all[i].team == team && all[i].currentHealth > 0
  }

  /** What round reset and battle start do to every unit of the scene. */
  predicate AllRevived(all: seq<CharacterStats>)
    reads all`currentHealth, all`maxHealth, all`isDead, all`lockedIn
  {
    forall i :: 0 <= i < |all| ==>
      all[i].currentHealth == all[i].maxHealth && !all[i].isDead && !all[i].lockedIn
  }

  predicate AllAI(all: seq<CharacterStats>, enabled: bool)
    reads all`aiEnabled
  {
    forall i :: 0 <= i < |all| ==> all[i].aiEnabled == enabled
  }

  predicate AllLocked(all: seq<CharacterStats>)
    reads all`lockedIn
  {
    forall i :: 0 <= i < |all| ==> all[i].lockedIn
  }

  /** No unit has been revived, damaged, killed, locked or unlocked. */
  twostate predicate UnitsKept(all: seq<CharacterStats>)
    reads all`currentHealth, all`isDead, all`lockedIn
  {
    forall i :: 0 <= i < |all| ==>
      all[i].currentHealth == old(all[i].currentHealth) && all[i].isDead == old(all[i].isDead) &&
      all[i].lockedIn == old(all[i].lockedIn)
  }

  /** Every unit of `units` is where it was. */
  twostate predicate PositionsKept(units: seq<CharacterStats?>)
    reads units`position
  {
    forall k :: 0 <= k < |units| && units[k] != null ==> units[k].position == old(units[k].position)
  }

  /** Every locked unit of `units` that already existed is where it was:
      `ArrangeMonsters` moves only unlocked units. */
  twostate predicate LockedKept(new units: seq<CharacterStats?>)
    reads units`lockedIn, units`position
  {
    forall u :: u in units && u != null && old(allocated(u)) && u.lockedIn ==> u.position == old(u.position)
  }

  // ---------------------------------------------------------------------
  // The round state machine

  class BattleManager {
    const myGrid: MonsterGrid?
    const enemyGrid: MonsterGrid?
    const selectionUI: UnitSelectionUI?
    /** `None` for a missing level asset. */
    const levelDefinition: Option<LevelDefinition>
    const playerUnitsLevel: int
    var currentRoundIndex: int
    var picksDone: int
    var picksToDo: int
    var battleStarted: bool
    var gameOver: bool
    /** `StartBattleAfterDelay` coroutines started and not yet finished. */
    var pendingStarts: nat

    constructor (myGrid: MonsterGrid?, enemyGrid: MonsterGrid?, selectionUI: UnitSelectionUI?,
                 levelDefinition: Option<LevelDefinition>, playerUnitsLevel: int)
      requires myGrid != null ==> DistinctChildren(myGrid.children)
      requires enemyGrid != null ==> DistinctChildren(enemyGrid.children)
      requires myGrid != null && enemyGrid != null ==>
        myGrid != enemyGrid && Disjoint(myGrid.children, enemyGrid.children)
      ensures this.myGrid == myGrid && this.enemyGrid == enemyGrid && this.selectionUI == selectionUI
      ensures this.levelDefinition == levelDefinition && this.playerUnitsLevel == playerUnitsLevel
      ensures currentRoundIndex == 0 && picksDone == 0 && picksToDo == 3
      ensures !battleStarted && !gameOver && pendingStarts == 0
      ensures Valid()
    {
      this.myGrid := myGrid;
      this.enemyGrid := enemyGrid;
      this.selectionUI := selectionUI;
      this.levelDefinition := levelDefinition;
      this.playerUnitsLevel := playerUnitsLevel;
      currentRoundIndex := 0;
      picksDone := 0;
      picksToDo := 3;
      battleStarted := false;
      gameOver := false;
      pendingStarts := 0;
    }

    /** The grids are two different objects, neither holds a unit twice,
        and no unit is in both. */
    predicate Valid()
      reads this`currentRoundIndex, {myGrid}`children, {enemyGrid}`children
    {
      currentRoundIndex >= 0 &&
      (myGrid != null ==> DistinctChildren(myGrid.children)) &&
      (enemyGrid != null ==> DistinctChildren(enemyGrid.children)) &&
      (myGrid != null && enemyGrid != null ==>
        myGrid != enemyGrid && Disjoint(myGrid.children, enemyGrid.children))
    }

    function RoundsCount(): nat
    {
      if levelDefinition.Some? then levelDefinition.value.RoundsCount() else 0
    }

    /** Picks are taken while no battle runs and the game is not over. */
    predicate Accepting()
      reads this`battleStarted, this`gameOver
    {
      !battleStarted && !gameOver
    }

    function MyChildren(): seq<CharacterStats?>
      reads {myGrid}`children
    {
      if myGrid != null then myGrid.children else []
    }

    function EnemyChildren(): seq<CharacterStats?>
      reads {enemyGrid}`children
    {
      if enemyGrid != null then enemyGrid.children else []
    }

    /** `Start`: every AI off; with a missing or empty level nothing else
        happens, otherwise round 0 starts. */
    method Start(all: seq<CharacterStats>) returns (ghost spawned: seq<CharacterStats>)
      requires Valid() && Distinct(all)
      modifies this`currentRoundIndex, this`picksDone, this`picksToDo, this`battleStarted
      modifies all`aiEnabled, all`currentHealth, all`isDead, all`lockedIn
      modifies MyChildren()`position, {enemyGrid}`children, EnemyChildren()`position
      modifies {selectionUI}`battleManager, {selectionUI}`buttons, {selectionUI}`rng, {selectionUI}`active
      ensures Valid() && AllAI(all, false)
      ensures RoundsCount() == 0 ==>
        spawned == [] && currentRoundIndex == old(currentRoundIndex) && battleStarted == old(battleStarted) &&
        RestKept(all)
      ensures RoundsCount() > 0 ==> RoundBegun(0, all, spawned)
    {
      SetAllAIEnabled(all, false);
      spawned := [];
      if levelDefinition.None? || levelDefinition.value.RoundsCount() == 0 {
        return;
      }
      spawned := StartRound(0, all);
    }

    /**
     * The state right after `StartRound(index)`: the round index, a fresh
     * pick budget of `max(1, playerPicks)`, no battle running, the scene's
     * units revived, unlocked and with their AI off, both grids in
     * formation, the round's enemy wave added to the enemy grid, and the
     * pick panel shown with a new roll.
     */
    twostate predicate RoundBegun(index: nat, all: seq<CharacterStats>, new spawned: seq<CharacterStats>)
      requires index < RoundsCount()
      reads this, myGrid, enemyGrid, selectionUI, all, MyChildren(), EnemyChildren(), spawned
    {
      var round := levelDefinition.value.Round(index);
      currentRoundIndex == index && picksDone == 0 && picksToDo == Max(1, round.playerPicks) &&
      !battleStarted && gameOver == old(gameOver) && pendingStarts == old(pendingStarts) &&
      AllRevived(all) && AllAI(all, false) &&
      (myGrid != null ==> myGrid.Arranged()) &&
      (enemyGrid != null ==> enemyGrid.Arranged()) &&
      (enemyGrid == null ==> spawned == []) &&
      (enemyGrid != null ==>
        EnemyChildren() == old(EnemyChildren()) + spawned &&
        Spawned(spawned, if round.enemySpawns.Some? then Roster(round.enemySpawns.value) else [], EnemyTeam)) &&
      (selectionUI != null ==>
        selectionUI.active && selectionUI.battleManager == this && selectionUI.RolledFrom(old(selectionUI.rng)))
    }

    /**
     * What `EndBattle(myAlive, enemyAlive)` leaves: the battle stopped and
     * every AI off.  Without a living player unit the game is over;
     * otherwise, when the enemy is wiped out, the round index moves on and
     * either the level is over or the next round has begun.  Nothing else
     * changes unless a new round begins.
     */
    twostate predicate BattleEnded(myAlive: bool, enemyAlive: bool, all: seq<CharacterStats>,
                                   new spawned: seq<CharacterStats>)
      reads this, myGrid, enemyGrid, selectionUI, all, MyChildren(), EnemyChildren(), spawned
    {
      (!myAlive ==>
        gameOver && !battleStarted && currentRoundIndex == old(currentRoundIndex) && AllAI(all, false) &&
        RestKept(all)) &&
      (myAlive && enemyAlive ==>
        spawned == [] && !battleStarted && !gameOver && currentRoundIndex == old(currentRoundIndex) &&
        AllAI(all, false) && RestKept(all)) &&
      (myAlive && !enemyAlive ==>
        currentRoundIndex == old(currentRoundIndex) + 1 &&
        (currentRoundIndex >= RoundsCount() ==> gameOver && !battleStarted && AllAI(all, false) && RestKept(all)) &&
        (0 <= currentRoundIndex < RoundsCount() ==> RoundBegun(currentRoundIndex, all, spawned)))
    }

    /** Both grids hold the units they held, at the places they had. */
    twostate predicate GridsKept()
      reads {myGrid}`children, {enemyGrid}`children, MyChildren()`position, EnemyChildren()`position
    {
      MyChildren() == old(MyChildren()) && EnemyChildren() == old(EnemyChildren()) &&
      PositionsKept(MyChildren()) && PositionsKept(EnemyChildren())
    }

    /** The pick panel is as it was. */
    twostate predicate PanelKept()
      reads {selectionUI}`battleManager, {selectionUI}`buttons, {selectionUI}`rng, {selectionUI}`active
    {
      selectionUI != null ==>
        selectionUI.battleManager == old(selectionUI.battleManager) && selectionUI.buttons == old(selectionUI.buttons) &&
        selectionUI.rng == old(selectionUI.rng) && selectionUI.active == old(selectionUI.active)
    }

    /** Everything a frame, a loss or the end of the level leaves alone:
        the picks, the units' health, death and lock flags, both grids and
        the pick panel. */
    twostate predicate RestKept(all: seq<CharacterStats>)
      reads this`picksDone, this`picksToDo, all`currentHealth, all`isDead, all`lockedIn
      reads {myGrid}`children, {enemyGrid}`children, MyChildren()`position, EnemyChildren()`position
      reads {selectionUI}`battleManager, {selectionUI}`buttons, {selectionUI}`rng, {selectionUI}`active
    {
      picksDone == old(picksDone) && picksToDo == old(picksToDo) &&
      UnitsKept(all) && GridsKept() && PanelKept()
    }

    /**
     * What `OnPlayerPickedUnit(def)` does.  An ignored pick changes
     * nothing.  An accepted one adds `spawnCount` units of `def` to the
     * player's grid, which ends in formation with its locked units in place
     * (and unmoved when no unit was added), and counts the pick; the last pick then hides the panel
     * and schedules the battle start, an earlier one rolls new picks.
     */
    /** The player's grid after the spawn loop of an accepted pick: the
        `spawnCount` new units of `def` (none without a prefab) appended,
        the grid in formation once a unit joined, locked units in place,
        and nothing moved when no unit joined. */
    twostate predicate GridPicked(def: UnitDefinition, new spawned: seq<CharacterStats>)
      reads {myGrid}`children, MyChildren()`position, spawned
      reads MyChildren()`destroyed, MyChildren()`lockedIn, MyChildren()`monsterType
    {
      myGrid != null &&
      myGrid.children == old(myGrid.children) + spawned &&
      Spawned(spawned, Repeat(def, if def.hasPrefab then def.spawnCount else 0), MyTeam) &&
      (def.hasPrefab && def.spawnCount > 0 ==> myGrid.Arranged()) &&
      LockedKept(myGrid.children) &&
      (!(def.hasPrefab && def.spawnCount > 0) ==> PositionsKept(old(myGrid.children)))
    }

    twostate predicate PickTaken(def: UnitDefinition?, new spawned: seq<CharacterStats>)
      reads this`picksDone, this`picksToDo, this`pendingStarts, {myGrid}`children, MyChildren()`position, spawned
      reads MyChildren()`destroyed, MyChildren()`lockedIn, MyChildren()`monsterType
      reads {selectionUI}`battleManager, {selectionUI}`buttons, {selectionUI}`rng, {selectionUI}`active
    {
      (!old(Accepting()) || def == null || myGrid == null ==>
        spawned == [] && picksDone == old(picksDone) && pendingStarts == old(pendingStarts) &&
        MyChildren() == old(MyChildren()) && PositionsKept(MyChildren()) && PanelKept()) &&
      (old(Accepting()) && def != null && myGrid != null ==>
        picksDone == old(picksDone) + 1 &&
        GridPicked(def, spawned) &&
        (picksDone >= picksToDo ==>
          pendingStarts == old(pendingStarts) + 1 &&
          (selectionUI != null ==>
            !selectionUI.active && selectionUI.buttons == old(selectionUI.buttons) &&
            selectionUI.rng == old(selectionUI.rng))) &&
        (picksDone < picksToDo ==>
          pendingStarts == old(pendingStarts) &&
          (selectionUI != null ==>
            selectionUI.active == old(selectionUI.active) && selectionUI.RolledFrom(old(selectionUI.rng)))))
    }

    method StartRound(index: nat, all: seq<CharacterStats>) returns (ghost spawned: seq<CharacterStats>)
      requires Valid() && Distinct(all) && index < RoundsCount()
      modifies this`currentRoundIndex, this`picksDone, this`picksToDo, this`battleStarted
      modifies all`aiEnabled, all`currentHealth, all`isDead, all`lockedIn
      modifies MyChildren()`position, {enemyGrid}`children, EnemyChildren()`position
      modifies {selectionUI}`battleManager, {selectionUI}`buttons, {selectionUI}`rng, {selectionUI}`active
      ensures Valid()
      ensures RoundBegun(index, all, spawned)
    {
      var round := ResetRound(index, all);
      spawned := SpawnAndOpen(round);
    }

    /** The first half of `StartRound`: the round index, every AI off, the
        units revived and re-formed, and a fresh pick budget. */
    method ResetRound(index: nat, all: seq<CharacterStats>) returns (round: RoundDefinition)
      requires Valid() && Distinct(all) && index < RoundsCount()
      modifies this`currentRoundIndex, this`picksDone, this`picksToDo
      modifies all`aiEnabled, all`currentHealth, all`isDead, all`lockedIn
      modifies MyChildren()`position, EnemyChildren()`position
      ensures Valid()
      ensures round == levelDefinition.value.Round(index)
      ensures currentRoundIndex == index && picksDone == 0 && picksToDo == Max(1, round.playerPicks)
      ensures AllRevived(all) && AllAI(all, false)
      ensures myGrid != null ==> myGrid.Arranged()
      ensures enemyGrid != null ==> enemyGrid.Arranged()
    {
      currentRoundIndex := index;
      round := levelDefinition.value.rounds.value[currentRoundIndex];
      DisableAndReset(all);
      picksDone := 0;
      picksToDo := Max(1, round.playerPicks);
    }

    /** `SetAllAIEnabled(false)`, then `ResetUnitsForNewRound`. */
    method DisableAndReset(all: seq<CharacterStats>)
      requires Valid() && Distinct(all)
      modifies all`aiEnabled, all`currentHealth, all`isDead, all`lockedIn
      modifies MyChildren()`position, EnemyChildren()`position
      ensures AllRevived(all) && AllAI(all, false)
      ensures myGrid != null ==> myGrid.Arranged()
      ensures enemyGrid != null ==> enemyGrid.Arranged()
    {
      SetAllAIEnabled(all, false);
      ResetUnitsForNewRound(all);
    }

    /** The second half of `StartRound`: the enemy wave, the pick panel,
        and no battle running. */
    method SpawnAndOpen(round: RoundDefinition) returns (ghost spawned: seq<CharacterStats>)
      requires Valid()
      modifies this`battleStarted, {enemyGrid}`children, EnemyChildren()`position
      modifies {selectionUI}`battleManager, {selectionUI}`buttons, {selectionUI}`rng, {selectionUI}`active
      ensures Valid() && !battleStarted
      ensures myGrid != null && old(myGrid.Arranged()) ==> myGrid.Arranged()
      ensures enemyGrid != null && old(enemyGrid.Arranged()) ==> enemyGrid.Arranged()
      ensures enemyGrid == null ==> spawned == []
      ensures enemyGrid != null ==>
        EnemyChildren() == old(EnemyChildren()) + spawned &&
        Spawned(spawned, if round.enemySpawns.Some? then Roster(round.enemySpawns.value) else [], EnemyTeam)
      ensures selectionUI != null ==>
        selectionUI.active && selectionUI.battleManager == this && selectionUI.RolledFrom(old(selectionUI.rng))
    {
      spawned := SpawnEnemyWave(round);
      OpenSelection();
      battleStarted := false;
    }

    /** Shows the pick panel, hands it this manager and rolls new picks. */
    method OpenSelection()
      modifies {selectionUI}`battleManager, {selectionUI}`buttons, {selectionUI}`rng, {selectionUI}`active
      ensures selectionUI != null ==>
        selectionUI.active && selectionUI.battleManager == this && selectionUI.RolledFrom(old(selectionUI.rng))
      ensures myGrid != null && old(myGrid.Arranged()) ==> myGrid.Arranged()
      ensures enemyGrid != null && old(enemyGrid.Arranged()) ==> enemyGrid.Arranged()
    {
      if selectionUI != null {
        selectionUI.active := true;
        selectionUI.battleManager := this;
        selectionUI.RollNewUnits();
      }
    }

    /** Every unit revived and unlocked, then both grids back in formation. */
    method ResetUnitsForNewRound(all: seq<CharacterStats>)
      requires Valid() && Distinct(all)
      modifies all`currentHealth, all`isDead, all`lockedIn, MyChildren()`position, EnemyChildren()`position
      ensures AllRevived(all)
      ensures myGrid != null ==> myGrid.Arranged()
      ensures enemyGrid != null ==> enemyGrid.Arranged()
    {
      for i := 0 to |all|
        invariant forall k :: 0 <= k < i ==>
          all[k].currentHealth == all[k].maxHealth && !all[k].isDead && !all[k].lockedIn
      {
        all[i].Revive();
        all[i].lockedIn := false;
      }
      ArrangeBoth();
    }

    /** The player's grid, then the enemy's, back in formation. */
    method ArrangeBoth()
      requires Valid()
      modifies MyChildren()`position, EnemyChildren()`position
      ensures myGrid != null ==> myGrid.Arranged()
      ensures enemyGrid != null ==> enemyGrid.Arranged()
    {
      if myGrid != null {
        myGrid.ArrangeMonsters();
      }
      if enemyGrid != null {
        enemyGrid.ArrangeMonsters();
      }
    }

    /** `SpawnEnemyWave`: each entry's unit, `count` times, in order, then
        one more arrangement; nothing without an enemy grid or entries. */
    method SpawnEnemyWave(round: RoundDefinition) returns (ghost spawned: seq<CharacterStats>)
      requires Valid()
      modifies {enemyGrid}`children, EnemyChildren()`position
      ensures Valid()
      ensures enemyGrid == null || round.enemySpawns.None? ==> spawned == [] && EnemyChildren() == old(EnemyChildren())
      ensures enemyGrid != null ==>
        EnemyChildren() == old(EnemyChildren()) + spawned &&
        Spawned(spawned, if round.enemySpawns.Some? then Roster(round.enemySpawns.value) else [], EnemyTeam)
      ensures enemyGrid != null && (round.enemySpawns.Some? || old(enemyGrid.Arranged())) ==> enemyGrid.Arranged()
      ensures myGrid != null && old(myGrid.Arranged()) ==> myGrid.Arranged()
    {
      spawned := [];
      if enemyGrid == null {
        return;
      }
      if round.enemySpawns.None? {
        return;
      }
      spawned := SpawnAndArrange(round.enemySpawns.value);
    }

    /** The `foreach` of `SpawnEnemyWave` and the arrangement after it. */
    method SpawnAndArrange(entries: seq<Option<EnemySpawnEntry>>) returns (ghost spawned: seq<CharacterStats>)
      requires Valid() && enemyGrid != null
      modifies enemyGrid`children, enemyGrid.children`position
      ensures Valid()
      ensures enemyGrid.children == old(enemyGrid.children) + spawned
      ensures Spawned(spawned, Roster(entries), EnemyTeam)
      ensures enemyGrid.Arranged()
      ensures myGrid != null && old(myGrid.Arranged()) ==> myGrid.Arranged()
    {
      spawned := SpawnEntries(entries);
      enemyGrid.ArrangeMonsters();
    }

    /** The outer loop of `SpawnEnemyWave`: every entry in order. */
    method SpawnEntries(entries: seq<Option<EnemySpawnEntry>>) returns (ghost spawned: seq<CharacterStats>)
      requires Valid() && enemyGrid != null
      modifies enemyGrid`children, enemyGrid.children`position
      ensures Valid()
      ensures enemyGrid.children == old(enemyGrid.children) + spawned
      ensures Spawned(spawned, Roster(entries), EnemyTeam)
      ensures forall k :: 0 <= k < |spawned| ==> fresh(spawned[k])
    {
      spawned := [];
      for e := 0 to |entries|
        invariant Valid()
        invariant enemyGrid.children == old(enemyGrid.children) + spawned
        invariant Spawned(spawned, Roster(entries[..e]), EnemyTeam)
        invariant forall k :: 0 <= k < |spawned| ==> fresh(spawned[k])
      {
        ghost var before := spawned;
        spawned := SpawnStep(spawned, Roster(entries[..e]), entries[e]);
        assert old(enemyGrid.children) + spawned == old(enemyGrid.children) + before + spawned[|before|..];
        assert entries[..e + 1][..e] == entries[..e];
      }
      assert entries[..|entries|] == entries;
    }

    /** One pass of the outer loop: the entry's units join those spawned so far. */
    method SpawnStep(ghost spawned: seq<CharacterStats>, ghost done: seq<UnitDefinition>,
                     entry: Option<EnemySpawnEntry>) returns (ghost next: seq<CharacterStats>)
      requires Valid() && enemyGrid != null && Spawned(spawned, done, EnemyTeam)
      modifies enemyGrid`children, enemyGrid.children`position
      ensures Valid()
      ensures |spawned| <= |next| && next[..|spawned|] == spawned
      ensures enemyGrid.children == old(enemyGrid.children) + next[|spawned|..]
      ensures Spawned(next, done + EntryUnits(entry), EnemyTeam)
      ensures forall k :: |spawned| <= k < |next| ==> fresh(next[k])
    {
      var added := SpawnEntry(entry);
      SpawnedConcat(spawned, added, done, EntryUnits(entry), EnemyTeam);
      next := spawned + added;
      assert next[|spawned|..] == added;
    }

    /** The inner loop of `SpawnEnemyWave`: `count` units of one entry;
        nothing for a null entry or a null unit. */
    method SpawnEntry(entry: Option<EnemySpawnEntry>) returns (ghost added: seq<CharacterStats>)
      requires Valid() && enemyGrid != null
      modifies enemyGrid`children, enemyGrid.children`position
      ensures Valid()
      ensures enemyGrid.children == old(enemyGrid.children) + added
      ensures Spawned(added, EntryUnits(entry), EnemyTeam)
      ensures forall k :: 0 <= k < |added| ==> fresh(added[k])
    {
      added := [];
      if entry.None? || entry.value.unit == null {
        return;
      }
      var unit := entry.value.unit;
      var i := 0;
      while i < entry.value.count
        invariant Valid()
        invariant 0 <= i && (i <= entry.value.count || i == 0)
        invariant enemyGrid.children == old(enemyGrid.children) + added
        invariant Spawned(added, Repeat(unit, if unit.hasPrefab then i else 0), EnemyTeam)
        invariant forall k :: 0 <= k < |added| ==> fresh(added[k])
      {
        assert Repeat(unit, i + 1) == Repeat(unit, i) + [unit];
        var extra := SpawnUnit(enemyGrid, added, Repeat(unit, if unit.hasPrefab then i else 0), unit, EnemyTeam, entry.value.level);
        added := added + extra;
        i := i + 1;
      }
    }

    /** One `AddMonster` of a spawn loop: a unit of `def` joins `grid`,
        unless the definition has no prefab. */
    method SpawnUnit(grid: MonsterGrid, ghost added: seq<CharacterStats>, ghost defs: seq<UnitDefinition>,
                     def: UnitDefinition, team: Team, level: int) returns (ghost extra: seq<CharacterStats>)
      requires Valid() && (grid == myGrid || grid == enemyGrid) && Spawned(added, defs, team)
      modifies grid`children, grid.children`position
      ensures Valid()
      ensures grid.children == old(grid.children) + extra
      ensures |extra| == if def.hasPrefab then 1 else 0
      ensures def.hasPrefab ==> grid.Arranged()
      ensures LockedKept(grid.children)
      ensures !def.hasPrefab ==> PositionsKept(old(grid.children))
      ensures Spawned(added + extra, defs + if def.hasPrefab then [def] else [], team)
      ensures forall k :: 0 <= k < |extra| ==> fresh(extra[k])
    {
      var u := grid.AddMonster(def, team, level);
      extra := [];
      if u != null {
        SpawnedConcat(added, [u], defs, [def], team);
        extra := [u];
      }
    }

    /** `OnPlayerPickedUnit`: ignored during a battle, after the game, or
        without a definition or a player grid; otherwise `spawnCount` units
        join the player's grid and the pick is counted.  The last pick
        hides the panel and starts the delayed battle start; an earlier one
        rolls new picks. */
    method OnPlayerPickedUnit(def: UnitDefinition?) returns (ghost spawned: seq<CharacterStats>)
      requires Valid()
      modifies this`picksDone, this`pendingStarts, {myGrid}`children, MyChildren()`position
      modifies {selectionUI}`buttons, {selectionUI}`rng, {selectionUI}`active
      ensures Valid() && PickTaken(def, spawned)
    {
      spawned := [];
      if battleStarted || gameOver {
        return;
      }
      if def == null || myGrid == null {
        return;
      }
      spawned := AcceptPick(def);
    }

    /** An accepted pick: the spawn loop, then the count. */
    method AcceptPick(def: UnitDefinition) returns (ghost spawned: seq<CharacterStats>)
      requires Valid() && Accepting() && myGrid != null
      modifies this`picksDone, this`pendingStarts, {myGrid}`children, MyChildren()`position
      modifies {selectionUI}`buttons, {selectionUI}`rng, {selectionUI}`active
      ensures Valid() && PickTaken(def, spawned)
    {
      spawned := AddPicked(def);
      CountPick();
    }

    /** The tail of an accepted pick: the pick is counted; the last one
        hides the panel and schedules the delayed battle start, an earlier
        one rolls new picks. */
    method CountPick()
      modifies this`picksDone, this`pendingStarts, {selectionUI}`buttons, {selectionUI}`rng, {selectionUI}`active
      ensures picksDone == old(picksDone) + 1
      ensures picksDone >= picksToDo ==>
        pendingStarts == old(pendingStarts) + 1 &&
        (selectionUI != null ==>
          !selectionUI.active && selectionUI.buttons == old(selectionUI.buttons) && selectionUI.rng == old(selectionUI.rng))
      ensures picksDone < picksToDo ==>
        pendingStarts == old(pendingStarts) &&
        (selectionUI != null ==> selectionUI.active == old(selectionUI.active) && selectionUI.RolledFrom(old(selectionUI.rng)))
    {
      picksDone := picksDone + 1;
      if picksDone >= picksToDo {
        if selectionUI != null {
          selectionUI.active := false;
        }
        pendingStarts := pendingStarts + 1;
      } else {
        if selectionUI != null {
          selectionUI.RollNewUnits();
        }
      }
    }

    /** The spawn loop of `OnPlayerPickedUnit`: `spawnCount` units of the
        picked definition join the player's grid. */
    method AddPicked(def: UnitDefinition) returns (ghost spawned: seq<CharacterStats>)
      requires Valid() && myGrid != null
      modifies myGrid`children, myGrid.children`position
      ensures Valid() && GridPicked(def, spawned)
    {
      spawned := [];
      var i := 0;
      while i < def.spawnCount
        invariant Valid()
        invariant def.hasPrefab && i > 0 ==> myGrid.Arranged()
        invariant LockedKept(myGrid.children)
        invariant !def.hasPrefab || i == 0 ==> PositionsKept(old(myGrid.children))
        invariant 0 <= i && (i <= def.spawnCount || i == 0)
        invariant myGrid.children == old(myGrid.children) + spawned
        invariant Spawned(spawned, Repeat(def, if def.hasPrefab then i else 0), MyTeam)
        invariant forall k :: 0 <= k < |spawned| ==> fresh(spawned[k])
      {
        assert Repeat(def, i + 1) == Repeat(def, i) + [def];
        var extra := SpawnUnit(myGrid, spawned, Repeat(def, if def.hasPrefab then i else 0), def, MyTeam, playerUnitsLevel);
        spawned := spawned + extra;
        i := i + 1;
      }
    }

    /** The delay of one `StartBattleAfterDelay` has passed. */
    method BattleDelayElapsed(all: seq<CharacterStats>)
      requires pendingStarts > 0 && Distinct(all)
      modifies this`pendingStarts, this`battleStarted, all`lockedIn, all`aiEnabled
      ensures pendingStarts == old(pendingStarts) - 1
      ensures battleStarted && AllLocked(all) && AllAI(all, true)
    {
      pendingStarts := pendingStarts - 1;
      StartBattle(all);
    }

    /** `StartBattle`: the battle runs, every unit is locked in place and
        every AI is switched on. */
    method StartBattle(all: seq<CharacterStats>)
      requires Distinct(all)
      modifies this`battleStarted, all`lockedIn, all`aiEnabled
      ensures battleStarted && AllLocked(all) && AllAI(all, true)
    {
      battleStarted := true;
      LockAllUnits(all);
      SetAllAIEnabled(all, true);
    }

    /**
     * One frame.  While a battle runs and the game is not over, a team
     * without a unit above zero health ends the battle: every AI goes off;
     * if the player has no unit left the game is over (even when the enemy
     * has none either), otherwise the round is won, which ends the level
     * after the last round and starts the next round before it.
     */
    method Update(all: seq<CharacterStats>) returns (ghost spawned: seq<CharacterStats>)
      requires Valid() && Distinct(all)
      modifies this`currentRoundIndex, this`picksDone, this`picksToDo, this`battleStarted, this`gameOver
      modifies all`aiEnabled, all`currentHealth, all`isDead, all`lockedIn
      modifies MyChildren()`position, {enemyGrid}`children, EnemyChildren()`position
      modifies {selectionUI}`battleManager, {selectionUI}`buttons, {selectionUI}`rng, {selectionUI}`active
      ensures Valid()
      ensures !old(battleStarted) || old(gameOver) ==>
        spawned == [] && currentRoundIndex == old(currentRoundIndex) && battleStarted == old(battleStarted) &&
        gameOver == old(gameOver) && RestKept(all) &&
        (forall i :: 0 <= i < |all| ==> all[i].aiEnabled == old(all[i].aiEnabled))
      ensures old(battleStarted) && !old(gameOver) ==>
        var myAlive := old(AnyAliveIn(all, MyTeam));
        var enemyAlive := old(AnyAliveIn(all, EnemyTeam));
        (myAlive && enemyAlive ==>
          spawned == [] && currentRoundIndex == old(currentRoundIndex) && battleStarted == old(battleStarted) &&
          gameOver == old(gameOver) && RestKept(all) &&
          (forall i :: 0 <= i < |all| ==> all[i].aiEnabled == old(all[i].aiEnabled))) &&
        (!(myAlive && enemyAlive) ==> BattleEnded(myAlive, enemyAlive, all, spawned))
    {
      spawned := [];
      if !battleStarted || gameOver {
        return;
      }
      var myAlive, enemyAlive;
      myAlive, enemyAlive, spawned := CheckTeams(all);
    }

    /** The check of a running battle: a team without a unit above zero
        health ends it. */
    method CheckTeams(all: seq<CharacterStats>) returns (myAlive: bool, enemyAlive: bool, ghost spawned: seq<CharacterStats>)
      requires Valid() && Distinct(all) && !gameOver
      modifies this`currentRoundIndex, this`picksDone, this`picksToDo, this`battleStarted, this`gameOver
      modifies all`aiEnabled, all`currentHealth, all`isDead, all`lockedIn
      modifies MyChildren()`position, {enemyGrid}`children, EnemyChildren()`position
      modifies {selectionUI}`battleManager, {selectionUI}`buttons, {selectionUI}`rng, {selectionUI}`active
      ensures Valid()
      ensures myAlive == old(AnyAliveIn(all, MyTeam)) && enemyAlive == old(AnyAliveIn(all, EnemyTeam))
      ensures myAlive && enemyAlive ==>
        spawned == [] && currentRoundIndex == old(currentRoundIndex) && battleStarted == old(battleStarted) &&
        gameOver == old(gameOver) && RestKept(all) &&
        (forall i :: 0 <= i < |all| ==> all[i].aiEnabled == old(all[i].aiEnabled))
      ensures !(myAlive && enemyAlive) ==> BattleEnded(myAlive, enemyAlive, all, spawned)
    {
      spawned := [];
      myAlive := AnyAliveIn(all, MyTeam);
      enemyAlive := AnyAliveIn(all, EnemyTeam);
      if myAlive && enemyAlive {
        return;
      }
      spawned := EndBattle(myAlive, enemyAlive, all);
    }

    method EndBattle(myAlive: bool, enemyAlive: bool, all: seq<CharacterStats>) returns (ghost spawned: seq<CharacterStats>)
      requires Valid() && Distinct(all) && !gameOver
      modifies this`currentRoundIndex, this`picksDone, this`picksToDo, this`battleStarted, this`gameOver
      modifies all`aiEnabled, all`currentHealth, all`isDead, all`lockedIn
      modifies MyChildren()`position, {enemyGrid}`children, EnemyChildren()`position
      modifies {selectionUI}`battleManager, {selectionUI}`buttons, {selectionUI}`rng, {selectionUI}`active
      ensures Valid()
      ensures BattleEnded(myAlive, enemyAlive, all, spawned)
    {
      spawned := [];
      StopBattle(all);
      if !myAlive {
        gameOver := true;
        return;
      }
      if !enemyAlive {
        spawned := HandleRoundWin(all);
      }
    }

    /** The start of `EndBattle`: the battle stops and every AI goes off. */
    method StopBattle(all: seq<CharacterStats>)
      modifies this`battleStarted, all`aiEnabled
      ensures !battleStarted && AllAI(all, false) && RestKept(all)
    {
      battleStarted := false;
      SetAllAIEnabled(all, false);
    }

    /** `HandleRoundWin`: the next round, or the end of the level after
        the last one. */
    method HandleRoundWin(all: seq<CharacterStats>) returns (ghost spawned: seq<CharacterStats>)
      requires Valid() && Distinct(all) && !battleStarted && AllAI(all, false)
      modifies this`currentRoundIndex, this`picksDone, this`picksToDo, this`battleStarted, this`gameOver
      modifies all`aiEnabled, all`currentHealth, all`isDead, all`lockedIn
      modifies MyChildren()`position, {enemyGrid}`children, EnemyChildren()`position
      modifies {selectionUI}`battleManager, {selectionUI}`buttons, {selectionUI}`rng, {selectionUI}`active
      ensures Valid()
      ensures currentRoundIndex == old(currentRoundIndex) + 1
      ensures currentRoundIndex >= RoundsCount() ==> gameOver && !battleStarted && AllAI(all, false) && RestKept(all)
      ensures currentRoundIndex < RoundsCount() ==> RoundBegun(currentRoundIndex, all, spawned)
    {
      spawned := [];
      currentRoundIndex := currentRoundIndex + 1;
      if levelDefinition.None? || currentRoundIndex >= levelDefinition.value.RoundsCount() {
        gameOver := true;
        return;
      }
      spawned := StartRound(currentRoundIndex, all);
    }

    /** `AnyAlive(team)`: the scan returns at the first unit of the team
        above zero health. */
    method AnyAlive(all: seq<CharacterStats>, team: Team) returns (b: bool)
      ensures b == AnyAliveIn(all, team)
    {
      for i := 0 to |all|
        invariant forall k :: 0 <= k < i ==> !(all[k].team == team && all[k].currentHealth > 0)
      {
        if all[i].team == team && all[i].currentHealth > 0 {
          return true;
        }
      }
      return false;
    }

    method SetAllAIEnabled(all: seq<CharacterStats>, enabled: bool)
      modifies all`aiEnabled
      ensures AllAI(all, enabled)
    {
      for i := 0 to |all|
        invariant forall k :: 0 <= k < i ==> all[k].aiEnabled == enabled
      {
        all[i].aiEnabled := enabled;
      }
    }

    method LockAllUnits(all: seq<CharacterStats>)
      modifies all`lockedIn
      ensures AllLocked(all)
    {
      for i := 0 to |all|
        invariant forall k :: 0 <= k < i ==> all[k].lockedIn
      {
        all[i].lockedIn := true;
      }
    }
  }
}
