# Draft auto-battler core, modelled in Dafny

This project models the core of the Draft auto-battler, a Unity game.
Both sides place units on a grid. Each round, the units fight on their own until
one team has no unit with health left. The model covers the following parts:

- **Units.** `CharacterStats` holds a unit's health, its one-time death and
  the switch-off of its AI. `EnemyAI` is the per-frame controller: it finds
  the nearest live enemy, steps toward it, or attacks it once its cooldown
  has passed.
- **Attack strategies.** Each strategy has a phase that records the target
  (`Attack`) and a later phase that applies the effect:
  - melee (`TankAttack`);
  - homing projectile (`RangerAttack`, `Projectile`);
  - chain lightning (`LightningMageAttack`);
  - meteor with splash damage (`FireMageAttack`, `MeteorProjectile`).
- **Formation and rounds.** `MonsterGrid` arranges a team into a tank column
  and a ranger column. `BattleManager` runs the rounds of a level: reset,
  enemy wave, player picks through `UnitSelectionUI`, delayed battle start,
  and the per-frame win or loss poll.
- **Saved deck.** `UnitsDeckManager` and `PlayerDeckProvider` keep up to four
  unit ids as `deck_slot_i` entries in `PlayerPrefs`.
- **Placement and UI.** This covers the drop area (`DropAreaCell`,
  `DropAreaGrid`), the drop zones and the space-key preview (`DropZone`,
  `DropZonesSpacePreview`), the collection card grid (`UnitsGridController`,
  `UnitCardView`) and the soul currency (`SoulsManager`).

Where the source changes objects in place, the model is imperative. Such code
becomes classes whose methods name what they modify, and whose loops carry
invariants. Each method's `ensures` ties the new state to a pure
specification function, and lemmas prove that function's properties. The
pure computations are functions proved against independent characterisations.
These are the nearest-unit scans, the lightning chain, splash amounts, slot
positions, deck loading and saving, and the random draw.

Representation choices:

- **Positions** are points in integer fixed point: 100 steps per world unit.
  Radii are compared through squared distances, so a comparison is exact.
  `CloserThan` is the source's strict `<` and `Within` is its `<=`.
- **Time** is integer milliseconds. The current time and each frame's
  duration are parameters.
- **Real multipliers** (the chain's secondary multiplier, the splash
  fraction, cell bonus percentages) are `real`. `Mathf.RoundToInt` rounds
  halves to the even neighbour, and the model does the same.
- **Destroyed objects.** A unit the engine has destroyed compares equal to
  `null` in Unity. In the model it carries a `destroyed` flag, and `Gone(u)`
  is true for a null or destroyed unit.
- **`EnemyAI.enabled`** is the `aiEnabled` field of the unit's
  `CharacterStats`.
- **Engine scans as inputs.** Whatever the engine returns is an input in
  enumeration order:
  - `FindObjectsByType<CharacterStats>` is the sequence `all`;
  - `Physics2D.OverlapCircleAll` is the sequence `hits`;
  - `Collider2D.OverlapPoint` is a function;
  - `Random.Range` and `System.Random` outputs are parameters or an oracle
    sequence.
- **`PlayerPrefs`** is a string-to-string map.
- **Integer width.** Most source integers are C# `int` values that cannot
  overflow in play; the model uses unbounded integers for them. The one
  counter that accumulates without bound, `SoulsManager.soulsLeft`, wraps
  around at 32 bits explicitly.

Some functions are plain definitions that the contracts use, and their
element-wise `ensures` only unfold them. What they mean is proved in the
lemmas named in the table.

- `Characters.Snapshots` gives one snapshot per scanned unit: its team,
  health, destroyed flag and position, in enumeration order.
- `AI.EnemyCandidates`, `Lightning.HopCandidates` and `DropGrid.Candidates`
  give the candidate lists of the three nearest-unit scans. Each entry is a
  candidate index at its squared distance. Their meaning is stated in
  `AI.ClosestEnemyProperties`, `Lightning.NextHopProperties` and
  `DropGrid.ClosestCellProperties`.
- `DropGrid.DropAreaGrid.Row` lists a row of the cell table in column order.
  `DropGrid.DropAreaGrid.RowMajorHolds` shows that the enumeration covers
  every cell.
- `Battle.Repeat` gives n copies of a definition, and none for n ≤ 0.
  `Battle.RosterMembers` states what a round's roster holds.
- `Definitions.LevelDefinition.RoundsCount` counts a null round list as zero
  rounds.

Where the documented design of the system and its code differ, the model follows
the code:

- **Splash.** The meteor deals no splash when the splash radius is not
  positive, when the fraction is not positive, or when the rounded amount is
  not positive. It hits a unit once for every one of its colliders that the
  overlap query reports, not once per unit. Its team test compares against
  the attacker's team, and a living unit is one with health above zero.
- **Ties.** Every nearest-unit scan keeps the first unit enumerated among
  equally near ones: the scans compare with a strict `<`, and `EnemyAI`
  sorts with the stable `OrderBy`.
- **Chain hops.** The lightning hop filter accepts only units of
  `EnemyTeam`, whatever the caster's team.
- **Cooldown.** The AI and the strategies compare the cooldown differently.
  `EnemyAI` fires only when strictly more than `attackCooldown` has passed;
  the ranger, lightning and fire strategies also accept exactly
  `attackCooldown`.
- **Round reset.** Units are not put back at their initial position; they
  are re-arranged into the grid formation.
- **Extra picks.** Picks made during the delay before the battle still
  spawn units.

## Model

| member | source | states |
|---|---|---|
| Characters.Damage | Assets/Scripts/Characters/CharacterStats.cs:47-57 | A dead unit is unchanged. A live unit loses exactly the amount, with no clamp. It ends dead exactly when it was dead or its health is now at or below zero. Its AI stays on exactly when it was on and the unit did not just die. |
| Characters.DeadAbsorbs | Assets/Scripts/Characters/CharacterStats.cs:49 | Any series of hits leaves a dead unit unchanged and causes no death. |
| Characters.DiesAtMostOnce | Assets/Scripts/Characters/CharacterStats.cs:53-62 | Over any series of hits a unit dies at most once. It dies exactly when it was alive before and is dead after. |
| Characters.DeathByTotalDamage | Assets/Scripts/Characters/CharacterStats.cs:51-56 | With non-negative hits, a live unit dies exactly when the total damage reaches its health. If it survives, its health is the old health minus the total. |
| Characters.CharacterStats.constructor | Assets/Scripts/Characters/CharacterStats.cs:24-28 | A new unit starts at full health, alive, unlocked, not destroyed, with its AI on. |
| Characters.CharacterStats.Init | Assets/Scripts/Characters/CharacterStats.cs:30-45 | Sets the team and the archetype and nothing else. |
| Characters.CharacterStats.TakeDamage | Assets/Scripts/Characters/CharacterStats.cs:47-57 | The unit's health, death flag and AI flag become `Damage` of the old ones. |
| Characters.CharacterStats.Die | Assets/Scripts/Characters/CharacterStats.cs:59-88 | The unit is dead afterwards. The AI is switched off unless the unit was already dead, in which case nothing changes. |
| Characters.CharacterStats.Revive | Assets/Scripts/BattleManager.cs:90 | Full health, and the death flag is cleared. |
| Characters.CharacterStats.Destroy | Assets/Scripts/Characters/CharacterStats.cs:87 | The unit is destroyed, so it counts as null from then on. |
| Rounding.RoundToInt | Assets/Scripts/AttacksTypes/LightningMageAttack.cs:69 | The result is within one half of x. At an exact half it is the even neighbour. |
| Rounding.RoundToIntUnique | Assets/Scripts/Projectiles/MeteorProjectile.cs:99 | Any integer within one half of x, and even at an exact half, is `RoundToInt(x)`. |
| Rounding.ScaledDamage | Assets/Scripts/AttacksTypes/LightningMageAttack.cs:69 | Scaled damage is within one half of damage × multiplier. |
| Rounding.HalvesRoundToEven | Assets/Scripts/Projectiles/MeteorProjectile.cs:99 | 2.5 rounds to 2, 3.5 rounds to 4, and -2.5 rounds to -2. |
| Nearest.FirstArgMin | Assets/Scripts/Characters/EnemyAI.cs:84-90 | The result is an index of a present candidate, or none. |
| Nearest.FirstArgMinProperties | Assets/Scripts/Characters/EnemyAI.cs:84-90 | The chosen candidate is at least as near as every candidate and strictly nearer than every candidate before it. There is none exactly when no candidate is present. |
| Nearest.FirstArgMinUnique | Assets/Scripts/DropArea/DropAreaGrid.cs:218-227 | Any index that is minimal and strictly nearer than every earlier candidate is the result. |
| Nearest.FirstArgMinSnoc | Assets/Scripts/AttacksTypes/LightningMageAttack.cs:118-123 | Scanning one more candidate takes it exactly when it is strictly nearer than the best so far. |
| Chains.ChainFrom | Assets/Scripts/AttacksTypes/LightningMageAttack.cs:82-100 | Growing a chain never shortens it. |
| Chains.ChainFromPrefix | Assets/Scripts/AttacksTypes/LightningMageAttack.cs:86-87 | The grown chain starts with the chain it grew from. |
| Chains.ChainFromLength | Assets/Scripts/AttacksTypes/LightningMageAttack.cs:89 | At most one link is added per bounce. |
| Chains.ChainFromHops | Assets/Scripts/AttacksTypes/LightningMageAttack.cs:91-96 | Every added link is the hop chosen from the chain before it. |
| Chains.ChainFromStops | Assets/Scripts/AttacksTypes/LightningMageAttack.cs:92-93 | A chain shorter than its bound stopped because no hop was left. |
| Chains.ChainFromStep | Assets/Scripts/AttacksTypes/LightningMageAttack.cs:89-97 | One bounce either stops when there is no hop or appends the hop and continues. |
| Lightning.ScanHop | Assets/Scripts/AttacksTypes/LightningMageAttack.cs:105-127 | The unit the scan finds is among those scanned and is eligible. |
| Lightning.NextHop | Assets/Scripts/AttacksTypes/LightningMageAttack.cs:105-127 | The next hop is an eligible unit, or none. |
| Lightning.ScanHopIsFirstArgMin | Assets/Scripts/AttacksTypes/LightningMageAttack.cs:118-123 | The source's scan with strict `<` picks the first nearest eligible candidate. |
| Lightning.NextHopProperties | Assets/Scripts/AttacksTypes/LightningMageAttack.cs:111-123 | The next hop is the nearest eligible unit, first on ties. There is none exactly when no unit is eligible. |
| Lightning.ChainHops | Assets/Scripts/AttacksTypes/LightningMageAttack.cs:89-97 | Every link after the first is the next hop from the link before it, given the links so far. |
| Lightning.ChainInRange | Assets/Scripts/AttacksTypes/LightningMageAttack.cs:82-100 | Every link is a valid unit index. |
| Lightning.TargetChain | Assets/Scripts/AttacksTypes/LightningMageAttack.cs:82-100 | The chain holds only valid unit indices. |
| Lightning.TargetChainLength | Assets/Scripts/AttacksTypes/LightningMageAttack.cs:86-99 | The chain starts at the first target and has between 1 and `1 + max(0, maxBounces)` links. |
| Lightning.TargetChainStops | Assets/Scripts/AttacksTypes/LightningMageAttack.cs:91-93 | A chain shorter than the bound has no eligible unit left near its last link. |
| Lightning.HopChainsAgree | Assets/Scripts/AttacksTypes/LightningMageAttack.cs:89-97 | Two hop chains with the same first link agree on their common length. |
| Lightning.BuiltChainsAgree | Assets/Scripts/AttacksTypes/LightningMageAttack.cs:82-100 | At most one chain satisfies the non-recursive description of a built chain. |
| Lightning.TargetChainBuilt | Assets/Scripts/AttacksTypes/LightningMageAttack.cs:82-100 | The recursive chain satisfies that description. |
| Lightning.BuiltChainIsTargetChain | Assets/Scripts/AttacksTypes/LightningMageAttack.cs:82-100 | A chain satisfies the description if and only if it is the recursive chain. |
| Lightning.BuiltChainDistinct | Assets/Scripts/AttacksTypes/LightningMageAttack.cs:116 | No unit appears twice in a chain. |
| Lightning.HopsSnoc | Assets/Scripts/AttacksTypes/LightningMageAttack.cs:95-96 | Appending the next hop keeps every link a hop. |
| Lightning.ChainDamageExample | Assets/Scripts/AttacksTypes/LightningMageAttack.cs:67-69 | With damage 20 and multiplier 0.5, the first link takes 20 and the second takes 10. |
| Lightning.LightningMageAttack.constructor | Assets/Scripts/AttacksTypes/LightningMageAttack.cs:7-25 | Fields as given, with no target and no attack yet. |
| Lightning.LightningMageAttack.Attack | Assets/Scripts/AttacksTypes/LightningMageAttack.cs:30-44 | Records the target and the time exactly when the target exists, stats are set, and at least the cooldown has passed. Otherwise nothing changes. |
| Lightning.LightningMageAttack.FindNextTarget | Assets/Scripts/AttacksTypes/LightningMageAttack.cs:105-127 | The scanning loop returns the unit `NextHop` names, or null. |
| Lightning.LightningMageAttack.BuildTargetChain | Assets/Scripts/AttacksTypes/LightningMageAttack.cs:82-100 | The loop builds the units of a chain that satisfies the description, so by `BuiltChainIsTargetChain` it is the recursive chain. |
| Lightning.LightningMageAttack.DoChainLightning | Assets/Scripts/AttacksTypes/LightningMageAttack.cs:50-76 | Without a live target or stats, no unit changes. Otherwise link 0 takes the full damage and every later link takes the rounded secondary damage. Destroyed links are skipped, and every unit off the chain is unchanged. |
| Lightning.LightningMageAttack.StrikeChain | Assets/Scripts/AttacksTypes/LightningMageAttack.cs:60-72 | Each link gets the outcome for its position in the chain. |
| Tank.TankAttack.constructor | Assets/Scripts/AttacksTypes/TankAttack.cs:10-14 | No pending target. |
| Tank.TankAttack.Attack | Assets/Scripts/AttacksTypes/TankAttack.cs:17-27 | A null or destroyed target is ignored. Otherwise it becomes the pending target. |
| Tank.TankAttack.OnAttackHit | Assets/Scripts/AttacksTypes/TankAttack.cs:30-39 | A pending target that still exists takes exactly the attacker's damage through `Damage`, and nothing else about it changes. |
| Tank.RepeatedHits | Assets/Scripts/AttacksTypes/TankAttack.cs:30-39 | Two hits on one target have the effect of the two-hit damage series. |
| Ranger.RangerAttack.constructor | Assets/Scripts/AttacksTypes/RangerAttack.cs:14-18 | No target, and no attack yet. |
| Ranger.RangerAttack.Attack | Assets/Scripts/AttacksTypes/RangerAttack.cs:21-36 | Records the target and the time exactly when the target exists and at least the cooldown has passed. |
| Ranger.RangerAttack.StartProjectile | Assets/Scripts/AttacksTypes/RangerAttack.cs:39-54 | No projectile exactly when the target is gone, or the prefab or the shoot point is missing. Otherwise a new projectile starts at the shoot point, aimed at the target, with the prefab's own speed (`projectileSpeed`, standing for the `speed` field at Projectile.cs:5). |
| Projectiles.Projectile.Init | Assets/Scripts/Projectile.cs:10-14 | Attacker, target, position and speed as given, and not removed. |
| Projectiles.Projectile.Update | Assets/Scripts/Projectile.cs:16-32 | If the target is gone, the projectile is removed without damage. Otherwise it steps toward the target's current position. It hits exactly when it is then closer than 0.2, and the hit applies the attacker's damage once. A removed projectile does nothing. Only the target's health, death flag and AI flag may change. |
| Projectiles.Projectile.HitTarget | Assets/Scripts/Projectile.cs:34-41 | The target takes the attacker's damage through `Damage` and the projectile is removed. Only the target's health, death flag and AI flag change. |
| FireMage.FireMageAttack.constructor | Assets/Scripts/AttacksTypes/FireMageAttack.cs:15-19 | No target, and no attack yet. |
| FireMage.FireMageAttack.Attack | Assets/Scripts/AttacksTypes/FireMageAttack.cs:22-36 | Records the target and the time exactly when the target exists, stats are set, and at least the cooldown has passed. |
| FireMage.FireMageAttack.SpawnMeteor | Assets/Scripts/AttacksTypes/FireMageAttack.cs:40-62 | No meteor exactly when the target is gone, there is no prefab meteor, or stats are missing. Otherwise a meteor appears above the target, offset by the random draw. It carries the attacker's damage and team and the prefab's settings. |
| Meteor.SplashAmount | Assets/Scripts/Projectiles/MeteorProjectile.cs:96-101 | Splash is positive exactly when the radius, the fraction and the rounded amount are all positive. It then equals the rounded damage × fraction. |
| Meteor.SplashAmountBounded | Assets/Scripts/Projectiles/MeteorProjectile.cs:11-12 | A fraction in [0, 1] never splashes more than the damage. |
| Meteor.SplashAmountExamples | Assets/Scripts/Projectiles/MeteorProjectile.cs:99 | Damage 10 at 0.5 splashes 5, damage 3 splashes 2 (half to even), and damage 1 splashes 0. |
| Meteor.SplashHit | Assets/Scripts/Projectiles/MeteorProjectile.cs:115-126 | A unit at zero health or below is untouched. Otherwise it takes the splash through `Damage`. |
| Meteor.SplashHitsLoss | Assets/Scripts/Projectiles/MeteorProjectile.cs:108-127 | n overlapping hits cost at most n × the amount and never raise health. A unit at zero health or below is unchanged. |
| Meteor.MeteorProjectile.Init | Assets/Scripts/Projectiles/MeteorProjectile.cs:26-34 | The prefab's settings (fall speed, impact radius, splash radius and fraction), target, damage, team and position as given, and not removed. |
| Meteor.MeteorProjectile.Update | Assets/Scripts/Projectiles/MeteorProjectile.cs:36-58 | A gone or dead target removes the meteor without damage. Otherwise it steps toward the target's live position. On impact (within the prefab's `impactRadius`, at most that distance) the target takes full damage. Every other hit unit gets the splash outcome once per hit collider. |
| Meteor.MeteorProjectile.OnImpact | Assets/Scripts/Projectiles/MeteorProjectile.cs:60-92 | The target takes full damage if it still exists with health above zero. The splash outcome applies to every other hit unit, and the meteor is removed. |
| Meteor.MeteorProjectile.ApplySplashDamage | Assets/Scripts/Projectiles/MeteorProjectile.cs:94-128 | The primary target is skipped. Each other hit unit gets its splash outcome, counted by its multiplicity among the hits. |
| Meteor.MeteorProjectile.SplashOne | Assets/Scripts/Projectiles/MeteorProjectile.cs:110-126 | A unit on the attacker's team, destroyed, at zero health or below, or the primary target is untouched. Any other unit takes one splash hit. |
| Meteor.MeteorProjectile.SplashAll | Assets/Scripts/Projectiles/MeteorProjectile.cs:108-127 | With a positive amount, each splashable hit unit takes one splash pass per collider it has among the hits. Every other hit unit is unchanged. |
| AI.ClosestEnemy | Assets/Scripts/Characters/EnemyAI.cs:74-91 | The result is an enemy candidate, or none. |
| AI.ClosestEnemyProperties | Assets/Scripts/Characters/EnemyAI.cs:76-90 | The result is the nearest enemy and the first among equally near ones. There is none exactly when no enemy is left. |
| AI.EnemyAI.constructor | Assets/Scripts/Characters/EnemyAI.cs:13-19 | No target and no attack yet. The strategy belongs to the same unit. |
| AI.EnemyAI.Update | Assets/Scripts/Characters/EnemyAI.cs:21-43 | With the AI off nothing changes. Otherwise: the target becomes the closest enemy; with none, nothing else changes. Out of range, the unit steps toward the target. In range it stays put and attacks exactly when more than the cooldown has passed, recording the target in its strategy. |
| AI.EnemyAI.Engage | Assets/Scripts/Characters/EnemyAI.cs:25-42 | Without a target nothing changes. Out of range, the unit steps toward the target. In range it stays put and attacks exactly when more than the cooldown has passed. |
| AI.EnemyAI.FindClosestEnemy | Assets/Scripts/Characters/EnemyAI.cs:74-91 | The target becomes the unit `ClosestEnemy` names, or null. |
| AI.EnemyAI.MoveTowardTarget | Assets/Scripts/Characters/EnemyAI.cs:53-58 | One step of `moveSpeed` toward the target, never past it. |
| AI.EnemyAI.AttackTarget | Assets/Scripts/Characters/EnemyAI.cs:60-71 | Fires exactly when strictly more than the cooldown has passed. It then records the time and has the strategy record the target. Otherwise nothing changes. |
| Geometry.StepTowardCloses | Assets/Scripts/Characters/EnemyAI.cs:53-58 | A step never increases the distance to the goal, and it reaches a goal within one step. |
| Grid.RowMembers | Assets/Scripts/MonsterGrid.cs:49-54 | There are ceil(count / 8) rows of one to eight slots each (`maxPerRow = 8`, MonsterGrid.cs:46). Slot k is in row k div 8. |
| Grid.RowSymmetric | Assets/Scripts/MonsterGrid.cs:55-60 | Each row is centred: mirrored slots have opposite x and equal y. |
| Grid.SlotsDistinct | Assets/Scripts/MonsterGrid.cs:52-63 | Different slots of a column are at different positions. |
| Grid.SlotOf | Assets/Scripts/MonsterGrid.cs:55-61 | Slot i of row r is at x = (2i - (rowSize - 1)) × half a cell and y = start - r × 1.2. |
| Grid.Column | Assets/Scripts/MonsterGrid.cs:23-35 | A column holds only children of the grid. |
| Grid.ColumnMembers | Assets/Scripts/MonsterGrid.cs:25-34 | A column holds exactly the children that exist, are not locked, and have its archetype. |
| Grid.ColumnDistinct | Assets/Scripts/MonsterGrid.cs:23-35 | Distinct children give a column without repeats. |
| Grid.ColumnsPartition | Assets/Scripts/MonsterGrid.cs:31-34 | A movable child is in exactly one of the two columns. |
| Grid.MonsterGrid.constructor | Assets/Scripts/MonsterGrid.cs:7-11 | An empty grid with its layout settings. |
| Grid.MonsterGrid.ArrangeMonsters | Assets/Scripts/MonsterGrid.cs:18-39 | Every movable child sits at its slot in its column. Locked children keep their positions. |
| Grid.MonsterGrid.SplitColumns | Assets/Scripts/MonsterGrid.cs:20-35 | It returns the tank column and the ranger column. |
| Grid.MonsterGrid.PositionColumnCentered | Assets/Scripts/MonsterGrid.cs:41-65 | The k-th unit of the list is placed at slot k. |
| Grid.MonsterGrid.AddMonster | Assets/Scripts/MonsterGrid.cs:68-93 | A null definition or a missing prefab adds nothing. Otherwise a new unit with the definition's stats, the team, and its AI off is appended, and the grid is re-arranged with locked units left in place. |
| Definitions.UnitDefinition.constructor | Assets/Scripts/Definitions/Units/UnitDefinition.cs:4-32 | Every field of the asset as given. |
| Battle.DrawProperties | Assets/Scripts/UI/UnitSelectionUI.cs:33-38 | The draw loop keeps its indices distinct and below the pool size. It extends what was drawn and never exceeds the count. It falls short only when the generator is used up, every output then being among the draws. |
| Battle.RollCount | Assets/Scripts/UI/UnitSelectionUI.cs:30-38 | A roll draws distinct pool indices, at most min(buttonsPerRoll, pool size), and fewer only when the generator outputs ran out. |
| Battle.RollExact | Assets/Scripts/UI/UnitSelectionUI.cs:30-38 | If the generator outputs hit every pool index, the roll draws exactly min(buttonsPerRoll, pool size), or none when buttonsPerRoll ≤ 0. |
| Battle.UnitSelectionUI.constructor | Assets/Scripts/UI/UnitSelectionUI.cs:7-17 | No buttons, no battle manager yet, and the panel shown. |
| Battle.UnitSelectionUI.RollNewUnits | Assets/Scripts/UI/UnitSelectionUI.cs:20-47 | The old buttons go. Without a pool none are made. Otherwise there is one button per drawn index, in draw order, and the generator advances past the outputs used. |
| Battle.UnitSelectionUI.OnUnitChosen | Assets/Scripts/UI/UnitSelectionUI.cs:50-54 | Without a linked manager nothing spawns. Otherwise the linked manager takes the pick exactly as `OnPlayerPickedUnit` states. |
| Battle.RosterAppend | Assets/Scripts/BattleManager.cs:122-130 | The roster of two entry lists is the concatenation of their rosters. |
| Battle.RosterMembers | Assets/Scripts/BattleManager.cs:122-130 | Every rostered definition comes from an entry with a prefab, and every yielding entry's unit is rostered. |
| Battle.SpawnedConcat | Assets/Scripts/BattleManager.cs:122-130 | Units spawned from two rosters together are spawned from their concatenation. |
| Battle.BattleManager.constructor | Assets/Scripts/BattleManager.cs:23-28 | Round 0, no picks, a quota of 3, no battle, and no game over. |
| Battle.BattleManager.Start | Assets/Scripts/BattleManager.cs:33-44 | All AI is off. With no rounds nothing else changes: no unit spawns, and the index, the battle flag, the pick counts, every unit's health, death and lock flags, the children of both grids and their positions, and the panel's fields are as before. Otherwise round 0 begins. |
| Battle.BattleManager.StartRound | Assets/Scripts/BattleManager.cs:49-78 | Round i begins. The index is set and picks reset to a quota of max(1, playerPicks). No battle runs, and every unit is revived with its AI off. Both grids are in formation, the round's wave is appended to the enemy grid, and the panel shows a new roll. |
| Battle.BattleManager.ResetRound | Assets/Scripts/BattleManager.cs:53-64 | The reset half of a round start: index, picks, quota, every unit revived and its AI off, both grids in formation. |
| Battle.BattleManager.DisableAndReset | Assets/Scripts/BattleManager.cs:57-60 | Every unit has its AI off and is revived and unlocked, and both grids are in formation. |
| Battle.BattleManager.SpawnAndOpen | Assets/Scripts/BattleManager.cs:67-77 | The wave is spawned onto the enemy grid and the pick panel opens with a new roll. Formation is kept. |
| Battle.BattleManager.OpenSelection | Assets/Scripts/BattleManager.cs:70-75 | The panel is shown, linked to this manager, with a fresh roll. |
| Battle.BattleManager.ResetUnitsForNewRound | Assets/Scripts/BattleManager.cs:83-111 | Every unit is at full health, alive and unlocked, and both grids are in formation. |
| Battle.BattleManager.ArrangeBoth | Assets/Scripts/BattleManager.cs:106-110 | Both grids are in formation. |
| Battle.BattleManager.SpawnEnemyWave | Assets/Scripts/BattleManager.cs:116-133 | Without a grid or a spawn list nothing spawns. Otherwise the enemy grid gains units spawned exactly from the round's roster, on `EnemyTeam`. |
| Battle.BattleManager.SpawnAndArrange | Assets/Scripts/BattleManager.cs:122-133 | The roster is spawned as new enemy units, in order, and the enemy grid ends in formation. A player grid in formation stays so. |
| Battle.BattleManager.SpawnEntries | Assets/Scripts/BattleManager.cs:122-130 | The entries' roster is spawned, in order, as new units. |
| Battle.BattleManager.SpawnStep | Assets/Scripts/BattleManager.cs:122-130 | One entry's units are appended, as new units, after those spawned so far. |
| Battle.BattleManager.SpawnEntry | Assets/Scripts/BattleManager.cs:124-129 | One entry spawns `count` units of its definition. A null entry, a null unit or a missing prefab spawns none. |
| Battle.BattleManager.OnPlayerPickedUnit | Assets/Scripts/BattleManager.cs:138-162 | An ignored pick (battle running, game over, null definition or no grid) changes nothing: no spawn, the same pick count and scheduled starts, the same player grid and positions, and the same panel. Otherwise it counts a pick and appends `spawnCount` new player units of the definition (none without a prefab). When a unit was added, the player grid ends in formation; locked units keep their place, and with no unit added nothing moves. Meeting the quota hides the panel, keeps its buttons and generator, and schedules one delayed start. Below the quota the panel's visibility is kept and it shows a new roll drawn from its old generator. |
| Battle.BattleManager.AcceptPick | Assets/Scripts/BattleManager.cs:143-161 | The accepted branch of a pick, with everything `OnPlayerPickedUnit` states for it. |
| Battle.BattleManager.AddPicked | Assets/Scripts/BattleManager.cs:143-146 | The player grid gains `spawnCount` new units of the definition, or none without a prefab. Once a unit joined, the grid is in formation (each `AddMonster` re-arranges it, MonsterGrid.cs:91). Locked units keep their place, and with no unit added nothing moves. |
| Battle.BattleManager.CountPick | Assets/Scripts/BattleManager.cs:148-161 | The pick count rises by one. Meeting the quota hides the panel with its buttons and generator kept and schedules one delayed start; below it, the panel's visibility is kept and it shows a new roll from its old generator. |
| Battle.BattleManager.SpawnUnit | Assets/Scripts/BattleManager.cs:128 | One `AddMonster` adds exactly one new unit of the definition when it has a prefab, and none otherwise. With a prefab the grid then is in formation; locked units keep their place, and without one nothing moves. |
| Battle.BattleManager.BattleDelayElapsed | Assets/Scripts/BattleManager.cs:164-168 | One scheduled start fires: the battle starts, every unit is locked, and all AI is on. |
| Battle.BattleManager.StartBattle | Assets/Scripts/BattleManager.cs:173-179 | The battle is running, every unit is locked, and all AI is on. |
| Battle.BattleManager.Update | Assets/Scripts/BattleManager.cs:184-195 | Outside a running battle nothing changes: no spawn, the same index and flags, every unit's AI flag as before, and the pick counts, every unit's health, death and lock flags, the children of both grids and their positions, and the panel's fields as before. In a running battle, with both teams alive at the start of the frame, the same holds; otherwise the battle ends as `EndBattle` states for the two liveness flags. |
| Battle.BattleManager.CheckTeams | Assets/Scripts/BattleManager.cs:188-194 | Returns whether each team has a unit above zero health, as `AnyAlive` computes it. With both alive nothing changes, as for an idle `Update`; otherwise the battle ends as `EndBattle` states. |
| Battle.BattleManager.EndBattle | Assets/Scripts/BattleManager.cs:197-214 | The battle stops with all AI off. A loss (even if the enemy is also wiped out) ends the game at the same index. With enemies wiped out the index advances: past the last round the game is won, otherwise that round begins. Except for the round start, the pick counts, every unit's health, death and lock flags, the children of both grids and their positions, and the panel's fields are unchanged. |
| Battle.BattleManager.StopBattle | Assets/Scripts/BattleManager.cs:198-199 | The battle flag is off and every unit's AI is off; the pick counts, every unit's health, death and lock flags, the children of both grids and their positions, and the panel's fields are unchanged. |
| Battle.BattleManager.HandleRoundWin | Assets/Scripts/BattleManager.cs:219-235 | The index advances. Past the last round the game is over, with no battle and all AI off, and the pick counts, every unit's health, death and lock flags, the children of both grids and their positions, and the panel's fields are unchanged; otherwise that round begins. |
| Battle.BattleManager.AnyAlive | Assets/Scripts/BattleManager.cs:240-250 | True exactly when some unit of the team has health above zero. |
| Battle.BattleManager.SetAllAIEnabled | Assets/Scripts/BattleManager.cs:252-267 | Every unit's AI flag is the given value. |
| Battle.BattleManager.LockAllUnits | Assets/Scripts/BattleManager.cs:269-275 | Every unit is locked. |
| DeckSlots.PlayerPrefs.constructor | Assets/Scripts/UI/Deck/UnitsDeckManager.cs:39 | The store as given. |
| DeckSlots.PlayerPrefs.GetString | Assets/Scripts/UI/Deck/UnitsDeckManager.cs:39 | The stored value, or the default for a missing key. |
| DeckSlots.PlayerPrefs.SetString | Assets/Scripts/UI/Deck/UnitsDeckManager.cs:65 | The key maps to the value, and other keys are unchanged. |
| DeckSlots.PlayerPrefs.DeleteKey | Assets/Scripts/UI/Deck/UnitsDeckManager.cs:67 | The key is gone, and other keys are unchanged. |
| DeckSlots.SlotKey | Assets/Scripts/UI/Deck/UnitsDeckManager.cs:20 | The prefix `deck_slot_` followed by one character. |
| DeckSlots.SlotKeyInjective | Assets/Scripts/UI/Deck/UnitsDeckManager.cs:38 | Two slot keys are equal exactly when the slots are. |
| DeckSlots.FindById | Assets/Scripts/UI/Deck/UnitsDeckManager.cs:43 | A found definition is in the pool and has the id. There is none exactly when no non-null definition has it. |
| DeckSlots.FindByIdUnique | Assets/Scripts/UI/Deck/UnitsDeckManager.cs:43 | With unique ids, looking up a definition's id finds that definition. |
| DeckSlots.LoadedSlots | Assets/Scripts/UI/Deck/UnitsDeckManager.cs:36-46 | At most one unit per slot, and every loaded unit is from the pool. |
| DeckSlots.ReadSlots | Assets/Scripts/UnitsCollectionAndDeck/PlayerDeckProvider.cs:51-62 | The slot loop yields exactly `LoadedSlots` over the four slots. |
| DeckSlots.LoadedSlotsEmpty | Assets/Scripts/UI/Deck/UnitsDeckManager.cs:36-46 | With no slot key stored, nothing loads. |
| DeckSlots.NonNulls | Assets/Scripts/UI/Deck/UnitsDeckManager.cs:50-54 | Exactly the non-null entries, never more than the input. |
| DeckSlots.SaveSlotsContents | Assets/Scripts/UI/Deck/UnitsDeckManager.cs:58-71 | Slot i holds the id of deck[i] when the deck has one, and is absent otherwise. Every other key is untouched. |
| DeckSlots.SaveSlotsSlots | Assets/Scripts/UI/Deck/UnitsDeckManager.cs:60-68 | The slot part of that statement. |
| DeckSlots.SaveSlotsOther | Assets/Scripts/UI/Deck/UnitsDeckManager.cs:60-68 | A key that is no slot key keeps its entry. |
| DeckSlots.LoadAfterSave | Assets/Scripts/UI/Deck/UnitsDeckManager.cs:36-68 | Reading back the first n slots after a save gives the first n saved units. This needs unique ids, non-empty ids, and saved units from the pool. |
| DeckManager.FallbackDeck | Assets/Scripts/UI/Deck/UnitsDeckManager.cs:48-55 | At most four units. |
| DeckManager.LoadedDeck | Assets/Scripts/UI/Deck/UnitsDeckManager.cs:32-56 | At most four units, all from the pool. |
| DeckManager.Toggled | Assets/Scripts/UI/Deck/UnitsDeckManager.cs:85-106 | A null definition, or adding to a full deck, changes nothing. A unit in the deck is removed. Any other unit is appended. |
| DeckManager.ToggleTwice | Assets/Scripts/UI/Deck/UnitsDeckManager.cs:89-100 | Toggling a new unit into a non-full deck adds it, and toggling it again restores the deck. |
| DeckManager.ToggleOutDistinct | Assets/Scripts/UI/Deck/UnitsDeckManager.cs:89-92 | Toggling a unit that occurs once takes it out of the deck. |
| DeckManager.UnitsDeckManager.constructor | Assets/Scripts/UI/Deck/UnitsDeckManager.cs:25-29 | After `Awake` the deck is `LoadedDeck` of the store. |
| DeckManager.UnitsDeckManager.LoadDeck | Assets/Scripts/UI/Deck/UnitsDeckManager.cs:32-56 | The deck becomes `LoadedDeck` of the store. |
| DeckManager.UnitsDeckManager.SaveDeck | Assets/Scripts/UI/Deck/UnitsDeckManager.cs:58-71 | The store becomes `SaveSlots` of the deck. |
| DeckManager.UnitsDeckManager.IsInDeck | Assets/Scripts/UI/Deck/UnitsDeckManager.cs:74-78 | True exactly for a non-null definition in the deck. |
| DeckManager.UnitsDeckManager.IsIdInDeck | Assets/Scripts/UI/Deck/UnitsDeckManager.cs:80-83 | True exactly when some deck unit has the id. |
| DeckManager.UnitsDeckManager.ToggleUnit | Assets/Scripts/UI/Deck/UnitsDeckManager.cs:85-106 | The deck becomes `Toggled`. It is saved exactly when it changed, and the deck stays within four units. |
| DeckManager.UnitsDeckManager.RemoveFromDeck | Assets/Scripts/UI/Deck/UnitsDeckManager.cs:108-118 | A null definition, or one not in the deck, changes nothing. Otherwise its first occurrence is removed and the deck is saved. |
| DeckManager.SaveThenLoad | Assets/Scripts/UI/Deck/UnitsDeckManager.cs:32-71 | Loading after saving a non-empty deck gives it back, given unique non-empty ids from the pool. |
| DeckManager.SaveEmptyThenLoad | Assets/Scripts/UI/Deck/UnitsDeckManager.cs:48-68 | Loading after saving an empty deck gives the fallback deck. |
| DeckProvider.ProvidedDeck | Assets/Scripts/UnitsCollectionAndDeck/PlayerDeckProvider.cs:41-65 | At most four units. A null or empty pool gives an empty deck. |
| DeckProvider.ProviderAgreesWithManager | Assets/Scripts/UnitsCollectionAndDeck/PlayerDeckProvider.cs:41-65 | With stored units both loaders give the same deck. With none, the provider gives an empty deck where the manager falls back. |
| DeckProvider.NoSlotsNoDeck | Assets/Scripts/UnitsCollectionAndDeck/PlayerDeckProvider.cs:51-62 | With no slot stored the deck is empty. |
| DeckProvider.ProviderLoadsSavedDeck | Assets/Scripts/UnitsCollectionAndDeck/PlayerDeckProvider.cs:51-62 | The provider reads back any deck the manager saved, given unique non-empty ids from the pool. |
| DeckProvider.PlayerDeckProvider.constructor | Assets/Scripts/UnitsCollectionAndDeck/PlayerDeckProvider.cs:17-28 | After `Awake` the deck is `ProvidedDeck` of the store. |
| DeckProvider.PlayerDeckProvider.Initialize | Assets/Scripts/UnitsCollectionAndDeck/PlayerDeckProvider.cs:30-34 | Sets the pool and reloads. |
| DeckProvider.PlayerDeckProvider.ReloadDeck | Assets/Scripts/UnitsCollectionAndDeck/PlayerDeckProvider.cs:36-39 | The deck becomes `ProvidedDeck` of the store. |
| DeckProvider.PlayerDeckProvider.LoadDeck | Assets/Scripts/UnitsCollectionAndDeck/PlayerDeckProvider.cs:41-65 | The deck becomes `ProvidedDeck` of the store. |
| DropCell.TintFor | Assets/Scripts/DropArea/DropAreaCell.cs:45-53 | A cell that is not special is tinted normal. A special one gets the bonus tint exactly when its percentage is non-negative, and the malus tint exactly when it is negative. |
| DropCell.DefaultNotSpecial | Assets/Scripts/DropArea/DropAreaCell.cs:29-30 | No bonus type, or a percentage within the negligible band, is not special. |
| DropCell.DropAreaCell.constructor | Assets/Scripts/DropArea/DropAreaCell.cs:14-24 | A plain cell at (0, 0) with no bonus. |
| DropCell.DropAreaCell.UpdateColor | Assets/Scripts/DropArea/DropAreaCell.cs:41-54 | Without a renderer nothing changes. Otherwise the colour is `TintFor` of the bonus. |
| DropGrid.FirstMatch | Assets/Scripts/DropArea/DropAreaGrid.cs:169-177 | The first configuration for the cell's row and column, or none. |
| DropGrid.DropAreaGrid.constructor | Assets/Scripts/DropArea/DropAreaGrid.cs:7-26 | The settings as given, and no cells built yet. |
| DropGrid.DropAreaGrid.ApplySpecialConfigToCell | Assets/Scripts/DropArea/DropAreaGrid.cs:167-184 | The first matching configuration's bonus, or none, is applied and the cell re-tinted. |
| DropGrid.DropAreaGrid.RebuildGrid | Assets/Scripts/DropArea/DropAreaGrid.cs:82-145 | Without a prefab nothing changes. Otherwise there is a new table with, at every row and column, a new cell at its place, with that row and column and its configured bonus. |
| DropGrid.DropAreaGrid.BuildRow | Assets/Scripts/DropArea/DropAreaGrid.cs:118-141 | Row r is built, and the other rows are unchanged. |
| DropGrid.DropAreaGrid.GetCell | Assets/Scripts/DropArea/DropAreaGrid.cs:201-208 | Outside the grid, or before it is built, null. Otherwise the cell at that row and column. |
| DropGrid.DropAreaGrid.RowMajorHolds | Assets/Scripts/DropArea/DropAreaGrid.cs:218-227 | Every cell appears in the enumeration. |
| DropGrid.DropAreaGrid.GetClosestCell | Assets/Scripts/DropArea/DropAreaGrid.cs:210-230 | The first nearest cell in enumeration order and its squared distance as `Some`, or null and `None` when the grid has no cell. |
| DropGrid.DropAreaGrid.ScanRow | Assets/Scripts/DropArea/DropAreaGrid.cs:218-227 | Scanning one more row keeps the first nearest of all cells scanned. |
| DropGrid.DropAreaGrid.ScanCell | Assets/Scripts/DropArea/DropAreaGrid.cs:220-226 | Scanning one more cell keeps the first nearest cell: a null cell is skipped, and only a strictly closer one replaces the best. |
| DropGrid.ClosestCellProperties | Assets/Scripts/DropArea/DropAreaGrid.cs:218-227 | The result is at least as near as every cell and strictly nearer than every earlier one. There is none exactly when no cell exists. |
| Zones.DropZone.Awake | Assets/Scripts/UI/Dropzone.cs:22-33 | The highlight starts hidden and not blinking, and the zone is consistent. |
| Zones.DropZone.AfterSetHighlight | Assets/Scripts/UI/Dropzone.cs:99-113 | Without a highlight nothing changes. Otherwise it is shown and blinks exactly when on, and switching off resets the alpha to its minimum. It keeps the zone consistent. |
| Zones.DropZone.SetHighlight | Assets/Scripts/UI/Dropzone.cs:99-113 | The state becomes `AfterSetHighlight`. |
| Zones.DropZone.AfterDisable | Assets/Scripts/UI/Dropzone.cs:43-49 | A blinking highlight stops and hides, and the alpha is kept. |
| Zones.DropZone.OnEnable | Assets/Scripts/UI/Dropzone.cs:35-39 | Registers the zone unless it is already registered. |
| Zones.DropZone.OnDisable | Assets/Scripts/UI/Dropzone.cs:41-50 | Unregisters the zone and stops its blinking. |
| Zones.Enabled | Assets/Scripts/UI/Dropzone.cs:37-38 | The zone is registered, the rest keep their order, and there are no repeats. |
| Zones.EnabledIdempotent | Assets/Scripts/UI/Dropzone.cs:37-38 | Enabling twice is enabling once. |
| Zones.EnableThenDisable | Assets/Scripts/UI/Dropzone.cs:35-50 | Enabling a new zone and then disabling it restores the registry. |
| Zones.FirstContaining | Assets/Scripts/UI/Dropzone.cs:133-141 | The first registered zone containing the point, or none. |
| Zones.ZoneRegistry.constructor | Assets/Scripts/UI/Dropzone.cs:8 | The registry starts empty. |
| Zones.ZoneRegistry.SetAllHighlights | Assets/Scripts/UI/Dropzone.cs:116-123 | Every registered zone is set, and the registry is unchanged. |
| Zones.ZoneRegistry.GetZoneAtWorldPoint | Assets/Scripts/UI/Dropzone.cs:133-141 | The first registered zone containing the point, null exactly when none does. |
| SpacePreview.AlternatingLast | Assets/Scripts/DropZonesSpacePreview.cs:19-34 | The last switch agrees with the shown state, and the next switch must invert it. |
| SpacePreview.DropZonesSpacePreview.constructor | Assets/Scripts/DropZonesSpacePreview.cs:6-9 | Hidden, with the timer at zero. |
| SpacePreview.DropZonesSpacePreview.Update | Assets/Scripts/DropZonesSpacePreview.cs:11-36 | Holding the key adds the frame time. The highlights show once, when the timer first reaches `holdDelay`. Releasing the key resets the timer and hides them. Switches alternate. |
| SpacePreview.DropZonesSpacePreview.OnDisable | Assets/Scripts/DropZonesSpacePreview.cs:38-47 | Shown highlights are hidden and the timer resets. |
| CardGrid.UnitCardView.constructor | Assets/Scripts/UI/Deck/UnitCardView.cs:29-36 | At its original size, with quick actions hidden. |
| CardGrid.UnitCardView.Expand | Assets/Scripts/UI/Deck/UnitCardView.cs:125-129 | The height is the original plus the extra. |
| CardGrid.UnitCardView.Collapse | Assets/Scripts/UI/Deck/UnitCardView.cs:132-135 | Back to the original height. |
| CardGrid.UnitCardView.ShowQuickActions | Assets/Scripts/UI/Deck/UnitCardView.cs:137-141 | Switches the panel when there is one. |
| CardGrid.MoveToEnd | Assets/Scripts/UI/Deck/UnitsGridController.cs:56 | The card is last, with the same cards otherwise. |
| CardGrid.MoveToIndex | Assets/Scripts/UI/Deck/UnitsGridController.cs:74 | The card is at index i, with the same cards otherwise. |
| CardGrid.RestoreOrder | Assets/Scripts/UI/Deck/UnitsGridController.cs:49-74 | Moving a card last and back to its old index restores the sibling order. |
| CardGrid.UnitsGridController.constructor | Assets/Scripts/UI/Deck/UnitsGridController.cs:16-25 | Nothing expanded, and the grid layout on. |
| CardGrid.UnitsGridController.OnCardClicked | Assets/Scripts/UI/Deck/UnitsGridController.cs:28-44 | Clicking the expanded card collapses it. Any other card becomes the only expanded one and is drawn last. |
| CardGrid.UnitsGridController.ExpandCard | Assets/Scripts/UI/Deck/UnitsGridController.cs:46-63 | Records the index, switches the layout off, moves the card last, grows it, and shows its actions. |
| CardGrid.UnitsGridController.CollapseCurrent | Assets/Scripts/UI/Deck/UnitsGridController.cs:65-87 | With nothing expanded nothing changes. Otherwise the card is at rest, the order is restored, and the layout is back on. |
| CardGrid.UnitsGridController.RestoreSiblingIndex | Assets/Scripts/UI/Deck/UnitsGridController.cs:74 | The siblings are back in their resting order. |
| CardGrid.UnitsGridController.ForceCollapse | Assets/Scripts/UI/Deck/UnitsGridController.cs:89-92 | The same as `CollapseCurrent`. |
| Souls.Wrap32 | Assets/Scripts/UI/SoulsManager.cs:12 | An in-range value is kept. Any other is reduced modulo 2^32 into the `int` range. |
| Souls.AfterUse | Assets/Scripts/UI/SoulsManager.cs:29-34 | Never negative. When no wrap-around occurs, it is the difference, clamped at zero. |
| Souls.AfterAdd | Assets/Scripts/UI/SoulsManager.cs:45-50 | An amount of zero or less changes nothing. A positive amount, absent overflow, is added. |
| Souls.AddOverflow | Assets/Scripts/UI/SoulsManager.cs:47-48 | Adding to a non-negative balance turns negative exactly when the sum passes the largest `int`. |
| Souls.AddThenUse | Assets/Scripts/UI/SoulsManager.cs:29-50 | Adding and then spending the same amount restores the balance. |
| Souls.SoulsManager.constructor | Assets/Scripts/UI/SoulsManager.cs:12 | The inspector's balance. |
| Souls.SoulsManager.UseSouls | Assets/Scripts/UI/SoulsManager.cs:29-34 | The balance becomes `AfterUse`, and it is never negative. |
| Souls.SoulsManager.AddSouls | Assets/Scripts/UI/SoulsManager.cs:45-50 | The balance becomes `AfterAdd`. |
| Souls.SoulsManager.EnoughThenExact | Assets/Scripts/UI/SoulsManager.cs:52-55 | When the check passes for a non-negative price, paying leaves exactly the difference. |

## Left out

### Weaker contracts

- Battle.RollCount: the generator is a finite oracle, so the draw count is exact only when the outputs hit every index; that case is `Battle.RollExact`.
- Battle.UnitSelectionUI.RollNewUnits: the source loop spins until it has enough distinct indices and need not terminate. The model also stops when the oracle is used up.
- Battle.BattleManager.HandleRoundWin: a null `levelDefinition` would throw in the source. The model counts it as zero rounds and ends the game.
- Battle.BattleManager.OnPlayerPickedUnit: `pendingStarts` counts the scheduled delayed starts, so picks during the delay are accepted as in the source. Which frame the delay ends on is not modelled.
- Characters.CharacterStats.Revive: `Revive` is not among the modelled files. The model assumes it restores full health, clears the death flag and touches nothing else.
- Ranger.RangerAttack.StartProjectile: the model assumes the prefab carries a `Projectile` component.
- Grid.MonsterGrid.AddMonster: the model assumes `Init(team, def, level)` copies the definition's stats. The level is not applied to the stats.
- Zones.ZoneRegistry.SetAllHighlights: the source skips null entries. Only enabled zones are ever registered, so the registry holds none.
- CardGrid.UnitsGridController.OnCardClicked: the model requires the card to be a child of the grid, so its sibling index is in range.

### Presentation and engine

- Presentation is left out because nothing in the core reads it back. This covers:
  - VFX, the animator, the HP bar, sprite flipping, and `UpdateFacing`;
  - the `DropZone` blink pulse and `SyncHighlightToCollider`;
  - the card wiggle and `LayoutRebuilder`;
  - `BuildDeckRow` and `OnDeckChanged`;
  - impact VFX.
- `Die` also disables the `RangerAttack` and `TankAttack` components and stops the body; only the AI switch is modelled.
- The `Destroy(gameObject, 2f)` timer is left out; `Destroy` is a separate operation the engine calls later.
- `MonsterGrid.OnTransformChildrenChanged` (MonsterGrid.cs:13-16) is left out. The engine calls it, and so re-runs `ArrangeMonsters`, whenever a child joins or leaves the grid. The model arranges only where the core calls `ArrangeMonsters` or `AddMonster` does. So a unit's delayed `Destroy` landing after a round reset, which in the source re-forms the unlocked units at once, leaves the positions unchanged in the model.
- Physics and engine queries are inputs, as are `Time.time` and `Time.deltaTime`. These are:
  - `FindObjectsByType`;
  - `Physics2D.OverlapCircleAll`;
  - `Collider2D.OverlapPoint`.
- Rigidbody velocity is left out.
- Movement is one integer step per frame, of at most the speed on each axis, that never passes the target; the frame time is not used. This replaces the float `direction * speed * Time.deltaTime` of `EnemyAI` and `Projectile` (which can pass the target) and the float `Vector3.MoveTowards` of the meteor.
- The meteor's ground point from the collider bounds is left out.
- Grid centring in world units, the background sprite and the area collider are left out.
- `ClearExistingCells` is left out, because the rebuilt table replaces the old one.
- `PlayerPrefs.Save` is left out (disk I/O).
- The singletons' `Instance` checks in `Awake` are left out.
- `StartCoroutine` and its delay are left out; a scheduled start is a counter that `BattleDelayElapsed` uses up.
- `UnlockAllUnits` is left out, because it is never called.
- `SoulsManager.AddRoundSouls` is left out, because it reads a `souls` field that no modelled definition has.
- `UpdateSoulsCountText` is left out (UI text).
- The duplicate `Assets/Scripts/TankAttack.cs` and `Assets/Scripts/RangerAttack.cs`, and the older `Assets/Scripts/Units/UnitDefinition.cs`, are not part of this model. The model follows the `AttacksTypes` and `Definitions` versions.
