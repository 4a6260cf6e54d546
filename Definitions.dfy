/**
 * Authored data assets: unit definitions (`UnitDefinition`) and level
 * definitions (`LevelDefinition`, `RoundDefinition`, `EnemySpawnEntry`).
 */
module Definitions {
  import opened Wrappers
  import opened Characters

  /**
   * A `UnitDefinition` asset.  It is a class so that, as in Unity, two
   * assets are told apart by identity (`List.Contains`, `==`) and not by
   * content.  `hasPrefab` says whether its `prefab` is assigned.  Stats use
   * the units of `CharacterStats`.
   */
  class UnitDefinition {
    const id: string
    const hasPrefab: bool
    const monsterType: MonsterType
    const spawnCount: int
    const soulCost: int
    const maxHealth: int
    const damage: int
    const moveSpeed: nat
    const attackRange: nat
    const attackCooldown: int

    constructor (id: string, hasPrefab: bool, monsterType: MonsterType, spawnCount: int,
                 soulCost: int, maxHealth: int, damage: int, moveSpeed: nat,
                 attackRange: nat, attackCooldown: int)
      ensures this.id == id && this.hasPrefab == hasPrefab && this.monsterType == monsterType
      ensures this.spawnCount == spawnCount && this.soulCost == soulCost
      ensures this.maxHealth == maxHealth && this.damage == damage && this.moveSpeed == moveSpeed
      ensures this.attackRange == attackRange && this.attackCooldown == attackCooldown
    {
      this.id := id;
      this.hasPrefab := hasPrefab;
      this.monsterType := monsterType;
      this.spawnCount := spawnCount;
      this.soulCost := soulCost;
      this.maxHealth := maxHealth;
      this.damage := damage;
      this.moveSpeed := moveSpeed;
      this.attackRange := attackRange;
      this.attackCooldown := attackCooldown;
    }
  }

  /** One line of an enemy wave: `count` copies of `unit` at `level`. */
  datatype EnemySpawnEntry = EnemySpawnEntry(unit: UnitDefinition?, count: int := 1, level: int := 1)

  /** `None` entries stand for null array elements, `enemySpawns == None`
      for a null array. */
  datatype RoundDefinition = RoundDefinition(
    enemySpawns: Option<seq<Option<EnemySpawnEntry>>>,
    playerPicks: int := 3)

  /** Rounds are played in the order of `rounds`. */
  datatype LevelDefinition = LevelDefinition(rounds: Option<seq<RoundDefinition>>)
  {
    function RoundsCount(): (n: nat)
      ensures rounds.None? ==> n == 0
      ensures rounds.Some? ==> n == |rounds.value|
    {
      if rounds.Some? then |rounds.value| else 0
    }

    function Round(i: nat): RoundDefinition
      requires i < RoundsCount()
    {
      rounds.value[i]
    }
  }
}
