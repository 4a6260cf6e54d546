/**
 * `EnemyAI`, the per-unit behaviour every combat unit runs each frame:
 * re-acquire the nearest living unit of the other team, walk toward it
 * while it is beyond attack range, and otherwise attack it through the
 * unit's attack strategy behind the AI's own (strict) cooldown gate.
 */
module AI {
  import opened Wrappers
  import opened Geometry
  import opened Nearest
  import opened Characters
  import opened Tank
  import opened Ranger
  import opened Lightning
  import opened FireMage

  /** The `Where` filter of `FindClosestEnemy`: another team, health above zero. */
  predicate IsEnemyOf(myTeam: Team, u: Snapshot)
  {
    u.team != myTeam && u.health > 0
  }

  /** One entry per enumerated unit: its squared distance if it passes the filter. */
  function EnemyCandidates(myTeam: Team, myPos: Pos, units: seq<Snapshot>): (ds: seq<Option<nat>>)
    ensures |ds| == |units|
    ensures forall i :: 0 <= i < |units| ==>
      ds[i] == if IsEnemyOf(myTeam, units[i]) then Some(DistSq(myPos, units[i].position)) else None
  {
    seq(|units|, i requires 0 <= i < |units| =>
      if IsEnemyOf(myTeam, units[i]) then Some(DistSq(myPos, units[i].position)) else None)
  }

  /** `Where(...).OrderBy(distance).First()`, or `None` when the filter is
      empty.  `OrderBy` is stable, so ties go to the first enumerated. */
  function ClosestEnemy(myTeam: Team, myPos: Pos, units: seq<Snapshot>): (r: Option<nat>)
    ensures r.Some? ==> r.value < |units| && IsEnemyOf(myTeam, units[r.value])
  {
    FirstArgMin(EnemyCandidates(myTeam, myPos, units))
  }

  /** The chosen unit is at minimal distance among all enemies, strictly
      closer than every enemy enumerated before it, and there is no choice
      exactly when there is no living enemy. */
  lemma ClosestEnemyProperties(myTeam: Team, myPos: Pos, units: seq<Snapshot>)
    ensures var r := ClosestEnemy(myTeam, myPos, units);
      (r.Some? ==> forall i :: 0 <= i < |units| && IsEnemyOf(myTeam, units[i]) ==>
        DistSq(myPos, units[r.value].position) <= DistSq(myPos, units[i].position)) &&
      (r.Some? ==> forall i :: 0 <= i < r.value && IsEnemyOf(myTeam, units[i]) ==>
        DistSq(myPos, units[r.value].position) < DistSq(myPos, units[i].position)) &&
      (r.None? <==> forall i :: 0 <= i < |units| ==> !IsEnemyOf(myTeam, units[i]))
  {
    var ds := EnemyCandidates(myTeam, myPos, units);
    FirstArgMinProperties(ds);
  }

  /** The `IAttackStrategy` component on the unit, one case per implementation. */
  datatype Strategy =
    | TankStrategy(tank: TankAttack)
    | RangerStrategy(ranger: RangerAttack)
    | LightningStrategy(lightning: LightningMageAttack)
    | FireStrategy(fire: FireMageAttack)

  function StrategyObject(s: Strategy): object
  {
    match s
    case TankStrategy(t) => t
    case RangerStrategy(r) => r
    case LightningStrategy(l) => l
    case FireStrategy(f) => f
  }

  /** The strategy has recorded `target` at time `now` (the tank records no time). */
  predicate Recorded(s: Strategy, target: CharacterStats, now: int)
    reads StrategyObject(s)
  {
    match s
    case TankStrategy(t) => t.currentTarget == target
    case RangerStrategy(r) => r.currentTarget == target && r.lastAttackTime == now
    case LightningStrategy(l) => l.currentTarget == target && l.lastAttackTime == now
    case FireStrategy(f) => f.currentTarget == target && f.lastAttackTime == now
  }

  class EnemyAI {
    const myStats: CharacterStats
    /** `GetComponent<IAttackStrategy>()`, `None` when the unit has none. */
    const attackStrategy: Option<Strategy>
    var targetStats: CharacterStats?
    var lastAttackTime: int

    function StrategyFrame(): set<object>
    {
      if attackStrategy.Some? then {StrategyObject(attackStrategy.value)} else {}
    }

    /**
     * The strategy sits on the same game object, so it reads the same
     * stats; and it has last fired no later than the AI, since only the AI
     * calls it and the AI records the time before calling.
     */
    predicate Valid()
      reads this, StrategyFrame()
    {
      attackStrategy.Some? ==>
        match attackStrategy.value
        case TankStrategy(t) => t.stats == myStats
        case RangerStrategy(r) => r.stats == myStats && r.lastAttackTime <= lastAttackTime
        case LightningStrategy(l) => l.stats == myStats && l.lastAttackTime <= lastAttackTime
        case FireStrategy(f) => f.stats == myStats && f.lastAttackTime <= lastAttackTime
    }

    /** The component together with `Start`, which looks up the unit's
        stats and strategy. */
    constructor (myStats: CharacterStats, attackStrategy: Option<Strategy>)
      requires attackStrategy.Some? ==>
        match attackStrategy.value
        case TankStrategy(t) => t.stats == myStats
        case RangerStrategy(r) => r.stats == myStats && r.lastAttackTime <= 0
        case LightningStrategy(l) => l.stats == myStats && l.lastAttackTime <= 0
        case FireStrategy(f) => f.stats == myStats && f.lastAttackTime <= 0
      ensures this.myStats == myStats && this.attackStrategy == attackStrategy
      ensures targetStats == null && lastAttackTime == 0
      ensures Valid()
    {
      this.myStats := myStats;
      this.attackStrategy := attackStrategy;
      targetStats := null;
      lastAttackTime := 0;
    }

    /**
     * One frame.  `all` is what `FindObjectsByType<CharacterStats>`
     * returns: every unit that still exists, in enumeration order.  The
     * engine runs `Update` only while the component is enabled, which is
     * the `aiEnabled` flag that `Die` clears; a disabled AI does nothing.
     */
    method Update(all: seq<CharacterStats>, now: int, ghost units: seq<Snapshot>)
      requires Valid()
      requires units == Snapshots(all)
      requires forall i :: 0 <= i < |all| ==> !all[i].destroyed
      modifies this`targetStats, this`lastAttackTime, myStats`position, StrategyFrame()
      ensures Valid()
      ensures !myStats.aiEnabled ==>
        targetStats == old(targetStats) && lastAttackTime == old(lastAttackTime) &&
        myStats.position == old(myStats.position) && unchanged(StrategyFrame())
      ensures myStats.aiEnabled ==>
        var c := ClosestEnemy(myStats.team, old(myStats.position), units);
        targetStats == (if c.Some? then all[c.value] else null) &&
        (c.None? ==>
          lastAttackTime == old(lastAttackTime) && myStats.position == old(myStats.position) &&
          unchanged(StrategyFrame())) &&
        (c.Some? ==>
          var t := all[c.value];
          var inRange := Within(old(myStats.position), t.position, myStats.attackRange);
          (!inRange ==>
            myStats.position == StepToward(old(myStats.position), t.position, myStats.moveSpeed) &&
            lastAttackTime == old(lastAttackTime) && unchanged(StrategyFrame())) &&
          (inRange ==>
            myStats.position == old(myStats.position) &&
            var fires := now - old(lastAttackTime) > myStats.attackCooldown;
            lastAttackTime == (if fires then now else old(lastAttackTime)) &&
            (fires && attackStrategy.Some? ==> Recorded(attackStrategy.value, t, now)) &&
            (!fires ==> unchanged(StrategyFrame()))))
    {
      if !myStats.aiEnabled {
        return;
      }
      FindClosestEnemy(all, units);
      Engage(now);
    }

    /** The rest of the frame once the target is acquired: nothing without
        one, a step toward it while out of range, an attack otherwise. */
    method Engage(now: int)
      requires Valid() && (targetStats != null ==> !targetStats.destroyed && targetStats != myStats)
      modifies this`lastAttackTime, myStats`position, StrategyFrame()
      ensures Valid()
      ensures targetStats == null ==>
        lastAttackTime == old(lastAttackTime) && myStats.position == old(myStats.position) &&
        unchanged(StrategyFrame())
      ensures targetStats != null ==>
        var inRange := Within(old(myStats.position), targetStats.position, myStats.attackRange);
        (!inRange ==>
          myStats.position == StepToward(old(myStats.position), targetStats.position, myStats.moveSpeed) &&
          lastAttackTime == old(lastAttackTime) && unchanged(StrategyFrame())) &&
        (inRange ==>
          myStats.position == old(myStats.position) &&
          var fires := now - old(lastAttackTime) > myStats.attackCooldown;
          lastAttackTime == (if fires then now else old(lastAttackTime)) &&
          (fires && attackStrategy.Some? ==> Recorded(attackStrategy.value, targetStats, now)) &&
          (!fires ==> unchanged(StrategyFrame())))
    {
      if targetStats == null {
        return;
      }
      if !Within(myStats.position, targetStats.position, myStats.attackRange) {
        MoveTowardTarget();
      } else {
        AttackTarget(now);
      }
    }

    /** Re-acquires the target: the closest living unit of the other team. */
    method FindClosestEnemy(all: seq<CharacterStats>, ghost units: seq<Snapshot>)
      requires units == Snapshots(all)
      modifies this`targetStats
      ensures var c := ClosestEnemy(myStats.team, myStats.position, units);
        targetStats == if c.Some? then all[c.value] else null
    {
      var c := ClosestEnemy(myStats.team, myStats.position, Snapshots(all));
      targetStats := if c.Some? then all[c.value] else null;
    }

    /** One movement step toward the target, `moveSpeed` per frame. */
    method MoveTowardTarget()
      requires targetStats != null && targetStats != myStats
      modifies myStats`position
      ensures myStats.position == StepToward(old(myStats.position), targetStats.position, myStats.moveSpeed)
    {
      myStats.position := StepToward(myStats.position, targetStats.position, myStats.moveSpeed);
    }

    /**
     * The AI's gate is strict (`now - lastAttackTime > attackCooldown`);
     * when it opens, the AI records the time and calls the strategy.  The
     * strategy's own gate is non-strict and reads the same cooldown and a
     * time no later than the AI's, so it always opens too: whenever the AI
     * fires, the strategy records the target.
     */
    method AttackTarget(now: int)
      requires Valid() && !Gone(targetStats)
      modifies this`lastAttackTime, StrategyFrame()
      ensures Valid()
      ensures var fires := now - old(lastAttackTime) > myStats.attackCooldown;
        lastAttackTime == (if fires then now else old(lastAttackTime)) &&
        (fires && attackStrategy.Some? ==> Recorded(attackStrategy.value, targetStats, now)) &&
        (!fires ==> unchanged(StrategyFrame()))
    {
      if now - lastAttackTime > myStats.attackCooldown {
        lastAttackTime := now;
        if attackStrategy.Some? {
          match attackStrategy.value
          case TankStrategy(t) => t.Attack(targetStats);
          case RangerStrategy(r) => r.Attack(targetStats, now);
          case LightningStrategy(l) => l.Attack(targetStats, now);
          case FireStrategy(f) => f.Attack(targetStats, now);
        }
      }
    }
  }
}
