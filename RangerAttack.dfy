/**
 * `RangerAttack`, the single-target ranged strategy.  `Attack` records the
 * target behind its own cooldown gate; the `StartProjectile` animation
 * event then fires a homing `Projectile` that carries the attacker's stats.
 */
module Ranger {
  import opened Wrappers
  import opened Geometry
  import opened Characters
  import opened Projectiles

  class RangerAttack {
    const stats: CharacterStats
    /** `projectilePrefab != null` */
    const hasProjectilePrefab: bool
    /** The shoot point, as an offset from the unit; `None` when unassigned. */
    const shootPoint: Option<Pos>
    /** Distance per frame of the projectiles it fires. */
    const projectileSpeed: nat
    var lastAttackTime: int
    var currentTarget: CharacterStats?

    constructor (stats: CharacterStats, hasProjectilePrefab: bool, shootPoint: Option<Pos>, projectileSpeed: nat)
      ensures this.stats == stats && this.hasProjectilePrefab == hasProjectilePrefab
      ensures this.shootPoint == shootPoint && this.projectileSpeed == projectileSpeed
      ensures lastAttackTime == 0 && currentTarget == null
    {
      this.stats := stats;
      this.hasProjectilePrefab := hasProjectilePrefab;
      this.shootPoint := shootPoint;
      this.projectileSpeed := projectileSpeed;
      lastAttackTime := 0;
      currentTarget := null;
    }

    /** Records the target and the time only when `now - lastAttackTime >=
        attackCooldown`; no unit's health changes. */
    method Attack(target: CharacterStats?, now: int)
      modifies this`lastAttackTime, this`currentTarget
      ensures var passes := !Gone(target) && now - old(lastAttackTime) >= stats.attackCooldown;
        lastAttackTime == (if passes then now else old(lastAttackTime)) &&
        currentTarget == (if passes then target else old(currentTarget))
    {
      if target == null || target.destroyed {
        return;
      }
      if now - lastAttackTime >= stats.attackCooldown {
        lastAttackTime := now;
        currentTarget := target;
      }
    }

    /** The animation event: spawns a projectile at the shoot point aimed at
        the current target, or nothing without a target, prefab or shoot
        point. */
    method StartProjectile() returns (p: Projectile?)
      ensures p == null <==> (Gone(currentTarget) || !hasProjectilePrefab || shootPoint.None?)
      ensures p != null ==>
        fresh(p) && p.attacker == stats && p.target == currentTarget &&
        p.position == Pos(stats.position.x + shootPoint.value.x, stats.position.y + shootPoint.value.y) &&
        p.speed == projectileSpeed && !p.removed
    {
      if currentTarget == null || currentTarget.destroyed {
        return null;
      }
      if !hasProjectilePrefab || shootPoint.None? {
        return null;
      }
      var at := Pos(stats.position.x + shootPoint.value.x, stats.position.y + shootPoint.value.y);
      p := new Projectile.Init(stats, currentTarget, at, projectileSpeed);
    }
  }
}
