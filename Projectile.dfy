/**
 * `Projectile`, the homing arrow a ranger fires.  Each frame it re-reads
 * its target's live position, moves toward it, and hits once it is closer
 * than the hit radius; a hit deals the attacker's `damage` and removes the
 * projectile.  A projectile whose target game object is gone removes
 * itself without dealing damage.
 */
module Projectiles {
  import opened Geometry
  import opened Characters

  /** The hit radius 0.2, in fixed-point steps. */
  const HitRadius: nat := 20

  class Projectile {
    /** Distance covered per frame (`speed * Time.deltaTime`). */
    const speed: nat
    var target: CharacterStats?
    var attacker: CharacterStats
    var position: Pos
    /** The game object has been destroyed. */
    var removed: bool

    /** Instantiation at `position` followed by `Init(stats, target)`. */
    constructor Init(stats: CharacterStats, target: CharacterStats?, position: Pos, speed: nat)
      ensures attacker == stats && this.target == target
      ensures this.position == position && this.speed == speed && !removed
    {
      attacker := stats;
      this.target := target;
      this.position := position;
      this.speed := speed;
      removed := false;
    }

    /** One frame.  A removed projectile gets no more frames. */
    method Update()
      modifies this`position, this`removed, {target}`currentHealth, {target}`isDead, {target}`aiEnabled
      ensures target == old(target) && attacker == old(attacker)
      ensures old(removed) ==> unchanged(this) && (target != null ==> unchanged(target))
      ensures !old(removed) && Gone(old(target)) ==>
        removed && position == old(position) && (target != null ==> unchanged(target))
      ensures !old(removed) && !Gone(old(target)) ==>
        position == StepToward(old(position), target.position, speed) &&
        unchanged(target`position, target`maxHealth, target`damage, target`team, target`destroyed) &&
        removed == CloserThan(position, target.position, HitRadius) &&
        target.VitalsOf() ==
          (if removed then Damage(old(target.VitalsOf()), old(attacker.damage)) else old(target.VitalsOf()))
    {
      if removed {
        return;
      }
      if target == null || target.destroyed {
        removed := true;
        return;
      }
      position := StepToward(position, target.position, speed);
      if CloserThan(position, target.position, HitRadius) {
        HitTarget();
      }
    }

    /** `TakeDamage(_stats.damage)` on the target, then removal.  There is no
        alive check here: a dead target is protected only by `TakeDamage`. */
    method HitTarget()
      requires target != null
      modifies this`removed, {target}`currentHealth, {target}`isDead, {target}`aiEnabled
      ensures removed
      ensures target.VitalsOf() == Damage(old(target.VitalsOf()), old(attacker.damage))
      ensures unchanged(target`position, target`maxHealth, target`damage, target`team, target`destroyed)
    {
      target.TakeDamage(attacker.damage);
      removed := true;
    }
  }
}
