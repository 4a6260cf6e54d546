/**
 * `TankAttack`, the melee strategy.  `Attack` only records the target for
 * the hit frame of the attack animation; `OnAttackHit`, called by that
 * animation event, applies the damage.
 */
module Tank {
  import opened Characters

  class TankAttack {
    const stats: CharacterStats
    var currentTarget: CharacterStats?

    constructor (stats: CharacterStats)
      ensures this.stats == stats && currentTarget == null
    {
      this.stats := stats;
      currentTarget := null;
    }

    /** Records a non-null target; no cooldown check and no damage. */
    method Attack(target: CharacterStats?)
      modifies this`currentTarget
      ensures currentTarget == if Gone(target) then old(currentTarget) else target
    {
      if target == null || target.destroyed {
        return;
      }
      currentTarget := target;
    }

    /**
     * Deals `stats.damage` to the recorded target through `TakeDamage`, so a
     * dead target is unchanged.  The target is kept, so every further hit
     * event damages it again.
     */
    method OnAttackHit()
      modifies {currentTarget}`currentHealth, {currentTarget}`isDead, {currentTarget}`aiEnabled
      ensures currentTarget == old(currentTarget)
      ensures !Gone(currentTarget) ==>
        currentTarget.VitalsOf() == Damage(old(currentTarget.VitalsOf()), old(stats.damage))
      ensures currentTarget != null && currentTarget.destroyed ==>
        currentTarget.VitalsOf() == old(currentTarget.VitalsOf())
      ensures currentTarget != null ==> unchanged(currentTarget`maxHealth, currentTarget`damage,
        currentTarget`team, currentTarget`position, currentTarget`destroyed)
    {
      if currentTarget == null || currentTarget.destroyed {
        return;
      }
      currentTarget.TakeDamage(stats.damage);
    }
  }

  /** Two hit events after one `Attack` damage the same target twice. */
  method RepeatedHits(attacker: CharacterStats, target: CharacterStats)
    requires attacker != target
    modifies target
    ensures !target.destroyed ==>
      target.VitalsOf() == DamageAll(old(target.VitalsOf()), [attacker.damage, attacker.damage])
  {
    var t := new TankAttack(attacker);
    t.Attack(target);
    ghost var v0 := target.VitalsOf();
    t.OnAttackHit();
    t.OnAttackHit();
    var d := attacker.damage;
    assert [d, d][1..] == [d] && [d][1..] == [];
    assert DamageAll(v0, [d, d]) == DamageAll(Damage(v0, d), [d]);
    assert DamageAll(Damage(v0, d), [d]) == DamageAll(Damage(Damage(v0, d), d), []);
  }
}
