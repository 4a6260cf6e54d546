/**
 * `MeteorProjectile`, the falling meteor a fire mage summons.  Each frame
 * it re-reads its target's live position and falls toward it; once it is
 * within the impact radius it deals its full damage to a target that is
 * still alive, splashes a fraction of that damage onto the enemy units
 * around the impact point, and removes itself.  A meteor whose target is
 * gone or already at zero health removes itself without dealing damage.
 */
module Meteor {
  import opened Geometry
  import opened Rounding
  import opened Characters

  /** The tunable fields a meteor prefab carries: fall distance per frame
      (`fallSpeed * Time.deltaTime`), the impact radius in fixed-point steps
      (the inspector's default 0.2 is 20), splash radius in steps, and the
      fraction of the direct damage the splash deals. */
  datatype MeteorSettings = MeteorSettings(fallSpeed: nat, impactRadius: nat, splashRadius: nat, splashDamageFraction: real)

  /**
   * The damage each splashed unit takes, `0` standing for no splash at
   * all: there is none when the radius or the fraction is not positive,
   * and none when `Mathf.RoundToInt(damage * fraction)` is not positive.
   */
  function SplashAmount(damage: int, splashRadius: nat, fraction: real): (r: nat)
    ensures r > 0 <==> (splashRadius > 0 && fraction > 0.0 && ScaledDamage(damage, fraction) > 0)
    ensures r > 0 ==> r == ScaledDamage(damage, fraction)
  {
    if splashRadius == 0 || fraction <= 0.0 then 0
    else
      var s := ScaledDamage(damage, fraction);
      if s <= 0 then 0 else s
  }

  /** With a fraction in the inspector's range [0, 1] and non-negative
      damage, a splashed unit never takes more than the direct hit deals. */
  lemma SplashAmountBounded(damage: int, splashRadius: nat, fraction: real)
    requires damage >= 0 && 0.0 <= fraction <= 1.0
    ensures SplashAmount(damage, splashRadius, fraction) <= damage
  {
    var x := damage as real * fraction;
    assert x <= damage as real by {
      assert damage as real * fraction <= damage as real * 1.0;
    }
  }

  /** Splash amounts the round-half-to-even rule gives: 10 at one half
      splashes 5, 3 splashes 2 (1.5 rounds up to even), and 1 splashes
      nothing (0.5 rounds down to 0). */
  lemma SplashAmountExamples()
    ensures SplashAmount(10, 150, 0.5) == 5
    ensures SplashAmount(3, 150, 0.5) == 2
    ensures SplashAmount(1, 150, 0.5) == 0
  {
    RoundToIntUnique(10 as real * 0.5, 5);
    RoundToIntUnique(3 as real * 0.5, 2);
    RoundToIntUnique(1 as real * 0.5, 0);
  }

  /** One pass of the splash loop over a collider of a splashable unit: a
      unit already at zero health or below is skipped. */
  function SplashHit(v: Vitals, amount: nat): (w: Vitals)
    ensures v.health <= 0 ==> w == v
    ensures v.health > 0 ==> w == Damage(v, amount)
  {
    if v.health > 0 then Damage(v, amount) else v
  }

  /** `n` passes over colliders of the same unit. */
  function SplashHits(v: Vitals, amount: nat, n: nat): Vitals
    decreases n
  {
    if n == 0 then v else SplashHit(SplashHits(v, amount, n - 1), amount)
  }

  /** A unit with non-negative splash loses `amount` per pass while its
      health stays positive, so however many of its colliders the splash
      overlaps it never ends below `health - n * amount`, and a single
      collider costs it at most one `amount`. */
  lemma {:induction false} SplashHitsLoss(v: Vitals, amount: nat, n: nat)
    ensures SplashHits(v, amount, n).health >= v.health - n * amount
    ensures SplashHits(v, amount, n).health <= v.health
    ensures v.health <= 0 ==> SplashHits(v, amount, n) == v
    decreases n
  {
    if n > 0 {
      SplashHitsLoss(v, amount, n - 1);
      var u := SplashHits(v, amount, n - 1);
      assert (n - 1) * amount + amount == n * amount;
      if u.health > 0 && !u.dead {
        assert SplashHits(v, amount, n).health == u.health - amount;
      }
    }
  }

  /** The splash's constant filters: the object still exists, it is not on
      the attacker's team, and it is not the main target. */
  predicate Splashable(h: CharacterStats, target: CharacterStats?, attackerTeam: Team)
    reads h`destroyed, h`team
  {
    !h.destroyed && h.team != attackerTeam && h != target
  }

  class MeteorProjectile {
    const fallSpeed: nat
    const impactRadius: nat
    const splashRadius: nat
    const splashDamageFraction: real
    var target: CharacterStats?
    var damage: int
    var attackerTeam: Team
    var position: Pos
    /** The game object has been destroyed. */
    var removed: bool

    /** Instantiation of the prefab at `position` followed by
        `Init(targetStats, damageAmount, attackerTeamValue)`. */
    constructor Init(settings: MeteorSettings, position: Pos,
                     targetStats: CharacterStats?, damageAmount: int, attackerTeamValue: Team)
      ensures fallSpeed == settings.fallSpeed && impactRadius == settings.impactRadius
      ensures splashRadius == settings.splashRadius
      ensures splashDamageFraction == settings.splashDamageFraction
      ensures target == targetStats && damage == damageAmount && attackerTeam == attackerTeamValue
      ensures this.position == position && !removed
    {
      fallSpeed := settings.fallSpeed;
      impactRadius := settings.impactRadius;
      splashRadius := settings.splashRadius;
      splashDamageFraction := settings.splashDamageFraction;
      target := targetStats;
      damage := damageAmount;
      attackerTeam := attackerTeamValue;
      this.position := position;
      removed := false;
    }

    /** What the splash does to a unit with `n` colliders among the hits;
        a splash amount of zero means the splash never runs. */
    function SplashOutcome(h: CharacterStats, v: Vitals, n: nat): Vitals
      reads this`target, this`damage, this`attackerTeam, h`destroyed, h`team
    {
      var amount := SplashAmount(damage, splashRadius, splashDamageFraction);
      if Splashable(h, target, attackerTeam) && amount > 0 then SplashHits(v, amount, n) else v
    }

    /**
     * One frame.  `hits` is what `Physics2D.OverlapCircleAll` returns
     * around the impact point, one entry per collider (`null` for a
     * collider without `CharacterStats`); it is read only on impact.
     * A removed meteor gets no more frames.
     */
    method Update(hits: seq<CharacterStats?>)
      modifies this`position, this`removed
      modifies {target}`currentHealth, {target}`isDead, {target}`aiEnabled
      modifies hits`currentHealth, hits`isDead, hits`aiEnabled
      ensures old(removed) ==> removed && position == old(position)
      ensures old(removed) || Gone(target) || old(target.currentHealth) <= 0 ==>
        removed && (!old(removed) ==> position == old(position)) &&
        (target != null ==> target.VitalsOf() == old(target.VitalsOf())) &&
        (forall k :: 0 <= k < |hits| && hits[k] != null ==> hits[k].VitalsOf() == old(hits[k].VitalsOf()))
      ensures !old(removed) && !Gone(target) && old(target.currentHealth) > 0 ==>
        position == StepToward(old(position), target.position, fallSpeed) &&
        var impact := Within(position, target.position, impactRadius);
        removed == impact &&
        target.VitalsOf() == (if impact then Damage(old(target.VitalsOf()), damage) else old(target.VitalsOf())) &&
        (forall k :: 0 <= k < |hits| && hits[k] != null && hits[k] != target ==>
          hits[k].VitalsOf() ==
            (if impact then SplashOutcome(hits[k], old(hits[k].VitalsOf()), multiset(hits)[hits[k]])
             else old(hits[k].VitalsOf())))
    {
      if removed {
        return;
      }
      if target == null || target.destroyed || target.currentHealth <= 0 {
        removed := true;
        return;
      }
      position := StepToward(position, target.position, fallSpeed);
      if Within(position, target.position, impactRadius) {
        OnImpact(hits);
      }
    }

    /** The direct hit on a target that is still present and alive, then
        the splash, then removal. */
    method OnImpact(hits: seq<CharacterStats?>)
      modifies this`removed
      modifies {target}`currentHealth, {target}`isDead, {target}`aiEnabled
      modifies hits`currentHealth, hits`isDead, hits`aiEnabled
      ensures removed
      ensures target != null ==>
        target.VitalsOf() ==
          if !target.destroyed && old(target.currentHealth) > 0
          then Damage(old(target.VitalsOf()), damage) else old(target.VitalsOf())
      ensures forall k :: 0 <= k < |hits| && hits[k] != null && hits[k] != target ==>
        hits[k].VitalsOf() == SplashOutcome(hits[k], old(hits[k].VitalsOf()), multiset(hits)[hits[k]])
    {
      if target != null && !target.destroyed && target.currentHealth > 0 {
        target.TakeDamage(damage);
      }
      ApplySplashDamage(hits);
      removed := true;
    }

    /** The splash loop over the overlapped colliders, in order.  A unit
        with several colliders in `hits` is visited once per collider. */
    method ApplySplashDamage(hits: seq<CharacterStats?>)
      modifies hits`currentHealth, hits`isDead, hits`aiEnabled
      ensures forall k :: 0 <= k < |hits| && hits[k] != null ==>
        hits[k].VitalsOf() ==
          if hits[k] == target then old(hits[k].VitalsOf())
          else SplashOutcome(hits[k], old(hits[k].VitalsOf()), multiset(hits)[hits[k]])
    {
      if splashRadius == 0 || splashDamageFraction <= 0.0 {
        return;
      }
      var splashDamage := RoundToInt(damage as real * splashDamageFraction);
      if splashDamage <= 0 {
        return;
      }
      assert SplashAmount(damage, splashRadius, splashDamageFraction) == splashDamage;
      SplashAll(hits, splashDamage);
    }

    /** The splash loop proper, once the splash amount is known to be
        positive: every splashable unit takes one pass per collider. */
    method SplashAll(hits: seq<CharacterStats?>, splashDamage: nat)
      requires splashDamage > 0
      modifies hits`currentHealth, hits`isDead, hits`aiEnabled
      ensures forall k :: 0 <= k < |hits| && hits[k] != null ==>
        hits[k].VitalsOf() ==
          if Splashable(hits[k], target, attackerTeam)
          then SplashHits(old(hits[k].VitalsOf()), splashDamage, multiset(hits)[hits[k]])
          else old(hits[k].VitalsOf())
    {
      var i := 0;
      while i < |hits|
        invariant 0 <= i <= |hits|
        invariant forall k :: 0 <= k < |hits| && hits[k] != null ==>
          hits[k].VitalsOf() ==
            if Splashable(hits[k], target, attackerTeam)
            then SplashHits(old(hits[k].VitalsOf()), splashDamage, multiset(hits[..i])[hits[k]])
            else old(hits[k].VitalsOf())
      {
        var h := hits[i];
        assert hits[..i + 1] == hits[..i] + [h];
        if h != null {
          SplashOne(h, splashDamage);
        }
        i := i + 1;
      }
      assert hits[..|hits|] == hits;
    }

    /** One pass of the splash loop over a collider with `CharacterStats`:
        its unit, if it still exists, has health above zero, is on the
        other team and is not the target, takes the splash damage; any
        other unit is skipped. */
    method SplashOne(h: CharacterStats, splashDamage: nat)
      modifies h`currentHealth, h`isDead, h`aiEnabled
      ensures h.VitalsOf() ==
        if Splashable(h, target, attackerTeam) then SplashHit(old(h.VitalsOf()), splashDamage)
        else old(h.VitalsOf())
    {
      if h.destroyed {
        return;
      }
      if h.currentHealth <= 0 || h.team == attackerTeam || h == target {
        return;
      }
      h.TakeDamage(splashDamage);
    }
  }
}
