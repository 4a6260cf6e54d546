/**
 * `FireMageAttack`, the meteor strategy.  `Attack` records the target
 * behind the cooldown gate; the `SpawnMeteor` animation event then summons
 * a `MeteorProjectile` above the recorded target, shifted sideways by a
 * random amount, carrying the mage's damage and team.
 */
module FireMage {
  import opened Geometry
  import opened Characters
  import opened Meteor

  /** What `meteorPrefab` holds: nothing, a game object without the
      `MeteorProjectile` component, or one with it. */
  datatype MeteorPrefab = NoPrefab | WithoutMeteor | WithMeteor(settings: MeteorSettings)

  class FireMageAttack {
    /** `GetComponent<CharacterStats>()` from `Awake`; `null` when absent. */
    const stats: CharacterStats?
    const meteorPrefab: MeteorPrefab
    /** Height above the target, in steps. */
    const spawnHeight: int
    /** Bound of the random sideways shift, in steps. */
    const horizontalRandomOffset: nat
    var lastAttackTime: int
    var currentTarget: CharacterStats?

    constructor (stats: CharacterStats?, meteorPrefab: MeteorPrefab, spawnHeight: int, horizontalRandomOffset: nat)
      ensures this.stats == stats && this.meteorPrefab == meteorPrefab
      ensures this.spawnHeight == spawnHeight && this.horizontalRandomOffset == horizontalRandomOffset
      ensures lastAttackTime == 0 && currentTarget == null
    {
      this.stats := stats;
      this.meteorPrefab := meteorPrefab;
      this.spawnHeight := spawnHeight;
      this.horizontalRandomOffset := horizontalRandomOffset;
      lastAttackTime := 0;
      currentTarget := null;
    }

    /** Records the target and the time only when there is a target and a
        stats component and `now - lastAttackTime >= attackCooldown`. */
    method Attack(target: CharacterStats?, now: int)
      modifies this`lastAttackTime, this`currentTarget
      ensures var passes := !Gone(target) && stats != null && now - old(lastAttackTime) >= stats.attackCooldown;
        lastAttackTime == (if passes then now else old(lastAttackTime)) &&
        currentTarget == (if passes then target else old(currentTarget))
    {
      if target == null || target.destroyed || stats == null {
        return;
      }
      if now - lastAttackTime >= stats.attackCooldown {
        lastAttackTime := now;
        currentTarget := target;
      }
    }

    /**
     * The animation event.  `dx` is the value `Random.Range` draws from
     * `[-horizontalRandomOffset, horizontalRandomOffset]`.  The meteor
     * starts `spawnHeight` above the current target, shifted by `dx`, and
     * is initialised with the target, the mage's damage and its team; no
     * meteor logic exists without a target, a prefab with the component,
     * or a stats component.
     */
    method SpawnMeteor(dx: int) returns (m: MeteorProjectile?)
      requires -(horizontalRandomOffset as int) <= dx <= horizontalRandomOffset
      ensures m == null <==> (Gone(currentTarget) || !meteorPrefab.WithMeteor? || stats == null)
      ensures m != null ==>
        fresh(m) && m.target == currentTarget && m.damage == stats.damage && m.attackerTeam == stats.team &&
        m.position == Pos(currentTarget.position.x + dx, currentTarget.position.y + spawnHeight) &&
        m.fallSpeed == meteorPrefab.settings.fallSpeed && m.impactRadius == meteorPrefab.settings.impactRadius &&
        m.splashRadius == meteorPrefab.settings.splashRadius &&
        m.splashDamageFraction == meteorPrefab.settings.splashDamageFraction && !m.removed
    {
      if currentTarget == null || currentTarget.destroyed || meteorPrefab.NoPrefab? || stats == null {
        return null;
      }
      var targetPos := currentTarget.position;
      var spawnPos := Pos(targetPos.x + dx, targetPos.y + spawnHeight);
      if !meteorPrefab.WithMeteor? {
        return null;
      }
      m := new MeteorProjectile.Init(meteorPrefab.settings, spawnPos, currentTarget, stats.damage, stats.team);
    }
  }
}
