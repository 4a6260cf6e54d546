/**
 * A combat unit's data holder (`CharacterStats`) and the team and archetype
 * enumerations it uses.
 */
module Characters {
  import opened Geometry

  datatype Team = MyTeam | EnemyTeam
  datatype MonsterType = Melee | Ranged

  /**
   * The part of a unit's state that damage can change: its health, its
   * one-time death flag, and the `enabled` flag of the unit's `EnemyAI`
   * component, which death switches off.
   */
  datatype Vitals = Vitals(health: int, dead: bool, aiEnabled: bool)

  /** `TakeDamage`: a dead unit ignores damage; a live one loses exactly
      `amount` with no clamp, and dies (switching its AI off) exactly when
      its health reaches zero or below. */
  function Damage(v: Vitals, amount: int): (w: Vitals)
    ensures v.dead ==> w == v
    ensures !v.dead ==> w.health == v.health - amount
    ensures w.dead <==> (v.dead || w.health <= 0)
    ensures w.aiEnabled <==> (v.aiEnabled && (v.dead || w.health > 0))
  {
    if v.dead then v
    else
      var h := v.health - amount;
      if h <= 0 then Vitals(h, true, false) else Vitals(h, false, v.aiEnabled)
  }

  /** What targeting scans read of a unit: team, health, whether Unity has
      destroyed it, and where it is. */
  datatype Snapshot = Snapshot(team: Team, health: int, destroyed: bool, position: Pos)

  /** A run of `TakeDamage` calls, in order. */
  function DamageAll(v: Vitals, amounts: seq<int>): Vitals
    decreases |amounts|
  {
    if amounts == [] then v else DamageAll(Damage(v, amounts[0]), amounts[1..])
  }

  /** How many of those calls run the body of `Die`. */
  function Deaths(v: Vitals, amounts: seq<int>): nat
    decreases |amounts|
  {
    if amounts == [] then 0
    else
      var w := Damage(v, amounts[0]);
      (if w.dead && !v.dead then 1 else 0) + Deaths(w, amounts[1..])
  }

  function Sum(s: seq<int>): int
    decreases |s|
  {
    if s == [] then 0 else s[0] + Sum(s[1..])
  }

  /** Once dead, no further damage changes anything. */
  lemma {:induction false} DeadAbsorbs(v: Vitals, amounts: seq<int>)
    requires v.dead
    ensures DamageAll(v, amounts) == v
    ensures Deaths(v, amounts) == 0
    decreases |amounts|
  {
    if amounts != [] {
      DeadAbsorbs(Damage(v, amounts[0]), amounts[1..]);
    }
  }

  /** However many hits a unit takes, it dies at most once. */
  lemma {:induction false} DiesAtMostOnce(v: Vitals, amounts: seq<int>)
    ensures Deaths(v, amounts) <= 1
    ensures Deaths(v, amounts) == 1 <==> (!v.dead && DamageAll(v, amounts).dead)
    decreases |amounts|
  {
    if amounts != [] {
      var w := Damage(v, amounts[0]);
      if w.dead {
        DeadAbsorbs(w, amounts[1..]);
      } else {
        DiesAtMostOnce(w, amounts[1..]);
      }
    }
  }

  /** With non-negative hits, a unit that starts alive ends dead exactly
      when the hits add up to its health; while alive it has lost exactly
      their sum. */
  lemma {:induction false} DeathByTotalDamage(v: Vitals, amounts: seq<int>)
    requires !v.dead && v.health > 0
    requires forall i :: 0 <= i < |amounts| ==> amounts[i] >= 0
    ensures DamageAll(v, amounts).dead <==> Sum(amounts) >= v.health
    ensures !DamageAll(v, amounts).dead ==> DamageAll(v, amounts).health == v.health - Sum(amounts)
    decreases |amounts|
  {
    if amounts != [] {
      var w := Damage(v, amounts[0]);
      assert forall i :: 0 <= i < |amounts[1..]| ==> amounts[1..][i] >= 0 by {
        forall i | 0 <= i < |amounts[1..]| ensures amounts[1..][i] >= 0 {
          assert amounts[1..][i] == amounts[i + 1];
        }
      }
      if w.dead {
        DeadAbsorbs(w, amounts[1..]);
        SumNonNegative(amounts[1..]);
      } else {
        DeathByTotalDamage(w, amounts[1..]);
      }
    }
  }

  lemma {:induction false} SumNonNegative(s: seq<int>)
    requires forall i :: 0 <= i < |s| ==> s[i] >= 0
    ensures Sum(s) >= 0
    decreases |s|
  {
    if s != [] {
      assert forall i :: 0 <= i < |s[1..]| ==> s[1..][i] == s[i + 1];
      SumNonNegative(s[1..]);
    }
  }

  /**
   * `CharacterStats`.  The ranges and the move speed are in fixed-point
   * steps, the cooldown in milliseconds.  `aiEnabled` is the `enabled` flag
   * of the `EnemyAI` component on the same game object, and `destroyed`
   * records that Unity has destroyed the object (it then compares equal to
   * `null`).
   */
  class CharacterStats {
    var maxHealth: int
    var currentHealth: int
    var damage: int
    var moveSpeed: nat
    var attackRange: nat
    var attackCooldown: int
    var spawnCount: int
    var team: Team
    var monsterType: MonsterType
    var lockedIn: bool
    var isDead: bool
    var aiEnabled: bool
    var destroyed: bool
    var position: Pos

    function VitalsOf(): Vitals
      reads this
    {
      Vitals(currentHealth, isDead, aiEnabled)
    }

    function Snap(): Snapshot
      reads this
    {
      Snapshot(team, currentHealth, destroyed, position)
    }

    /** Instantiation followed by `Awake`: a new unit starts at full health. */
    constructor (maxHealth: int, damage: int, moveSpeed: nat, attackRange: nat,
                 attackCooldown: int, spawnCount: int, position: Pos)
      ensures this.maxHealth == maxHealth && this.damage == damage
      ensures this.moveSpeed == moveSpeed && this.attackRange == attackRange
      ensures this.attackCooldown == attackCooldown && this.spawnCount == spawnCount
      ensures this.position == position
      ensures currentHealth == maxHealth
      ensures !isDead && !lockedIn && !destroyed && aiEnabled
      ensures team == MyTeam && monsterType == Melee
    {
      this.maxHealth := maxHealth;
      this.damage := damage;
      this.moveSpeed := moveSpeed;
      this.attackRange := attackRange;
      this.attackCooldown := attackCooldown;
      this.spawnCount := spawnCount;
      this.position := position;
      currentHealth := maxHealth;
      team := MyTeam;
      monsterType := Melee;
      lockedIn := false;
      isDead := false;
      aiEnabled := true;
      destroyed := false;
    }

    /** `Init(team, type)`: sets the team and the archetype and no stat. */
    method Init(currentTeam: Team, monsterType: MonsterType)
      modifies this`team, this`monsterType
      ensures team == currentTeam && this.monsterType == monsterType
    {
      this.monsterType := monsterType;
      team := currentTeam;
    }

    method TakeDamage(amount: int)
      modifies this`currentHealth, this`isDead, this`aiEnabled
      ensures VitalsOf() == Damage(old(VitalsOf()), amount)
    {
      if isDead {
        return;
      }
      currentHealth := currentHealth - amount;
      if currentHealth <= 0 {
        Die();
      }
    }

    /** `Die`: guarded by `isDead`, so its effect happens once; it switches
        the unit's AI off. */
    method Die()
      modifies this`isDead, this`aiEnabled
      ensures isDead
      ensures aiEnabled == (old(aiEnabled) && old(isDead))
    {
      if isDead {
        return;
      }
      isDead := true;
      aiEnabled := false;
    }

    /**
     * `Revive`, called at every round reset, is not part of this model's
     * source files; the model assumes it restores full health and clears
     * the death flag, and nothing else.
     */
    method Revive()
      modifies this`currentHealth, this`isDead
      ensures currentHealth == maxHealth && !isDead
    {
      currentHealth := maxHealth;
      isDead := false;
    }

    /** The engine destroying the game object (the timed `Destroy` that
        `Die` schedules, once it fires). */
    method Destroy()
      modifies this`destroyed
      ensures destroyed
    {
      destroyed := true;
    }
  }

  /** The scene as a targeting scan sees it, in enumeration order. */
  function Snapshots(all: seq<CharacterStats>): (s: seq<Snapshot>)
    reads all
    ensures |s| == |all| && forall i :: 0 <= i < |all| ==> s[i] == all[i].Snap()
  {
    seq(|all|, i requires 0 <= i < |all| reads all => all[i].Snap())
  }

  /** C#'s `u == null` on a Unity object: also true once it is destroyed. */
  predicate Gone(u: CharacterStats?)
    reads u
  {
    u == null || u.destroyed
  }
}
