/**
 * `LightningMageAttack`, the chain strategy.  `Attack` records the target
 * behind a cooldown gate; the `DoChainLightning` animation event builds a
 * chain that starts at that target and hops, up to `maxBounces` times, to
 * the closest eligible unit within `chainRange` of the chain's tail, then
 * deals full damage to the first link and rounded reduced damage to the
 * others.
 *
 * The chain is specified on positions in the scene's unit list
 * (`FindObjectsByType`, which lists each object once), so "already hit"
 * is "position already in the chain".  The hop filter names `EnemyTeam`
 * itself, not "the other team": the model keeps that, so a mage on the
 * enemy team chains onto its own side.
 */
module Lightning {
  import opened Wrappers
  import opened Geometry
  import opened Rounding
  import opened Nearest
  import opened Sequences
  import opened Characters
  import opened Chains

  /** A unit a hop may land on: present, on `EnemyTeam`, alive, not yet hit. */
  predicate Chainable(u: Snapshot, k: nat, alreadyHit: seq<nat>)
  {
    !u.destroyed && u.team == EnemyTeam && u.health > 0 && k !in alreadyHit
  }

  /** A unit `FindNextTarget` may pick from `from`: chainable and strictly
      within `chainRange`. */
  predicate Eligible(from: Pos, u: Snapshot, k: nat, alreadyHit: seq<nat>, chainRange: nat)
  {
    Chainable(u, k, alreadyHit) && CloserThan(from, u.position, chainRange)
  }

  /** One entry per scanned unit: its squared distance from `from` when it
      is eligible. */
  function HopCandidates(from: Pos, alreadyHit: seq<nat>, units: seq<Snapshot>, chainRange: nat)
    : (ds: seq<Option<nat>>)
    ensures |ds| == |units|
    ensures forall k :: 0 <= k < |units| ==>
      ds[k] == if Eligible(from, units[k], k, alreadyHit, chainRange) then Some(DistSq(from, units[k].position)) else None
  {
    seq(|units|, k requires 0 <= k < |units| =>
      if Eligible(from, units[k], k, alreadyHit, chainRange) then Some(DistSq(from, units[k].position)) else None)
  }

  /** `FindNextTarget`'s scan over the first `n` units: the candidate kept
      so far is replaced only by a strictly closer one. */
  function ScanHop(from: Pos, alreadyHit: seq<nat>, units: seq<Snapshot>, chainRange: nat, n: nat)
    : (r: Option<nat>)
    requires n <= |units|
    ensures r.Some? ==> r.value < n && Eligible(from, units[r.value], r.value, alreadyHit, chainRange)
  {
    if n == 0 then None
    else
      var p := ScanHop(from, alreadyHit, units, chainRange, n - 1);
      var u := units[n - 1];
      if Eligible(from, u, n - 1, alreadyHit, chainRange) &&
         (p.None? || DistSq(from, u.position) < DistSq(from, units[p.value].position))
      then Some(n - 1)
      else p
  }

  /** `FindNextTarget` on the scanned units (see `NextHopProperties`). */
  function NextHop(from: Pos, alreadyHit: seq<nat>, units: seq<Snapshot>, chainRange: nat)
    : (r: Option<nat>)
    ensures r.Some? ==> r.value < |units| && Eligible(from, units[r.value], r.value, alreadyHit, chainRange)
  {
    ScanHop(from, alreadyHit, units, chainRange, |units|)
  }

  /** The scan makes the shared nearest-candidate selection. */
  lemma {:induction false} ScanHopIsFirstArgMin(from: Pos, alreadyHit: seq<nat>, units: seq<Snapshot>, chainRange: nat, n: nat)
    requires n <= |units|
    ensures ScanHop(from, alreadyHit, units, chainRange, n) ==
      FirstArgMin(HopCandidates(from, alreadyHit, units, chainRange)[..n])
  {
    if n > 0 {
      var ds := HopCandidates(from, alreadyHit, units, chainRange);
      ScanHopIsFirstArgMin(from, alreadyHit, units, chainRange, n - 1);
      assert ds[..n][..n - 1] == ds[..n - 1];
    }
  }

  /** The hop is the closest eligible unit, the earliest enumerated on
      ties, and there is none exactly when no unit is eligible. */
  lemma NextHopProperties(from: Pos, alreadyHit: seq<nat>, units: seq<Snapshot>, chainRange: nat)
    ensures var r := NextHop(from, alreadyHit, units, chainRange);
      (r.Some? ==> forall k :: 0 <= k < |units| && Eligible(from, units[k], k, alreadyHit, chainRange)
                     ==> DistSq(from, units[r.value].position) <= DistSq(from, units[k].position)) &&
      (r.Some? ==> forall k :: 0 <= k < r.value && Eligible(from, units[k], k, alreadyHit, chainRange)
                     ==> DistSq(from, units[r.value].position) < DistSq(from, units[k].position)) &&
      (r.None? <==> forall k :: 0 <= k < |units| ==> !Eligible(from, units[k], k, alreadyHit, chainRange))
  {
    var ds := HopCandidates(from, alreadyHit, units, chainRange);
    ScanHopIsFirstArgMin(from, alreadyHit, units, chainRange, |units|);
    assert ds[..|units|] == ds;
    FirstArgMinProperties(ds);
  }

  /** `FindNextTarget` as a hop rule: the next hop from the chain's tail,
      with the chain as the units already hit. */
  function Hop(units: seq<Snapshot>, chainRange: nat): seq<nat> -> Option<nat>
  {
    chain =>
      if |chain| > 0 && chain[|chain| - 1] < |units|
      then NextHop(units[chain[|chain| - 1]].position, chain, units, chainRange)
      else None
  }

  function Bounces(maxBounces: int): nat
  {
    if maxBounces < 0 then 0 else maxBounces
  }

  /** Link `k` of `chain` is the hop from link `k - 1` given the links before it. */
  predicate IsHop(chain: seq<nat>, k: nat, units: seq<Snapshot>, chainRange: nat)
  {
    0 < k < |chain| && chain[k - 1] < |units| &&
    NextHop(units[chain[k - 1]].position, chain[..k], units, chainRange) == Some(chain[k])
  }

  /** Every later link of a built chain is a hop. */
  lemma ChainHops(first: nat, bounces: nat, units: seq<Snapshot>, chainRange: nat)
    ensures var r := ChainFrom([first], bounces, Hop(units, chainRange));
      forall k :: 0 < k < |r| ==> IsHop(r, k, units, chainRange)
  {
    var hop := Hop(units, chainRange);
    var r := ChainFrom([first], bounces, hop);
    ChainFromHops([first], bounces, hop);
    forall k | 0 < k < |r| ensures IsHop(r, k, units, chainRange) {
      assert hop(r[..k]) == Some(r[k]);
      assert r[..k][k - 1] == r[k - 1];
    }
  }

  /** A built chain names only scanned units. */
  lemma ChainInRange(first: nat, bounces: nat, units: seq<Snapshot>, chainRange: nat)
    requires first < |units|
    ensures InRange(ChainFrom([first], bounces, Hop(units, chainRange)), |units|)
  {
    var r := ChainFrom([first], bounces, Hop(units, chainRange));
    ChainHops(first, bounces, units, chainRange);
    ChainFromPrefix([first], bounces, Hop(units, chainRange));
    assert r[0] == r[..1][0];
    forall k | 0 < k < |r| ensures r[k] < |units| {
      assert IsHop(r, k, units, chainRange);
    }
  }

  /** `BuildTargetChain(first)`; a negative `maxBounces` runs no hop. */
  function TargetChain(first: nat, maxBounces: int, units: seq<Snapshot>, chainRange: nat): (r: seq<nat>)
    requires first < |units|
    ensures InRange(r, |units|)
  {
    ChainInRange(first, Bounces(maxBounces), units, chainRange);
    ChainFrom([first], Bounces(maxBounces), Hop(units, chainRange))
  }

  /** The chain starts at the primary target and has at most
      `1 + maxBounces` links. */
  lemma TargetChainLength(first: nat, maxBounces: int, units: seq<Snapshot>, chainRange: nat)
    requires first < |units|
    ensures var r := TargetChain(first, maxBounces, units, chainRange);
      1 <= |r| <= 1 + Bounces(maxBounces) && r[0] == first
  {
    var r := TargetChain(first, maxBounces, units, chainRange);
    ChainFromLength([first], Bounces(maxBounces), Hop(units, chainRange));
    ChainFromPrefix([first], Bounces(maxBounces), Hop(units, chainRange));
    assert r[0] == r[..1][0];
  }

  /** Building stops early only when no unit is eligible as the next hop. */
  lemma TargetChainStops(first: nat, maxBounces: int, units: seq<Snapshot>, chainRange: nat)
    requires first < |units|
    ensures var r := TargetChain(first, maxBounces, units, chainRange);
      |r| < 1 + Bounces(maxBounces) ==> NextHop(units[r[|r| - 1]].position, r, units, chainRange).None?
  {
    ChainFromStops([first], Bounces(maxBounces), Hop(units, chainRange));
  }

  /** What `BuildTargetChain` produces, stated without running it: the
      primary target, at most `maxBounces` further links each of which is
      the hop from the links before it, and fewer links only when the hop
      from the whole chain finds nothing. */
  predicate BuiltChain(r: seq<nat>, first: nat, maxBounces: int, units: seq<Snapshot>, chainRange: nat)
  {
    1 <= |r| <= 1 + Bounces(maxBounces) && r[0] == first && r[|r| - 1] < |units| &&
    (forall k :: 0 < k < |r| ==> IsHop(r, k, units, chainRange)) &&
    (|r| < 1 + Bounces(maxBounces) ==> NextHop(units[r[|r| - 1]].position, r, units, chainRange).None?)
  }

  /** Two chains of hops that agree on their first link agree on every
      link they both have. */
  lemma {:induction false} HopChainsAgree(r: seq<nat>, s: seq<nat>, units: seq<Snapshot>, chainRange: nat, n: nat)
    requires 0 < n <= |r| && n <= |s| && r[0] == s[0]
    requires forall k :: 0 < k < |r| ==> IsHop(r, k, units, chainRange)
    requires forall k :: 0 < k < |s| ==> IsHop(s, k, units, chainRange)
    ensures r[..n] == s[..n]
  {
    if n > 1 {
      HopChainsAgree(r, s, units, chainRange, n - 1);
      assert IsHop(r, n - 1, units, chainRange) && IsHop(s, n - 1, units, chainRange);
      assert r[..n] == r[..n - 1] + [r[n - 1]];
      assert s[..n] == s[..n - 1] + [s[n - 1]];
    }
  }

  /** At most one chain satisfies `BuiltChain`. */
  lemma BuiltChainsAgree(r: seq<nat>, s: seq<nat>, first: nat, maxBounces: int, units: seq<Snapshot>, chainRange: nat)
    requires BuiltChain(r, first, maxBounces, units, chainRange)
    requires BuiltChain(s, first, maxBounces, units, chainRange)
    ensures r == s
  {
    var n: nat := if |r| < |s| then |r| else |s|;
    HopChainsAgree(r, s, units, chainRange, n);
    assert r[..n][n - 1] == r[n - 1] && s[..n][n - 1] == s[n - 1];
    assert n == |r| ==> r[..n] == r;
    assert n == |s| ==> s[..n] == s;
    assert n < |s| ==> IsHop(s, n, units, chainRange);
    assert n < |r| ==> IsHop(r, n, units, chainRange);
    assert |r| == |s|;
  }

  /** `TargetChain` is a built chain. */
  lemma TargetChainBuilt(first: nat, maxBounces: int, units: seq<Snapshot>, chainRange: nat)
    requires first < |units|
    ensures BuiltChain(TargetChain(first, maxBounces, units, chainRange), first, maxBounces, units, chainRange)
  {
    var t := TargetChain(first, maxBounces, units, chainRange);
    TargetChainLength(first, maxBounces, units, chainRange);
    ChainHops(first, Bounces(maxBounces), units, chainRange);
    TargetChainStops(first, maxBounces, units, chainRange);
    assert t == ChainFrom([first], Bounces(maxBounces), Hop(units, chainRange));
  }

  /** `BuiltChain` describes `TargetChain` and nothing else. */
  lemma BuiltChainIsTargetChain(r: seq<nat>, first: nat, maxBounces: int, units: seq<Snapshot>, chainRange: nat)
    requires first < |units|
    ensures BuiltChain(r, first, maxBounces, units, chainRange) <==> r == TargetChain(first, maxBounces, units, chainRange)
  {
    TargetChainBuilt(first, maxBounces, units, chainRange);
    if BuiltChain(r, first, maxBounces, units, chainRange) {
      BuiltChainsAgree(r, TargetChain(first, maxBounces, units, chainRange), first, maxBounces, units, chainRange);
    }
  }

  /** No unit is hit twice: each hop skips the links before it. */
  lemma BuiltChainDistinct(r: seq<nat>, first: nat, maxBounces: int, units: seq<Snapshot>, chainRange: nat)
    requires BuiltChain(r, first, maxBounces, units, chainRange)
    ensures Distinct(r)
  {
    forall j, k | 0 <= j < k < |r| ensures r[j] != r[k] {
      assert IsHop(r, k, units, chainRange);
      assert r[j] in r[..k];
    }
  }

  /** A chain of hops extended by the hop from its tail is a chain of hops. */
  lemma HopsSnoc(r: seq<nat>, x: nat, units: seq<Snapshot>, chainRange: nat)
    requires 0 < |r| && r[|r| - 1] < |units|
    requires forall k :: 0 < k < |r| ==> IsHop(r, k, units, chainRange)
    requires NextHop(units[r[|r| - 1]].position, r, units, chainRange) == Some(x)
    ensures forall k :: 0 < k < |r| + 1 ==> IsHop(r + [x], k, units, chainRange)
  {
    var c := r + [x];
    forall k | 0 < k < |c| ensures IsHop(c, k, units, chainRange) {
      if k < |r| {
        assert c[..k] == r[..k] && c[k - 1] == r[k - 1] && c[k] == r[k];
        assert IsHop(r, k, units, chainRange);
      } else {
        assert c[..k] == r;
      }
    }
  }

  /** Damage of link `k`: full for the primary target, `RoundToInt(damage *
      secondaryDamageMultiplier)` for every later link. */
  function LinkDamage(k: nat, damage: int, secondaryDamageMultiplier: real): int
  {
    if k == 0 then damage else ScaledDamage(damage, secondaryDamageMultiplier)
  }

  /** What the damage pass does to a link that is present: a link already
      at zero health or below is skipped. */
  function LinkOutcome(v: Vitals, destroyed: bool, k: nat, damage: int, m: real): Vitals
  {
    if destroyed || v.health <= 0 then v else Damage(v, LinkDamage(k, damage, m))
  }

  /** With one bounce and multiplier 0.5, a 20-damage bolt deals 20 to the
      primary target and 10 to the second link. */
  lemma ChainDamageExample()
    ensures LinkDamage(0, 20, 0.5) == 20 && LinkDamage(1, 20, 0.5) == 10
  {
    RoundToIntUnique(20 as real * 0.5, 10);
  }

  class LightningMageAttack {
    const chainRange: nat
    const maxBounces: int
    const secondaryDamageMultiplier: real
    /** `null` when the game object has no `CharacterStats`. */
    const stats: CharacterStats?
    var lastAttackTime: int
    var currentTarget: CharacterStats?

    constructor (stats: CharacterStats?, chainRange: nat, maxBounces: int, secondaryDamageMultiplier: real)
      ensures this.stats == stats && this.chainRange == chainRange && this.maxBounces == maxBounces
      ensures this.secondaryDamageMultiplier == secondaryDamageMultiplier
      ensures lastAttackTime == 0 && currentTarget == null
    {
      this.stats := stats;
      this.chainRange := chainRange;
      this.maxBounces := maxBounces;
      this.secondaryDamageMultiplier := secondaryDamageMultiplier;
      lastAttackTime := 0;
      currentTarget := null;
    }

    /** A no-op for a null target or missing stats; otherwise records the
        target and the time only when `now - lastAttackTime >= attackCooldown`. */
    method Attack(target: CharacterStats?, now: int)
      modifies this`lastAttackTime, this`currentTarget
      ensures var passes := !Gone(target) && stats != null && now - old(lastAttackTime) >= stats.attackCooldown;
        lastAttackTime == (if passes then now else old(lastAttackTime)) &&
        currentTarget == (if passes then target else old(currentTarget))
    {
      if target == null || target.destroyed || stats == null {
        return;
      }
      if now - lastAttackTime >= stats.attackCooldown {
        lastAttackTime := now;
        currentTarget := target;
      }
    }

    /** `FindNextTarget`: one scan over the scene's units; `alreadyHit` is
        the chain so far, given by its positions `hitIdx` in `all`. */
    method FindNextTarget(fromPos: Pos, alreadyHit: seq<CharacterStats>, all: seq<CharacterStats>,
                          ghost hitIdx: seq<nat>, ghost units: seq<Snapshot>)
      returns (best: CharacterStats?)
      requires Distinct(all) && InRange(hitIdx, |all|) && alreadyHit == Pick(all, hitIdx)
      requires units == Snapshots(all)
      ensures var h := NextHop(fromPos, hitIdx, units, chainRange);
        best == if h.Some? then all[h.value] else null
    {
      best := null;
      var bestDist: nat := 0;
      var i := 0;
      while i < |all|
        invariant 0 <= i <= |all|
        invariant var m := ScanHop(fromPos, hitIdx, units, chainRange, i);
          (m.None? ==> best == null) &&
          (m.Some? ==> best == all[m.value] && bestDist == DistSq(fromPos, all[m.value].position))
      {
        var u := all[i];
        PickMembership(all, hitIdx, i);
        if !u.destroyed && u.team == EnemyTeam && u.currentHealth > 0 && u !in alreadyHit {
          var d := DistSq(fromPos, u.position);
          if d < chainRange * chainRange && (best == null || d < bestDist) {
            best := u;
            bestDist := d;
          }
        }
        i := i + 1;
      }
    }

    /** `BuildTargetChain`: the primary target, then at most `maxBounces` hops. */
    method BuildTargetChain(firstTarget: CharacterStats, all: seq<CharacterStats>,
                            ghost first: nat, ghost units: seq<Snapshot>)
      returns (result: seq<CharacterStats>, ghost idx: seq<nat>)
      requires Distinct(all) && first < |all| && all[first] == firstTarget
      requires units == Snapshots(all)
      ensures BuiltChain(idx, first, maxBounces, units, chainRange) && InRange(idx, |all|)
      ensures result == Pick(all, idx)
    {
      idx := [first];
      result := [firstTarget];
      var current := firstTarget;
      var i := 0;
      while i < maxBounces
        invariant 0 <= i <= Bounces(maxBounces) && |idx| == i + 1
        invariant idx[0] == first && InRange(idx, |all|)
        invariant forall k :: 0 < k < |idx| ==> IsHop(idx, k, units, chainRange)
        invariant result == Pick(all, idx)
        invariant current == all[idx[i]]
      {
        ghost var h := NextHop(units[idx[i]].position, idx, units, chainRange);
        assert current.position == units[idx[i]].position;
        var next := FindNextTarget(current.position, result, all, idx, units);
        if next == null {
          return;
        }
        HopsSnoc(idx, h.value, units, chainRange);
        PickSnoc(all, idx, h.value);
        idx := idx + [h.value];
        result := result + [next];
        current := next;
        i := i + 1;
      }
    }

    /** The hit event, given the scene's units.  With a pending target and
        stats, every link of the chain built from the scene as it is now
        that is still alive takes its link damage through `TakeDamage`; no
        other unit and no other field changes. */
    method DoChainLightning(all: seq<CharacterStats>, ghost units: seq<Snapshot>)
      returns (ghost links: seq<nat>)
      requires Distinct(all) && units == Snapshots(all)
      requires !Gone(currentTarget) ==> currentTarget in all
      modifies all`currentHealth, all`isDead, all`aiEnabled
      ensures Gone(currentTarget) || stats == null ==>
        links == [] && forall u :: u in all ==> u.VitalsOf() == old(u.VitalsOf())
      ensures !Gone(currentTarget) && stats != null ==>
        BuiltChain(links, IndexOf(all, currentTarget), maxBounces, units, chainRange) && InRange(links, |all|) &&
        var chain := Pick(all, links);
        (forall k :: 0 <= k < |chain| ==>
          chain[k].VitalsOf() ==
            LinkOutcome(old(chain[k].VitalsOf()), chain[k].destroyed, k, stats.damage, secondaryDamageMultiplier)) &&
        (forall u :: u in all && u !in chain ==> u.VitalsOf() == old(u.VitalsOf()))
    {
      links := [];
      if currentTarget == null || currentTarget.destroyed || stats == null {
        return;
      }
      var chain;
      chain, links := BuildTargetChain(currentTarget, all, IndexOf(all, currentTarget), units);
      BuiltChainDistinct(links, IndexOf(all, currentTarget), maxBounces, units, chainRange);
      PickDistinct(all, links);
      if |chain| == 0 {
        return;
      }
      StrikeChain(chain, stats.damage);
    }

    /** The damage loop of `DoChainLightning`: link `i` takes full damage
        when `i == 0` and rounded reduced damage otherwise, and a link that
        is destroyed or at zero health or below is skipped. */
    method StrikeChain(chain: seq<CharacterStats>, damage: int)
      requires Distinct(chain)
      modifies chain`currentHealth, chain`isDead, chain`aiEnabled
      ensures forall k :: 0 <= k < |chain| ==>
        chain[k].VitalsOf() ==
          LinkOutcome(old(chain[k].VitalsOf()), chain[k].destroyed, k, damage, secondaryDamageMultiplier)
    {
      var i := 0;
      while i < |chain|
        invariant 0 <= i <= |chain|
        invariant forall k :: 0 <= k < i ==>
          chain[k].VitalsOf() ==
            LinkOutcome(old(chain[k].VitalsOf()), chain[k].destroyed, k, damage, secondaryDamageMultiplier)
        invariant forall k :: i <= k < |chain| ==> chain[k].VitalsOf() == old(chain[k].VitalsOf())
      {
        var t := chain[i];
        if t.destroyed || t.currentHealth <= 0 {
          i := i + 1;
          continue;
        }
        var dmg := if i == 0 then damage else RoundToInt(damage as real * secondaryDamageMultiplier);
        t.TakeDamage(dmg);
        i := i + 1;
      }
    }
  }
}
