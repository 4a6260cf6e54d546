/**
 * `MonsterGrid`, the formation a team's units stand in.  Unlocked melee
 * units form the tank column and unlocked ranged units the ranger column;
 * each column is laid out in rows of at most eight, every row centred on
 * the grid's axis and each further row one row height lower.
 */
module Grid {
  import opened Geometry
  import opened Sequences
  import opened Characters
  import opened Definitions

  const MaxPerRow: nat := 8
  /** The row height 1.2, in fixed-point steps. */
  const RowHeight: nat := 120

  function Min(a: int, b: int): int { if a <= b then a else b }

  /** `Mathf.CeilToInt(count / (float)maxPerRow)` */
  function Rows(count: nat): nat
  {
    (count + MaxPerRow - 1) / MaxPerRow
  }

  /** `Mathf.Min(maxPerRow, count - row * maxPerRow)` */
  function RowSize(count: nat, row: nat): int
  {
    Min(MaxPerRow, count - row * MaxPerRow)
  }

  /**
   * Where the `k`-th unit of a column of `count` lands, relative to the
   * grid: row `k / 8`, place `i = k % 8` in a row of `n` units, at
   * `x = (i - (n - 1) / 2) * cellHeight`, written with the half cell
   * `cellHeight / 2` so that it stays an integer, and at
   * `y = startY - row * rowHeight`.
   */
  function Slot(k: nat, count: nat, startY: int, halfCell: nat): Pos
  {
    var row := k / MaxPerRow;
    var n := RowSize(count, row);
    Pos((2 * (k % MaxPerRow) - (n - 1)) * halfCell, startY - row * RowHeight)
  }

  /** The rows are `ceil(count / 8)`; row `r` is non-empty, holds
      `min(8, count - 8r)` units, and these are exactly the units
      `8r .. 8r + RowSize - 1` of the column. */
  lemma RowMembers(count: nat, r: nat, k: nat)
    ensures r < Rows(count) <==> r * MaxPerRow < count
    ensures r < Rows(count) ==> 1 <= RowSize(count, r) <= MaxPerRow
    ensures r < Rows(count) ==>
      ((k < count && k / MaxPerRow == r) <==> (r * MaxPerRow <= k < r * MaxPerRow + RowSize(count, r)))
  {
  }

  /** Within a row the offsets are symmetric about the axis: the `i`-th
      unit from the left mirrors the `i`-th from the right. */
  lemma RowSymmetric(r: nat, i: nat, count: nat, startY: int, halfCell: nat)
    requires r < Rows(count) && i < RowSize(count, r)
    ensures var j := RowSize(count, r) - 1 - i;
      Slot(r * MaxPerRow + i, count, startY, halfCell).x == -Slot(r * MaxPerRow + j, count, startY, halfCell).x &&
      Slot(r * MaxPerRow + i, count, startY, halfCell).y == Slot(r * MaxPerRow + j, count, startY, halfCell).y
  {
    var n := RowSize(count, r);
    var j := n - 1 - i;
    SlotOf(r, i, count, startY, halfCell);
    SlotOf(r, j, count, startY, halfCell);
    assert (2 * i - (n - 1)) * halfCell == -((2 * j - (n - 1)) * halfCell);
  }

  /** With a positive cell width no two units of a column share a place. */
  lemma SlotsDistinct(k1: nat, k2: nat, count: nat, startY: int, halfCell: nat)
    requires k1 < count && k2 < count && halfCell > 0
    requires Slot(k1, count, startY, halfCell) == Slot(k2, count, startY, halfCell)
    ensures k1 == k2
  {
    var r1, r2 := k1 / MaxPerRow, k2 / MaxPerRow;
    assert r1 * RowHeight == r2 * RowHeight;
    MulCancel(r1, r2, RowHeight);
    var n := RowSize(count, r1);
    var i1, i2 := k1 % MaxPerRow, k2 % MaxPerRow;
    assert (2 * i1 - (n - 1)) * halfCell == (2 * i2 - (n - 1)) * halfCell;
    MulCancel(2 * i1 - (n - 1), 2 * i2 - (n - 1), halfCell);
  }

  lemma MulCancel(a: int, b: int, c: int)
    requires c > 0 && a * c == b * c
    ensures a == b
  {
    assert a < b ==> a * c < b * c;
    assert a > b ==> a * c > b * c;
  }

  /** The slot of the `i`-th unit of row `r`, as the nested loop computes it. */
  lemma SlotOf(r: nat, i: nat, count: nat, startY: int, halfCell: nat)
    requires i < MaxPerRow
    ensures Slot(r * MaxPerRow + i, count, startY, halfCell) ==
      Pos((2 * i - (RowSize(count, r) - 1)) * halfCell, startY - r * RowHeight)
  {
    var k := r * MaxPerRow + i;
    assert k / MaxPerRow == r && k % MaxPerRow == i;
  }

  /** A child the arrangement moves into the given column: it has stats
      (`data == null` is also true once the unit is destroyed), it is not
      locked, and it is of that type. */
  predicate Movable(u: CharacterStats?, t: MonsterType)
    reads {u}`destroyed, {u}`lockedIn, {u}`monsterType
  {
    u != null && !u.destroyed && !u.lockedIn && u.monsterType == t
  }

  /** The column list `ArrangeMonsters` builds: the movable children of
      that type, in child order. */
  function Column(children: seq<CharacterStats?>, t: MonsterType): (r: seq<CharacterStats>)
    reads children`destroyed, children`lockedIn, children`monsterType
    ensures forall i :: 0 <= i < |r| ==> r[i] in children
    decreases |children|
  {
    if |children| == 0 then []
    else
      var init := Column(children[..|children| - 1], t);
      var c := children[|children| - 1];
      if Movable(c, t) then init + [c] else init
  }

  /** A column holds exactly the movable children of its type. */
  lemma {:induction false} ColumnMembers(children: seq<CharacterStats?>, t: MonsterType)
    ensures forall i :: 0 <= i < |Column(children, t)| ==>
      Column(children, t)[i] in children && Movable(Column(children, t)[i], t)
    ensures forall i :: 0 <= i < |children| && Movable(children[i], t) ==> children[i] in Column(children, t)
    decreases |children|
  {
    if |children| > 0 {
      var init := children[..|children| - 1];
      ColumnMembers(init, t);
      forall i | 0 <= i < |children| && Movable(children[i], t)
        ensures children[i] in Column(children, t)
      {
        if i < |children| - 1 {
          assert children[i] == init[i];
        }
      }
    }
  }

  /** The children of a transform are distinct objects. */
  predicate DistinctChildren(children: seq<CharacterStats?>)
  {
    forall i, j :: 0 <= i < j < |children| && children[i] != null ==> children[i] != children[j]
  }

  /** Distinct children give distinct columns. */
  lemma {:induction false} ColumnDistinct(children: seq<CharacterStats?>, t: MonsterType)
    requires DistinctChildren(children)
    ensures Distinct(Column(children, t))
    decreases |children|
  {
    if |children| > 0 {
      var init := children[..|children| - 1];
      assert DistinctChildren(init);
      ColumnDistinct(init, t);
      var c := children[|children| - 1];
      if Movable(c, t) {
        assert c !in init;
        ColumnMembers(init, t);
        assert c !in Column(init, t);
      }
    }
  }

  /** Each movable child goes to exactly one column: the tank column for
      melee units, the ranger column for ranged ones. */
  lemma ColumnsPartition(children: seq<CharacterStats?>, c: CharacterStats)
    requires c in children && !c.destroyed && !c.lockedIn
    ensures c in Column(children, Melee) <==> c.monsterType == Melee
    ensures c in Column(children, Ranged) <==> c.monsterType == Ranged
    ensures !(c in Column(children, Melee) && c in Column(children, Ranged))
  {
    ColumnMembers(children, Melee);
    ColumnMembers(children, Ranged);
  }

  class MonsterGrid {
    /** Half of `cellHeight`, the horizontal spacing, in steps. */
    const halfCell: nat
    const tankColumnY: int
    const rangerColumnY: int
    /** The grid's own position; children are placed relative to it. */
    const origin: Pos
    /** The child transforms, `null` for a child without `CharacterStats`. */
    var children: seq<CharacterStats?>

    constructor (halfCell: nat, tankColumnY: int, rangerColumnY: int, origin: Pos)
      ensures this.halfCell == halfCell && this.tankColumnY == tankColumnY
      ensures this.rangerColumnY == rangerColumnY && this.origin == origin
      ensures children == []
    {
      this.halfCell := halfCell;
      this.tankColumnY := tankColumnY;
      this.rangerColumnY := rangerColumnY;
      this.origin := origin;
      children := [];
    }

    function ColumnY(t: MonsterType): int
    {
      if t == Melee then tankColumnY else rangerColumnY
    }

    /** The world position of slot `k` of a column of `count` starting at `startY`. */
    function Place(k: nat, count: nat, startY: int): Pos
    {
      var s := Slot(k, count, startY, halfCell);
      Pos(origin.x + s.x, origin.y + s.y)
    }

    /** Every movable child stands at its slot of its column. */
    predicate Arranged()
      reads this`children, children`destroyed, children`lockedIn, children`monsterType, children`position
    {
      forall t: MonsterType, k :: 0 <= k < |Column(children, t)| ==>
        Column(children, t)[k].position == Place(k, |Column(children, t)|, ColumnY(t))
    }

    /** `ArrangeMonsters`: lays both columns out; locked units keep their place. */
    method ArrangeMonsters()
      requires DistinctChildren(children)
      modifies children`position
      ensures Arranged()
      ensures forall i :: 0 <= i < |children| && children[i] != null && children[i].lockedIn ==>
        children[i].position == old(children[i].position)
    {
      var tanks, rangers := SplitColumns();
      ColumnDistinct(children, Melee);
      ColumnDistinct(children, Ranged);
      ColumnMembers(children, Melee);
      ColumnMembers(children, Ranged);
      assert forall k :: 0 <= k < |tanks| ==> tanks[k] !in rangers;
      PositionColumnCentered(tanks, tankColumnY);
      PositionColumnCentered(rangers, rangerColumnY);
      assert Column(children, Melee) == tanks && Column(children, Ranged) == rangers;
    }

    /** The `foreach` over the children that fills the two column lists. */
    method SplitColumns() returns (tanks: seq<CharacterStats>, rangers: seq<CharacterStats>)
      ensures tanks == Column(children, Melee) && rangers == Column(children, Ranged)
    {
      tanks, rangers := [], [];
      for i := 0 to |children|
        invariant tanks == Column(children[..i], Melee)
        invariant rangers == Column(children[..i], Ranged)
      {
        assert children[..i + 1][..i] == children[..i];
        var c := children[i];
        if c == null || c.destroyed {
          continue;
        }
        if c.lockedIn {
          continue;
        }
        if c.monsterType == Melee {
          tanks := tanks + [c];
        } else if c.monsterType == Ranged {
          rangers := rangers + [c];
        }
      }
      assert children[..|children|] == children;
    }

    /** Lays one column out in rows of at most eight, in list order. */
    method PositionColumnCentered(list: seq<CharacterStats>, startY: int)
      requires Distinct(list)
      modifies list`position
      ensures forall k :: 0 <= k < |list| ==> list[k].position == Place(k, |list|, startY)
    {
      var count := |list|;
      if count == 0 {
        return;
      }
      var rows := (count + MaxPerRow - 1) / MaxPerRow;
      var index := 0;
      for row := 0 to rows
        invariant index == Min(row * MaxPerRow, count)
        invariant forall k :: 0 <= k < index ==> list[k].position == Place(k, count, startY)
      {
        var unitsInThisRow := Min(MaxPerRow, count - row * MaxPerRow);
        var y := startY - row * RowHeight;
        for i := 0 to unitsInThisRow
          invariant index == row * MaxPerRow + i
          invariant forall k :: 0 <= k < index ==> list[k].position == Place(k, count, startY)
        {
          var x := (2 * i - (unitsInThisRow - 1)) * halfCell;
          SlotOf(row, i, count, startY, halfCell);
          list[index].position := Pos(origin.x + x, origin.y + y);
          index := index + 1;
        }
      }
    }

    /**
     * `AddMonster(def, team, level)`: nothing without a definition or a
     * prefab; otherwise a new unit joins the grid with its AI disabled, and
     * the grid is re-arranged.  `CharacterStats.Init(team, def, level)` is
     * not part of this model's source files: the model assumes the new
     * unit carries the definition's stats at full health, takes the team
     * and the definition's archetype as `Init(team, type)` does, and that
     * `level` changes nothing.
     */
    method AddMonster(def: UnitDefinition?, team: Team, level: int) returns (u: CharacterStats?)
      requires DistinctChildren(children)
      modifies this`children, children`position
      ensures u == null <==> (def == null || !def.hasPrefab)
      ensures u == null ==> (children == old(children) &&
        forall i :: 0 <= i < |children| && children[i] != null ==> children[i].position == old(children[i].position))
      ensures u != null ==>
        fresh(u) && children == old(children) + [u] &&
        u.team == team && u.monsterType == def.monsterType &&
        u.maxHealth == def.maxHealth && u.currentHealth == def.maxHealth && u.damage == def.damage &&
        u.moveSpeed == def.moveSpeed && u.attackRange == def.attackRange &&
        u.attackCooldown == def.attackCooldown && u.spawnCount == def.spawnCount &&
        !u.isDead && !u.lockedIn && !u.destroyed && !u.aiEnabled &&
        Arranged() &&
        (forall i :: 0 <= i < |old(children)| && old(children[i]) != null && old(children[i].lockedIn) ==>
          children[i].position == old(children[i].position))
      ensures DistinctChildren(children)
    {
      if def == null || !def.hasPrefab {
        return null;
      }
      u := new CharacterStats(def.maxHealth, def.damage, def.moveSpeed, def.attackRange,
                              def.attackCooldown, def.spawnCount, origin);
      u.Init(team, def.monsterType);
      u.aiEnabled := false;
      children := children + [u];
      ArrangeMonsters();
    }
  }
}
