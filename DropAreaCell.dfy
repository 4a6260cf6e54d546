/**
 * `DropAreaCell`: one cell of the board where units are dropped.  A cell
 * knows its logical row and column and may carry a percentage bonus; it is
 * special when it has a bonus type and a percentage that is not
 * negligible, and its sprite is tinted by that.
 */
module DropCell {
  import opened Geometry

  /** `CellBonusType`; `NoBonus` is `CellBonusType.None`. */
  datatype CellBonusType = NoBonus | HpPercent | AttackPercent

  /** An RGBA colour with components in [0, 1]. */
  datatype Color = Color(r: real, g: real, b: real, a: real)

  /** `new Color(1, 1, 1, 0.4f)`: translucent white for an ordinary cell. */
  const NormalColor := Color(1.0, 1.0, 1.0, 0.4)
  /** Green for a bonus, red for a malus. */
  const BonusColor := Color(0.0, 1.0, 0.0, 0.7)
  const MalusColor := Color(1.0, 0.0, 0.0, 0.7)

  /** Below this magnitude a percentage counts as no bonus. */
  const Negligible: real := 0.0001

  function RealAbs(v: real): real { if v < 0.0 then -v else v }

  /** `IsSpecial` on given bonus data. */
  predicate Special(bonusType: CellBonusType, percentValue: real)
  {
    bonusType != NoBonus && RealAbs(percentValue) > Negligible
  }

  /** The tint `UpdateColor` chooses. */
  function TintFor(bonusType: CellBonusType, percentValue: real): (c: Color)
    ensures !Special(bonusType, percentValue) <==> c == NormalColor
    ensures c == BonusColor <==> Special(bonusType, percentValue) && percentValue >= 0.0
    ensures c == MalusColor <==> Special(bonusType, percentValue) && percentValue < 0.0
  {
    if !Special(bonusType, percentValue) then NormalColor
    else if percentValue >= 0.0 then BonusColor
    else MalusColor
  }

  /** A cell with the default data (no bonus type, zero percent) is not
      special, and neither is any cell without a bonus type or with a
      negligible percentage. */
  lemma DefaultNotSpecial(bonusType: CellBonusType, percentValue: real)
    requires bonusType == NoBonus || (-Negligible <= percentValue <= Negligible)
    ensures !Special(bonusType, percentValue)
    ensures !Special(NoBonus, 0.0)
  {
  }

  class DropAreaCell {
    var row: int
    var column: int
    var bonusType: CellBonusType
    var percentValue: real
    /** `spriteRenderer != null`. */
    const hasRenderer: bool
    /** `spriteRenderer.color`. */
    var color: Color
    /** The cell's world position, fixed when the grid instantiates it. */
    const position: Pos

    /** An instance of the cell prefab at `position`. */
    constructor (position: Pos, hasRenderer: bool, color: Color)
      ensures this.position == position && this.hasRenderer == hasRenderer && this.color == color
      ensures row == 0 && column == 0 && bonusType == NoBonus && percentValue == 0.0
    {
      this.position := position;
      this.hasRenderer := hasRenderer;
      this.color := color;
      row := 0;
      column := 0;
      bonusType := NoBonus;
      percentValue := 0.0;
    }

    /** `IsSpecial`: a bonus type and a percentage above 0.0001 in magnitude. */
    predicate IsSpecial()
      reads this`bonusType, this`percentValue
    {
      Special(bonusType, percentValue)
    }

    /** `UpdateColor`: without a renderer nothing happens; otherwise the
        sprite is tinted white, green or red. */
    method UpdateColor()
      modifies this`color
      ensures !hasRenderer ==> color == old(color)
      ensures hasRenderer ==> color == TintFor(bonusType, percentValue)
    {
      if !hasRenderer {
        return;
      }
      var c := NormalColor;
      if IsSpecial() {
        c := if percentValue >= 0.0 then BonusColor else MalusColor;
      }
      color := c;
    }
  }
}
