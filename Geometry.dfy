/**
 * Integer geometry standing in for Unity's float vectors.
 *
 * Positions are fixed-point: one step is 1/100 of a Unity world unit, so a
 * radius of 0.2 is written 20.  Every comparison the game makes between a
 * distance and a radius (`d < r`, `d <= r`, `d > r`) or between two distances
 * is decided exactly with squared distances, because squaring is monotone on
 * non-negative numbers.
 */
module Geometry {

  datatype Pos = Pos(x: int, y: int)

  /** Fixed-point steps per Unity world unit. */
  const StepsPerUnit: nat := 100

  function Sq(v: int): (r: nat)
    ensures r == v * v
  {
    if v < 0 then (-v) * (-v) else v * v
  }

  /** Squared Euclidean distance. */
  function DistSq(a: Pos, b: Pos): nat
  {
    Sq(a.x - b.x) + Sq(a.y - b.y)
  }

  /** `Vector3.Distance(a, b) < r` */
  predicate CloserThan(a: Pos, b: Pos, r: nat)
  {
    DistSq(a, b) < r * r
  }

  /** `Vector3.Distance(a, b) <= r` */
  predicate Within(a: Pos, b: Pos, r: nat)
  {
    DistSq(a, b) <= r * r
  }

  function Abs(v: int): nat { if v < 0 then -v else v }

  /** One coordinate moved toward `to` by at most `step`, never past it. */
  function Approach(from: int, to: int, step: nat): (r: int)
    ensures Abs(to - r) <= Abs(to - from)
    ensures Abs(r - from) <= step
    ensures Abs(to - from) <= step ==> r == to
    ensures Abs(to - from) > step ==> Abs(to - r) == Abs(to - from) - step
  {
    if to - from > step then from + step
    else if from - to > step then from - step
    else to
  }

  /**
   * The abstract movement step that replaces `Vector3.MoveTowards` and the
   * normalised-direction update: each coordinate moves toward the target by
   * at most `step` and never overshoots it.
   */
  function StepToward(from: Pos, to: Pos, step: nat): Pos
  {
    Pos(Approach(from.x, to.x, step), Approach(from.y, to.y, step))
  }

  lemma SqMonotone(u: int, v: int)
    requires Abs(u) <= Abs(v)
    ensures Sq(u) <= Sq(v)
  {
    var a, b := Abs(u), Abs(v);
    assert Sq(u) == a * a && Sq(v) == b * b;
    assert a * a <= a * b <= b * b;
  }

  /** A movement step never takes a mover farther from its target, and it
      lands on the target once the target is within one step on both axes. */
  lemma {:induction false} StepTowardCloses(from: Pos, to: Pos, step: nat)
    ensures DistSq(StepToward(from, to, step), to) <= DistSq(from, to)
    ensures Abs(to.x - from.x) <= step && Abs(to.y - from.y) <= step ==> StepToward(from, to, step) == to
  {
    var p := StepToward(from, to, step);
    SqMonotone(p.x - to.x, from.x - to.x);
    SqMonotone(p.y - to.y, from.y - to.y);
  }
}
