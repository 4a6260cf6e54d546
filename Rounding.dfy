/**
 * `Mathf.RoundToInt`, which calls `Math.Round`: round to the nearest
 * integer, and on an exact half round to the even neighbour.
 * Float products are modelled as exact `real` products.
 */
module Rounding {

  function RoundToInt(x: real): (r: int)
    ensures -0.5 <= x - r as real <= 0.5
    ensures (x - r as real == 0.5 || r as real - x == 0.5) ==> r % 2 == 0
  {
    var f := x.Floor;
    var frac := x - f as real;
    if frac < 0.5 then f
    else if frac > 0.5 then f + 1
    else if f % 2 == 0 then f else f + 1
  }

  /** Round-half-to-even names exactly one integer: any integer that is
      nearest and even on ties is the one `RoundToInt` returns. */
  lemma RoundToIntUnique(x: real, n: int)
    requires -0.5 <= x - n as real <= 0.5
    requires (x - n as real == 0.5 || n as real - x == 0.5) ==> n % 2 == 0
    ensures n == RoundToInt(x)
  {
  }

  /** The damage `Mathf.RoundToInt(damage * m)` used by the chain and splash attacks. */
  function ScaledDamage(damage: int, m: real): (r: int)
    ensures -0.5 <= damage as real * m - r as real <= 0.5
  {
    RoundToInt(damage as real * m)
  }

  /** Ties go to the even neighbour, in both directions. */
  lemma HalvesRoundToEven()
    ensures RoundToInt(2.5) == 2 && RoundToInt(3.5) == 4 && RoundToInt(-2.5) == -2
  {
    RoundToIntUnique(2.5, 2);
    RoundToIntUnique(3.5, 4);
    RoundToIntUnique(-2.5, -2);
  }
}
