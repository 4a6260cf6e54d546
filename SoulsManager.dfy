/**
 * `SoulsManager`, the player's soul currency.  `soulsLeft` is a C# `int`,
 * so its arithmetic wraps around at 32 bits (C# arithmetic is unchecked
 * unless asked otherwise); spending clamps the balance at zero and only
 * positive amounts are ever added.  Updating the on-screen text is left
 * out.
 */
module Souls {

  const MinInt32: int := -0x8000_0000
  const MaxInt32: int := 0x7fff_ffff

  type Int32 = x: int | MinInt32 <= x <= MaxInt32

  /** Two's-complement wrap-around of an `int` result. */
  function Wrap32(x: int): (r: Int32)
    ensures MinInt32 <= x <= MaxInt32 ==> r == x
    ensures (r - x) % 0x1_0000_0000 == 0
  {
    (x - MinInt32) % 0x1_0000_0000 + MinInt32
  }

  /** The balance after `UseSouls(used)`. */
  function AfterUse(souls: Int32, used: Int32): (r: Int32)
    ensures r >= 0
    ensures 0 <= souls - used <= MaxInt32 ==> r == souls - used
    ensures souls - used < 0 && souls - used >= MinInt32 ==> r == 0
  {
    var s := Wrap32(souls - used);
    if s < 0 then 0 else s
  }

  /** The balance after `AddSouls(amount)`. */
  function AfterAdd(souls: Int32, amount: Int32): (r: Int32)
    ensures amount <= 0 ==> r == souls
    ensures amount > 0 && souls + amount <= MaxInt32 ==> r == souls + amount
  {
    if amount <= 0 then souls else Wrap32(souls + amount)
  }

  /** Adding a positive amount wraps to a negative balance exactly when it
      passes the largest `int`. */
  lemma AddOverflow(souls: Int32, amount: Int32)
    requires souls >= 0 && amount > 0
    ensures AfterAdd(souls, amount) < 0 <==> souls + amount > MaxInt32
  {
    if souls + amount > MaxInt32 {
      assert AfterAdd(souls, amount) == souls + amount - 0x1_0000_0000;
    }
  }

  /** Spending a balance one has, after adding it, gives back the balance
      before. */
  lemma AddThenUse(souls: Int32, amount: Int32)
    requires souls >= 0 && amount > 0 && souls + amount <= MaxInt32
    ensures AfterUse(AfterAdd(souls, amount), amount) == souls
  {
  }

  class SoulsManager {
    /** `soulsLeft`, as set up in the inspector. */
    var soulsLeft: Int32

    constructor (soulsLeft: Int32)
      ensures this.soulsLeft == soulsLeft
    {
      this.soulsLeft := soulsLeft;
    }

    /** `UseSouls(soulsUsed)`: subtracts, then clamps at zero. */
    method UseSouls(soulsUsed: Int32)
      modifies this`soulsLeft
      ensures soulsLeft == AfterUse(old(soulsLeft), soulsUsed)
      ensures soulsLeft >= 0
    {
      soulsLeft := Wrap32(soulsLeft - soulsUsed);
      if soulsLeft < 0 {
        soulsLeft := 0;
      }
    }

    /** `AddSouls(amount)`: nothing for an amount of zero or less. */
    method AddSouls(amount: Int32)
      modifies this`soulsLeft
      ensures soulsLeft == AfterAdd(old(soulsLeft), amount)
    {
      if amount <= 0 {
        return;
      }
      soulsLeft := Wrap32(soulsLeft + amount);
    }

    /** `CheckIfThereIsEnoughSouls(soulsToCheck)`. */
    predicate CheckIfThereIsEnoughSouls(soulsToCheck: Int32)
      reads this`soulsLeft
    {
      soulsLeft >= soulsToCheck
    }

    /** When the check passes for a non-negative price, paying it leaves
        exactly the difference. */
    lemma EnoughThenExact(soulsToCheck: Int32)
      requires soulsToCheck >= 0 && CheckIfThereIsEnoughSouls(soulsToCheck)
      ensures AfterUse(soulsLeft, soulsToCheck) == soulsLeft - soulsToCheck
    {
    }
  }
}
