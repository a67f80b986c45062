/**
 JavaScript's bit operators on integers that fit in 32 bits. Shifts and masks are arithmetic:
 x << k is x * 2^k, x >> k is x / 2^k and x & (2^k - 1) is x % 2^k, for negative x too, because
 division and remainder here round towards minus infinity. Only | needs a definition.
 */
module Bits {
  function Pow2(k: nat): (p: nat)
    ensures p > 0
  {
    if k == 0 then 1 else 2 * Pow2(k - 1)
  }

  lemma {:induction false} Pow2Adds(j: nat, k: nat)
    ensures Pow2(j + k) == Pow2(j) * Pow2(k)
  {
    if j > 0 { Pow2Adds(j - 1, k); }
  }

  lemma WordSize()
    ensures Pow2(64) == 0x1_0000_0000_0000_0000
  {
    assert Pow2(8) == 256;
    Pow2Adds(8, 8);
    Pow2Adds(16, 16);
    Pow2Adds(32, 32);
  }

  function Magnitude(x: int): nat { if x < 0 then -x else x }

  /** x | y on two's complement integers of any width. */
  function Or(x: int, y: int): int
    decreases Magnitude(x) + Magnitude(y)
  {
    if x == -1 || y == -1 then -1
    else if x == 0 && y == 0 then 0
    else (if x % 2 == 1 || y % 2 == 1 then 1 else 0) + 2 * Or(x / 2, y / 2)
  }

  lemma {:induction false} OrZero(x: int)
    ensures Or(x, 0) == x
    decreases Magnitude(x)
  {
    if x != 0 && x != -1 { OrZero(x / 2); }
  }

  /** Operands with no common bit positions are simply added. */
  lemma {:induction false} OrAdds(high: int, low: nat, k: nat)
    requires low < Pow2(k)
    ensures Or(high * Pow2(k), low) == high * Pow2(k) + low
  {
    if k == 0 {
      OrZero(high);
    } else {
      var x := high * Pow2(k);
      assert x == 2 * (high * Pow2(k - 1));
      OrAdds(high, low / 2, k - 1);
      if x != -1 && !(x == 0 && low == 0) { assert Or(x, low) == low % 2 + 2 * Or(x / 2, low / 2); }
    }
  }

  /** The amounts by which the codecs shift. */
  lemma SmallPowers()
    ensures Pow2(2) == 4 && Pow2(4) == 16 && Pow2(6) == 64 && Pow2(7) == 128 && Pow2(12) == 4096 && Pow2(18) == 262144
  {
    assert Pow2(4) == 16;
    assert Pow2(6) == 64;
    assert Pow2(8) == 256;
    assert Pow2(10) == 1024;
    assert Pow2(12) == 4096;
    assert Pow2(14) == 16384;
    assert Pow2(16) == 65536;
  }

  /** Or of a multiple of a power of two with something smaller. */
  lemma OrAdds6(high: int, low: int)
    requires 0 <= low < 64
    ensures Or(high * 64, low) == high * 64 + low
  {
    SmallPowers();
    OrAdds(high, low, 6);
  }

  lemma OrAdds12(high: int, low: int)
    requires 0 <= low < 4096
    ensures Or(high * 4096, low) == high * 4096 + low
  {
    SmallPowers();
    OrAdds(high, low, 12);
  }

  lemma OrAdds18(high: int, low: int)
    requires 0 <= low < 262144
    ensures Or(high * 262144, low) == high * 262144 + low
  {
    SmallPowers();
    OrAdds(high, low, 18);
  }

  lemma OrAdds4(high: int, low: int)
    requires 0 <= low < 16
    ensures Or(high * 16, low) == high * 16 + low
  {
    SmallPowers();
    OrAdds(high, low, 4);
  }

  lemma OrAdds2(high: int, low: int)
    requires 0 <= low < 4
    ensures Or(high * 4, low) == high * 4 + low
  {
    SmallPowers();
    OrAdds(high, low, 2);
  }

  /** Or works on two bits at a time when the low ones of one side are zero. */
  lemma OrShifted(x: nat, y: nat)
    ensures Or(x * 4, y) == Or(x, y / 4) * 4 + y % 4
  {
    assert Or(x * 4, y) == y % 2 + 2 * Or(x * 2, y / 2);
    assert Or(x * 2, y / 2) == y / 2 % 2 + 2 * Or(x, y / 2 / 2);
  }

  lemma {:induction false} OrBounded(x: nat, y: nat, k: nat)
    requires x < Pow2(k) && y < Pow2(k)
    ensures 0 <= Or(x, y) < Pow2(k)
  {
    if k > 0 && !(x == 0 && y == 0) { OrBounded(x / 2, y / 2, k - 1); }
  }

  /** x ^ y on unsigned integers of any width. */
  function Xor(x: nat, y: nat): nat
    decreases x + y
  {
    if x == 0 && y == 0 then 0 else (x + y) % 2 + 2 * Xor(x / 2, y / 2)
  }

  lemma {:induction false} XorSymmetric(x: nat, y: nat)
    ensures Xor(x, y) == Xor(y, x)
    decreases x + y
  {
    if x != 0 || y != 0 { XorSymmetric(x / 2, y / 2); }
  }

  /** A second application undoes the first. */
  lemma {:induction false} XorUndone(x: nat, y: nat)
    ensures Xor(Xor(x, y), y) == x
    decreases x + y
  {
    if x != 0 || y != 0 {
      XorUndone(x / 2, y / 2);
      LowBitUndone(x, y, Xor(x / 2, y / 2));
    }
  }

  lemma LowBitUndone(x: nat, y: nat, z: nat)
    ensures var w := (x + y) % 2 + 2 * z; w / 2 == z && (w + y) % 2 == x % 2
  {
    var b := (x + y) % 2;
    assert (b + 2 * z) / 2 == z;
    assert (b + 2 * z + y) % 2 == (b + y) % 2 == x % 2;
  }

  lemma {:induction false} XorBounded(x: nat, y: nat, k: nat)
    requires x < Pow2(k) && y < Pow2(k)
    ensures Xor(x, y) < Pow2(k)
  {
    if k > 0 && !(x == 0 && y == 0) { XorBounded(x / 2, y / 2, k - 1); }
  }
}
