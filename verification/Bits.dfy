/** Machine words as natural numbers, with the bitwise operators of the source
    written out digit by digit.  A `u64` is a number below `Pow2(64)`, a `u8`
    one below 256. */
module Bits {
  import opened Basics

  function Pow2(n: nat): (r: nat)
    ensures r >= 1
  {
    if n == 0 then 1 else 2 * Pow2(n - 1)
  }

  /** Bit `i` of `x`, bit 0 being the least significant. */
  predicate Bit(x: nat, i: nat) {
    if i == 0 then x % 2 == 1 else Bit(x / 2, i - 1)
  }

  /** `x & y` */
  function And(x: nat, y: nat): nat {
    if x == 0 || y == 0 then 0
    else 2 * And(x / 2, y / 2) + (x % 2) * (y % 2)
  }

  /** `x | y` */
  function Or(x: nat, y: nat): nat
    decreases x + y
  {
    if x == 0 then y
    else if y == 0 then x
    else 2 * Or(x / 2, y / 2) + if x % 2 == 1 || y % 2 == 1 then 1 else 0
  }

  /** `x ^ y` */
  function Xor(x: nat, y: nat): nat
    decreases x + y
  {
    if x == 0 then y
    else if y == 0 then x
    else 2 * Xor(x / 2, y / 2) + (x + y) % 2
  }

  /** `x << k` on a word of `width` bits: the high bits fall off. */
  function Shl(width: nat, x: nat, k: nat): nat
    decreases k
  {
    if k == 0 then x else Shl(width, 2 * x % Pow2(width), k - 1)
  }

  lemma {:induction false} BitZero(i: nat)
    ensures !Bit(0, i)
  {
    if i > 0 { BitZero(i - 1); }
  }

  lemma {:induction false} BitOne(i: nat)
    ensures Bit(1, i) <==> i == 0
  {
    if i > 0 { BitZero(i - 1); }
  }

  lemma {:induction false} BitAnd(x: nat, y: nat, i: nat)
    ensures Bit(And(x, y), i) <==> Bit(x, i) && Bit(y, i)
  {
    if x == 0 || y == 0 {
      BitZero(i);
    } else {
      assert And(x, y) / 2 == And(x / 2, y / 2);
      assert x % 2 == 0 || x % 2 == 1;
      if i > 0 { BitAnd(x / 2, y / 2, i - 1); }
    }
  }

  lemma {:induction false} BitOr(x: nat, y: nat, i: nat)
    ensures Bit(Or(x, y), i) <==> Bit(x, i) || Bit(y, i)
  {
    if x == 0 || y == 0 {
      BitZero(i);
    } else if i > 0 {
      BitOr(x / 2, y / 2, i - 1);
    }
  }

  /** Dropping the bits from `n` up keeps the ones below. */
  lemma {:induction false} BitTruncated(x: nat, n: nat, i: nat)
    requires i < n
    ensures Bit(x % Pow2(n), i) <==> Bit(x, i)
  {
    HalfOfRemainder(x, Pow2(n - 1));
    if i > 0 { BitTruncated(x / 2, n - 1, i - 1); }
  }

  lemma DoubledProduct(m: int, q: int)
    ensures 2 * m * q == 2 * (m * q)
  {
  }

  lemma HalfOfSum(a: int, r: int, x: int)
    requires x == 2 * a + r
    ensures x / 2 == a + r / 2 && x % 2 == r % 2
  {
  }

  lemma DivMod(x: int, d: int)
    requires d > 0
    ensures x == d * (x / d) + x % d && 0 <= x % d < d
  {
  }

  lemma Halves(x: int, m: int, q: int, r: int)
    requires m >= 1 && x == 2 * m * q + r && 0 <= r < 2 * m && x >= 0
    ensures r / 2 == x / 2 % m && r % 2 == x % 2
  {
    DoubledProduct(m, q);
    HalfOfSum(m * q, r, x);
    RemainderUnique(x / 2, m, q, r / 2);
  }

  lemma HalfOfRemainder(x: nat, m: nat)
    requires m >= 1
    ensures x % (2 * m) / 2 == x / 2 % m
    ensures x % (2 * m) % 2 == x % 2
  {
    var d := 2 * m;
    DivMod(x, d);
    Halves(x, m, x / d, x % d);
  }

  lemma {:induction false} ShlBound(width: nat, x: nat, k: nat)
    requires x < Pow2(width)
    ensures Shl(width, x, k) < Pow2(width)
    decreases k
  {
    if k > 0 { ShlBound(width, 2 * x % Pow2(width), k - 1); }
  }

  /** A left shift moves every bit that still fits up by `k`. */
  lemma {:induction false} BitShl(width: nat, x: nat, k: nat, i: nat)
    requires i < width
    ensures Bit(Shl(width, x, k), i) <==> i >= k && Bit(x, i - k)
    decreases k
  {
    if k > 0 {
      BitShl(width, 2 * x % Pow2(width), k - 1, i);
      if i >= k - 1 {
        BitTruncated(2 * x, width, i - (k - 1));
      }
    }
  }

  lemma {:induction false} OrBound(x: nat, y: nat, n: nat)
    requires x < Pow2(n) && y < Pow2(n)
    ensures Or(x, y) < Pow2(n)
  {
    if x != 0 && y != 0 { OrBound(x / 2, y / 2, n - 1); }
  }

  lemma {:induction false} NonZeroHasBit(x: nat, n: nat) returns (i: nat)
    requires 0 < x < Pow2(n)
    ensures i < n && Bit(x, i)
  {
    if x % 2 == 1 {
      i := 0;
    } else {
      var j := NonZeroHasBit(x / 2, n - 1);
      i := j + 1;
    }
  }

  /** Masking with a single shifted one tests that bit. */
  lemma MaskTestsBit(width: nat, x: nat, d: nat)
    requires d < width && x < Pow2(width)
    ensures And(x, Shl(width, 1, d)) == 0 <==> !Bit(x, d)
  {
    var m := And(x, Shl(width, 1, d));
    BitAnd(x, Shl(width, 1, d), d);
    BitShl(width, 1, d, d);
    BitZero(d);
    if m != 0 {
      AndBound(x, Shl(width, 1, d), width);
      var i := NonZeroHasBit(m, width);
      BitAnd(x, Shl(width, 1, d), i);
      BitShl(width, 1, d, i);
      BitOne(i - d);
    }
  }

  lemma {:induction false} AndBound(x: nat, y: nat, n: nat)
    requires x < Pow2(n)
    ensures And(x, y) < Pow2(n)
  {
    if x != 0 && y != 0 { AndBound(x / 2, y / 2, n - 1); }
  }

  /** The complement of an `n` bit word has the opposite bits. */
  lemma {:induction false} BitComplement(x: nat, n: nat, i: nat)
    requires x < Pow2(n) && i < n
    ensures Bit(Pow2(n) - 1 - x, i) <==> !Bit(x, i)
  {
    assert (Pow2(n) - 1 - x) / 2 == Pow2(n - 1) - 1 - x / 2;
    if i > 0 { BitComplement(x / 2, n - 1, i - 1); }
  }

  /** Words with the same bits are equal. */
  lemma {:induction false} BitsEqual(x: nat, y: nat, n: nat)
    requires x < Pow2(n) && y < Pow2(n)
    requires forall i: nat :: i < n ==> Bit(x, i) == Bit(y, i)
    ensures x == y
  {
    if n > 0 {
      forall i: nat | i < n - 1 ensures Bit(x / 2, i) == Bit(y / 2, i) {
        assert Bit(x, i + 1) == Bit(y, i + 1);
      }
      BitsEqual(x / 2, y / 2, n - 1);
      assert Bit(x, 0) == Bit(y, 0);
    }
  }
}
