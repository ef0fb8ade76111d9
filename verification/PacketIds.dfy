/** The relay's packet id generator: x' = (x + 1) * 2654435761 mod 2^32 runs through
    all 2^32 values before it repeats one. */
module PacketIds {
  import opened Basics
  import opened Bits

  const MULTIPLIER: nat := 2654435761

  /** One step of the generator, with its two wrapping operations. */
  function NextId(x: u32): u32 {
    (x + 1) % U32 * MULTIPLIER % U32
  }

  /** The generator's state after `n` ids have been drawn; the `n`-th id is this value. */
  function Draw(seed: u32, n: nat): u32 {
    if n == 0 then seed else NextId(Draw(seed, n - 1))
  }

  /** The same recurrence without wrapping. */
  ghost function Iter(n: nat, x: int): int {
    if n == 0 then x else (Iter(n - 1, x) + 1) * MULTIPLIER
  }

  lemma ModShift(a: int, b: int, k: int)
    requires a == b + U32 * k
    ensures a % U32 == b % U32
  {
  }

  lemma MulMod(a: int, m: int)
    ensures a % U32 * m % U32 == a * m % U32
  {
    var q, r := a / U32, a % U32;
    assert a == r + U32 * q;
    assert a * m == r * m + U32 * (q * m);
    ModShift(a * m, r * m, q * m);
  }

  lemma SuccMod(y: int)
    ensures (y % U32 + 1) % U32 == (y + 1) % U32
  {
    ModShift(y + 1, y % U32 + 1, y / U32);
  }

  lemma {:induction false} DrawIsIter(seed: u32, n: nat)
    ensures Draw(seed, n) == Iter(n, seed) % U32
  {
    if n > 0 {
      DrawIsIter(seed, n - 1);
      SuccMod(Iter(n - 1, seed));
      MulMod(Iter(n - 1, seed) + 1, MULTIPLIER);
    }
  }

  lemma {:induction false} IterAdd(m: nat, n: nat, x: int)
    ensures Iter(m + n, x) == Iter(m, Iter(n, x))
  {
    if m > 0 { IterAdd(m - 1, n, x); }
  }

  // ----- powers of two steps ------------------------------------------------------------

  /** MULTIPLIER to the power of `n`. */
  ghost function Slope(n: nat): int {
    if n == 0 then 1 else MULTIPLIER * Slope(n - 1)
  }

  /** `n` steps stretch the distance between two points by the slope. */
  lemma {:induction false} IterSlope(n: nat, x: int, y: int)
    ensures Iter(n, y) - Iter(n, x) == Slope(n) * (y - x)
  {
    if n > 0 {
      IterSlope(n - 1, x, y);
      Stretch(Iter(n - 1, x), Iter(n - 1, y), Slope(n - 1), y - x);
    }
  }

  lemma Stretch(a: int, b: int, s: int, d: int)
    requires b - a == s * d
    ensures (b + 1) * MULTIPLIER - (a + 1) * MULTIPLIER == MULTIPLIER * s * d
  {
    assert MULTIPLIER * (s * d) == MULTIPLIER * s * d;
  }

  lemma {:induction false} SlopeOneMod4(n: nat) returns (w: int)
    ensures Slope(n) == 4 * w + 1
  {
    if n == 0 {
      w := 0;
    } else {
      var v := SlopeOneMod4(n - 1);
      w := MULTIPLIER * v + (MULTIPLIER - 1) / 4;
    }
  }

  /** One step moves by an odd distance: (x + 1) * a - x = 2 * t + 1. */
  lemma OneMove(x: int) returns (t: int)
    ensures Iter(1, x) == x + 1 * (2 * t + 1)
  {
    assert Iter(1, x) == (Iter(0, x) + 1) * MULTIPLIER;
    var h := 1327217880;
    t := (x + 1) * h;
    OddMultiple(x + 1, h);
  }

  /** 2^k steps move any point by 2^k times an odd number. */
  lemma {:induction false} PowerMoves(k: nat, x: int) returns (t: int)
    ensures Iter(Pow2(k), x) == x + Pow2(k) * (2 * t + 1)
  {
    if k == 0 {
      t := OneMove(x);
    } else {
      var h := Pow2(k - 1);
      var s := PowerMoves(k - 1, x);
      var z := Iter(h, x);
      IterAdd(h, h, x);
      IterSlope(h, x, z);
      var w := SlopeOneMod4(h);
      t := SumOfMoves(h, s, w, x, z, Iter(h, z));
    }
  }

  lemma OddMultiple(y: int, h: int)
    ensures y * (2 * h + 1) == 2 * (y * h) + y
  {
  }

  /** Two moves, the second stretched by 4*w + 1, add up to twice an odd number. */
  lemma SumOfMoves(h: int, s: int, w: int, x: int, z: int, y: int) returns (t: int)
    requires z == x + h * (2 * s + 1) && y - z == (4 * w + 1) * (z - x)
    ensures y == x + 2 * h * (2 * t + 1)
  {
    var e := h * (2 * s + 1);
    t := s + 2 * w * s + w;
    assert (4 * w + 1) * e == 4 * (w * e) + e;
    assert w * e == h * (2 * (w * s) + w) by { assert w * e == h * (w * (2 * s + 1)); assert w * (2 * s + 1) == 2 * (w * s) + w; }
    var f := 2 * (w * s) + w;
    assert 2 * t + 1 == (2 * s + 1) + 2 * f by { assert 2 * w * s == 2 * (w * s); }
    assert 2 * h * (2 * t + 1) == 2 * (h * (2 * s + 1)) + 4 * (h * f);
  }

  /** `q` jumps of 2^k steps move by 2^k times a number with the parity of `q`. */
  lemma {:induction false} Jumps(k: nat, q: nat, x: int) returns (s: int)
    ensures Iter(q * Pow2(k), x) == x + Pow2(k) * s && (s - q) % 2 == 0
  {
    var p := Pow2(k);
    if q == 0 {
      s := 0;
    } else {
      var r := Jumps(k, q - 1, x);
      var n: nat := (q - 1) * p;
      IterAdd(p, n, x);
      var t := PowerMoves(k, Iter(n, x));
      s := r + 2 * t + 1;
      AddJump(p, q, r, 2 * t + 1);
      assert (s - q) % 2 == 0 by { SameParity(r, q - 1, t); }
    }
  }

  lemma SameParity(r: int, q: int, t: int)
    requires (r - q) % 2 == 0
    ensures (r + 2 * t + 1 - (q + 1)) % 2 == 0
  {
  }

  lemma AddJump(p: nat, q: nat, r: int, t: int)
    requires q > 0
    ensures q * p == p + (q - 1) * p && p * (r + t) == p * r + p * t
  {
  }

  // ----- the period -----------------------------------------------------------------------

  /** Every positive number is a power of two times an odd number. */
  lemma {:induction false} OddPart(n: nat) returns (k: nat, q: nat)
    requires n > 0
    ensures n == q * Pow2(k) && q % 2 == 1
  {
    if n % 2 == 1 {
      k, q := 0, n;
    } else {
      var k', q' := OddPart(n / 2);
      k, q := k' + 1, q';
      assert q * Pow2(k) == 2 * (q * Pow2(k'));
    }
  }

  lemma {:induction false} Pow2Split(k: nat, n: nat)
    requires k < n
    ensures Pow2(n) == Pow2(k) * (2 * Pow2(n - k - 1))
  {
    if k > 0 {
      Pow2Split(k - 1, n - 1);
      DoubledProduct(Pow2(k - 1), 2 * Pow2(n - k - 1));
    }
  }

  lemma {:induction false} Pow2Monotone(k: nat, n: nat)
    requires k <= n
    ensures Pow2(k) <= Pow2(n)
  {
    if k < n { Pow2Monotone(k, n - 1); }
  }

  lemma Pow2Of32()
    ensures Pow2(32) == U32
  {
    assert Pow2(8) == 256;
    assert Pow2(16) == 65536 by { assert Pow2(12) == 4096; }
    assert Pow2(24) == 0x100_0000 by { assert Pow2(20) == 0x10_0000; }
    assert Pow2(28) == 0x1000_0000;
  }

  /** Moving by 2^k times an odd number, with k below 32, changes the value mod 2^32. */
  lemma OddMoves(k: nat, x: int, s: int)
    requires k < 32 && s % 2 == 1
    ensures (x + Pow2(k) * s) % U32 != x % U32
  {
    var p, w := Pow2(k), Pow2(32 - k - 1);
    Pow2Of32();
    Pow2Split(k, 32);
    var m := p * s;
    if (x + m) % U32 == x % U32 {
      var d := SameRemainder(x, m);
      Regroup(p, w, d);
      CancelFactor(p, s, 2 * (w * d));
    }
  }

  lemma SameRemainder(x: int, m: int) returns (d: int)
    requires (x + m) % U32 == x % U32
    ensures m == U32 * d
  {
    d := (x + m) / U32 - x / U32;
  }

  lemma Regroup(p: int, w: int, d: int)
    ensures p * (2 * w) * d == p * (2 * (w * d))
  {
  }

  lemma CancelFactor(p: int, a: int, b: int)
    requires p > 0 && p * a == p * b
    ensures a == b
  {
    assert p * (a - b) == 0;
  }

  lemma SmallPower(n: nat, k: nat, q: nat)
    requires 0 < n < Pow2(32) && n == q * Pow2(k)
    ensures k < 32
  {
    if k >= 32 {
      Pow2Monotone(32, k);
      assert q >= 1;
      ProductAtLeast(q, Pow2(k));
    }
  }

  lemma ProductAtLeast(q: nat, p: nat)
    requires q >= 1
    ensures q * p >= p
  {
  }

  /** Fewer than 2^32 steps never lead back to where they started. */
  lemma NoReturn(n: nat, x: int)
    requires 0 < n < U32
    ensures Iter(n, x) % U32 != x % U32
  {
    var k, q := OddPart(n);
    Pow2Of32();
    SmallPower(n, k, q);
    var s := Jumps(k, q, x);
    OddMoves(k, x, s);
  }

  /** From any seed, the first 2^32 ids are pairwise different. */
  lemma FullPeriod(seed: u32, i: nat, j: nat)
    requires 1 <= i < j <= U32
    ensures Draw(seed, i) != Draw(seed, j)
  {
    DrawIsIter(seed, i);
    DrawIsIter(seed, j);
    IterAdd(j - i, i, seed);
    NoReturn(j - i, Iter(i, seed));
  }
}
