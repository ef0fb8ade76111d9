/** Bytes, addresses, error values and the fixed-width integer encodings that
    every wire format of the stack shares. */
module Basics {

  datatype Option<+T> = None | Some(value: T)

  /** The error values of the protocol stack that the model produces. */
  datatype Error =
    | Truncated | BadVersion | BadType | BadField | BadTtl | Duplicate | AuthFailed | Replay
    | NoSession | HandshakeState | TooLarge | NoRoute | Full | Expired

  datatype Result<+T> = Ok(value: T) | Err(error: Error)

  type byte = x: nat | x < 256

  const U16: nat := 0x1_0000
  const U32: nat := 0x1_0000_0000
  const U64: nat := 0x1_0000_0000_0000_0000

  type u16 = x: nat | x < U16
  type u32 = x: nat | x < U32

  /** A 64-bit open address.  Comparing the eight bytes in order is comparing the
      big-endian numbers, so an address is that number. */
  type Address = x: nat | x < U64

  const BROADCAST: Address := U64 - 1
  const NULL: Address := 0

  function Min(a: int, b: int): int { if a <= b then a else b }
  function Max(a: int, b: int): int { if a >= b then a else b }

  /** `a.saturating_sub(b)` */
  function SatSub(a: nat, b: nat): nat { if a >= b then a - b else 0 }

  /** `a.saturating_add(b)` on a type whose greatest value is `max`. */
  function SatAdd(a: nat, b: nat, max: nat): nat { if a + b <= max then a + b else max }

  function Pow256(n: nat): (r: nat)
    ensures r >= 1
  {
    if n == 0 then 1 else 256 * Pow256(n - 1)
  }

  /** The `n` low bytes of `v`, most significant first. */
  function Be(v: nat, n: nat): (s: seq<byte>)
    ensures |s| == n
  {
    if n == 0 then [] else Be(v / 256, n - 1) + [v % 256]
  }

  function FromBe(s: seq<byte>): nat {
    if s == [] then 0 else FromBe(s[..|s| - 1]) * 256 + s[|s| - 1]
  }

  /** The `n` low bytes of `v`, least significant first. */
  function Le(v: nat, n: nat): (s: seq<byte>)
    ensures |s| == n
  {
    if n == 0 then [] else [v % 256] + Le(v / 256, n - 1)
  }

  function FromLe(s: seq<byte>): nat {
    if s == [] then 0 else s[0] + 256 * FromLe(s[1..])
  }

  lemma {:induction false} BeRoundTrip(v: nat, n: nat)
    requires v < Pow256(n)
    ensures FromBe(Be(v, n)) == v
  {
    if n > 0 {
      BeRoundTrip(v / 256, n - 1);
      assert Be(v, n)[..n - 1] == Be(v / 256, n - 1);
    }
  }

  lemma {:induction false} FromBeRoundTrip(s: seq<byte>)
    ensures FromBe(s) < Pow256(|s|) && Be(FromBe(s), |s|) == s
  {
    if s != [] {
      FromBeRoundTrip(s[..|s| - 1]);
      assert s == s[..|s| - 1] + [s[|s| - 1]];
    }
  }

  lemma {:induction false} LeRoundTrip(v: nat, n: nat)
    requires v < Pow256(n)
    ensures FromLe(Le(v, n)) == v
  {
    if n > 0 {
      LeRoundTrip(v / 256, n - 1);
      assert Le(v, n)[1..] == Le(v / 256, n - 1);
    }
  }

  lemma {:induction false} FromLeBound(s: seq<byte>)
    ensures FromLe(s) < Pow256(|s|)
  {
    if s != [] { FromLeBound(s[1..]); }
  }

  lemma Pow256Values()
    ensures Pow256(1) == 256 && Pow256(2) == U16 && Pow256(3) == 0x100_0000
    ensures Pow256(4) == U32 && Pow256(8) == U64
  {
    assert Pow256(3) == 256 * Pow256(2);
    assert Pow256(5) == 256 * Pow256(4);
    assert Pow256(6) == 256 * Pow256(5);
    assert Pow256(7) == 256 * Pow256(6);
  }

  lemma BeInjective(a: nat, b: nat, n: nat)
    requires a < Pow256(n) && b < Pow256(n) && Be(a, n) == Be(b, n)
    ensures a == b
  {
    BeRoundTrip(a, n);
    BeRoundTrip(b, n);
  }

  // ----- products and quotients -------------------------------------------------------------

  lemma MulMonotone(x: int, y: int, k: int)
    requires x <= y && k >= 0
    ensures x * k <= y * k
  {
  }

  lemma MulCancel(x: int, y: int, k: int)
    requires x * k < y * k && k >= 0
    ensures x < y
  {
    if x >= y { MulMonotone(y, x, k); }
  }

  lemma RemainderUnique(x: nat, m: nat, q: nat, r: nat)
    requires r < m && x == m * q + r
    ensures x % m == r && x / m == q
  {
    var d := x / m - q;
    assert m * d == r - x % m;
    assert m * d < m && m * d + m > 0;
    assert d == 0;
  }
}
