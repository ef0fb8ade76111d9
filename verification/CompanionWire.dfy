/** The companion protocol's primitive encodings: little-endian integers, length-prefixed
    strings and blobs, node identities; and the reader for each. */
module CompanionWire {
  import opened Basics

  type i8 = x: int | -128 <= x < 128
  type i16 = x: int | -0x8000 <= x < 0x8000
  type i32 = x: int | -0x8000_0000 <= x < 0x8000_0000

  datatype DecodeError = Truncated | BadUtf8 | BadValue | UnknownType(code: byte)

  /** A value read from the front of the input, and what is left; or the error. */
  datatype Parsed<+T> = Good(value: T, rest: seq<byte>) | Bad(error: DecodeError) {
    predicate IsFailure() { Bad? }

    function PropagateFailure<U>(): Parsed<U>
      requires Bad?
    {
      Bad(error)
    }

    function Extract(): (T, seq<byte>)
      requires Good?
    {
      (value, rest)
    }
  }

  // ----- text -----------------------------------------------------------------------------------

  predicate Continuation(b: byte) { 0x80 <= b < 0xC0 }

  /** The length of the well-formed character at the front, 0 if there is none. */
  function CharLen(s: seq<byte>): (n: nat)
    ensures n <= |s| && n <= 4
    ensures forall i :: 1 <= i < n ==> Continuation(s[i])
    ensures n > 0 ==> !Continuation(s[0])
  {
    if s == [] then 0
    else if s[0] < 0x80 then 1
    else if 0xC2 <= s[0] <= 0xDF then
      if |s| >= 2 && Continuation(s[1]) then 2 else 0
    else if 0xE0 <= s[0] <= 0xEF then
      if |s| >= 3 && Continuation(s[1]) && Continuation(s[2])
         && (s[0] == 0xE0 ==> s[1] >= 0xA0) && (s[0] == 0xED ==> s[1] <= 0x9F) then 3 else 0
    else if 0xF0 <= s[0] <= 0xF4 then
      if |s| >= 4 && Continuation(s[1]) && Continuation(s[2]) && Continuation(s[3])
         && (s[0] == 0xF0 ==> s[1] >= 0x90) && (s[0] == 0xF4 ==> s[1] <= 0x8F) then 4 else 0
    else 0
  }

  /** Well-formed UTF-8. */
  predicate Utf8(s: seq<byte>)
    decreases |s|
  {
    s == [] || (CharLen(s) > 0 && Utf8(s[CharLen(s)..]))
  }

  type Text = s: seq<byte> | Utf8(s) witness []

  predicate Boundary(s: seq<byte>, n: nat)
    requires n <= |s|
  {
    n == 0 || n == |s| || !Continuation(s[n])
  }

  /** The nearest character boundary at or before `n`. */
  function CutFrom(s: seq<byte>, n: nat): (c: nat)
    requires n <= |s|
    ensures c <= n && Boundary(s, c)
    ensures forall i :: c < i <= n ==> !Boundary(s, i)
  {
    if n > 0 && !Boundary(s, n) then CutFrom(s, n - 1) else n
  }

  /** How much of a string is sent: whole characters, at most 255 bytes. */
  function Cut(s: seq<byte>): nat { CutFrom(s, Min(|s|, 255)) }

  /** A character read with something behind it is read without it too. */
  lemma CharLenPrefix(s: seq<byte>, n: nat)
    requires CharLen(s) <= n <= |s| && CharLen(s) > 0
    ensures CharLen(s[..n]) == CharLen(s)
  {
  }

  /** What is before a character boundary is text on its own. */
  lemma {:induction false} PrefixIsText(s: seq<byte>, n: nat)
    requires Utf8(s) && n <= |s| && Boundary(s, n)
    ensures Utf8(s[..n])
    decreases |s|
  {
    if n > 0 {
      var k := CharLen(s);
      assert n >= k;
      CharLenPrefix(s, n);
      PrefixIsText(s[k..], n - k);
      assert s[..n][k..] == s[k..][..n - k];
    }
  }

  /** Cutting loses nothing from a string that fits, and at most three bytes below 255
      otherwise. */
  lemma CutKeeps(s: Text)
    ensures Utf8(s[..Cut(s)])
    ensures |s| <= 255 ==> s[..Cut(s)] == s
    ensures |s| > 255 ==> 252 <= Cut(s) <= 255
  {
    PrefixIsText(s, Cut(s));
    if |s| > 255 { BoundaryNear(s, 255); }
  }

  lemma {:induction false} BoundaryNear(s: seq<byte>, n: nat)
    requires Utf8(s) && n < |s|
    ensures exists i: nat :: n - 3 <= i <= n && Boundary(s, i)
    decreases |s|
  {
    var k := CharLen(s);
    if n < k {
      assert Boundary(s, 0);
    } else {
      BoundaryNear(s[k..], n - k);
      var i: nat :| n - k - 3 <= i <= n - k && Boundary(s[k..], i);
      if i == 0 { assert !Continuation(s[k..][0]); }
      assert Boundary(s, k + i);
    }
  }

  // ----- writers --------------------------------------------------------------------------------

  // Each writes a value in front of what follows it, `k`.

  function PutU8(v: byte, k: seq<byte>): seq<byte> { [v] + k }
  function PutI8(v: i8, k: seq<byte>): seq<byte> { [v % 256] + k }
  function PutU16(v: u16, k: seq<byte>): seq<byte> { Le(v, 2) + k }
  function PutI16(v: i16, k: seq<byte>): seq<byte> { Le(v % 0x1_0000, 2) + k }
  function PutU32(v: u32, k: seq<byte>): seq<byte> { Le(v, 4) + k }
  function PutI32(v: i32, k: seq<byte>): seq<byte> { Le(v % 0x1_0000_0000, 4) + k }

  function PutBytes(b: seq<byte>, k: seq<byte>): seq<byte> {
    var n: byte := Min(|b|, 255);
    [n] + (b[..n] + k)
  }

  function PutBlob(b: seq<byte>, k: seq<byte>): seq<byte> {
    var n: u16 := Min(|b|, 65535);
    PutU16(n, b[..n] + k)
  }

  function PutStr(s: Text, k: seq<byte>): seq<byte> { PutBytes(s[..Cut(s)], k) }

  // ----- readers --------------------------------------------------------------------------------

  function Take(b: seq<byte>, n: nat): Parsed<seq<byte>> {
    if |b| < n then Bad(DecodeError.Truncated) else Good(b[..n], b[n..])
  }

  function GetU8(b: seq<byte>): Parsed<byte> {
    if b == [] then Bad(DecodeError.Truncated) else Good(b[0], b[1..])
  }

  /** Read a two's complement value of the given modulus. */
  function Signed(v: nat, modulus: nat): int {
    if v < modulus / 2 then v else v - modulus
  }

  function GetI8(b: seq<byte>): Parsed<i8> {
    var v :- GetU8(b);
    Good(Signed(v.0, 256), v.1)
  }

  function GetU16(b: seq<byte>): Parsed<u16> {
    var v :- Take(b, 2);
    Bounds(v.0);
    Good(FromLe(v.0), v.1)
  }

  function GetI16(b: seq<byte>): Parsed<i16> {
    var v :- GetU16(b);
    Good(Signed(v.0, 0x1_0000), v.1)
  }

  function GetU32(b: seq<byte>): Parsed<u32> {
    var v :- Take(b, 4);
    Bounds(v.0);
    Good(FromLe(v.0), v.1)
  }

  function GetI32(b: seq<byte>): Parsed<i32> {
    var v :- GetU32(b);
    Good(Signed(v.0, 0x1_0000_0000), v.1)
  }

  /** An optional trailing integer: 0 and no progress when it is missing. */
  function GetI32OrZero(b: seq<byte>): (i32, seq<byte>) {
    match GetI32(b) case Good(v, rest) => (v, rest) case Bad(_) => (0, b)
  }

  function GetBytes(b: seq<byte>): Parsed<seq<byte>> {
    var n :- GetU8(b);
    Take(n.1, n.0)
  }

  function GetStr(b: seq<byte>): Parsed<Text> {
    var s :- GetBytes(b);
    if Utf8(s.0) then Good(s.0, s.1) else Bad(BadUtf8)
  }

  /** An optional trailing string. */
  function GetStrOrEmpty(b: seq<byte>): (Text, seq<byte>) {
    match GetStr(b) case Good(s, rest) => (s, rest) case Bad(_) => ([], b)
  }

  function GetBlob(b: seq<byte>): Parsed<seq<byte>> {
    var n :- GetU16(b);
    Take(n.1, n.0)
  }

  lemma Bounds(s: seq<byte>)
    ensures |s| == 2 ==> FromLe(s) < U16
    ensures |s| == 4 ==> FromLe(s) < U32
  {
    Pow256Values();
    FromLeBound(s);
  }

  // ----- round trips ------------------------------------------------------------------------------

  lemma TakeBack(a: seq<byte>, k: seq<byte>)
    ensures Take(a + k, |a|) == Good(a, k)
  {
  }

  lemma ByteBack(v: byte, k: seq<byte>)
    ensures GetU8(PutU8(v, k)) == Good(v, k)
  {
  }

  lemma I8Back(v: i8, k: seq<byte>)
    ensures GetI8(PutI8(v, k)) == Good(v, k)
  {
  }

  lemma U16Back(v: u16, k: seq<byte>)
    ensures GetU16(PutU16(v, k)) == Good(v, k)
  {
    TakeBack(Le(v, 2), k);
    Pow256Values();
    LeRoundTrip(v, 2);
  }

  lemma U32Back(v: u32, k: seq<byte>)
    ensures GetU32(PutU32(v, k)) == Good(v, k)
  {
    TakeBack(Le(v, 4), k);
    Pow256Values();
    LeRoundTrip(v, 4);
  }

  lemma I16Back(v: i16, k: seq<byte>)
    ensures GetI16(PutI16(v, k)) == Good(v, k)
  {
    U16Back(v % 0x1_0000, k);
  }

  lemma I32Back(v: i32, k: seq<byte>)
    ensures GetI32(PutI32(v, k)) == Good(v, k)
  {
    U32Back(v % 0x1_0000_0000, k);
  }

  /** A byte string comes back cut to 255 bytes. */
  lemma BytesBack(b: seq<byte>, k: seq<byte>)
    ensures GetBytes(PutBytes(b, k)) == Good(b[..Min(|b|, 255)], k)
  {
    TakeBack(b[..Min(|b|, 255)], k);
  }

  lemma BlobBack(b: seq<byte>, k: seq<byte>)
    ensures GetBlob(PutBlob(b, k)) == Good(b[..Min(|b|, 65535)], k)
  {
    var n: u16 := Min(|b|, 65535);
    U16Back(n, b[..n] + k);
    TakeBack(b[..n], k);
  }

  /** A string comes back as its whole characters within 255 bytes. */
  lemma StrBack(s: Text, k: seq<byte>)
    ensures GetStr(PutStr(s, k)) == Good(s[..Cut(s)], k)
  {
    CutKeeps(s);
    var t := s[..Cut(s)];
    BytesBack(t, k);
    assert t[..Min(|t|, 255)] == t;
  }

  // ----- node identities --------------------------------------------------------------------------

  datatype Proto = MeshStar | Meshtastic | MeshCore | Unknown

  function ProtoCode(p: Proto): byte { match p case MeshStar => 0 case Meshtastic => 1 case MeshCore => 2 case Unknown => 255 }

  function ProtoOf(v: byte): Proto { if v == 0 then MeshStar else if v == 1 then Meshtastic else if v == 2 then MeshCore else Unknown }

  type Bytes8 = s: seq<byte> | |s| == 8 witness [0, 0, 0, 0, 0, 0, 0, 0]

  datatype NodeId = Star(address: Bytes8) | Tastic(number: u32) | Core(key: seq<byte>) | Broadcast(proto: Proto)

  function PutId(id: NodeId, k: seq<byte>): seq<byte> {
    match id
    case Star(a) => PutU8(ProtoCode(MeshStar), PutBytes(a, k))
    case Tastic(n) => PutU8(ProtoCode(Meshtastic), PutBytes(Le(n, 4), k))
    case Core(c) => PutU8(ProtoCode(MeshCore), PutBytes(c, k))
    case Broadcast(p) => PutU8(ProtoCode(p), PutBytes([], k))
  }

  function GetId(b: seq<byte>): Parsed<NodeId> {
    var code :- GetU8(b);
    var s :- GetBytes(code.1);
    var p := ProtoOf(code.0);
    if s.0 == [] then Good(Broadcast(p), s.1)
    else if p.MeshStar? && |s.0| == 8 then Good(Star(s.0), s.1)
    else if p.Meshtastic? && |s.0| == 4 then Bounds(s.0); Good(Tastic(FromLe(s.0)), s.1)
    else if p.MeshCore? && |s.0| <= 32 then Good(Core(s.0), s.1)
    else Bad(BadValue)
  }

  predicate IdOk(id: NodeId) { id.Core? ==> 1 <= |id.key| <= 32 }

  /** An identity comes back exactly when its key, if it has one, has 1 to 32 bytes. */
  lemma IdBack(id: NodeId, k: seq<byte>)
    ensures GetId(PutId(id, k)) == Good(id, k) <==> IdOk(id)
  {
    var b := match id case Star(a) => a case Tastic(n) => Le(n, 4) case Core(c) => c case Broadcast(_) => [];
    BytesBack(b, k);
    if id.Tastic? {
      Pow256Values();
      LeRoundTrip(id.number, 4);
    }
    if |b| <= 255 { assert b[..Min(|b|, 255)] == b; }
  }

  predicate Fits(s: Text) { |s| <= 255 }

  lemma IdFits(id: NodeId, k: seq<byte>)
    requires IdOk(id)
    ensures GetId(PutId(id, k)) == Good(id, k)
  {
    IdBack(id, k);
  }

  lemma StringFits(s: Text, k: seq<byte>)
    requires Fits(s)
    ensures GetStr(PutStr(s, k)) == Good(s, k)
  {
    StrBack(s, k);
    CutKeeps(s);
  }

  lemma BytesFit(b: seq<byte>, k: seq<byte>)
    ensures |b| <= 255 ==> GetBytes(PutBytes(b, k)) == Good(b, k)
    ensures |b| <= 65535 ==> GetBlob(PutBlob(b, k)) == Good(b, k)
  {
    BytesBack(b, k);
    BlobBack(b, k);
    assert b[..|b|] == b;
  }
}
