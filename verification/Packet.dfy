/** The on-air packet format: a 31 byte big-endian header, the payload, and an
    optional 4 byte network tag. */
module Packet {
  import opened Basics
  import opened Bits

  const PROTOCOL_VERSION := 1
  const MAX_FRAME := 255
  const MAX_TTL := 255
  const NET_TAG_LEN := 4
  const HEADER_LEN := 31
  const FRAG_HEADER_LEN := 4
  const NEXT_HOP_ANY: u16 := 0xFFFF

  // Header flag bits.
  const ACK_REQUEST: byte := 1
  const FRAGMENTED: byte := 2
  const ENCRYPTED: byte := 4
  const LEAF_SOURCE: byte := 32
  const NET_AUTH: byte := 128

  datatype PacketType =
    | Beacon | Data | Ack | RouteRequest | RouteReply | RouteError | Store | Fetch | Handshake | Control

  function TypeCode(t: PacketType): (c: byte)
    ensures c < 10
  {
    match t
    case Beacon => 0 case Data => 1 case Ack => 2 case RouteRequest => 3 case RouteReply => 4
    case RouteError => 5 case Store => 6 case Fetch => 7 case Handshake => 8 case Control => 9
  }

  /** The packet type in the low nibble of the first header byte. */
  function TypeOf(v: byte): (t: Option<PacketType>)
    ensures forall p :: t == Some(p) <==> TypeCode(p) == v % 16
  {
    match v % 16
    case 0 => Some(Beacon) case 1 => Some(Data) case 2 => Some(Ack) case 3 => Some(RouteRequest) case 4 => Some(RouteReply)
    case 5 => Some(RouteError) case 6 => Some(Store) case 7 => Some(Fetch) case 8 => Some(Handshake) case 9 => Some(Control)
    case _ => None
  }

  /** Low 16 bits of an address, the next hop hint. */
  function Short(a: Address): u16 { a % U16 }

  datatype Header = Header(
    ptype: PacketType, flags: byte, ttl: byte, hops: byte, src: Address, dst: Address,
    packetId: u32, sequence: u16, nextHop: u16, relay: u16)
  {
    predicate Has(flag: byte) { And(flags, flag) != 0 }

    function Set(flag: byte, on: bool): Header {
      OrBound(flags, flag, 8);
      AndBound(flags, 255 - flag, 8);
      this.(flags := if on then Or(flags, flag) else And(flags, 255 - flag))
    }

    function Key(): PacketKey { PacketKey(src, packetId) }

    /** The serialised header; `plen` is the payload length byte. */
    function Bytes(plen: byte): (s: seq<byte>)
      ensures |s| == HEADER_LEN
    {
      [PROTOCOL_VERSION * 16 + TypeCode(ptype), flags, ttl, hops]
      + Be(src, 8) + Be(dst, 8) + Be(packetId, 4) + Be(sequence, 2) + Be(nextHop, 2) + Be(relay, 2) + [plen]
    }

    /** The bytes bound by the AEAD and by the network tag: the per-hop fields zeroed. */
    function Aad(plen: byte): seq<byte> {
      this.(ttl := 0, hops := 0, nextHop := 0, relay := 0).Bytes(plen)
    }
  }

  datatype PacketKey = PacketKey(src: Address, id: u32)

  /** A new header as `Header::new` makes it. */
  function NewHeader(ptype: PacketType, src: Address, dst: Address, id: u32, sequence: u16, ttl: byte): Header {
    Header(ptype, 0, ttl, 0, src, dst, id, sequence, NEXT_HOP_ANY, Short(src))
  }

  datatype FragHeader = FragHeader(fragId: u16, index: byte, total: byte) {
    function Bytes(): (s: seq<byte>)
      ensures |s| == FRAG_HEADER_LEN
    {
      Be(fragId, 2) + [index, total]
    }
  }

  function ParseFrag(b: seq<byte>): Result<FragHeader> {
    if |b| < FRAG_HEADER_LEN then Err(Truncated)
    else
      PairBound(b[0], b[1]);
      var h := FragHeader(FromBe([b[0], b[1]]), b[2], b[3]);
      if h.total == 0 || h.index >= h.total then Err(BadField) else Ok(h)
  }

  /** A 4 byte truncated HMAC. */
  type Tag = t: seq<byte> | |t| == NET_TAG_LEN witness [0, 0, 0, 0]

  /** The shared network key: some keyed function of the authenticated bytes. */
  datatype NetworkKey = NetworkKey(hmac: seq<byte> -> Tag) {
    function TagOf(aad: seq<byte>, payload: seq<byte>): Tag { hmac(aad + payload) }
  }

  datatype Packet = Packet(header: Header, payload: seq<byte>)

  function MaxPayload(netAuth: bool): nat {
    MAX_FRAME - HEADER_LEN - if netAuth then NET_TAG_LEN else 0
  }

  function Encode(p: Packet, key: Option<NetworkKey>): Result<seq<byte>> {
    var netAuth := p.header.Has(NET_AUTH);
    if netAuth && key.None? then Err(BadField)
    else if |p.payload| > MaxPayload(netAuth) then Err(TooLarge)
    else Ok(p.header.Bytes(|p.payload|) + p.payload
            + if netAuth then key.value.TagOf(p.header.Aad(|p.payload|), p.payload) else [])
  }

  function ParseHeader(b: seq<byte>, maxTtl: byte): (r: Result<(Header, byte)>)
    ensures r.Ok? ==> |b| >= HEADER_LEN
  {
    if |b| < HEADER_LEN then Err(Truncated)
    else if b[0] / 16 != PROTOCOL_VERSION then Err(BadVersion)
    else
      match TypeOf(b[0])
      case None => Err(BadType)
      case Some(ptype) =>
        var ttl, hops := b[2], b[3];
        if ttl == 0 || ttl > maxTtl then Err(BadTtl)
        else if hops + ttl > MAX_TTL then Err(BadTtl)
        else
          SliceBounds(b);
          var src: Address, dst: Address := FromBe(b[4..12]), FromBe(b[12..20]);
          if src == NULL || src == BROADCAST || dst == NULL then Err(BadField)
          else
            Ok((Header(ptype, b[1], ttl, hops, src, dst, FromBe(b[20..24]), FromBe(b[24..26]), FromBe(b[26..28]), FromBe(b[28..30])), b[30]))
  }

  function Decode(frame: seq<byte>, key: Option<NetworkKey>, maxTtl: byte): Result<Packet> {
    if |frame| > MAX_FRAME then Err(TooLarge)
    else
      match ParseHeader(frame, maxTtl)
      case Err(e) => Err(e)
      case Ok((header, plen)) =>
        var netAuth := header.Has(NET_AUTH);
        if |frame| != HEADER_LEN + plen + (if netAuth then NET_TAG_LEN else 0) then Err(Truncated)
        else
          var payload := frame[HEADER_LEN..HEADER_LEN + plen];
          if key.Some? && !netAuth then Err(AuthFailed)
          else if key.Some? && key.value.TagOf(header.Aad(plen), payload) != frame[HEADER_LEN + plen..] then Err(AuthFailed)
          else if header.Has(FRAGMENTED) && ParseFrag(payload).Err? then Err(ParseFrag(payload).error)
          else if header.ptype.Beacon? && header.dst != BROADCAST then Err(BadField)
          else Ok(Packet(header, payload))
  }

  lemma PairBound(x: byte, y: byte)
    ensures FromBe([x, y]) < U16
  {
    Pow256Values();
    FromBeRoundTrip([x, y]);
  }

  lemma SliceBounds(b: seq<byte>)
    requires |b| >= HEADER_LEN
    ensures FromBe(b[4..12]) < U64 && FromBe(b[12..20]) < U64 && FromBe(b[20..24]) < U32
    ensures FromBe(b[24..26]) < U16 && FromBe(b[26..28]) < U16 && FromBe(b[28..30]) < U16
  {
    Pow256Values();
    FromBeRoundTrip(b[4..12]);
    FromBeRoundTrip(b[12..20]);
    FromBeRoundTrip(b[20..24]);
    FromBeRoundTrip(b[24..26]);
    FromBeRoundTrip(b[26..28]);
    FromBeRoundTrip(b[28..30]);
  }

  // ----- header round trips -----------------------------------------------------------

  lemma HeaderSlices(h: Header, plen: byte, rest: seq<byte>)
    ensures
      var b := h.Bytes(plen) + rest;
      && b[0] == PROTOCOL_VERSION * 16 + TypeCode(h.ptype) && b[1] == h.flags && b[2] == h.ttl && b[3] == h.hops
      && b[4..12] == Be(h.src, 8) && b[12..20] == Be(h.dst, 8) && b[20..24] == Be(h.packetId, 4)
      && b[24..26] == Be(h.sequence, 2) && b[26..28] == Be(h.nextHop, 2) && b[28..30] == Be(h.relay, 2)
      && b[30] == plen
  {
  }

  lemma FieldRoundTrips(h: Header)
    ensures FromBe(Be(h.src, 8)) == h.src && FromBe(Be(h.dst, 8)) == h.dst && FromBe(Be(h.packetId, 4)) == h.packetId
    ensures FromBe(Be(h.sequence, 2)) == h.sequence && FromBe(Be(h.nextHop, 2)) == h.nextHop && FromBe(Be(h.relay, 2)) == h.relay
  {
    Pow256Values();
    BeRoundTrip(h.src, 8);
    BeRoundTrip(h.dst, 8);
    BeRoundTrip(h.packetId, 4);
    BeRoundTrip(h.sequence, 2);
    BeRoundTrip(h.nextHop, 2);
    BeRoundTrip(h.relay, 2);
  }

  /** The header checks a receiver with hop limit `maxTtl` makes. */
  predicate HeaderOk(h: Header, maxTtl: byte) {
    && 0 < h.ttl <= maxTtl && h.hops + h.ttl <= MAX_TTL
    && h.src != NULL && h.src != BROADCAST && h.dst != NULL
  }

  /** Parsing a written header gives it back exactly when the receiver's checks hold. */
  lemma HeaderRoundTrip(h: Header, plen: byte, rest: seq<byte>, maxTtl: byte)
    ensures ParseHeader(h.Bytes(plen) + rest, maxTtl) == Ok((h, plen)) <==> HeaderOk(h, maxTtl)
    ensures ParseHeader(h.Bytes(plen) + rest, maxTtl).Ok? <==> HeaderOk(h, maxTtl)
  {
    HeaderSlices(h, plen, rest);
    FieldRoundTrips(h);
  }

  /** Writing a parsed header gives its bytes back. */
  lemma ParsedHeaderBytes(b: seq<byte>, maxTtl: byte)
    requires ParseHeader(b, maxTtl).Ok?
    ensures var (h, plen) := ParseHeader(b, maxTtl).value; h.Bytes(plen) == b[..HEADER_LEN] && HeaderOk(h, maxTtl)
  {
    var (h, plen) := ParseHeader(b, maxTtl).value;
    FromBeRoundTrip(b[4..12]);
    FromBeRoundTrip(b[12..20]);
    FromBeRoundTrip(b[20..24]);
    FromBeRoundTrip(b[24..26]);
    FromBeRoundTrip(b[26..28]);
    FromBeRoundTrip(b[28..30]);
    assert b[..HEADER_LEN] == [b[0], b[1], b[2], b[3]] + b[4..12] + b[12..20] + b[20..24] + b[24..26] + b[26..28] + b[28..30] + [b[30]];
  }

  /** Two headers are bound by the same bytes exactly when they differ only in the
      fields a relay rewrites. */
  lemma AadBinds(h: Header, h': Header, plen: byte, plen': byte)
    ensures h.Aad(plen) == h'.Aad(plen') <==>
              plen == plen' && h' == h.(ttl := h'.ttl, hops := h'.hops, nextHop := h'.nextHop, relay := h'.relay)
  {
    if h.Aad(plen) == h'.Aad(plen') {
      var g, g' := h.(ttl := 0, hops := 0, nextHop := 0, relay := 0), h'.(ttl := 0, hops := 0, nextHop := 0, relay := 0);
      HeaderSlices(g, plen, []);
      HeaderSlices(g', plen', []);
      FieldRoundTrips(g);
      FieldRoundTrips(g');
      assert g.Bytes(plen) + [] == g.Bytes(plen);
      assert g'.Bytes(plen') + [] == g'.Bytes(plen');
      TypeCodeInjective(h.ptype, h'.ptype);
    }
  }

  lemma TypeCodeInjective(t: PacketType, t': PacketType)
    ensures TypeCode(t) == TypeCode(t') <==> t == t'
  {
  }

  // ----- frames --------------------------------------------------------------------------

  /** What a receiver with the same key and hop limit `maxTtl` accepts. */
  predicate Acceptable(p: Packet, key: Option<NetworkKey>, maxTtl: byte) {
    && HeaderOk(p.header, maxTtl)
    && (p.header.Has(NET_AUTH) <==> key.Some?)
    && |p.payload| <= MaxPayload(key.Some?)
    && (p.header.Has(FRAGMENTED) ==> ParseFrag(p.payload).Ok?)
    && (p.header.ptype.Beacon? ==> p.header.dst == BROADCAST)
  }

  /** An encoded packet decodes to itself exactly when the receiver's checks hold. */
  lemma FrameRoundTrip(p: Packet, key: Option<NetworkKey>, maxTtl: byte)
    requires Encode(p, key).Ok?
    ensures Decode(Encode(p, key).value, key, maxTtl) == Ok(p) <==> Acceptable(p, key, maxTtl)
  {
    var netAuth := p.header.Has(NET_AUTH);
    var plen: byte := |p.payload|;
    var tag: seq<byte> := if netAuth then key.value.TagOf(p.header.Aad(plen), p.payload) else [];
    var frame := Encode(p, key).value;
    HeaderRoundTrip(p.header, plen, p.payload + tag, maxTtl);
    assert frame == p.header.Bytes(plen) + (p.payload + tag);
    assert frame[HEADER_LEN..HEADER_LEN + plen] == p.payload;
    assert frame[HEADER_LEN + plen..] == tag;
  }

  lemma AcceptableEncodes(p: Packet, key: Option<NetworkKey>, maxTtl: byte)
    requires Acceptable(p, key, maxTtl)
    ensures Encode(p, key).Ok?
  {
  }

  /** A frame accepted with a key, or untagged without one, re-encodes to the same
      bytes. */
  lemma DecodedReencodes(frame: seq<byte>, key: Option<NetworkKey>, maxTtl: byte)
    requires Decode(frame, key, maxTtl).Ok?
    ensures
      var p := Decode(frame, key, maxTtl).value;
      && (key.Some? || !p.header.Has(NET_AUTH) ==> Encode(p, key) == Ok(frame) && Acceptable(p, key, maxTtl))
      && (key.None? && p.header.Has(NET_AUTH) ==> Encode(p, key) == Err(BadField))
  {
    var p := Decode(frame, key, maxTtl).value;
    ParsedHeaderBytes(frame, maxTtl);
    var plen := |p.payload|;
    assert frame == frame[..HEADER_LEN] + frame[HEADER_LEN..HEADER_LEN + plen] + frame[HEADER_LEN + plen..];
  }

  /** A fragment header written in front of a chunk parses back exactly when it names
      one of its own fragments. */
  lemma FragRoundTrip(h: FragHeader, chunk: seq<byte>)
    ensures ParseFrag(h.Bytes() + chunk) == if h.index < h.total then Ok(h) else Err(BadField)
  {
    Pow256Values();
    BeRoundTrip(h.fragId, 2);
    var b := h.Bytes() + chunk;
    assert [b[0], b[1]] == Be(h.fragId, 2);
  }

  // ----- buffers ---------------------------------------------------------------------------

  /** Copy `s` into the buffer at offset `at`. */
  method CopyInto(out: array<byte>, at: nat, s: seq<byte>)
    requires at + |s| <= out.Length
    modifies out
    ensures out[..at + |s|] == old(out[..at]) + s && out[at + |s|..] == old(out[at + |s|..])
  {
    var i := 0;
    while i < |s|
      invariant 0 <= i <= |s|
      invariant out[..at + i] == old(out[..at]) + s[..i] && out[at + i..] == old(out[at + i..])
    {
      assert out[at + i..][1..] == out[at + i + 1..];
      out[at + i] := s[i];
      assert out[..at + i + 1] == out[..at + i] + [s[i]];
      i := i + 1;
    }
    assert s[..|s|] == s;
  }

  /** Serialise the header into a 31 byte buffer, whatever it held before. */
  method WriteHeader(h: Header, out: array<byte>, plen: byte)
    requires out.Length == HEADER_LEN
    modifies out
    ensures out[..] == h.Bytes(plen)
  {
    CopyInto(out, 0, [PROTOCOL_VERSION * 16 + TypeCode(h.ptype), h.flags, h.ttl, h.hops]);
    assert out[..4] == [PROTOCOL_VERSION * 16 + TypeCode(h.ptype), h.flags, h.ttl, h.hops];
    CopyInto(out, 4, Be(h.src, 8));
    CopyInto(out, 12, Be(h.dst, 8));
    CopyInto(out, 20, Be(h.packetId, 4));
    CopyInto(out, 24, Be(h.sequence, 2));
    CopyInto(out, 26, Be(h.nextHop, 2));
    CopyInto(out, 28, Be(h.relay, 2));
    CopyInto(out, 30, [plen]);
    assert out[..] == out[..31];
  }

  lemma {:induction false} XorZero(x: nat, y: nat)
    ensures Xor(x, y) == 0 <==> x == y
    decreases x + y
  {
    if x != 0 && y != 0 { XorZero(x / 2, y / 2); }
  }

  lemma {:induction false} OrZero(x: nat, y: nat)
    ensures Or(x, y) == 0 <==> x == 0 && y == 0
    decreases x + y
  {
    if x != 0 && y != 0 { OrZero(x / 2, y / 2); }
  }

  /** Constant-time comparison of two tags: no early exit on the first difference. */
  method CtEq(a: seq<byte>, b: seq<byte>) returns (equal: bool)
    ensures equal <==> a == b
  {
    if |a| != |b| { return false; }
    var d: nat := 0;
    var i := 0;
    while i < |a|
      invariant 0 <= i <= |a|
      invariant d == 0 <==> a[..i] == b[..i]
    {
      XorZero(a[i], b[i]);
      OrZero(d, Xor(a[i], b[i]));
      assert a[..i + 1] == a[..i] + [a[i]] && b[..i + 1] == b[..i] + [b[i]];
      d := Or(d, Xor(a[i], b[i]));
      i := i + 1;
    }
    assert a[..|a|] == a && b[..|b|] == b;
    return d == 0;
  }
}
