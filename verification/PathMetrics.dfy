/** Route requests and replies: their payload codecs and the path metrics that
    accumulate as they travel. */
module PathMetrics {
  import opened Basics
  import opened Bits
  import opened Packet
  import Forwarding

  const MAX_COST := 65535

  // Flag bits of the two messages.
  const RREQ_HANDSHAKE: byte := 4
  const RREP_HAS_KEY: byte := 2
  const RREP_HANDSHAKE: byte := 8

  datatype RouteRequest = RouteRequest(target: Address, cost: u16, flags: byte, handshake: seq<byte>)

  datatype RouteReply = RouteReply(
    target: Address, reqId: u32, hopsToTarget: byte, cost: u16, flags: byte,
    targetKey: Option<seq<byte>>, handshake: seq<byte>)

  /** `flags` with bit `flag` forced to `on`. */
  function WithFlag(flags: byte, flag: byte, on: bool): byte {
    AndBound(flags, 255 - flag, 8);
    OrBound(And(flags, 255 - flag), flag, 8);
    if on then Or(And(flags, 255 - flag), flag) else And(flags, 255 - flag)
  }

  function EncodeRequest(q: RouteRequest): seq<byte> {
    Be(q.target, 8) + Be(q.cost, 2) + [WithFlag(q.flags, RREQ_HANDSHAKE, q.handshake != [])] + q.handshake
  }

  function DecodeRequest(b: seq<byte>): Result<RouteRequest> {
    if |b| < 11 then Err(Truncated)
    else
      FieldBounds(b[..8], b[8..10]);
      var target: Address := FromBe(b[..8]);
      if target == NULL || target == BROADCAST then Err(BadField)
      else if And(b[10], RREQ_HANDSHAKE) != 0 then
        if |b| < 11 + 32 then Err(Truncated)
        else Ok(RouteRequest.RouteRequest(target, FromBe(b[8..10]), b[10], b[11..]))
      else if |b| != 11 then Err(BadField)
      else Ok(RouteRequest.RouteRequest(target, FromBe(b[8..10]), b[10], []))
  }

  function EncodeReply(r: RouteReply): seq<byte> {
    Be(r.target, 8) + Be(r.reqId, 4) + [r.hopsToTarget] + Be(r.cost, 2)
    + [WithFlag(WithFlag(r.flags, RREP_HAS_KEY, r.targetKey.Some?), RREP_HANDSHAKE, r.handshake != [])]
    + (if r.targetKey.Some? then r.targetKey.value else []) + r.handshake
  }

  function DecodeReply(b: seq<byte>): Result<RouteReply> {
    if |b| < 16 then Err(Truncated)
    else
      FieldBounds(b[..8], b[13..15]);
      IdBound(b[8..12]);
      var target: Address := FromBe(b[..8]);
      if target == NULL || target == BROADCAST then Err(BadField)
      else
        var flags := b[15];
        var hasKey := And(flags, RREP_HAS_KEY) != 0;
        if hasKey && |b| < 16 + 32 then Err(Truncated)
        else
          var pos := if hasKey then 48 else 16;
          var key := if hasKey then Some(b[16..48]) else None;
          if And(flags, RREP_HANDSHAKE) != 0 then
            if |b| < pos + 32 + 48 + 16 then Err(Truncated)
            else Ok(RouteReply.RouteReply(target, FromBe(b[8..12]), b[12], FromBe(b[13..15]), flags, key, b[pos..]))
          else if |b| != pos then Err(BadField)
          else Ok(RouteReply.RouteReply(target, FromBe(b[8..12]), b[12], FromBe(b[13..15]), flags, key, []))
  }

  lemma FieldBounds(a: seq<byte>, c: seq<byte>)
    requires |a| == 8 && |c| == 2
    ensures FromBe(a) < U64 && FromBe(c) < U16
  {
    Pow256Values();
    FromBeRoundTrip(a);
    FromBeRoundTrip(c);
  }

  lemma IdBound(a: seq<byte>)
    requires |a| == 4
    ensures FromBe(a) < U32
  {
    Pow256Values();
    FromBeRoundTrip(a);
  }

  // ----- codec round trips -----------------------------------------------------------------

  /** Writing a flag that already has the right value changes nothing; `d` is its bit. */
  lemma FlagUnchanged(flags: byte, flag: byte, d: nat)
    requires d < 8 && flag == Shl(8, 1, d)
    ensures WithFlag(flags, flag, And(flags, flag) != 0) == flags
  {
    assert Pow2(8) == 256;
    MaskTestsBit(8, flags, d);
    var r := WithFlag(flags, flag, And(flags, flag) != 0);
    forall i: nat | i < 8 ensures Bit(r, i) == Bit(flags, i) {
      BitShl(8, 1, d, i);
      if i >= d { BitOne(i - d); }
      BitComplement(flag, 8, i);
      BitAnd(flags, 255 - flag, i);
      BitOr(And(flags, 255 - flag), flag, i);
    }
    BitsEqual(r, flags, 8);
  }

  lemma FlagBits()
    ensures RREQ_HANDSHAKE == Shl(8, 1, 2) && RREP_HAS_KEY == Shl(8, 1, 1) && RREP_HANDSHAKE == Shl(8, 1, 3)
  {
    assert Pow2(8) == 256;
    assert Shl(8, 8, 0) == 8 && Shl(8, 4, 1) == 8 && Shl(8, 2, 2) == 8;
    assert Shl(8, 4, 0) == 4 && Shl(8, 2, 1) == 4;
    assert Shl(8, 2, 0) == 2;
  }

  lemma RequestFlagUnchanged(flags: byte)
    ensures WithFlag(flags, RREQ_HANDSHAKE, And(flags, RREQ_HANDSHAKE) != 0) == flags
  {
    FlagBits();
    FlagUnchanged(flags, RREQ_HANDSHAKE, 2);
  }

  lemma ReplyFlagsUnchanged(flags: byte)
    ensures WithFlag(flags, RREP_HAS_KEY, And(flags, RREP_HAS_KEY) != 0) == flags
    ensures WithFlag(flags, RREP_HANDSHAKE, And(flags, RREP_HANDSHAKE) != 0) == flags
  {
    FlagBits();
    FlagUnchanged(flags, RREP_HAS_KEY, 1);
    FlagUnchanged(flags, RREP_HANDSHAKE, 3);
  }

  /** A request as decoding makes it. */
  predicate RequestOk(q: RouteRequest) {
    && q.target != NULL && q.target != BROADCAST
    && (if And(q.flags, RREQ_HANDSHAKE) != 0 then |q.handshake| >= 32 else q.handshake == [])
  }

  predicate ReplyOk(r: RouteReply) {
    && r.target != NULL && r.target != BROADCAST
    && (And(r.flags, RREP_HAS_KEY) != 0 <==> r.targetKey.Some?) && (r.targetKey.Some? ==> |r.targetKey.value| == 32)
    && (if And(r.flags, RREP_HANDSHAKE) != 0 then |r.handshake| >= 96 else r.handshake == [])
  }

  lemma RequestRoundTrip(q: RouteRequest)
    requires RequestOk(q)
    ensures DecodeRequest(EncodeRequest(q)) == Ok(q)
  {
    RequestFlagUnchanged(q.flags);
    var b := EncodeRequest(q);
    assert b[..8] == Be(q.target, 8) && b[8..10] == Be(q.cost, 2) && b[10] == q.flags && b[11..] == q.handshake;
    Pow256Values();
    BeRoundTrip(q.target, 8);
    BeRoundTrip(q.cost, 2);
  }

  lemma DecodedRequestOk(b: seq<byte>)
    ensures DecodeRequest(b).Ok? ==> RequestOk(DecodeRequest(b).value) && |EncodeRequest(DecodeRequest(b).value)| == |b|
  {
  }

  lemma ReplyRoundTrip(r: RouteReply)
    requires ReplyOk(r)
    ensures DecodeReply(EncodeReply(r)) == Ok(r)
  {
    ReplyFlagsUnchanged(r.flags);
    var b := EncodeReply(r);
    var key := if r.targetKey.Some? then r.targetKey.value else [];
    assert b[..8] == Be(r.target, 8) && b[8..12] == Be(r.reqId, 4) && b[12] == r.hopsToTarget;
    assert b[13..15] == Be(r.cost, 2) && b[15] == r.flags;
    assert b[16..16 + |key|] == key && b[16 + |key|..] == r.handshake;
    Pow256Values();
    BeRoundTrip(r.target, 8);
    BeRoundTrip(r.reqId, 4);
    BeRoundTrip(r.cost, 2);
  }

  lemma DecodedReplyOk(b: seq<byte>)
    ensures DecodeReply(b).Ok? ==> ReplyOk(DecodeReply(b).value)
  {
  }

  // ----- requests --------------------------------------------------------------------------

  /** What a node offers to its route table, and the copy it relays, if any. */
  datatype Relayed = Relayed(cost: u16, hops: byte, packet: Option<Packet>)

  function Cost(c: u16, link: u16): u16 { SatAdd(c, link, MAX_COST) }

  /** Receive a route request over a link of the given cost and relay it. */
  function RelayRequest(p: Packet, link: u16): Result<Relayed> {
    match DecodeRequest(p.payload)
    case Err(e) => Err(e)
    case Ok(q) =>
      var mine := Cost(q.cost, link);
      var h := p.header;
      var copy := if h.ttl <= 1 then None
                  else Some(Packet(h.(ttl := h.ttl - 1, hops := SatAdd(h.hops, 1, 255), nextHop := NEXT_HOP_ANY),
                                   EncodeRequest(q.(cost := mine))));
      Ok(Relayed(mine, SatAdd(h.hops, 1, 255), copy))
  }

  /** A chain of relays: the offers made at each of them, as long as the copy lives. */
  function RequestChain(p: Packet, links: seq<u16>): seq<Relayed>
    decreases |links|
  {
    if links == [] then []
    else
      match RelayRequest(p, links[0])
      case Err(_) => []
      case Ok(r) => [r] + if r.packet.Some? then RequestChain(r.packet.value, links[1..]) else []
  }

  function SumOf(links: seq<u16>): nat {
    if links == [] then 0 else links[0] + SumOf(links[1..])
  }

  lemma {:induction false} SumPrefix(links: seq<u16>, i: nat)
    requires i < |links|
    ensures SumOf(links[..i + 1]) == links[0] + SumOf(links[1..][..i])
  {
    assert links[..i + 1][1..] == links[1..][..i];
  }

  /** What one relay makes of a request, and of the chain. */
  lemma RequestHop(p: Packet, q: RouteRequest, links: seq<u16>) returns (o: Relayed)
    requires DecodeRequest(p.payload) == Ok(q) && links != []
    requires p.header.ttl >= 1 && p.header.hops + p.header.ttl <= MAX_TTL
    ensures RequestChain(p, links) == [o] + if o.packet.Some? then RequestChain(o.packet.value, links[1..]) else []
    ensures o.cost == Min(MAX_COST, q.cost + links[0]) && o.hops == p.header.hops + 1
    ensures o.packet.Some? <==> p.header.ttl > 1
    ensures o.packet.Some? ==>
              && DecodeRequest(o.packet.value.payload) == Ok(q.(cost := o.cost))
              && o.packet.value.header.ttl == p.header.ttl - 1 && o.packet.value.header.hops == p.header.hops + 1
  {
    DecodedRequestOk(p.payload);
    RequestRoundTrip(q.(cost := Cost(q.cost, links[0])));
    o := RelayRequest(p, links[0]).value;
  }

  /** What offers along a chain look like, one relay after the other. */
  ghost predicate Accumulates(chain: seq<Relayed>, links: seq<u16>, cost: nat, distance: nat, ttl: nat) {
    if links == [] then chain == []
    else
      && chain != [] && chain[0].cost == Min(MAX_COST, cost + links[0]) && chain[0].hops == Min(255, distance + 1)
      && if ttl > 1 then Accumulates(chain[1..], links[1..], chain[0].cost, distance + 1, ttl - 1) else |chain| == 1
  }

  lemma AccumulateStep(o: Relayed, rest: seq<Relayed>, link: u16, links: seq<u16>, cost: nat, distance: nat, ttl: nat)
    requires o.cost == Min(MAX_COST, cost + link) && o.hops == Min(255, distance + 1)
    requires if ttl > 1 then Accumulates(rest, links, o.cost, distance + 1, ttl - 1) else rest == []
    ensures Accumulates([o] + rest, [link] + links, cost, distance, ttl)
  {
    assert ([o] + rest)[1..] == rest && ([link] + links)[1..] == links;
  }

  /** Step by step saturation adds up to saturation of the sum. */
  lemma {:induction false} Accumulated(chain: seq<Relayed>, links: seq<u16>, cost: nat, distance: nat, ttl: nat, i: nat)
    requires Accumulates(chain, links, cost, distance, ttl) && ttl >= 1 && i < |links|
    ensures |chain| == Min(|links|, ttl)
    ensures i < ttl ==> chain[i].cost == Min(MAX_COST, cost + SumOf(links[..i + 1])) && chain[i].hops == Min(255, distance + i + 1)
    decreases |links|
  {
    SumPrefix(links, i);
    if ttl > 1 && |links| > 1 {
      Accumulated(chain[1..], links[1..], chain[0].cost, distance + 1, ttl - 1, if i == 0 then 0 else i - 1);
    }
  }

  lemma {:induction false} RequestAccumulates(p: Packet, q: RouteRequest, links: seq<u16>)
    requires DecodeRequest(p.payload) == Ok(q) && p.header.ttl >= 1 && p.header.hops + p.header.ttl <= MAX_TTL
    ensures Accumulates(RequestChain(p, links), links, q.cost, p.header.hops, p.header.ttl)
    decreases |links|
  {
    if links != [] {
      var o := RequestHop(p, q, links);
      var rest := [];
      if o.packet.Some? {
        RequestAccumulates(o.packet.value, q.(cost := o.cost), links[1..]);
        rest := RequestChain(o.packet.value, links[1..]);
      }
      assert links == [links[0]] + links[1..];
      AccumulateStep(o, rest, links[0], links[1..], q.cost, p.header.hops, p.header.ttl);
    }
  }

  /** Along any chain of relays the cost offered to the route table is the initial cost
      plus the costs of the links travelled, saturating at 65535; the hop count is exactly
      the links travelled; and the chain is as long as the ttl allows. */
  lemma RequestMetrics(p: Packet, q: RouteRequest, links: seq<u16>, i: nat)
    requires DecodeRequest(p.payload) == Ok(q) && p.header.ttl >= 1 && p.header.hops + p.header.ttl <= MAX_TTL
    requires i < |links|
    ensures |RequestChain(p, links)| == Min(|links|, p.header.ttl)
    ensures i < p.header.ttl ==>
              && RequestChain(p, links)[i].cost == Min(MAX_COST, q.cost + SumOf(links[..i + 1]))
              && RequestChain(p, links)[i].hops == p.header.hops + i + 1
  {
    RequestAccumulates(p, q, links);
    Accumulated(RequestChain(p, links), links, q.cost, p.header.hops, p.header.ttl, i);
  }

  // ----- replies ----------------------------------------------------------------------------

  /** Receive a route reply over a link, learn the route it carries and pass it on. */
  function RelayReply(p: Packet, link: u16, me: Address, via: Address): Result<Relayed> {
    match DecodeReply(p.payload)
    case Err(e) => Err(e)
    case Ok(r) =>
      var cost := Cost(r.cost, link);
      var hops: byte := SatAdd(SatAdd(r.hopsToTarget, p.header.hops, 255), 1, 255);
      var p' := p.(payload := EncodeReply(r.(cost := cost)));
      Ok(Relayed(cost, hops, if p.header.ttl <= 1 then None else Some(Forwarding.Forwarded(p', me, via))))
  }

  /** One relay on the way of a reply. */
  datatype ReplyHop = ReplyHop(link: u16, me: Address, via: Address)

  function ReplyChain(p: Packet, hops: seq<ReplyHop>): seq<Relayed>
    decreases |hops|
  {
    if hops == [] then []
    else
      match RelayReply(p, hops[0].link, hops[0].me, hops[0].via)
      case Err(_) => []
      case Ok(r) => [r] + if r.packet.Some? then ReplyChain(r.packet.value, hops[1..]) else []
  }

  function LinksOf(hops: seq<ReplyHop>): (s: seq<u16>)
    ensures |s| == |hops|
  {
    if hops == [] then [] else [hops[0].link] + LinksOf(hops[1..])
  }

  /** A reply that a relay can take up: `r` is what it carries. */
  ghost predicate Carries(p: Packet, r: RouteReply) {
    && DecodeReply(p.payload) == Ok(r) && p.header.ptype.RouteReply?
    && p.header.ttl >= 1 && p.header.hops + p.header.ttl <= MAX_TTL
  }

  /** What one relay makes of a reply, and of the chain. */
  lemma ReplyHopStep(p: Packet, r: RouteReply, hops: seq<ReplyHop>) returns (o: Relayed, r': RouteReply)
    requires Carries(p, r) && hops != []
    ensures ReplyChain(p, hops) == [o] + if o.packet.Some? then ReplyChain(o.packet.value, hops[1..]) else []
    ensures o.cost == Min(MAX_COST, r.cost + hops[0].link) && o.hops == Min(255, r.hopsToTarget + p.header.hops + 1)
    ensures o.packet.Some? <==> p.header.ttl > 1
    ensures o.packet.Some? ==>
              && Carries(o.packet.value, r') && r'.cost == o.cost && r'.hopsToTarget == r.hopsToTarget
              && o.packet.value.header.ttl == p.header.ttl - 1 && o.packet.value.header.hops == p.header.hops + 1
  {
    DecodedReplyOk(p.payload);
    r' := r.(cost := Cost(r.cost, hops[0].link));
    ReplyRoundTrip(r');
    o := RelayReply(p, hops[0].link, hops[0].me, hops[0].via).value;
  }

  lemma ReplyAccumulateStep(o: Relayed, rest: seq<Relayed>, hops: seq<ReplyHop>, cost: nat, distance: nat, ttl: nat)
    requires hops != [] && o.cost == Min(MAX_COST, cost + hops[0].link) && o.hops == Min(255, distance + 1)
    requires if ttl > 1 then Accumulates(rest, LinksOf(hops[1..]), o.cost, distance + 1, ttl - 1) else rest == []
    ensures Accumulates([o] + rest, LinksOf(hops), cost, distance, ttl)
  {
    AccumulateStep(o, rest, hops[0].link, LinksOf(hops[1..]), cost, distance, ttl);
  }

  lemma {:induction false} ReplyAccumulates(p: Packet, r: RouteReply, hops: seq<ReplyHop>)
    requires Carries(p, r)
    ensures Accumulates(ReplyChain(p, hops), LinksOf(hops), r.cost, r.hopsToTarget + p.header.hops, p.header.ttl)
    decreases |hops|
  {
    if hops != [] {
      var o, r' := ReplyHopStep(p, r, hops);
      var rest := [];
      if o.packet.Some? {
        ReplyAccumulates(o.packet.value, r', hops[1..]);
        rest := ReplyChain(o.packet.value, hops[1..]);
      }
      ReplyAccumulateStep(o, rest, hops, r.cost, r.hopsToTarget + p.header.hops, p.header.ttl);
    }
  }

  /** The same for replies: the hop count is the replier's distance plus the links
      travelled, saturating at 255. */
  lemma {:induction false} ReplyMetrics(p: Packet, r: RouteReply, hops: seq<ReplyHop>, i: nat)
    requires Carries(p, r) && i < |hops|
    ensures |ReplyChain(p, hops)| == Min(|hops|, p.header.ttl)
    ensures i < p.header.ttl ==>
              && ReplyChain(p, hops)[i].cost == Min(MAX_COST, r.cost + SumOf(LinksOf(hops)[..i + 1]))
              && ReplyChain(p, hops)[i].hops == Min(255, r.hopsToTarget + p.header.hops + i + 1)
  {
    ReplyAccumulates(p, r, hops);
    Accumulated(ReplyChain(p, hops), LinksOf(hops), r.cost, r.hopsToTarget + p.header.hops, p.header.ttl, i);
  }
}
