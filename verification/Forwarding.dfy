/** Relaying a unicast packet hop by hop: what a relay rewrites, and what every
    journey through any number of relays keeps. */
module Forwarding {
  import opened Basics
  import opened Packet

  const TRACE_REQ: byte := 10
  const TRACE_MAX_HOPS := 24

  predicate IsTrace(p: Packet) {
    p.header.ptype.Control? && |p.payload| > 0 && p.payload[0] == TRACE_REQ
  }

  /** A relay appends its short id to a trace request that still has room. */
  function TraceStamp(p: Packet, me: Address): Packet {
    if IsTrace(p) && |p.payload| < 1 + 2 * TRACE_MAX_HOPS then p.(payload := p.payload + Be(Short(me), 2)) else p
  }

  /** What a relay does with a unicast packet; the table answers are inputs. */
  datatype Verdict =
    | NotOurs                        // another relay is the next hop
    | Exhausted                      // no hop left
    | Hold                           // the destination is a sleeping leaf of ours
    | Loop                           // the route points back to the previous hop
    | Forward(packet: Packet, via: Address)
    | Repair                         // no route: queue it behind a discovery or report an error

  /** The direct forward: one hop off the ttl, onto the hop count. */
  function Forwarded(p: Packet, me: Address, via: Address): Packet
    requires p.header.ttl > 1
  {
    var h := p.header;
    TraceStamp(p.(header := h.(ttl := h.ttl - 1, hops := SatAdd(h.hops, 1, 255), nextHop := Short(via), relay := Short(me))), me)
  }

  /** A packet released from a hold or a finished route repair keeps its ttl and hops. */
  function Released(p: Packet, me: Address, via: Address): Packet {
    p.(header := p.header.(nextHop := Short(via), relay := Short(me)))
  }

  /** `sleeping`: the destination is a sleeping leaf neighbour hosted here; `route`: what
      the tables answer. */
  function ForwardUnicast(p: Packet, me: Address, prev: Option<Address>, sleeping: bool, route: Option<Address>): Verdict {
    if p.header.nextHop != NEXT_HOP_ANY && p.header.nextHop != Short(me) then NotOurs
    else if p.header.ttl <= 1 then Exhausted
    else if sleeping then Hold
    else
      match route
      case None => Repair
      case Some(via) => if route == prev then Loop else Forward(Forwarded(p, me, via), via)
  }

  // ----- journeys ------------------------------------------------------------------------

  /** One relay's handling of a frame on its way: a direct forward, or a release. */
  datatype Hop = Direct(me: Address, via: Address) | Release(me: Address, via: Address)

  function Step(p: Packet, hop: Hop): Option<Packet> {
    match hop
    case Direct(me, via) => if p.header.ttl <= 1 then None else Some(Forwarded(p, me, via))
    case Release(me, via) => Some(Released(p, me, via))
  }

  /** Frame in, frame out: decode, rewrite, encode again. */
  function RelayFrame(frame: seq<byte>, key: Option<NetworkKey>, maxTtl: byte, hop: Hop): Option<seq<byte>> {
    match Decode(frame, key, maxTtl)
    case Err(_) => None
    case Ok(p) =>
      match Step(p, hop)
      case None => None
      case Some(p') =>
        match Encode(p', key)
        case Err(_) => None
        case Ok(f) => Some(f)
  }

  function Journey(frame: seq<byte>, key: Option<NetworkKey>, maxTtl: byte, hops: seq<Hop>): Option<seq<byte>>
    decreases |hops|
  {
    if hops == [] then Some(frame)
    else
      match RelayFrame(frame, key, maxTtl, hops[0])
      case None => None
      case Some(f) => Journey(f, key, maxTtl, hops[1..])
  }

  function Directs(hops: seq<Hop>): (n: nat)
    ensures n <= |hops|
  {
    if hops == [] then 0 else Directs(hops[1..]) + if hops[0].Direct? then 1 else 0
  }

  /** A relay forwards exactly a packet that is its to forward, has a hop left, and whose
      route leads on; then it takes the direct step, never back to where it came from. */
  lemma ForwardIsStep(p: Packet, me: Address, prev: Option<Address>, sleeping: bool, route: Option<Address>)
    ensures
      var v := ForwardUnicast(p, me, prev, sleeping, route);
      && (v.Forward? <==>
            && p.header.nextHop in {NEXT_HOP_ANY, Short(me)} && p.header.ttl > 1
            && !sleeping && route.Some? && route != prev)
      && (v.Forward? ==> Some(v.via) == route && Step(p, Direct(me, v.via)) == Some(v.packet))
  {
  }

  /** What a packet keeps between the start of a journey and a later point after `n`
      direct forwards. */
  ghost predicate Kept(p: Packet, q: Packet, n: nat) {
    && q.header.ttl + n == p.header.ttl && q.header.hops == p.header.hops + n
    && q.header == p.header.(ttl := q.header.ttl, hops := q.header.hops, nextHop := q.header.nextHop, relay := q.header.relay)
    && (IsTrace(q) <==> IsTrace(p))
    && (!IsTrace(p) ==> q.payload == p.payload)
  }

  lemma StampKeeps(p: Packet, me: Address, key: Option<NetworkKey>, maxTtl: byte)
    requires Acceptable(p, key, maxTtl)
    ensures Acceptable(TraceStamp(p, me), key, maxTtl)
    ensures IsTrace(TraceStamp(p, me)) <==> IsTrace(p)
  {
  }

  /** A relayed packet is still acceptable to the next hop. */
  lemma StepAcceptable(p: Packet, hop: Hop, key: Option<NetworkKey>, maxTtl: byte)
    requires Acceptable(p, key, maxTtl) && Step(p, hop).Some?
    ensures Acceptable(Step(p, hop).value, key, maxTtl)
    ensures Kept(p, Step(p, hop).value, if hop.Direct? then 1 else 0)
  {
    match hop
    case Direct(me, via) =>
      var h := p.header;
      var q := p.(header := h.(ttl := h.ttl - 1, hops := SatAdd(h.hops, 1, 255), nextHop := Short(via), relay := Short(me)));
      StampKeeps(q, me, key, maxTtl);
    case Release(me, via) =>
  }

  /** A relay turns an acceptable frame into an acceptable frame, or drops it for lack of ttl. */
  lemma RelayStep(frame: seq<byte>, key: Option<NetworkKey>, maxTtl: byte, hop: Hop, p: Packet)
    requires Decode(frame, key, maxTtl) == Ok(p) && Acceptable(p, key, maxTtl)
    ensures RelayFrame(frame, key, maxTtl, hop).None? <==> hop.Direct? && p.header.ttl <= 1
    ensures RelayFrame(frame, key, maxTtl, hop).Some? ==>
              && Step(p, hop).Some?
              && Decode(RelayFrame(frame, key, maxTtl, hop).value, key, maxTtl) == Ok(Step(p, hop).value)
  {
    if Step(p, hop).Some? {
      var q := Step(p, hop).value;
      StepAcceptable(p, hop, key, maxTtl);
      AcceptableEncodes(q, key, maxTtl);
      FrameRoundTrip(q, key, maxTtl);
    }
  }

  lemma KeptTransitive(p: Packet, q: Packet, r: Packet, m: nat, n: nat)
    requires Kept(p, q, m) && Kept(q, r, n)
    ensures Kept(p, r, m + n)
  {
  }

  /** Over any journey, whatever next hops the tables return: the frame is lost exactly
      when the direct forwards use up the ttl; otherwise it decodes at every next hop with
      the same key and limit, ttl plus hops is conserved without saturating, and nothing
      but the per-hop fields (and a trace's own list) has changed. */
  lemma {:induction false} JourneyKeeps(frame: seq<byte>, key: Option<NetworkKey>, maxTtl: byte, hops: seq<Hop>, p: Packet)
    requires Decode(frame, key, maxTtl) == Ok(p) && Acceptable(p, key, maxTtl)
    ensures Journey(frame, key, maxTtl, hops).Some? <==> Directs(hops) < p.header.ttl
    ensures Journey(frame, key, maxTtl, hops).Some? ==>
              && Decode(Journey(frame, key, maxTtl, hops).value, key, maxTtl).Ok?
              && var q := Decode(Journey(frame, key, maxTtl, hops).value, key, maxTtl).value;
                 Acceptable(q, key, maxTtl) && Kept(p, q, Directs(hops))
    decreases |hops|
  {
    if hops != [] {
      RelayStep(frame, key, maxTtl, hops[0], p);
      if Step(p, hops[0]).Some? {
        var q := Step(p, hops[0]).value;
        StepAcceptable(p, hops[0], key, maxTtl);
        var f := RelayFrame(frame, key, maxTtl, hops[0]).value;
        JourneyKeeps(f, key, maxTtl, hops[1..], q);
        if Journey(f, key, maxTtl, hops[1..]).Some? {
          var r := Decode(Journey(f, key, maxTtl, hops[1..]).value, key, maxTtl).value;
          KeptTransitive(p, q, r, if hops[0].Direct? then 1 else 0, Directs(hops[1..]));
        }
      }
    }
  }

  /** So a unicast that is not a trace request reaches its destination with the bytes that
      the end-to-end protection covers intact. */
  lemma JourneyBinds(frame: seq<byte>, key: Option<NetworkKey>, maxTtl: byte, hops: seq<Hop>, p: Packet, plen: byte)
    requires Decode(frame, key, maxTtl) == Ok(p) && Acceptable(p, key, maxTtl) && !IsTrace(p)
    requires Directs(hops) < p.header.ttl
    ensures
      var f := Journey(frame, key, maxTtl, hops);
      && f.Some? && Decode(f.value, key, maxTtl).Ok?
      && var q := Decode(f.value, key, maxTtl).value;
         q.payload == p.payload && q.header.Aad(plen) == p.header.Aad(plen)
  {
    JourneyKeeps(frame, key, maxTtl, hops, p);
    var q := Decode(Journey(frame, key, maxTtl, hops).value, key, maxTtl).value;
    AadBinds(p.header, q.header, plen, plen);
  }
}
