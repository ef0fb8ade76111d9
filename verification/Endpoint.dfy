/** The two ends of the payload path as objects: the sender that encrypts and cuts,
    the receiver that reassembles and opens. */
module Endpoint {
  import opened Basics
  import opened Crypto
  import opened Noise
  import opened Transport
  import opened Packet
  import opened PayloadPath
  import Frag = Fragmentation
  import Reassembly

  class PayloadEndpoint {
    /** The session with the peer, if there is one. */
    var session: SessionObject?
    const reassembler: Reassembly.Reassembler<Octet>
    var fragId: u16
    /** Packets handed to the router, oldest first. */
    var sent: seq<SessionPacket>
    /** Attempts of a handshake with the peer that we answer, if one is in flight. */
    var waiting: Option<nat>
    /** Notices sent that there is no session. */
    var notices: nat

    ghost predicate Valid()
      reads this, session, if session == null then null else session.replay
    {
      session != null ==> session.Valid()
    }

    constructor (epoch: byte, keys: TransportKeys, cfg: Frag.Config, fragId: u16, now: nat)
      ensures Valid() && session != null && fresh(session) && fresh(session.replay) && fresh(reassembler)
      ensures this.fragId == fragId && reassembler.cfg == cfg && sent == [] && waiting == None && notices == 0
      ensures session.Model() == InstalledSession(epoch, keys.send, keys.recv, now)
      ensures reassembler.Model() == Frag.State(map[], 0, 0)
    {
      session := new SessionObject(epoch, keys, now);
      reassembler := new Reassembly.Reassembler<Octet>(cfg);
      this.fragId, sent, waiting, notices := fragId, [], None, 0;
    }

    /** Encrypt `body`, cutting it into fragments when one frame is too small, and hand the
        packets to the router; `route(i)` is its answer to packet `i`. */
    method SendSessionPacket(h: Header, ids: nat -> u32, route: nat -> Option<Error>, now: nat, body: seq<Octet>) returns (r: Result<()>)
      requires Valid()
      modifies this`fragId, this`sent, session
      ensures Valid() && session == old(session)
      ensures session == null ==>
                && r == Err(NoSession) && sent == old(sent)
                && fragId == if NeedsFragments(h, body) then NextId(old(fragId)) else old(fragId)
      ensures session != null ==>
                var o := SendSession(old(session.Model()), h, old(fragId), ids, now, body);
                && session.Model() == o.session && fragId == o.fragId
                && match o.result
                   case Err(e) => r == Err(e) && sent == old(sent)
                   case Ok(ps) => Handed(old(sent), sent, r, ps, route)
    {
      if |body| + OVERHEAD <= MaxPayload(h.Has(NET_AUTH)) {
        if session == null { return Err(NoSession); }
        var ct := session.Encrypt(now, TransportAad(h, None), body);
        if ct.Err? { return Err(ct.error); }
        r := RouteUnicast(SessionPacket(h, ct.value), route, 0);
        HandedOne(old(sent), SessionPacket(h, ct.value), route);
        return;
      }
      fragId := (fragId + 1) % U16;
      if session == null { return Err(NoSession); }
      r := SendFragments(h, ids, route, now, body);
    }

    /** The packet is handed over unless the router refuses it. */
    method RouteUnicast(p: SessionPacket, route: nat -> Option<Error>, i: nat) returns (r: Result<()>)
      modifies this`sent
      ensures r == if route(i).Some? then Err(route(i).value) else Ok(())
      ensures sent == if r.Ok? then old(sent) + [p] else old(sent)
    {
      if route(i).Some? { return Err(route(i).value); }
      sent := sent + [p];
      return Ok(());
    }

    static lemma HandedOne(before: seq<SessionPacket>, p: SessionPacket, route: nat -> Option<Error>)
      ensures Handed(before, if route(0).Some? then before else before + [p], if route(0).Some? then Err(route(0).value) else Ok(()), [p], route)
    {
      assert [p][..1] == [p] && [p][..0] == [] && before + [] == before;
    }

    /** Encrypt for the current fragment id, cut and hand over. */
    method SendFragments(h: Header, ids: nat -> u32, route: nat -> Option<Error>, now: nat, body: seq<Octet>) returns (r: Result<()>)
      requires Valid() && session != null
      modifies this`sent, session
      ensures Valid()
      ensures
        var h' := h.Set(FRAGMENTED, true);
        var enc := old(session.Model()).Encrypt(now, TransportAad(h', Some(fragId)), body);
        && session.Model() == enc.state
        && match enc.result
           case Err(e) => r == Err(e) && sent == old(sent)
           case Ok(ct) =>
             match Frag.Split(fragId, ct, ChunkSize(h))
             case None => r == Err(TooLarge) && sent == old(sent)
             case Some(parts) => Handed(old(sent), sent, r, Frames(h', ids, parts), route)
    {
      var h' := h.Set(FRAGMENTED, true);
      var ct := session.Encrypt(now, TransportAad(h', Some(fragId)), body);
      if ct.Err? { return Err(ct.error); }
      var parts := Frag.SplitBody(fragId, ct.value, ChunkSize(h));
      if parts.None? { return Err(TooLarge); }
      r := FramePackets(h', ids, route, parts.value);
    }

    /** One packet per fragment; every one but the first draws a new packet id.  The first
        refusal ends the loop. */
    method FramePackets(h: Header, ids: nat -> u32, route: nat -> Option<Error>, parts: seq<(FragHeader, seq<Octet>)>) returns (r: Result<()>)
      modifies this`sent
      ensures Handed(old(sent), sent, r, Frames(h, ids, parts), route)
    {
      ghost var ps := Frames(h, ids, parts);
      var i := 0;
      while i < |parts|
        invariant 0 <= i <= |parts| && sent == old(sent) + ps[..i]
        invariant forall j: nat :: j < i ==> route(j).None?
      {
        var hh := h;
        if i > 0 {
          hh := hh.(packetId := ids(i));
        }
        r := RouteUnicast(SessionPacket(hh, Lits(parts[i].0.Bytes()) + parts[i].1), route, i);
        if r.Err? { return; }
        i := i + 1;
      }
      return Ok(());
    }

    /** Reassemble and decrypt a packet from the peer of this session.  Without a session a
        complete body is dropped. */
    method OpenSessionPayload(p: SessionPacket, now: nat) returns (got: Option<seq<Octet>>)
      requires Valid()
      modifies this`waiting, this`notices, session, if session == null then null else session.replay, reassembler
      ensures Valid() && session == old(session)
      ensures session != null ==>
                && waiting == old(waiting) && notices == old(notices)
                && (reassembler.Model(), session.Model(), got)
                   == OpenPayload(reassembler.cfg, old(reassembler.Model()), old(session.Model()), p, now)
      ensures session == null ==>
                var (r', full) := Reassemble(reassembler.cfg, old(reassembler.Model()), p, now);
                && got == None && reassembler.Model() == r'
                && (waiting, notices) == if full.Some? then Noticed(old(waiting), old(notices)) else (old(waiting), old(notices))
    {
      var ct, frag := p.payload, None;
      var fh := FragHeaderOf(p);
      if fh.Some? {
        FragHeaderValid(p);
        var full := reassembler.Push(now, p.header.src, fh.value, p.payload[FRAG_HEADER_LEN..]);
        if full.Err? || full.value.None? { return None; }
        ct, frag := full.value.value, Some(fh.value.fragId);
      }
      if session == null {
        if waiting.Some? && waiting.value < 4 {
          waiting, notices := Some(waiting.value + 1), notices + 1;
        }
        return None;
      }
      var r := session.Decrypt(now, TransportAad(p.header, frag), ct);
      return if r.Ok? then Some(r.value) else None;
    }
  }
}
