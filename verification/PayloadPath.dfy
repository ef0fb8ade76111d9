/** The end-to-end payload path: encrypt, fragment, travel over relays that rewrite
    per-hop header fields, reassemble in any order, decrypt. */
module PayloadPath {
  import opened Basics
  import opened Bits
  import opened Crypto
  import opened Transport
  import opened Packet
  import Frag = Fragmentation
  import Reassembly

  // ----- flags ------------------------------------------------------------------------

  lemma FragmentedBit(x: byte)
    ensures And(x, FRAGMENTED) != 0 <==> Bit(x, 1)
  {
    assert Pow2(8) == 256;
    assert Shl(8, 1, 1) == FRAGMENTED;
    MaskTestsBit(8, x, 1);
  }

  lemma SetFragmented(h: Header)
    ensures h.Set(FRAGMENTED, true).Has(FRAGMENTED) && !h.Set(FRAGMENTED, false).Has(FRAGMENTED)
  {
    FragmentedBit(h.Set(FRAGMENTED, true).flags);
    FragmentedBit(h.Set(FRAGMENTED, false).flags);
    BitOr(h.flags, FRAGMENTED, 1);
    BitAnd(h.flags, 255 - FRAGMENTED, 1);
    assert Bit(2, 1) && !Bit(253, 1);
  }

  /** Setting a flag other than FRAGMENTED does not touch it. */
  lemma SetOther(h: Header, flag: byte, on: bool)
    requires !Bit(flag, 1) && Bit(255 - flag, 1)
    ensures h.Set(flag, on).Has(FRAGMENTED) == h.Has(FRAGMENTED)
  {
    FragmentedBit(h.flags);
    FragmentedBit(h.Set(flag, on).flags);
    BitOr(h.flags, flag, 1);
    BitAnd(h.flags, 255 - flag, 1);
  }

  /** The header of a session packet before it is known whether it is fragmented. */
  function SessionHeader(ptype: PacketType, src: Address, dst: Address, id: u32, sequence: u16, ttl: byte,
                         netAuth: bool, ack: bool, leaf: bool): Header
  {
    var h := NewHeader(ptype, src, dst, id, sequence, ttl);
    var h := if netAuth then h.Set(NET_AUTH, true) else h;
    var h := h.Set(ENCRYPTED, true).Set(ACK_REQUEST, ack);
    if leaf then h.Set(LEAF_SOURCE, true) else h
  }

  lemma SessionHeaderUnfragmented(ptype: PacketType, src: Address, dst: Address, id: u32, sequence: u16, ttl: byte, netAuth: bool, ack: bool, leaf: bool)
    ensures !SessionHeader(ptype, src, dst, id, sequence, ttl, netAuth, ack, leaf).Has(FRAGMENTED)
  {
    var h0 := NewHeader(ptype, src, dst, id, sequence, ttl);
    FragmentedBit(0);
    BitZero(1);
    assert Bit(127, 1) && Bit(251, 1) && Bit(254, 1) && Bit(223, 1);
    assert !Bit(128, 1) && !Bit(4, 1) && !Bit(1, 1) && !Bit(32, 1);
    SetOther(h0, NET_AUTH, true);
    var h1 := if netAuth then h0.Set(NET_AUTH, true) else h0;
    SetOther(h1, ENCRYPTED, true);
    SetOther(h1.Set(ENCRYPTED, true), ACK_REQUEST, ack);
    SetOther(h1.Set(ENCRYPTED, true).Set(ACK_REQUEST, ack), LEAF_SOURCE, true);
  }

  // ----- associated data -----------------------------------------------------------------

  /** Associated data of a session message: fragments bind the fragment id instead of
      their own packet ids, and the FRAGMENTED flag itself is not bound. */
  function TransportAad(h: Header, frag: Option<u16>): seq<byte> {
    var hh := h.Set(FRAGMENTED, false);
    match frag
    case Some(f) => hh.(packetId := f).Aad(0)
    case None => hh.Aad(0)
  }

  /** What a relay may rewrite. */
  predicate SamePath(h: Header, h': Header) {
    h' == h.(ttl := h'.ttl, hops := h'.hops, nextHop := h'.nextHop, relay := h'.relay)
  }

  /** The associated data does not depend on the hops travelled, nor, for fragments, on
      which fragment it is computed from. */
  lemma AadStable(h: Header, h': Header, id: u32, f: u16)
    requires SamePath(h.(packetId := id), h')
    ensures TransportAad(h', Some(f)) == TransportAad(h, Some(f))
    ensures id == h.packetId ==> TransportAad(h', None) == TransportAad(h, None)
  {
    var g, g' := h.Set(FRAGMENTED, false), h'.Set(FRAGMENTED, false);
    AadBinds(g.(packetId := f), g'.(packetId := f), 0, 0);
    AadBinds(g, g', 0, 0);
  }

  // ----- sending -------------------------------------------------------------------------

  datatype SessionPacket = SessionPacket(header: Header, payload: seq<Octet>)

  /** The result of a send: the session and fragment id counter always advance as far
      as the code got. */
  datatype SendResult = SendResult(session: Session, fragId: u16, result: Result<seq<SessionPacket>>)

  function FragmentPacket(h: Header, id: u32, f: (FragHeader, seq<Octet>)): SessionPacket {
    SessionPacket(h.(packetId := id), Lits(f.0.Bytes()) + f.1)
  }

  /** One packet per fragment; every one but the first has a new packet id. */
  function Frames(h: Header, ids: nat -> u32, parts: seq<(FragHeader, seq<Octet>)>): (ps: seq<SessionPacket>)
    ensures |ps| == |parts|
    ensures forall i :: 0 <= i < |parts| ==> ps[i] == FragmentPacket(h, if i == 0 then h.packetId else ids(i), parts[i])
  {
    seq(|parts|, i requires 0 <= i < |parts| => FragmentPacket(h, if i == 0 then h.packetId else ids(i), parts[i]))
  }

  predicate NeedsFragments(h: Header, body: seq<Octet>) {
    |body| + OVERHEAD > MaxPayload(h.Has(NET_AUTH))
  }

  function ChunkSize(h: Header): (n: nat)
    ensures n > 0
  {
    MaxPayload(h.Has(NET_AUTH)) - FRAG_HEADER_LEN
  }

  /** Encrypt `body` and cut it into packets; `ids(i)` is the packet id drawn for
      fragment `i`. */
  function SendSession(s: Session, h: Header, fragId: u16, ids: nat -> u32, now: nat, body: seq<Octet>): SendResult {
    if NeedsFragments(h, body) then
      var f := NextId(fragId);
      var h' := h.Set(FRAGMENTED, true);
      var enc := s.Encrypt(now, TransportAad(h', Some(f)), body);
      match enc.result
      case Err(e) => SendResult(enc.state, f, Err(e))
      case Ok(ct) =>
        match Frag.Split(f, ct, ChunkSize(h))
        case None => SendResult(enc.state, f, Err(TooLarge))
        case Some(parts) =>
          SendResult(enc.state, f, Ok(Frames(h', ids, parts)))
    else
      var enc := s.Encrypt(now, TransportAad(h, None), body);
      match enc.result
      case Err(e) => SendResult(enc.state, fragId, Err(e))
      case Ok(ct) => SendResult(enc.state, fragId, Ok([SessionPacket(h, ct)]))
  }

  /** The first of `n` packets that the router refuses, or `n`; `route(i)` is its answer to
      packet `i`. */
  function Refused(route: nat -> Option<Error>, n: nat): (k: nat)
    ensures k <= n && (forall j: nat :: j < k ==> route(j).None?) && (k < n ==> route(k).Some?)
  {
    if n == 0 then 0
    else
      var k := Refused(route, n - 1);
      if k < n - 1 || route(n - 1).Some? then k else n
  }

  /** What has been handed to the router grew by the packets before the first it refuses, and
      the refusal is the result. */
  ghost predicate Handed(before: seq<SessionPacket>, after: seq<SessionPacket>, r: Result<()>, ps: seq<SessionPacket>, route: nat -> Option<Error>) {
    var k := Refused(route, |ps|);
    after == before + ps[..k] && r == if k < |ps| then Err(route(k).value) else Ok(())
  }

  // ----- receiving ------------------------------------------------------------------------

  /** A body from a peer without a session: while a handshake that we answer waits for its
      message 3, the peer is told so, a few times. */
  function Noticed(waiting: Option<nat>, notices: nat): (Option<nat>, nat) {
    if waiting.Some? && waiting.value < 4 then (Some(waiting.value + 1), notices + 1) else (waiting, notices)
  }

  predicate AllLit(s: seq<Octet>) { forall o <- s :: o.Lit? }

  function Values(s: seq<Octet>): (b: seq<byte>)
    requires AllLit(s)
    ensures |b| == |s| && forall i :: 0 <= i < |s| ==> b[i] == s[i].v
  {
    seq<byte>(|s|, i requires 0 <= i < |s| => assert s[i] in s; s[i].v)
  }

  /** The fragment sub-header of a packet, if it has a valid one. */
  function FragHeaderOf(p: SessionPacket): Option<FragHeader> {
    if !p.header.Has(FRAGMENTED) || |p.payload| < FRAG_HEADER_LEN || !AllLit(p.payload[..FRAG_HEADER_LEN]) then None
    else
      match ParseFrag(Values(p.payload[..FRAG_HEADER_LEN]))
      case Ok(h) => Some(h)
      case Err(_) => None
  }

  lemma FragHeaderValid(p: SessionPacket)
    requires FragHeaderOf(p).Some?
    ensures FragHeaderOf(p).value.index < FragHeaderOf(p).value.total && |p.payload| >= FRAG_HEADER_LEN
  {
  }

  /** The full body and its fragment id, once it is complete. */
  ghost function Reassemble(cfg: Frag.Config, r: Frag.State<Octet>, p: SessionPacket, now: nat): (Frag.State<Octet>, Option<(seq<Octet>, Option<u16>)>) {
    match FragHeaderOf(p)
    case None => (r, Some((p.payload, None)))
    case Some(fh) =>
      FragHeaderValid(p);
      var (r', res) := Frag.Push(cfg, r, now, p.header.src, fh, p.payload[FRAG_HEADER_LEN..]);
      match res
      case Ok(Some(full)) => (r', Some((full, Some(fh.fragId))))
      case _ => (r', None)
  }

  /** Reassemble and decrypt a packet addressed to us from a peer we have a session with. */
  ghost function OpenPayload(cfg: Frag.Config, r: Frag.State<Octet>, s: Session, p: SessionPacket, now: nat): (Frag.State<Octet>, Session, Option<seq<Octet>>) {
    var (r', got) := Reassemble(cfg, r, p, now);
    match got
    case None => (r', s, None)
    case Some((ct, frag)) =>
      var o := s.Decrypt(now, TransportAad(p.header, frag), ct);
      (r', o.state, match o.result case Ok(pt) => Some(pt) case Err(_) => None)
  }

  // ----- delivery ---------------------------------------------------------------------------

  /** The receiver's end of the session: same epoch, matching key. */
  ghost predicate Peers(s: Session, t: Session) {
    s.sendKey == t.recvKey && s.epoch == t.epoch
  }

  lemma DecryptsSent(s: Session, t: Session, now: nat, now': nat, aad: seq<byte>, body: seq<Octet>)
    requires Peers(s, t) && s.Encrypt(now, aad, body).result.Ok? && t.replay.Check(s.sendCtr)
    ensures t.Decrypt(now', aad, s.Encrypt(now, aad, body).result.value).result == Ok(body)
  {
    DecryptOpens(t, now', aad, s.Encrypt(now, aad, body).result.value, body);
    assert s.Encrypt(now, aad, body).result.value == Wire(t.recvKey, t.epoch, s.sendCtr, aad, body);
  }

  /** A body that fits one frame arrives whatever the relays did to the per-hop fields. */
  lemma SingleArrives(cfg: Frag.Config, r: Frag.State<Octet>, s: Session, t: Session, h: Header, fragId: u16, ids: nat -> u32,
                      now: nat, now': nat, body: seq<Octet>, h': Header)
    requires Peers(s, t) && t.replay.Check(s.sendCtr) && !h.Has(FRAGMENTED)
    requires !NeedsFragments(h, body) && SendSession(s, h, fragId, ids, now, body).result.Ok? && SamePath(h, h')
    ensures
      var ps := SendSession(s, h, fragId, ids, now, body).result.value;
      && |ps| == 1
      && var (r', t', got) := OpenPayload(cfg, r, t, SessionPacket(h', ps[0].payload), now');
      got == Some(body) && r' == r
  {
    AadStable(h, h', h.packetId, 0);
    DecryptsSent(s, t, now, now', TransportAad(h, None), body);
  }

  /** The ciphertext of a fragmented send as a message for reassembly. */
  ghost function SentMessage(s: Session, h: Header, f: u16, now: nat, body: seq<Octet>): Reassembly.Message<Octet>
    requires s.Encrypt(now, TransportAad(h.Set(FRAGMENTED, true), Some(f)), body).result.Ok?
  {
    Reassembly.Message(s.Encrypt(now, TransportAad(h.Set(FRAGMENTED, true), Some(f)), body).result.value, ChunkSize(h))
  }

  /** A fragmented send that succeeded, and the id and message it used. */
  ghost predicate FragmentedSend(s: Session, h: Header, fragId: u16, ids: nat -> u32, now: nat, body: seq<Octet>) {
    && !h.Has(FRAGMENTED) && NeedsFragments(h, body)
    && SendSession(s, h, fragId, ids, now, body).result.Ok?
  }

  lemma FragmentedSendShape(s: Session, h: Header, fragId: u16, ids: nat -> u32, now: nat, body: seq<Octet>)
    requires FragmentedSend(s, h, fragId, ids, now, body)
    ensures
      var f := NextId(fragId);
      var ps := SendSession(s, h, fragId, ids, now, body).result.value;
      && s.Encrypt(now, TransportAad(h.Set(FRAGMENTED, true), Some(f)), body).result.Ok?
      && var m := SentMessage(s, h, f, now, body);
      && Reassembly.Splittable(m) && |ps| == Reassembly.Pieces(m)
      && forall i :: 0 <= i < |ps| ==>
           ps[i] == FragmentPacket(h.Set(FRAGMENTED, true), if i == 0 then h.packetId else ids(i),
                                   (FragHeader(f, i, Reassembly.Pieces(m)), Frag.Part(m.body, m.chunk, i)))
  {
  }

  function NextId(fragId: u16): u16 { (fragId + 1) % U16 }

  /** The messages being reassembled include the one this send produced. */
  ghost predicate Carries(s: Session, h: Header, fragId: u16, ids: nat -> u32, now: nat, body: seq<Octet>,
                          msgs: map<Frag.Key, Reassembly.Message<Octet>>)
    requires FragmentedSend(s, h, fragId, ids, now, body)
  {
    FragmentedSendShape(s, h, fragId, ids, now, body);
    var key := (h.src, NextId(fragId));
    key in msgs && msgs[key] == SentMessage(s, h, NextId(fragId), now, body)
  }

  lemma LitPrefix(b: seq<byte>, rest: seq<Octet>)
    ensures var p := Lits(b) + rest; AllLit(p[..|b|]) && Values(p[..|b|]) == b && p[|b|..] == rest
  {
    var p := Lits(b) + rest;
    assert p[..|b|] == Lits(b);
    assert Values(p[..|b|]) == b;
  }

  /** A fragment packet, its per-hop fields rewritten, is read back as that fragment. */
  lemma FragmentReadBack(h: Header, id: u32, fh: FragHeader, part: seq<Octet>, h': Header)
    requires h.Has(FRAGMENTED) && fh.index < fh.total && SamePath(h.(packetId := id), h')
    ensures
      var p := SessionPacket(h', FragmentPacket(h, id, (fh, part)).payload);
      FragHeaderOf(p) == Some(fh) && p.payload[FRAG_HEADER_LEN..] == part
  {
    LitPrefix(fh.Bytes(), part);
    FragRoundTrip(fh, []);
    assert fh.Bytes() + [] == fh.Bytes();
    assert h'.flags == h.flags;
  }

  /** A fragment of a tracked message goes through reassembly. */
  lemma FragmentReassembles(cfg: Frag.Config, r: Frag.State<Octet>, m: Reassembly.Message<Octet>, f: u16, hf: Header, id: u32, i: byte,
                            h': Header, now: nat, msgs: map<Frag.Key, Reassembly.Message<Octet>>, seen: Reassembly.Seen)
    requires hf.Has(FRAGMENTED) && Reassembly.Splittable(m) && i < Reassembly.Pieces(m) && SamePath(hf.(packetId := id), h')
    requires Reassembly.AllSplittable(msgs) && Reassembly.Tracks(cfg, r, msgs, seen)
    requires
      var key := (hf.src, f);
      key in msgs && msgs[key] == m && (key, i as nat) !in seen && Reassembly.Fits(cfg, r, key, |Frag.Part(m.body, m.chunk, i)|)
    ensures
      var key := (hf.src, f);
      var seen' := seen + {(key, i as nat)};
      var p := FragmentPacket(hf, id, (FragHeader(f, i, Reassembly.Pieces(m)), Frag.Part(m.body, m.chunk, i)));
      var (r', got) := Reassemble(cfg, r, SessionPacket(h', p.payload), now);
      && Reassembly.Tracks(cfg, r', msgs, seen')
      && got == if Reassembly.Complete(m, key, seen') then Some((m.body, Some(f))) else None
  {
    var fh := FragHeader(f, i, Reassembly.Pieces(m));
    FragmentReadBack(hf, id, fh, Frag.Part(m.body, m.chunk, i), h');
    var key := (hf.src, f);
    Reassembly.ArrivalStep(cfg, r, msgs, seen, Reassembly.Arrival(now, key, i));
  }

  /** What opening a packet gives, from what its reassembly gives. */
  lemma OpenUnfold(cfg: Frag.Config, r: Frag.State<Octet>, t: Session, p: SessionPacket, now: nat,
                   r': Frag.State<Octet>, full: Option<(seq<Octet>, Option<u16>)>, body: seq<Octet>)
    requires Reassemble(cfg, r, p, now) == (r', full)
    requires full.Some? ==> t.Decrypt(now, TransportAad(p.header, full.value.1), full.value.0).result == Ok(body)
    ensures
      var o := OpenPayload(cfg, r, t, p, now);
      o.0 == r' && o.2 == (if full.Some? then Some(body) else None) && (full.None? ==> o.1 == t)
  {
  }

  /** One fragment of our message arrives, in the middle of whatever else is being
      reassembled: it is opened to the original body exactly when it completes the
      message, and the session is not touched before that. */
  lemma FragmentArrives(cfg: Frag.Config, r: Frag.State<Octet>, s: Session, t: Session, h: Header, fragId: u16, ids: nat -> u32,
                        now: nat, now': nat, body: seq<Octet>, i: byte, h': Header,
                        msgs: map<Frag.Key, Reassembly.Message<Octet>>, seen: Reassembly.Seen)
    requires FragmentedSend(s, h, fragId, ids, now, body)
    requires Peers(s, t) && t.replay.Check(s.sendCtr)
    requires i < |SendSession(s, h, fragId, ids, now, body).result.value|
    requires SamePath(SendSession(s, h, fragId, ids, now, body).result.value[i].header, h')
    requires Reassembly.AllSplittable(msgs) && Reassembly.Tracks(cfg, r, msgs, seen)
    requires Carries(s, h, fragId, ids, now, body, msgs)
    requires
      var key := (h.src, NextId(fragId));
      (key, i as nat) !in seen && Reassembly.Fits(cfg, r, key, |Frag.Part(msgs[key].body, msgs[key].chunk, i)|)
    ensures
      var key := (h.src, NextId(fragId));
      var seen' := seen + {(key, i as nat)};
      var p := SendSession(s, h, fragId, ids, now, body).result.value[i];
      var o := OpenPayload(cfg, r, t, SessionPacket(h', p.payload), now');
      && Reassembly.Tracks(cfg, o.0, msgs, seen')
      && o.2 == (if Reassembly.Complete(msgs[key], key, seen') then Some(body) else None)
      && (o.2.None? ==> o.1 == t)
  {
    var f := NextId(fragId);
    var key := (h.src, f);
    var hf := h.Set(FRAGMENTED, true);
    var id: u32 := if i == 0 then h.packetId else ids(i);
    FragmentedSendShape(s, h, fragId, ids, now, body);
    SetFragmented(h);
    var m := SentMessage(s, h, f, now, body);
    var p := SendSession(s, h, fragId, ids, now, body).result.value[i];
    FragmentReassembles(cfg, r, m, f, hf, id, i, h', now', msgs, seen);
    var (r', full) := Reassemble(cfg, r, SessionPacket(h', p.payload), now');
    AadStable(hf, h', id, f);
    DecryptsSent(s, t, now, now', TransportAad(hf, Some(f)), body);
    OpenUnfold(cfg, r, t, SessionPacket(h', p.payload), now', r', full, body);
  }

  /** Fragment `i` arrives at `now` with the header `header`. */
  datatype Delivery = Delivery(i: byte, header: Header, now: nat)

  /** What opening the deliveries one after the other returns. */
  ghost function OpenAll(cfg: Frag.Config, r: Frag.State<Octet>, t: Session, ps: seq<SessionPacket>, ds: seq<Delivery>): (out: seq<Option<seq<Octet>>>)
    requires forall d <- ds :: d.i < |ps|
    ensures |out| == |ds|
    decreases |ds|
  {
    if ds == [] then []
    else
      var d := ds[0];
      assert d in ds;
      var o := OpenPayload(cfg, r, t, SessionPacket(d.header, ps[d.i].payload), d.now);
      [o.2] + OpenAll(cfg, o.0, o.1, ps, ds[1..])
  }

  /** The deliveries are fragments of the send, each at most once and not seen before,
      with only per-hop fields rewritten. */
  ghost predicate FreshDeliveries(ps: seq<SessionPacket>, ds: seq<Delivery>, key: Frag.Key, seen: Reassembly.Seen) {
    && (forall d <- ds :: d.i < |ps| && SamePath(ps[d.i].header, d.header) && (key, d.i as nat) !in seen)
    && (forall a, b :: 0 <= a < b < |ds| ==> ds[a].i != ds[b].i)
  }

  lemma FreshTail(ps: seq<SessionPacket>, ds: seq<Delivery>, key: Frag.Key, seen: Reassembly.Seen)
    requires ds != [] && FreshDeliveries(ps, ds, key, seen)
    ensures ds[0].i < |ps| && SamePath(ps[ds[0].i].header, ds[0].header) && (key, ds[0].i as nat) !in seen
    ensures FreshDeliveries(ps, ds[1..], key, seen + {(key, ds[0].i as nat)})
  {
    assert ds[0] in ds;
    var seen' := seen + {(key, ds[0].i as nat)};
    forall d <- ds[1..] ensures d.i < |ps| && SamePath(ps[d.i].header, d.header) && (key, d.i as nat) !in seen' {
      assert d in ds;
      var b :| 0 <= b < |ds[1..]| && ds[1..][b] == d;
      assert ds[0].i != ds[b + 1].i;
    }
  }

  /** The pieces seen once all deliveries have arrived. */
  ghost function SeenWith(key: Frag.Key, seen: Reassembly.Seen, ds: seq<Delivery>): Reassembly.Seen {
    seen + set d | d in ds :: (key, d.i as nat)
  }

  /** Deliver the fragments of one send in any order: nothing comes out before the last
      one, and the last one gives the body if the message is then complete. */
  lemma {:induction false} FragmentsArrive(cfg: Frag.Config, r: Frag.State<Octet>, s: Session, t: Session, h: Header, fragId: u16, ids: nat -> u32,
                                           now: nat, body: seq<Octet>, ds: seq<Delivery>,
                                           msgs: map<Frag.Key, Reassembly.Message<Octet>>, seen: Reassembly.Seen)
    requires FragmentedSend(s, h, fragId, ids, now, body) && ds != []
    requires Peers(s, t) && t.replay.Check(s.sendCtr)
    requires FreshDeliveries(SendSession(s, h, fragId, ids, now, body).result.value, ds, (h.src, NextId(fragId)), seen)
    requires Reassembly.AllSplittable(msgs) && Reassembly.Tracks(cfg, r, msgs, seen)
    requires Reassembly.Roomy(cfg, msgs)
    requires Carries(s, h, fragId, ids, now, body, msgs)
    ensures
      var ps := SendSession(s, h, fragId, ids, now, body).result.value;
      var key := (h.src, NextId(fragId));
      var out := OpenAll(cfg, r, t, ps, ds);
      OnlyLast(out, if Reassembly.Complete(msgs[key], key, SeenWith(key, seen, ds)) then Some(body) else None)
    decreases |ds|
  {
    var ps := SendSession(s, h, fragId, ids, now, body).result.value;
    var key := (h.src, NextId(fragId));
    var r', t', got := FirstDelivery(cfg, r, s, t, h, fragId, ids, now, body, ds, msgs, seen);
    var seen' := seen + {(key, ds[0].i as nat)};
    SeenWithTail(key, seen, ds);
    if |ds| == 1 {
      LastOfOne(cfg, r', t', ps, ds, got);
    } else {
      assert ds[1..][0] in ds[1..] && (key, ds[1].i as nat) !in seen';
      FragmentsArrive(cfg, r', s, t, h, fragId, ids, now, body, ds[1..], msgs, seen');
      NoneBefore(OpenAll(cfg, r', t', ps, ds[1..]), if Reassembly.Complete(msgs[key], key, SeenWith(key, seen, ds)) then Some(body) else None);
    }
  }

  /** Nothing but the last output, which is `last`. */
  ghost predicate OnlyLast(out: seq<Option<seq<Octet>>>, last: Option<seq<Octet>>) {
    |out| > 0 && out[|out| - 1] == last && forall j :: 0 <= j < |out| - 1 ==> out[j] == None
  }

  lemma NoneBefore(out: seq<Option<seq<Octet>>>, last: Option<seq<Octet>>)
    requires OnlyLast(out, last)
    ensures OnlyLast([None] + out, last)
  {
  }

  lemma LastOfOne(cfg: Frag.Config, r: Frag.State<Octet>, t: Session, ps: seq<SessionPacket>, ds: seq<Delivery>, got: Option<seq<Octet>>)
    requires |ds| == 1
    ensures OnlyLast([got] + OpenAll(cfg, r, t, ps, ds[1..]), got)
  {
  }

  /** The first of the deliveries, and what is left to do after it. */
  lemma FirstDelivery(cfg: Frag.Config, r: Frag.State<Octet>, s: Session, t: Session, h: Header, fragId: u16, ids: nat -> u32,
                      now: nat, body: seq<Octet>, ds: seq<Delivery>,
                      msgs: map<Frag.Key, Reassembly.Message<Octet>>, seen: Reassembly.Seen)
    returns (r': Frag.State<Octet>, t': Session, got: Option<seq<Octet>>)
    requires FragmentedSend(s, h, fragId, ids, now, body) && ds != []
    requires Peers(s, t) && t.replay.Check(s.sendCtr)
    requires FreshDeliveries(SendSession(s, h, fragId, ids, now, body).result.value, ds, (h.src, NextId(fragId)), seen)
    requires Reassembly.AllSplittable(msgs) && Reassembly.Tracks(cfg, r, msgs, seen)
    requires Reassembly.Roomy(cfg, msgs)
    requires Carries(s, h, fragId, ids, now, body, msgs)
    ensures
      var ps := SendSession(s, h, fragId, ids, now, body).result.value;
      var key := (h.src, NextId(fragId));
      var seen' := seen + {(key, ds[0].i as nat)};
      && OpenAll(cfg, r, t, ps, ds) == [got] + OpenAll(cfg, r', t', ps, ds[1..])
      && FreshDeliveries(ps, ds[1..], key, seen') && Reassembly.Tracks(cfg, r', msgs, seen')
      && got == (if Reassembly.Complete(msgs[key], key, seen') then Some(body) else None) && (got.None? ==> t' == t)
      && ds[0].i < Reassembly.Pieces(msgs[key])
      && (|ds| > 1 ==> ds[1].i < Reassembly.Pieces(msgs[key]))
  {
    var ps := SendSession(s, h, fragId, ids, now, body).result.value;
    var key := (h.src, NextId(fragId));
    var d := ds[0];
    FreshTail(ps, ds, key, seen);
    FragmentedSendShape(s, h, fragId, ids, now, body);
    Reassembly.FitsInAdvance(cfg, r, msgs, seen, key, d.i);
    FragmentArrives(cfg, r, s, t, h, fragId, ids, now, d.now, body, d.i, d.header, msgs, seen);
    var o := OpenPayload(cfg, r, t, SessionPacket(d.header, ps[d.i].payload), d.now);
    r', t', got := o.0, o.1, o.2;
    if |ds| > 1 { assert ds[1] in ds; }
  }

  lemma SeenWithTail(key: Frag.Key, seen: Reassembly.Seen, ds: seq<Delivery>)
    requires ds != []
    ensures SeenWith(key, seen, ds) == SeenWith(key, seen + {(key, ds[0].i as nat)}, ds[1..])
    ensures |ds| == 1 ==> SeenWith(key, seen, ds) == seen + {(key, ds[0].i as nat)}
  {
    assert ds == [ds[0]] + ds[1..];
  }

  /** A fragmented body is recovered exactly, whatever order its fragments arrive in and
      whatever the relays wrote into the per-hop fields: nothing comes out before the
      last fragment, and the last one, whichever it is, gives the body. */
  lemma FragmentedArrives(cfg: Frag.Config, r: Frag.State<Octet>, s: Session, t: Session, h: Header, fragId: u16, ids: nat -> u32,
                          now: nat, body: seq<Octet>, ds: seq<Delivery>,
                          msgs: map<Frag.Key, Reassembly.Message<Octet>>, seen: Reassembly.Seen)
    requires FragmentedSend(s, h, fragId, ids, now, body)
    requires Peers(s, t) && t.replay.Check(s.sendCtr)
    requires FreshDeliveries(SendSession(s, h, fragId, ids, now, body).result.value, ds, (h.src, NextId(fragId)), seen)
    requires |ds| == |SendSession(s, h, fragId, ids, now, body).result.value|
    requires Reassembly.AllSplittable(msgs) && Reassembly.Tracks(cfg, r, msgs, seen)
    requires Reassembly.Roomy(cfg, msgs)
    requires Carries(s, h, fragId, ids, now, body, msgs)
    ensures
      OnlyLast(OpenAll(cfg, r, t, SendSession(s, h, fragId, ids, now, body).result.value, ds), Some(body))
  {
    var ps := SendSession(s, h, fragId, ids, now, body).result.value;
    var key := (h.src, NextId(fragId));
    FragmentedSendShape(s, h, fragId, ids, now, body);
    FragmentsArrive(cfg, r, s, t, h, fragId, ids, now, body, ds, msgs, seen);
    forall i: nat | i < |ps| ensures (key, i) in SeenWith(key, seen, ds) {
      var d := Covered(ds, |ps|, i);
    }
  }

  /** As long as some fragment is missing, because it was lost or never handed to the router,
      no delivery of the others gives anything. */
  lemma {:induction false} IncompleteStaysShut(cfg: Frag.Config, r: Frag.State<Octet>, s: Session, t: Session, h: Header, fragId: u16, ids: nat -> u32,
                            now: nat, body: seq<Octet>, ds: seq<Delivery>, missing: nat,
                            msgs: map<Frag.Key, Reassembly.Message<Octet>>, seen: Reassembly.Seen)
    requires FragmentedSend(s, h, fragId, ids, now, body) && ds != []
    requires Peers(s, t) && t.replay.Check(s.sendCtr)
    requires FreshDeliveries(SendSession(s, h, fragId, ids, now, body).result.value, ds, (h.src, NextId(fragId)), seen)
    requires missing < |SendSession(s, h, fragId, ids, now, body).result.value|
    requires ((h.src, NextId(fragId)), missing) !in seen && forall d <- ds :: d.i != missing
    requires Reassembly.AllSplittable(msgs) && Reassembly.Tracks(cfg, r, msgs, seen)
    requires Reassembly.Roomy(cfg, msgs)
    requires Carries(s, h, fragId, ids, now, body, msgs)
    ensures
      forall o <- OpenAll(cfg, r, t, SendSession(s, h, fragId, ids, now, body).result.value, ds) :: o == None
  {
    var key := (h.src, NextId(fragId));
    FragmentedSendShape(s, h, fragId, ids, now, body);
    FragmentsArrive(cfg, r, s, t, h, fragId, ids, now, body, ds, msgs, seen);
    MissingKeepsOpen(msgs[key], key, seen, ds, missing);
    AllNone(OpenAll(cfg, r, t, SendSession(s, h, fragId, ids, now, body).result.value, ds));
  }

  lemma MissingKeepsOpen(m: Reassembly.Message<Octet>, key: Frag.Key, seen: Reassembly.Seen, ds: seq<Delivery>, missing: nat)
    requires Reassembly.Splittable(m) && missing < Reassembly.Pieces(m) && (key, missing) !in seen && forall d <- ds :: d.i != missing
    ensures !Reassembly.Complete(m, key, SeenWith(key, seen, ds))
  {
    assert (key, missing) !in SeenWith(key, seen, ds);
  }

  lemma AllNone(out: seq<Option<seq<Octet>>>)
    ensures OnlyLast(out, None) ==> forall o <- out :: o == None
  {
  }

  /** As many different indices as there are fragments cover them all. */
  lemma Covered(ds: seq<Delivery>, n: nat, i: nat) returns (d: Delivery)
    requires |ds| == n && i < n
    requires (forall d <- ds :: d.i < n) && forall a, b :: 0 <= a < b < |ds| ==> ds[a].i != ds[b].i
    ensures d in ds && d.i == i
  {
    var got := set d | d in ds :: d.i as nat;
    var all := Range(n);
    DistinctCount(ds);
    if got < all {
      StrictSubsetSize(got, all);
    }
    assert i in all && got == all;
    d :| d in ds && d.i == i;
  }

  lemma StrictSubsetSize(a: set<nat>, b: set<nat>)
    requires a < b
    ensures |a| < |b|
  {
    var x :| x in b && x !in a;
    Frag.SubsetSize(a, b - {x});
  }

  lemma {:induction false} DistinctCount(ds: seq<Delivery>)
    requires forall a, b :: 0 <= a < b < |ds| ==> ds[a].i != ds[b].i
    ensures |set d | d in ds :: d.i as nat| == |ds|
    decreases |ds|
  {
    if ds != [] {
      DistinctCount(ds[1..]);
      var rest := set d | d in ds[1..] :: d.i as nat;
      assert (set d | d in ds :: d.i as nat) == rest + {ds[0].i as nat} by { assert ds == [ds[0]] + ds[1..]; }
      forall d <- ds[1..] ensures d.i != ds[0].i {
        var b :| 0 <= b < |ds[1..]| && ds[1..][b] == d;
        assert d == ds[b + 1];
      }
    }
  }

  /** The numbers below `n`. */
  ghost function Range(n: nat): (r: set<nat>)
    ensures |r| == n && forall k: nat :: k in r <==> k < n
  {
    if n == 0 then {} else Range(n - 1) + {n - 1}
  }
}
