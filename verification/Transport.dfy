/** Established transport sessions: explicit 24-bit counters, a replay window per
    direction, the immutable header as associated data. */
module Transport {
  import opened Basics
  import opened Crypto
  import opened Noise
  import opened Replay

  const TAG_LEN := 16
  /** Epoch, counter and tag. */
  const OVERHEAD := 4 + TAG_LEN
  /** Counter value from which `encrypt` refuses. */
  const COUNTER_THRESHOLD: nat := 0x100_0000 - 4096

  /** The bytes of a ciphertext on the wire. */
  function Octets(ct: Term): (s: seq<Octet>)
    requires ct.Aead? && ct.pt.Data?
    ensures |s| == |ct.pt.bytes| + TAG_LEN
    ensures forall i :: 0 <= i < |s| ==> s[i] == Ct(ct, i)
  {
    seq(|ct.pt.bytes| + TAG_LEN, i requires 0 <= i => Ct(ct, i))
  }

  /** Decrypt wire bytes: only the complete octets of one matching encryption open. */
  function DecryptOctets(k: Term, n: nat, ad: Term, cs: seq<Octet>): (r: Result<seq<Octet>>)
    ensures forall pt :: r == Ok(pt) <==> |cs| >= TAG_LEN && cs == Octets(EncryptN(k, n, ad, Data(pt)))
  {
    if |cs| < TAG_LEN then Err(Truncated)
    else if !cs[0].Ct? || !cs[0].ct.Aead? || !cs[0].ct.pt.Data? || cs != Octets(cs[0].ct) then Err(AuthFailed)
    else
      match DecryptN(k, n, ad, cs[0].ct)
      case Ok(pt) => Ok(pt.bytes)
      case Err(e) => Err(e)
  }

  /** The associated data of a transport message. */
  function FullAd(aad: seq<byte>, epoch: byte, ctr: nat): seq<byte> {
    aad + [epoch] + Be(ctr, 3)
  }

  /** The transport payload for one call of `encrypt`. */
  function Wire(key: Term, epoch: byte, ctr: nat, aad: seq<byte>, pt: seq<Octet>): (s: seq<Octet>)
    ensures |s| == OVERHEAD + |pt|
  {
    [Lit(epoch)] + Lits(Be(ctr, 3)) + Octets(EncryptN(key, ctr, Data(Lits(FullAd(aad, epoch, ctr))), Data(pt)))
  }

  datatype Session = Session(
    epoch: byte, sendKey: Term, recvKey: Term, sendCtr: nat, replay: Window,
    sent: nat, received: nat, lastActivity: nat)
  {
    function Encrypt(now: nat, aad: seq<byte>, pt: seq<Octet>): Outcome<Session, seq<Octet>> {
      if sendCtr >= COUNTER_THRESHOLD then Outcome(this, Err(Expired))
      else Outcome(this.(sendCtr := sendCtr + 1, sent := sent + 1, lastActivity := now),
                   Ok(Wire(sendKey, epoch, sendCtr, aad, pt)))
    }

    function Decrypt(now: nat, aad: seq<byte>, payload: seq<Octet>): Outcome<Session, seq<Octet>> {
      if |payload| < OVERHEAD then Outcome(this, Err(Truncated))
      else if payload[0] != Lit(epoch) then Outcome(this, Err(NoSession))
      else if !(payload[1].Lit? && payload[2].Lit? && payload[3].Lit?) then Outcome(this, Err(AuthFailed))
      else
        var ctr := FromBe([payload[1].v, payload[2].v, payload[3].v]);
        if !replay.Check(ctr) then Outcome(this, Err(Error.Replay))
        else
          match DecryptOctets(recvKey, ctr, Data(Lits(FullAd(aad, epoch, ctr))), payload[4..])
          case Err(e) => Outcome(this, Err(e))
          case Ok(pt) =>
            Outcome(this.(replay := replay.Offer(ctr), received := received + 1, lastActivity := now), Ok(pt))
    }
  }

  /** A session as installed. */
  function InstalledSession(epoch: byte, send: Term, recv: Term, now: nat): Session {
    Session(epoch, send, recv, 0, Replay.EMPTY, 0, 0, now)
  }

  lemma CounterBytes(ctr: nat)
    requires ctr < 0x100_0000
    ensures FromBe(Be(ctr, 3)) == ctr
  {
    Pow256Values();
    BeRoundTrip(ctr, 3);
  }

  /** Opening succeeds exactly on what the matching key encrypted under the same
      epoch, counter and header, provided the window lets the counter through. */
  lemma DecryptOpens(s: Session, now: nat, aad: seq<byte>, payload: seq<Octet>, pt: seq<Octet>)
    ensures s.Decrypt(now, aad, payload).result == Ok(pt) <==>
              exists ctr :: 0 <= ctr < 0x100_0000 && s.replay.Check(ctr) && payload == Wire(s.recvKey, s.epoch, ctr, aad, pt)
  {
    var o := s.Decrypt(now, aad, payload);
    if o.result == Ok(pt) {
      var b := [payload[1].v, payload[2].v, payload[3].v];
      var ctr := FromBe(b);
      Pow256Values();
      FromBeRoundTrip(b);
      var ct := payload[4..];
      assert payload == [payload[0]] + payload[1..4] + ct;
      assert payload[1..4] == Lits(Be(ctr, 3));
      assert payload == Wire(s.recvKey, s.epoch, ctr, aad, pt);
    }
    forall ctr | 0 <= ctr < 0x100_0000 && s.replay.Check(ctr) && payload == Wire(s.recvKey, s.epoch, ctr, aad, pt)
      ensures o.result == Ok(pt)
    {
      WireParts(s.recvKey, s.epoch, ctr, aad, pt);
    }
  }

  lemma WireParts(key: Term, epoch: byte, ctr: nat, aad: seq<byte>, pt: seq<Octet>)
    requires ctr < 0x100_0000
    ensures
      var w := Wire(key, epoch, ctr, aad, pt);
      && w[0] == Lit(epoch) && w[1].Lit? && w[2].Lit? && w[3].Lit? && FromBe([w[1].v, w[2].v, w[3].v]) == ctr
      && w[4..] == Octets(EncryptN(key, ctr, Data(Lits(FullAd(aad, epoch, ctr))), Data(pt)))
  {
    var w := Wire(key, epoch, ctr, aad, pt);
    var b := Be(ctr, 3);
    assert w[1] == Lit(b[0]) && w[2] == Lit(b[1]) && w[3] == Lit(b[2]);
    assert [w[1].v, w[2].v, w[3].v] == b;
    CounterBytes(ctr);
  }

  /** Two transport payloads are equal only if every input was. */
  lemma WireInjective(key: Term, epoch: byte, ctr: nat, aad: seq<byte>, pt: seq<Octet>,
                      key': Term, epoch': byte, ctr': nat, aad': seq<byte>, pt': seq<Octet>, i: nat, j: nat)
    requires 4 <= i < |Wire(key, epoch, ctr, aad, pt)| && 4 <= j < |Wire(key', epoch', ctr', aad', pt')|
    requires Wire(key, epoch, ctr, aad, pt)[i] == Wire(key', epoch', ctr', aad', pt')[j]
    ensures key == key' && ctr == ctr' && epoch == epoch' && aad == aad' && pt == pt' && i == j
  {
    var ad, ad' := FullAd(aad, epoch, ctr), FullAd(aad', epoch', ctr');
    assert Wire(key, epoch, ctr, aad, pt)[i] == Ct(EncryptN(key, ctr, Data(Lits(ad)), Data(pt)), i - 4);
    assert Wire(key', epoch', ctr', aad', pt')[j] == Ct(EncryptN(key', ctr', Data(Lits(ad')), Data(pt')), j - 4);
    LitsInjective(ad, ad');
    assert aad == ad[..|ad| - 4] && aad' == ad'[..|ad'| - 4];
    assert epoch == ad[|ad| - 4] && epoch' == ad'[|ad'| - 4];
  }

  // ----- two ends over a hostile network --------------------------------------------

  /** One successful call of `encrypt`. */
  datatype Call = Call(aad: seq<byte>, pt: seq<Octet>, payload: seq<Octet>)
  /** One successful call of `decrypt`. */
  datatype Got = Got(ctr: nat, aad: seq<byte>, pt: seq<Octet>)

  /** The two ends, what each encrypted and what each accepted. */
  datatype Duplex = Duplex(a: Session, b: Session, fromA: seq<Call>, fromB: seq<Call>, atA: seq<Got>, atB: seq<Got>) {
    function Flip(): Duplex { Duplex(b, a, fromB, fromA, atB, atA) }
  }

  datatype Event =
    | Send(byA: bool, now: nat, aad: seq<byte>, pt: seq<Octet>)
    | Deliver(toB: bool, now: nat, aad: seq<byte>, payload: seq<Octet>)

  /** The network cannot make ciphertext octets under the two session keys; it can
      only cut, splice, repeat and reorder the ones it has seen. */
  ghost predicate Unforged(d: Duplex, payload: seq<Octet>) {
    forall i :: 0 <= i < |payload| && payload[i].Ct? && payload[i].ct.Aead?
                && payload[i].ct.k in {d.a.sendKey, d.b.sendKey} ==>
      exists c: Call :: c in d.fromA + d.fromB && payload[i] in c.payload
  }

  ghost predicate Enabled(d: Duplex, ev: Event) {
    ev.Deliver? ==> Unforged(d, ev.payload)
  }

  ghost function SendA(d: Duplex, now: nat, aad: seq<byte>, pt: seq<Octet>): Duplex {
    var o := d.a.Encrypt(now, aad, pt);
    match o.result
    case Ok(p) => d.(a := o.state, fromA := d.fromA + [Call(aad, pt, p)])
    case Err(_) => d.(a := o.state)
  }

  ghost function DeliverB(d: Duplex, now: nat, aad: seq<byte>, payload: seq<Octet>): Duplex {
    var o := d.b.Decrypt(now, aad, payload);
    match o.result
    case Ok(pt) => d.(b := o.state, atB := d.atB + [Got(FromBe([payload[1].v, payload[2].v, payload[3].v]), aad, pt)])
    case Err(_) => d.(b := o.state)
  }

  ghost function Step(d: Duplex, ev: Event): Duplex {
    match ev
    case Send(byA, now, aad, pt) => if byA then SendA(d, now, aad, pt) else SendA(d.Flip(), now, aad, pt).Flip()
    case Deliver(toB, now, aad, p) => if toB then DeliverB(d, now, aad, p) else DeliverB(d.Flip(), now, aad, p).Flip()
  }

  ghost predicate Legal(d: Duplex, evs: seq<Event>)
    decreases |evs|
  {
    evs == [] || (Enabled(d, evs[0]) && Legal(Step(d, evs[0]), evs[1..]))
  }

  ghost function Run(d: Duplex, evs: seq<Event>): Duplex
    requires Legal(d, evs)
    decreases |evs|
  {
    if evs == [] then d else Run(Step(d, evs[0]), evs[1..])
  }

  /** The counters accepted so far. */
  ghost function Counters(got: seq<Got>): set<nat> {
    set g | g in got :: g.ctr
  }

  /** One direction: the sender's calls carry the counters 0, 1, 2 and so on, each
      encoded in three bytes; everything accepted was sent, with the same header and
      epoch, and no call is accepted twice. */
  ghost predicate Link(s: Session, r: Session, calls: seq<Call>, got: seq<Got>) {
    && s.sendKey == r.recvKey && s.epoch == r.epoch
    && s.sendCtr == |calls| <= COUNTER_THRESHOLD
    && (forall i :: 0 <= i < |calls| ==> calls[i].payload == Wire(s.sendKey, s.epoch, i, calls[i].aad, calls[i].pt))
    && (forall g <- got :: g.ctr < |calls| && g.aad == calls[g.ctr].aad && g.pt == calls[g.ctr].pt)
    && (forall i, j :: 0 <= i < j < |got| ==> got[i].ctr != got[j].ctr)
    && Represents(r.replay, Counters(got))
  }

  ghost predicate Inv(d: Duplex) {
    && d.a.sendKey != d.b.sendKey
    && Link(d.a, d.b, d.fromA, d.atB) && Link(d.b, d.a, d.fromB, d.atA)
  }

  /** One more call keeps a direction in order. */
  lemma LinkSends(s: Session, s': Session, r: Session, calls: seq<Call>, got: seq<Got>, c: Call)
    requires Link(s, r, calls, got) && s.sendCtr < COUNTER_THRESHOLD && c.payload == Wire(s.sendKey, s.epoch, s.sendCtr, c.aad, c.pt)
    requires s'.sendKey == s.sendKey && s'.epoch == s.epoch && s'.sendCtr == s.sendCtr + 1
    ensures Link(s', r, calls + [c], got)
  {
  }

  lemma SendKeeps(d: Duplex, now: nat, aad: seq<byte>, pt: seq<Octet>)
    requires Inv(d)
    ensures Inv(SendA(d, now, aad, pt))
  {
    var o := d.a.Encrypt(now, aad, pt);
    if o.result.Ok? { LinkSends(d.a, o.state, d.b, d.fromA, d.atB, Call(aad, pt, o.result.value)); }
  }

  /** An accepted payload is one that the peer's `encrypt` returned. */
  lemma AcceptedWasSent(d: Duplex, now: nat, aad: seq<byte>, payload: seq<Octet>, pt: seq<Octet>) returns (ctr: nat)
    requires Inv(d) && Unforged(d, payload)
    requires d.b.Decrypt(now, aad, payload).result == Ok(pt)
    ensures ctr < |d.fromA| && d.fromA[ctr].aad == aad && d.fromA[ctr].pt == pt && d.fromA[ctr].payload == payload
    ensures d.b.replay.Check(ctr)
    ensures payload == Wire(d.b.recvKey, d.b.epoch, ctr, aad, pt)
  {
    DecryptOpens(d.b, now, aad, payload, pt);
    ctr :| 0 <= ctr < 0x100_0000 && d.b.replay.Check(ctr) && payload == Wire(d.b.recvKey, d.b.epoch, ctr, aad, pt);
    WireParts(d.b.recvKey, d.b.epoch, ctr, aad, pt);
    assert payload[4] == payload[4..][0];
    var c: Call :| c in d.fromA + d.fromB && payload[4] in c.payload;
    SentOctet(d, payload, ctr, aad, pt, c);
  }

  lemma SentOctet(d: Duplex, payload: seq<Octet>, ctr: nat, aad: seq<byte>, pt: seq<Octet>, c: Call)
    requires Inv(d) && c in d.fromA + d.fromB
    requires payload == Wire(d.b.recvKey, d.b.epoch, ctr, aad, pt) && payload[4] in c.payload && payload[4].Ct?
    ensures ctr < |d.fromA| && d.fromA[ctr] == c && c.aad == aad && c.pt == pt && c.payload == payload
  {
    var j :| 0 <= j < |c.payload| && c.payload[j] == payload[4];
    var from, calls := if c in d.fromA then d.a else d.b, if c in d.fromA then d.fromA else d.fromB;
    var i :| 0 <= i < |calls| && calls[i] == c;
    LitPrefix(from.sendKey, from.epoch, i, c.aad, c.pt, j);
    WireInjective(d.b.recvKey, d.b.epoch, ctr, aad, pt, from.sendKey, from.epoch, i, c.aad, c.pt, 4, j);
  }

  lemma LitPrefix(key: Term, epoch: byte, ctr: nat, aad: seq<byte>, pt: seq<Octet>, j: nat)
    requires j < |Wire(key, epoch, ctr, aad, pt)| && Wire(key, epoch, ctr, aad, pt)[j].Ct?
    ensures j >= 4
  {
  }

  /** One more accepted payload keeps a direction in order. */
  lemma LinkAccepts(s: Session, r: Session, r': Session, calls: seq<Call>, got: seq<Got>, g: Got)
    requires Link(s, r, calls, got) && r.replay.Check(g.ctr)
    requires g.ctr < |calls| && g.aad == calls[g.ctr].aad && g.pt == calls[g.ctr].pt
    requires r'.recvKey == r.recvKey && r'.epoch == r.epoch && r'.replay == r.replay.Offer(g.ctr)
    ensures Link(s, r', calls, got + [g])
  {
    CheckIsFresh(r.replay, Counters(got), g.ctr);
    OfferRepresents(r.replay, Counters(got), g.ctr);
    assert Counters(got + [g]) == Counters(got) + {g.ctr};
    forall i | 0 <= i < |got| ensures got[i].ctr != g.ctr { assert got[i] in got; }
  }

  lemma DeliverKeeps(d: Duplex, now: nat, aad: seq<byte>, payload: seq<Octet>)
    requires Inv(d) && Unforged(d, payload)
    ensures Inv(DeliverB(d, now, aad, payload))
  {
    var o := d.b.Decrypt(now, aad, payload);
    if o.result.Ok? {
      var pt := o.result.value;
      var ctr := AcceptedWasSent(d, now, aad, payload, pt);
      WireParts(d.b.recvKey, d.b.epoch, ctr, aad, pt);
      LinkAccepts(d.a, d.b, o.state, d.fromA, d.atB, Got(ctr, aad, pt));
    }
  }

  lemma StepKeeps(d: Duplex, ev: Event)
    requires Inv(d) && Enabled(d, ev)
    ensures Inv(Step(d, ev))
  {
    match ev
    case Send(byA, now, aad, pt) =>
      if byA { SendKeeps(d, now, aad, pt); } else { SendKeeps(d.Flip(), now, aad, pt); }
    case Deliver(toB, now, aad, p) =>
      if toB { DeliverKeeps(d, now, aad, p); } else {
        assert Unforged(d.Flip(), p) by {
          forall i | 0 <= i < |p| && p[i].Ct? && p[i].ct.Aead? && p[i].ct.k in {d.b.sendKey, d.a.sendKey}
            ensures exists c: Call :: c in d.fromB + d.fromA && p[i] in c.payload
          {
            var c: Call :| c in d.fromA + d.fromB && p[i] in c.payload;
            assert c in d.fromB + d.fromA;
          }
        }
        DeliverKeeps(d.Flip(), now, aad, p);
      }
  }

  /** Over every run of two fresh sessions with swapped keys and any network that
      cannot forge: in both directions, everything `decrypt` returns was given to the
      peer's `encrypt` with the same header and epoch, no call of `encrypt` is accepted
      twice, and the counters used as nonces are distinct and fit three bytes. */
  lemma {:induction false} TransportSafe(d: Duplex, evs: seq<Event>)
    requires Inv(d) && Legal(d, evs)
    ensures Inv(Run(d, evs))
    decreases |evs|
  {
    if evs != [] {
      StepKeeps(d, evs[0]);
      TransportSafe(Step(d, evs[0]), evs[1..]);
    }
  }

  lemma FreshInv(epoch: byte, k1: Term, k2: Term, now: nat, now': nat)
    requires k1 != k2
    ensures Inv(Duplex(InstalledSession(epoch, k1, k2, now), InstalledSession(epoch, k2, k1, now'), [], [], [], []))
  {
  }

  /** No two `encrypt` calls share a nonce, whatever the headers and plaintexts: the
      payloads of one session never share a ciphertext octet. */
  lemma NoncesDistinct(d: Duplex, i: nat, j: nat)
    requires Inv(d) && i < j < |d.fromA|
    ensures d.fromA[i].payload[1..4] != d.fromA[j].payload[1..4]
    ensures forall x, y :: 4 <= x < |d.fromA[i].payload| && 4 <= y < |d.fromA[j].payload| ==> d.fromA[i].payload[x] != d.fromA[j].payload[y]
  {
    var c, c' := d.fromA[i], d.fromA[j];
    WireParts(d.a.sendKey, d.a.epoch, i, c.aad, c.pt);
    WireParts(d.a.sendKey, d.a.epoch, j, c'.aad, c'.pt);
    assert c.payload[1..4] == [c.payload[1], c.payload[2], c.payload[3]];
    assert c'.payload[1..4] == [c'.payload[1], c'.payload[2], c'.payload[3]];
    forall x, y | 4 <= x < |c.payload| && 4 <= y < |c'.payload| ensures c.payload[x] != c'.payload[y] {
      if c.payload[x] == c'.payload[y] {
        WireInjective(d.a.sendKey, d.a.epoch, i, c.aad, c.pt, d.a.sendKey, d.a.epoch, j, c'.aad, c'.pt, x, y);
      }
    }
  }

  /** A rejected payload changes nothing: the window least of all. */
  lemma RejectedUnchanged(s: Session, now: nat, aad: seq<byte>, payload: seq<Octet>)
    requires s.Decrypt(now, aad, payload).result.Err?
    ensures s.Decrypt(now, aad, payload).state == s
  {
  }

  /** Sessions installed by a completed handshake start such a run. */
  lemma MirroredKeysStart(i: Handshake, r: Handshake, epoch: byte, now: nat, now': nat)
    requires Mirrored(i, r)
    ensures
      var ki, kr := Finish(i).value.0, Finish(r).value.0;
      Inv(Duplex(InstalledSession(epoch, ki.send, ki.recv, now), InstalledSession(epoch, kr.send, kr.recv, now'), [], [], [], []))
  {
    var ki := Finish(i).value.0;
    FreshInv(epoch, ki.send, ki.recv, now, now');
  }

  // ----- the session object -------------------------------------------------------

  class SessionObject {
    const epoch: byte
    const sendKey: Term
    const recvKey: Term
    var sendCtr: nat
    const replay: ReplayWindow
    var sent: nat
    var received: nat
    var lastActivity: nat

    ghost predicate Valid()
      reads this, replay
    {
      replay.Valid()
    }

    function Model(): Session
      reads this, replay
    {
      Session(epoch, sendKey, recvKey, sendCtr, replay.Model(), sent, received, lastActivity)
    }

    constructor (epoch: byte, keys: TransportKeys, now: nat)
      ensures Valid() && fresh(replay) && Model() == InstalledSession(epoch, keys.send, keys.recv, now)
    {
      this.epoch, sendKey, recvKey := epoch, keys.send, keys.recv;
      sendCtr, sent, received, lastActivity := 0, 0, 0, now;
      replay := new ReplayWindow();
    }

    method Encrypt(now: nat, aad: seq<byte>, pt: seq<Octet>) returns (r: Result<seq<Octet>>)
      requires Valid()
      modifies this
      ensures Valid() && Outcome(Model(), r) == old(Model()).Encrypt(now, aad, pt)
    {
      if sendCtr >= COUNTER_THRESHOLD { return Err(Expired); }
      var ctr := sendCtr;
      sendCtr := sendCtr + 1;
      sent := sent + 1;
      lastActivity := now;
      var out := [Lit(epoch)];
      out := out + Lits(Be(ctr, 3));
      var ad := FullAd(aad, epoch, ctr);
      out := out + Octets(EncryptN(sendKey, ctr, Data(Lits(ad)), Data(pt)));
      return Ok(out);
    }

    /** The counter is marked as used only once authentication has succeeded. */
    method Decrypt(now: nat, aad: seq<byte>, payload: seq<Octet>) returns (r: Result<seq<Octet>>)
      requires Valid()
      modifies this, replay
      ensures Valid() && Outcome(Model(), r) == old(Model()).Decrypt(now, aad, payload)
    {
      if |payload| < OVERHEAD { return Err(Truncated); }
      if payload[0] != Lit(epoch) { return Err(NoSession); }
      if !(payload[1].Lit? && payload[2].Lit? && payload[3].Lit?) { return Err(AuthFailed); }
      var ctr := FromBe([payload[1].v, payload[2].v, payload[3].v]);
      var ok := replay.Check(ctr);
      if !ok { return Err(Error.Replay); }
      var ad := FullAd(aad, epoch, ctr);
      r := DecryptOctets(recvKey, ctr, Data(Lits(ad)), payload[4..]);
      if r.Err? { return; }
      var _ := replay.Accept(ctr);
      received := received + 1;
      lastActivity := now;
    }
  }
}
