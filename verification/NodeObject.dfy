/** The handshake and session tables of a node as the object that updates them in
    place.  Each method does exactly what the specification function of the same
    name in `NodeSession` says, early returns included. */
module NodeObject {
  import opened Basics
  import opened Crypto
  import opened Noise
  import opened HandshakeObject
  import Spec = NodeSession
  import opened NodeSession

  class SessionNode {
    const id: PublicIdentity
    const address: Address
    const role: byte
    const addr: AddressOf
    var handshakes: map<Address, Pending>
    var sessions: map<Address, Session>
    /** Handshake packets handed to the router, oldest first. */
    var outbox: seq<Sent>
    /** Queued sends handed to the session layer. */
    var released: seq<QueuedSend>
    /** Queued sends reported as failed. */
    var failed: seq<QueuedSend>

    function Model(): Node
      reads this
    {
      Node(id, address, role, handshakes, sessions)
    }

    /** The effect `f` happened to the given logs. */
    ghost predicate Did(out: seq<Sent>, rel: seq<QueuedSend>, fail: seq<QueuedSend>, f: Effect)
      reads this
    {
      Model() == f.node && outbox == out + f.sent && released == rel + f.released && failed == fail + f.failed
    }

    constructor (id: PublicIdentity, addr: AddressOf, role: byte)
      ensures Model() == Node(id, addr(id), role, map[], map[])
      ensures outbox == [] && released == [] && failed == [] && this.addr == addr
    {
      this.id, this.address, this.addr, this.role := id, addr(id), addr, role;
      handshakes, sessions, outbox, released, failed := map[], map[], [], [], [];
    }

    method SendHandshakePacket(peer: Address, msg: Message)
      modifies this`outbox
      ensures outbox == old(outbox) + [Sent(peer, msg)]
    {
      outbox := outbox + [Sent(peer, msg)];
    }

    method StartHandshake(peer: Address, e: nat, now: nat)
      modifies this
      ensures Did(old(outbox), old(released), old(failed), Spec.StartHandshake(old(Model()), peer, e, now))
    {
      if peer in handshakes || peer == address { return; }
      var epoch: byte := if peer in sessions then (sessions[peer].epoch + 1) % 256 else 0;
      var hs := new HandshakeXX(Initiator, id, Prologue(address, peer), e);
      var m1 := hs.WriteMessage1(Payload1(role, epoch));
      if m1.Err? { return; }
      handshakes := handshakes[peer := Pending(hs.Model(), now, epoch, [], 1, Some(m1.value), None, None)];
      SendHandshakePacket(peer, m1.value);
    }

    method ResponderStart(peer: Address, msg: Message, e: nat, now: nat) returns (m2: Option<Message>)
      modifies this`handshakes
      ensures (Model(), m2) == Spec.ResponderStart(old(Model()), peer, msg, e, now)
    {
      if !msg.M1? { return None; }
      if peer in handshakes {
        var h := handshakes[peer];
        if h.hs.role.Initiator? {
          if address < peer { return None; }
        } else if h.re == Some(msg.e) {
          return h.m2;
        }
      }
      var queued := if peer in handshakes then handshakes[peer].queued else [];
      handshakes := handshakes - {peer};
      var hs := new HandshakeXX(Responder, id, Prologue(peer, address), e);
      var p := hs.ReadMessage1(msg);
      if p.Err? { return None; }
      var w := hs.WriteMessage2(Data([Lit(role)]));
      if w.Err? { return None; }
      m2 := Some(w.value);
      handshakes := handshakes[peer := Pending(hs.Model(), now, EpochOf(p.value), queued, 1, None, Some(msg.e), m2)];
    }

    /** File the session and hand the queue to the session layer. */
    method InstallSession(peer: Address, h: Pending, keys: TransportKeys, remote: PublicIdentity, m3: Option<Message>, now: nat)
      modifies this`sessions, this`released
      ensures sessions == old(sessions)[peer := Session(remote, h.epoch, keys, now, m3, 0)]
      ensures released == old(released) + h.queued
    {
      sessions := sessions[peer := Session(remote, h.epoch, keys, now, None, 0)];
      if m3.Some? {
        sessions := sessions[peer := sessions[peer].(m3 := m3)];
      }
      var i := 0;
      while i < |h.queued|
        invariant 0 <= i <= |h.queued|
        invariant released == old(released) + h.queued[..i]
        invariant sessions == old(sessions)[peer := Session(remote, h.epoch, keys, now, m3, 0)]
      {
        released := released + [h.queued[i]];
        i := i + 1;
      }
    }

    method InitiatorContinue(peer: Address, msg: Message, now: nat) returns (done: bool)
      modifies this
      ensures Did(old(outbox), old(released), old(failed), Spec.InitiatorContinue(addr, old(Model()), peer, msg, now))
      ensures done == Spec.InitiatorContinue(addr, old(Model()), peer, msg, now).installed.Some?
    {
      if peer !in handshakes || !handshakes[peer].hs.role.Initiator? { return false; }
      var h := handshakes[peer];
      var hs := new HandshakeXX.Resume(h.hs);
      var r := hs.ReadMessage2(msg);
      if r.Err? {
        handshakes := handshakes[peer := h.(hs := hs.Model())];
        return false;
      }
      if hs.remote.None? || addr(hs.remote.value) != peer {
        handshakes := handshakes - {peer};
        return false;
      }
      done := SendMessage3(peer, h, hs, now);
    }

    method SendMessage3(peer: Address, h: Pending, hs: HandshakeXX, now: nat) returns (done: bool)
      modifies this, hs
      ensures Did(old(outbox), old(released), old(failed), Spec.SendMessage3(old(Model()), peer, h, old(hs.Model()), now))
      ensures done == Spec.SendMessage3(old(Model()), peer, h, old(hs.Model()), now).installed.Some?
    {
      var m3 := hs.WriteMessage3(Data([Lit(role)]));
      if m3.Err? {
        handshakes := handshakes[peer := h.(hs := hs.Model())];
        return false;
      }
      handshakes := handshakes - {peer};
      var end := hs.Finish();
      done := end.Ok?;
      if done {
        SendHandshakePacket(peer, m3.value);
        InstallSession(peer, h, end.value.0, end.value.1, Some(m3.value), now);
      }
    }

    method ResponderFinish(peer: Address, msg: Message, now: nat)
      modifies this
      ensures Did(old(outbox), old(released), old(failed), Spec.ResponderFinish(addr, old(Model()), peer, msg, now))
    {
      if peer !in handshakes { return; }
      var h := handshakes[peer];
      if h.hs.role != Responder { return; }
      var hs := new HandshakeXX.Resume(h.hs);
      var r := hs.ReadMessage3(msg);
      if r.Err? {
        handshakes := handshakes[peer := h.(hs := hs.Model())];
        return;
      }
      handshakes := handshakes - {peer};
      if hs.remote.None? || addr(hs.remote.value) != peer { return; }
      var end := hs.Finish();
      if end.Ok? {
        InstallSession(peer, h, end.value.0, end.value.1, None, now);
      }
    }

    method HandleHandshake(src: Address, no: Number, msg: Message, e: nat, now: nat)
      modifies this
      ensures Did(old(outbox), old(released), old(failed), Spec.HandleHandshake(addr, old(Model()), src, no, msg, e, now))
    {
      match no {
        case One =>
          var m2 := ResponderStart(src, msg, e, now);
          if m2.Some? { SendHandshakePacket(src, m2.value); }
        case Two =>
          var done := InitiatorContinue(src, msg, now);
        case Three =>
          ResponderFinish(src, msg, now);
      }
    }

    method SendOrQueue(q: QueuedSend, e: nat, now: nat)
      modifies this
      ensures Did(old(outbox), old(released), old(failed), Spec.SendOrQueue(old(Model()), q, e, now))
    {
      if q.dst in sessions {
        released := released + [q];
        return;
      }
      if q.dst in handshakes {
        var h := handshakes[q.dst];
        if |h.queued| < MAX_QUEUED {
          handshakes := handshakes[q.dst := h.(queued := h.queued + [q])];
        } else {
          failed := failed + [q];
        }
        return;
      }
      StartHandshake(q.dst, e, now);
      if q.dst in handshakes {
        var h := handshakes[q.dst];
        handshakes := handshakes[q.dst := h.(queued := h.queued + [q])];
      } else {
        failed := failed + [q];
      }
    }

    method OnNoSessionNotice(peer: Address, os: seq<Outstanding>, timeout: nat, e: nat, now: nat)
      modifies this
      ensures Did(old(outbox), old(released), old(failed), NoSessionNotice(old(Model()), peer, os, timeout, e, now))
    {
      if peer !in sessions { return; }
      var s := sessions[peer];
      if s.m3Resends < 3 && SatSub(now, s.establishedAt) <= timeout {
        if s.m3.Some? {
          sessions := sessions[peer := s.(m3Resends := s.m3Resends + 1)];
          SendHandshakePacket(peer, s.m3.value);
          return;
        }
      }
      sessions := sessions - {peer};
      SendAgain(peer, os, e, now);
    }

    /** One more send after the effect `f`. */
    method SendNext(q: QueuedSend, e: nat, now: nat, ghost out: seq<Sent>, ghost rel: seq<QueuedSend>, ghost fail: seq<QueuedSend>, ghost f: Effect)
      requires Did(out, rel, fail, f)
      modifies this
      ensures Did(out, rel, fail, f.Then(Spec.SendOrQueue(f.node, q, e, now)))
    {
      SendOrQueue(q, e, now);
    }

    /** Send what was under way once more.  The first send opens the handshake with the
        ephemeral `e` unless one is in flight; the others queue behind it. */
    method SendAgain(peer: Address, os: seq<Outstanding>, e: nat, now: nat)
      requires peer !in sessions
      modifies this
      ensures Did(old(outbox), old(released), old(failed), Requeued(old(Model()), peer, Again(peer, os), e, now))
    {
      ghost var n, f := Model(), Quiet(Model());
      var i := 0;
      while i < |os|
        invariant 0 <= i <= |os|
        invariant f == Requeued(n, peer, Again(peer, os[..i]), e, now)
        invariant Did(old(outbox), old(released), old(failed), f)
      {
        assert os[..i + 1][..i] == os[..i];
        ghost var qs := Again(peer, os[..i]);
        if os[i].deferred {
          assert qs + [] == qs;
        } else {
          var q := QueuedSend(peer, os[i].payload, os[i].handle);
          RequeueOne(n, peer, qs, q, e, now);
          SendNext(q, e, now, old(outbox), old(released), old(failed), f);
          f := f.Then(Spec.SendOrQueue(f.node, q, e, now));
        }
        i := i + 1;
      }
      assert os[..|os|] == os;
    }
  }
}
