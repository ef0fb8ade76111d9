/** What every call of an honest node keeps about its handshakes and sessions,
    whatever the network delivers to it. */
module HandshakeSteps {
  import opened Basics
  import opened Crypto
  import opened Noise
  import opened NodeSession
  import opened Worlds

  // ----- transcripts ------------------------------------------------------------

  /** Item `i` of the transcript hash `h` is `x`. */
  ghost predicate Item(h: Term, i: nat, x: Term) {
    i < |Transcript(h)| && Transcript(h)[i] == x
  }

  /** The hash a state may have after a read: nothing mixed in is ever taken out. */
  ghost predicate Extends(h: Term, h': Term) {
    h' == h || (h'.Hash? && Extends(h, h'.left))
  }

  lemma {:induction false} ExtendsKeeps(h: Term, h': Term)
    requires Extends(h, h')
    ensures |Transcript(h')| >= |Transcript(h)| && Transcript(h')[..|Transcript(h)|] == Transcript(h)
  {
    if h' != h { ExtendsKeeps(h, h'.left); }
  }

  lemma ReadStaticExtends(hs: Handshake, c1: Term, c2: Term, step: nat)
    ensures Extends(hs.ss.h, ReadStatic(hs, c1, c2, step).state.ss.h)
    ensures var o := ReadStatic(hs, c1, c2, step).state; o.role == hs.role && o.id == hs.id && o.e == hs.e
  {
    var o := ReadStatic(hs, c1, c2, step).state;
    var h1 := Hash(hs.ss.h, c1);
    assert o.ss.h == hs.ss.h || o.ss.h == h1 || o.ss.h == Hash(h1, c2);
    assert Extends(hs.ss.h, hs.ss.h);
    assert Extends(hs.ss.h, h1);
  }

  /** The symmetric state right after the identity payload `c`: the last item is a
      ciphertext over everything before it, under the key derived together with the
      chaining key. */
  ghost predicate Sealed(ss: SymmetricState) {
    && ss.h.Hash? && ss.h.right.Aead?
    && var c := ss.h.right;
    && c.ad == ss.h.left && c.n == 0 && c.k.Kdf? && c.k.i == 2
    && ss.ck == Kdf(c.k.ck, c.k.ikm, 1)
  }

  /** What an accepted static key and identity payload tell the reader. */
  lemma ReadStaticAccepted(hs: Handshake, c1: Term, c2: Term, step: nat)
    requires ReadStatic(hs, c1, c2, step).result.Ok? && hs.ss.cs.k.Some?
    ensures
      var o := ReadStatic(hs, c1, c2, step).state;
      && o.remote.Some? && Sealed(o.ss) && o.step == step && o.ss.cs.k.Some? && o.ss.cs.n == 1
      && o.ss.h == Hash(Hash(hs.ss.h, c1), c2)
      && Dh(hs.e, Pub(o.remote.value.sk)) == Ok(c2.k.ikm)
      && o.re == hs.re
  {
  }

  // ----- what every honest message and state looks like ---------------------------

  /** `m` is a message 2 written by the node `n` in answer to a message 1 from `peer`. */
  ghost predicate IsM2Of(n: Node, peer: Address, m: Message) {
    && m.M2? && m.encStatic.Aead? && m.encPayload.Aead?
    && |Transcript(m.encStatic.ad)| == 4
    && m.encPayload.ad == Hash(m.encStatic.ad, m.encStatic)
    && Item(m.encStatic.ad, 0, Prologue(peer, n.address))
  }

  /** `m` is the message 3 of the initiator's installation `i`. */
  ghost predicate IsM3Of(i: Install, m: Message) {
    && m.M3? && i.hs.role.Initiator? && m.encStatic.Aead? && m.encPayload.Aead?
    && m.encStatic.n == 1
    && m.encPayload.ad.Hash? && m.encPayload.ad.right == m.encStatic
    && i.hs.ss.h == Hash(m.encPayload.ad, m.encPayload)
  }

  ghost predicate PendingOk(n: Node, p: Address, h: Pending, used: set<nat>, bad: set<nat>) {
    && h.hs.id == n.id && h.hs.e in used && h.hs.e !in bad
    && |Transcript(h.hs.ss.h)| >= 3
    && EpochOf(Transcript(h.hs.ss.h)[2]) == h.epoch
    && (h.hs.role.Initiator? ==>
          && h.hs.step == 1
          && Item(h.hs.ss.h, 0, Prologue(n.address, p)) && Item(h.hs.ss.h, 1, Pub(h.hs.e)))
    && (h.hs.role.Responder? ==>
          && h.hs.step == 2 && h.hs.ss.cs.k.Some? && |Transcript(h.hs.ss.h)| >= 6
          && Item(h.hs.ss.h, 0, Prologue(p, n.address))
          && h.m2.Some? && IsM2Of(n, p, h.m2.value))
  }

  ghost predicate InstallOk(addr: AddressOf, n: Node, i: Install, used: set<nat>) {
    && i.owner == n.address && i.hs.id == n.id && i.hs.e in used
    && Finish(i.hs).Ok? && Verified(addr, i.hs, i.peer) && Sealed(i.hs.ss)
    && |Transcript(i.hs.ss.h)| >= 8
    && EpochOf(Transcript(i.hs.ss.h)[2]) == i.epoch
    && (i.hs.role.Initiator? ==> Item(i.hs.ss.h, 0, Prologue(i.owner, i.peer)) && Item(i.hs.ss.h, 1, Pub(i.hs.e)))
    && (i.hs.role.Responder? ==> Item(i.hs.ss.h, 0, Prologue(i.peer, i.owner)))
  }

  /** The session a node has filed under `p` comes from the installation `i`. */
  ghost predicate ComesFrom(s: Session, owner: Address, p: Address, i: Install) {
    && i.owner == owner && i.peer == p && i.epoch == s.epoch
    && Finish(i.hs) == Ok((s.keys, s.peer))
    && (s.m3.Some? <==> i.hs.role.Initiator?)
  }

  ghost predicate NodeOk(addr: AddressOf, a: Address, n: Node, installs: set<Install>, used: set<nat>, bad: set<nat>) {
    && n.address == a && addr(n.id) == a && n.id.sk !in bad
    && (forall p <- n.handshakes :: PendingOk(n, p, n.handshakes[p], used, bad))
    && (forall p <- n.sessions :: exists i <- installs :: ComesFrom(n.sessions[p], a, p, i))
  }

  ghost predicate LocalOk(addr: AddressOf, w: World, bad: set<nat>) {
    && (forall a <- w.nodes :: NodeOk(addr, a, w.nodes[a], w.installs, w.used, bad))
    && (forall i <- w.installs :: i.owner in w.nodes && InstallOk(addr, w.nodes[i.owner], i, w.used))
  }

  // ----- each call keeps it ---------------------------------------------------------

  /** What a call leaves unchanged about the node, and what it may add. */
  ghost predicate StepOk(addr: AddressOf, n: Node, f: Effect, used: set<nat>, bad: set<nat>) {
    && f.node.id == n.id && f.node.address == n.address
    && (forall p <- f.node.handshakes :: PendingOk(f.node, p, f.node.handshakes[p], used, bad))
    && (f.installed.Some? ==> InstallOk(addr, n, f.installed.value, used))
    && (forall p <- f.node.sessions ::
          || (p in n.sessions && f.node.sessions[p] == n.sessions[p].(m3Resends := f.node.sessions[p].m3Resends))
          || (f.installed.Some? && ComesFrom(f.node.sessions[p], n.address, p, f.installed.value)))
  }

  ghost predicate Ready(addr: AddressOf, n: Node, used: set<nat>, e: nat, bad: set<nat>) {
    && addr(n.id) == n.address && e !in used && e !in bad
    && forall p <- n.handshakes :: PendingOk(n, p, n.handshakes[p], used, bad)
  }

  /** Message 1 as written, its transcript spelled out. */
  lemma Open1(n: Node, peer: Address, e: nat, epoch: byte)
    ensures
      var w := WriteMessage1(New(Initiator, n.id, Prologue(n.address, peer), e), Payload1(n.role, epoch));
      && w.result.Ok? && w.state.role.Initiator? && w.state.step == 1 && w.state.id == n.id && w.state.e == e
      && Transcript(w.state.ss.h) == [Prologue(n.address, peer), Pub(e), Payload1(n.role, epoch)]
      && EpochOf(Payload1(n.role, epoch)) == epoch
  {
    var h0 := Hash(ProtocolName, Prologue(n.address, peer));
    assert Transcript(h0) == [Prologue(n.address, peer)];
    assert Transcript(Hash(h0, Pub(e))) == [Prologue(n.address, peer), Pub(e)];
  }

  /** A new handshake in order beside the others. */
  lemma AddedOk(addr: AddressOf, n: Node, peer: Address, h: Pending, f: Effect, e: nat, used: set<nat>, bad: set<nat>)
    requires Ready(addr, n, used, e, bad) && f.installed.None? && f.node == n.(handshakes := n.handshakes[peer := h])
    requires PendingOk(f.node, peer, h, used + {e}, bad)
    ensures StepOk(addr, n, f, used + {e}, bad)
  {
    forall p | p in n.handshakes && p != peer ensures PendingOk(f.node, p, n.handshakes[p], used + {e}, bad) {
      assert PendingOk(n, p, n.handshakes[p], used, bad);
    }
  }

  lemma StartStep(addr: AddressOf, n: Node, peer: Address, e: nat, now: nat, used: set<nat>, bad: set<nat>)
    requires Ready(addr, n, used, e, bad)
    ensures StepOk(addr, n, StartHandshake(n, peer, e, now), used + {e}, bad)
  {
    var f := StartHandshake(n, peer, e, now);
    if peer in n.handshakes || peer == n.address {
      DroppedOk(addr, n, peer, f, e, used, bad);
    } else {
      var epoch: byte := if peer in n.sessions then (n.sessions[peer].epoch + 1) % 256 else 0;
      Open1(n, peer, e, epoch);
      AddedOk(addr, n, peer, f.node.handshakes[peer], f, e, used, bad);
    }
  }

  /** Message 2 as written, its transcript spelled out. */
  lemma Answer2(n: Node, peer: Address, msg: Message, e: nat)
    requires msg.M1? && !msg.e.LowOrder?
    ensures
      var r := ReadMessage1(New(Responder, n.id, Prologue(peer, n.address), e), msg);
      var w := WriteMessage2(r.state, Data([Lit(n.role)]));
      && r.result == Ok(msg.payload)
      && w.result.Ok? && IsM2Of(n, peer, w.result.value)
      && w.state.role.Responder? && w.state.step == 2 && w.state.id == n.id && w.state.e == e && w.state.ss.cs.k.Some?
      && |Transcript(w.state.ss.h)| == 6 && Item(w.state.ss.h, 0, Prologue(peer, n.address))
      && Transcript(w.state.ss.h)[2] == msg.payload
  {
    var h0 := Hash(ProtocolName, Prologue(peer, n.address));
    assert Transcript(h0) == [Prologue(peer, n.address)];
    assert Transcript(Hash(h0, msg.e)) == [Prologue(peer, n.address), msg.e];
    var h3 := Hash(Hash(h0, msg.e), msg.payload);
    assert Transcript(h3) == [Prologue(peer, n.address), msg.e, msg.payload];
    var r := ReadMessage1(New(Responder, n.id, Prologue(peer, n.address), e), msg);
    assert r.state.ss.h == h3 && r.state.re == Some(msg.e);
    Answer2Shape(r.state, Data([Lit(n.role)]));
  }

  lemma Answer2Shape(r: Handshake, x: Term)
    requires r.role == Responder && r.step == 1 && r.re.Some? && !r.re.value.LowOrder?
    ensures
      var w := WriteMessage2(r, x);
      && w.result.Ok? && w.state == r.(ss := w.state.ss, step := 2) && w.state.ss.cs.k.Some?
      && var m := w.result.value;
      && m.M2? && m.encStatic.Aead? && m.encPayload.Aead?
      && m.encStatic.ad == Hash(r.ss.h, Pub(r.e)) && m.encPayload.ad == Hash(m.encStatic.ad, m.encStatic)
      && w.state.ss.h == Hash(m.encPayload.ad, m.encPayload)
  {
  }

  /** The answer to `msg` as a new pending handshake. */
  ghost predicate FreshAnswer(n: Node, peer: Address, msg: Message, e: nat, h: Pending) {
    && h.hs.role.Responder? && h.hs.step == 2 && h.hs.id == n.id && h.hs.e == e && h.hs.ss.cs.k.Some?
    && |Transcript(h.hs.ss.h)| == 6 && Item(h.hs.ss.h, 0, Prologue(peer, n.address))
    && msg.M1? && Transcript(h.hs.ss.h)[2] == msg.payload && h.epoch == EpochOf(msg.payload)
    && h.m2.Some? && IsM2Of(n, peer, h.m2.value)
  }

  lemma RespondCases(n: Node, peer: Address, msg: Message, e: nat, now: nat) returns (h: Pending)
    ensures
      var (n', m2) := ResponderStart(n, peer, msg, e, now);
      || (n' == n && m2 == None)
      || (n' == n && peer in n.handshakes && n.handshakes[peer].hs.role.Responder? && m2 == n.handshakes[peer].m2)
      || (n' == n.(handshakes := n.handshakes - {peer}) && m2 == None)
      || (n' == n.(handshakes := n.handshakes[peer := h]) && m2 == h.m2 && FreshAnswer(n, peer, msg, e, h))
  {
    var (n', m2) := ResponderStart(n, peer, msg, e, now);
    h := if peer in n'.handshakes then n'.handshakes[peer] else Pending(New(Initiator, n.id, EMPTY, 0), 0, 0, [], 0, None, None, None);
    if msg.M1? && !msg.e.LowOrder? {
      Answer2(n, peer, msg, e);
      assert (n.handshakes - {peer})[peer := h] == n.handshakes[peer := h];
    }
  }

  lemma RespondStep(addr: AddressOf, n: Node, peer: Address, msg: Message, e: nat, now: nat, used: set<nat>, bad: set<nat>)
    requires Ready(addr, n, used, e, bad)
    ensures
      var (n', m2) := ResponderStart(n, peer, msg, e, now);
      && StepOk(addr, n, Quiet(n'), used + {e}, bad)
      && (m2.Some? ==> IsM2Of(n, peer, m2.value))
  {
    var h := RespondCases(n, peer, msg, e, now);
  }

  lemma ReadStaticFailed(hs: Handshake, c1: Term, c2: Term, step: nat)
    requires ReadStatic(hs, c1, c2, step).result.Err?
    ensures ReadStatic(hs, c1, c2, step).state.step == hs.step
    ensures hs.ss.cs.k.Some? ==> ReadStatic(hs, c1, c2, step).state.ss.cs.k.Some?
  {
  }

  /** Reading message 2, failed or not. */
  lemma Read2(hs: Handshake, msg: Message)
    requires hs.role.Initiator? && hs.step == 1
    ensures
      var o := ReadMessage2(hs, msg);
      && o.state.role == hs.role && o.state.id == hs.id && o.state.e == hs.e
      && Extends(hs.ss.h, o.state.ss.h)
      && (o.result.Err? ==> o.state.step == 1)
      && (o.result.Ok? ==>
            && msg.M2? && !msg.e.LowOrder? && o.state.re == Some(msg.e) && o.state.step == 2
            && o.state.remote.Some? && Sealed(o.state.ss) && o.state.ss.cs.k.Some? && o.state.ss.cs.n == 1
            && o.state.ss.h == Hash(Hash(Hash(hs.ss.h, msg.e), msg.encStatic), msg.encPayload)
            && Dh(hs.e, Pub(o.state.remote.value.sk)) == Ok(msg.encPayload.k.ikm))
  {
    assert Extends(hs.ss.h, hs.ss.h);
    if msg.M2? {
      var h1 := Hash(hs.ss.h, msg.e);
      assert Extends(hs.ss.h, h1);
      var d := Dh(hs.e, msg.e);
      if d.Ok? {
        var hs1 := hs.(re := Some(msg.e), ss := hs.ss.MixHash(msg.e).MixKey(d.value));
        var o := ReadStatic(hs1, msg.encStatic, msg.encPayload, 2);
        ReadStaticExtends(hs1, msg.encStatic, msg.encPayload, 2);
        ExtendsTransitive(hs.ss.h, h1, o.state.ss.h);
        if o.result.Ok? {
          ReadStaticAccepted(hs1, msg.encStatic, msg.encPayload, 2);
        } else {
          ReadStaticFailed(hs1, msg.encStatic, msg.encPayload, 2);
        }
      }
    }
  }

  lemma {:induction false} ExtendsTransitive(a: Term, b: Term, c: Term)
    requires Extends(a, b) && Extends(b, c)
    ensures Extends(a, c)
  {
    if c != b { ExtendsTransitive(a, b, c.left); }
  }

  /** Message 3 as written, its transcript spelled out. */
  lemma Write3(hs: Handshake, x: Term)
    requires hs.role.Initiator? && hs.step == 2 && hs.re.Some? && !hs.re.value.LowOrder? && hs.ss.cs.k.Some?
    ensures
      var w := WriteMessage3(hs, x);
      && w.result.Ok? && w.state == hs.(ss := w.state.ss, step := 3) && Sealed(w.state.ss)
      && var m := w.result.value;
      && m.M3? && m.encStatic.Aead? && m.encStatic.n == hs.ss.cs.n && m.encPayload.Aead?
      && m.encPayload.ad == Hash(hs.ss.h, m.encStatic)
      && w.state.ss.h == Hash(m.encPayload.ad, m.encPayload)
  {
  }

  /** The installation of an initiator's session, message 2 being `msg` and the
      pending handshake `h`. */
  ghost predicate InitiatorInstall(addr: AddressOf, n: Node, peer: Address, h: Pending, msg: Message, i: Install, m3: Message) {
    && msg.M2? && i == Install(n.address, peer, h.epoch, i.hs)
    && i.hs.role.Initiator? && i.hs.id == h.hs.id && i.hs.e == h.hs.e
    && Finish(i.hs).Ok? && Verified(addr, i.hs, peer) && Sealed(i.hs.ss) && IsM3Of(i, m3)
    && var h2 := Hash(Hash(Hash(h.hs.ss.h, msg.e), msg.encStatic), msg.encPayload);
    && i.hs.ss.h == Hash(Hash(h2, m3.encStatic), m3.encPayload)
    && msg.encPayload.Aead? && msg.encPayload.n == 0 && msg.encPayload.k.Kdf?
    && msg.encPayload.ad == h2.left
    && Dh(h.hs.e, Pub(i.hs.remote.value.sk)) == Ok(msg.encPayload.k.ikm)
  }

  /** The effect of a failed read: the handshake stays, its state only grown. */
  ghost predicate Advances(n: Node, peer: Address, f: Effect, hs': Handshake) {
    && peer in n.handshakes
    && var h := n.handshakes[peer];
    && f == Quiet(n.(handshakes := n.handshakes[peer := h.(hs := hs')]))
    && hs'.role == h.hs.role && hs'.id == h.hs.id && hs'.e == h.hs.e && hs'.step == h.hs.step
    && (h.hs.role.Responder? ==> hs'.ss.cs.k.Some?)
    && Extends(h.hs.ss.h, hs'.ss.h)
  }

  /** The session of the installation is filed under the peer and the handshake gone. */
  ghost predicate Files(n: Node, peer: Address, f: Effect) {
    && f.installed.Some?
    && f.node.id == n.id && f.node.address == n.address
    && f.node.handshakes == n.handshakes - {peer}
    && peer in f.node.sessions && ComesFrom(f.node.sessions[peer], n.address, peer, f.installed.value)
    && f.node.sessions - {peer} == n.sessions - {peer}
  }

  ghost predicate ContinueOutcome(addr: AddressOf, n: Node, peer: Address, msg: Message, f: Effect) {
    || f == Quiet(n)
    || f == Quiet(n.(handshakes := n.handshakes - {peer}))
    || (exists hs' :: Advances(n, peer, f, hs'))
    || (&& peer in n.handshakes && n.handshakes[peer].hs.role.Initiator? && Files(n, peer, f)
        && |f.sent| == 1 && f.sent[0].to == peer
        && InitiatorInstall(addr, n, peer, n.handshakes[peer], msg, f.installed.value, f.sent[0].msg))
  }

  lemma ContinueCases(addr: AddressOf, n: Node, peer: Address, msg: Message, now: nat)
    requires peer in n.handshakes && n.handshakes[peer].hs.role.Initiator? ==> n.handshakes[peer].hs.step == 1
    ensures ContinueOutcome(addr, n, peer, msg, InitiatorContinue(addr, n, peer, msg, now))
  {
    if peer in n.handshakes && n.handshakes[peer].hs.role.Initiator? {
      var h := n.handshakes[peer];
      var r := ReadMessage2(h.hs, msg);
      Read2(h.hs, msg);
      if r.result.Err? {
        assert Advances(n, peer, InitiatorContinue(addr, n, peer, msg, now), r.state);
      } else if Verified(addr, r.state, peer) {
        ContinueInstalls(addr, n, peer, msg, now);
      }
    }
  }

  lemma ContinueInstalls(addr: AddressOf, n: Node, peer: Address, msg: Message, now: nat)
    requires peer in n.handshakes && n.handshakes[peer].hs.role.Initiator? && n.handshakes[peer].hs.step == 1
    requires var r := ReadMessage2(n.handshakes[peer].hs, msg); r.result.Ok? && Verified(addr, r.state, peer)
    ensures
      var f := InitiatorContinue(addr, n, peer, msg, now);
      && Files(n, peer, f) && |f.sent| == 1 && f.sent[0].to == peer
      && InitiatorInstall(addr, n, peer, n.handshakes[peer], msg, f.installed.value, f.sent[0].msg)
  {
    var h := n.handshakes[peer];
    Read2(h.hs, msg);
    var r := ReadMessage2(h.hs, msg);
    var x := Data([Lit(n.role)]);
    Write3(r.state, x);
    var w := WriteMessage3(r.state, x);
    var (keys, remote) := Finish(w.state).value;
    ContinueEffect(addr, n, peer, msg, now, r.result.value, r.state, w.state, w.result.value, keys, remote);
  }

  /** Reading message 3, failed or not. */
  lemma Read3(hs: Handshake, msg: Message)
    requires hs.role.Responder? && hs.step == 2 && hs.ss.cs.k.Some?
    ensures
      var o := ReadMessage3(hs, msg);
      && o.state.role == hs.role && o.state.id == hs.id && o.state.e == hs.e
      && Extends(hs.ss.h, o.state.ss.h)
      && (o.result.Err? ==> o.state.step == 2 && o.state.ss.cs.k.Some?)
      && (o.result.Ok? ==>
            && msg.M3? && o.state.step == 3 && o.state.remote.Some? && Sealed(o.state.ss)
            && o.state.ss.h == Hash(Hash(hs.ss.h, msg.encStatic), msg.encPayload)
            && Dh(hs.e, Pub(o.state.remote.value.sk)) == Ok(msg.encPayload.k.ikm))
  {
    assert Extends(hs.ss.h, hs.ss.h);
    if msg.M3? {
      var o := ReadStatic(hs, msg.encStatic, msg.encPayload, 3);
      ReadStaticExtends(hs, msg.encStatic, msg.encPayload, 3);
      if o.result.Ok? {
        ReadStaticAccepted(hs, msg.encStatic, msg.encPayload, 3);
      } else {
        ReadStaticFailed(hs, msg.encStatic, msg.encPayload, 3);
      }
    }
  }

  /** The installation of a responder's session, message 3 being `msg`. */
  ghost predicate ResponderInstall(addr: AddressOf, n: Node, peer: Address, h: Pending, msg: Message, i: Install) {
    && msg.M3? && i == Install(n.address, peer, h.epoch, i.hs)
    && i.hs.role.Responder? && i.hs.id == h.hs.id && i.hs.e == h.hs.e
    && Finish(i.hs).Ok? && Verified(addr, i.hs, peer) && Sealed(i.hs.ss)
    && i.hs.ss.h == Hash(Hash(h.hs.ss.h, msg.encStatic), msg.encPayload)
    && Dh(h.hs.e, Pub(i.hs.remote.value.sk)) == Ok(msg.encPayload.k.ikm)
  }

  ghost predicate FinishOutcome(addr: AddressOf, n: Node, peer: Address, msg: Message, f: Effect) {
    && f.sent == []
    && (|| f == Quiet(n)
        || f == Quiet(n.(handshakes := n.handshakes - {peer}))
        || (exists hs' :: Advances(n, peer, f, hs'))
        || (&& peer in n.handshakes && n.handshakes[peer].hs.role.Responder? && Files(n, peer, f)
            && ResponderInstall(addr, n, peer, n.handshakes[peer], msg, f.installed.value)))
  }

  lemma FinishCases(addr: AddressOf, n: Node, peer: Address, msg: Message, now: nat)
    requires peer in n.handshakes && n.handshakes[peer].hs.role.Responder? ==>
               n.handshakes[peer].hs.step == 2 && n.handshakes[peer].hs.ss.cs.k.Some?
    ensures FinishOutcome(addr, n, peer, msg, ResponderFinish(addr, n, peer, msg, now))
  {
    if peer in n.handshakes && n.handshakes[peer].hs.role.Responder? {
      var h := n.handshakes[peer];
      var r := ReadMessage3(h.hs, msg);
      Read3(h.hs, msg);
      if r.result.Err? {
        assert Advances(n, peer, ResponderFinish(addr, n, peer, msg, now), r.state);
      } else if Verified(addr, r.state, peer) {
        var (keys, remote) := Finish(r.state).value;
        FinishEffect(addr, n, peer, msg, now, r.result.value, r.state, keys, remote);
      }
    }
  }

  lemma SessionsKept(n: Node, f: Effect, peer: Address)
    requires peer in f.node.sessions && f.node.sessions - {peer} == n.sessions - {peer}
    ensures forall p <- f.node.sessions :: p == peer || (p in n.sessions && f.node.sessions[p] == n.sessions[p])
  {
    forall p <- f.node.sessions ensures p == peer || (p in n.sessions && f.node.sessions[p] == n.sessions[p]) {
      if p != peer {
        assert p in f.node.sessions - {peer};
        assert f.node.sessions[p] == (f.node.sessions - {peer})[p] == (n.sessions - {peer})[p];
      }
    }
  }

  lemma AdvancedPending(n: Node, p: Address, h: Pending, hs': Handshake, used: set<nat>, bad: set<nat>)
    requires PendingOk(n, p, h, used, bad)
    requires hs'.role == h.hs.role && hs'.id == h.hs.id && hs'.e == h.hs.e && hs'.step == h.hs.step
    requires h.hs.role.Responder? ==> hs'.ss.cs.k.Some?
    requires Extends(h.hs.ss.h, hs'.ss.h)
    ensures PendingOk(n, p, h.(hs := hs'), used, bad)
  {
    ExtendsKeeps(h.hs.ss.h, hs'.ss.h);
    var t, t' := Transcript(h.hs.ss.h), Transcript(hs'.ss.h);
    assert t'[0] == t'[..|t|][0] && t'[1] == t'[..|t|][1] && t'[2] == t'[..|t|][2];
  }

  lemma InitiatorInstallOk(addr: AddressOf, n: Node, peer: Address, h: Pending, msg: Message, i: Install, m3: Message, used: set<nat>, bad: set<nat>)
    requires PendingOk(n, peer, h, used, bad) && h.hs.role.Initiator?
    requires InitiatorInstall(addr, n, peer, h, msg, i, m3)
    ensures InstallOk(addr, n, i, used)
  {
    var h1 := Hash(h.hs.ss.h, msg.e);
    var h2 := Hash(h1, msg.encStatic);
    var h3 := Hash(h2, msg.encPayload);
    var h4 := Hash(h3, m3.encStatic);
    assert i.hs.ss.h == Hash(h4, m3.encPayload);
    assert Transcript(i.hs.ss.h) == Transcript(h4) + [m3.encPayload];
    assert Transcript(h4) == Transcript(h3) + [m3.encStatic];
    assert Transcript(h3) == Transcript(h2) + [msg.encPayload];
    assert Transcript(h2) == Transcript(h1) + [msg.encStatic];
    assert Transcript(h1) == Transcript(h.hs.ss.h) + [msg.e];
  }

  lemma ResponderInstallOk(addr: AddressOf, n: Node, peer: Address, h: Pending, msg: Message, i: Install, used: set<nat>, bad: set<nat>)
    requires PendingOk(n, peer, h, used, bad) && h.hs.role.Responder?
    requires ResponderInstall(addr, n, peer, h, msg, i)
    ensures InstallOk(addr, n, i, used)
  {
    var h1 := Hash(h.hs.ss.h, msg.encStatic);
    assert Transcript(i.hs.ss.h) == Transcript(h1) + [msg.encPayload];
    assert Transcript(h1) == Transcript(h.hs.ss.h) + [msg.encStatic];
  }

  /** Removing a handshake, or leaving the node alone, keeps everything else. */
  lemma DroppedOk(addr: AddressOf, n: Node, peer: Address, f: Effect, e: nat, used: set<nat>, bad: set<nat>)
    requires Ready(addr, n, used, e, bad)
    requires f == Quiet(n) || f == Quiet(n.(handshakes := n.handshakes - {peer}))
    ensures StepOk(addr, n, f, used + {e}, bad)
  {
  }

  lemma AdvancedOk(addr: AddressOf, n: Node, peer: Address, f: Effect, hs': Handshake, e: nat, used: set<nat>, bad: set<nat>)
    requires Ready(addr, n, used, e, bad) && Advances(n, peer, f, hs')
    ensures StepOk(addr, n, f, used + {e}, bad)
  {
    AdvancedPending(n, peer, n.handshakes[peer], hs', used, bad);
  }

  lemma FiledOk(addr: AddressOf, n: Node, peer: Address, f: Effect, e: nat, used: set<nat>, bad: set<nat>)
    requires Ready(addr, n, used, e, bad) && Files(n, peer, f) && InstallOk(addr, n, f.installed.value, used)
    ensures StepOk(addr, n, f, used + {e}, bad)
  {
    SessionsKept(n, f, peer);
  }

  lemma OutcomeOk(addr: AddressOf, n: Node, peer: Address, msg: Message, f: Effect, e: nat, used: set<nat>, bad: set<nat>)
    requires Ready(addr, n, used, e, bad)
    requires ContinueOutcome(addr, n, peer, msg, f) || FinishOutcome(addr, n, peer, msg, f)
    ensures StepOk(addr, n, f, used + {e}, bad)
  {
    if f.installed.Some? {
      if f.installed.value.hs.role.Initiator? {
        InitiatorInstallOk(addr, n, peer, n.handshakes[peer], msg, f.installed.value, f.sent[0].msg, used, bad);
      } else {
        ResponderInstallOk(addr, n, peer, n.handshakes[peer], msg, f.installed.value, used, bad);
      }
      FiledOk(addr, n, peer, f, e, used, bad);
    } else if hs' :| Advances(n, peer, f, hs') {
      AdvancedOk(addr, n, peer, f, hs', e, used, bad);
    } else {
      DroppedOk(addr, n, peer, f, e, used, bad);
    }
  }

  lemma ContinueStep(addr: AddressOf, n: Node, peer: Address, msg: Message, e: nat, now: nat, used: set<nat>, bad: set<nat>)
    requires Ready(addr, n, used, e, bad)
    ensures StepOk(addr, n, InitiatorContinue(addr, n, peer, msg, now), used + {e}, bad)
  {
    ContinueCases(addr, n, peer, msg, now);
    OutcomeOk(addr, n, peer, msg, InitiatorContinue(addr, n, peer, msg, now), e, used, bad);
  }

  lemma FinishStep(addr: AddressOf, n: Node, peer: Address, msg: Message, e: nat, now: nat, used: set<nat>, bad: set<nat>)
    requires Ready(addr, n, used, e, bad)
    ensures StepOk(addr, n, ResponderFinish(addr, n, peer, msg, now), used + {e}, bad)
  {
    FinishCases(addr, n, peer, msg, now);
    OutcomeOk(addr, n, peer, msg, ResponderFinish(addr, n, peer, msg, now), e, used, bad);
  }

  /** Queueing a send does not touch the handshake it waits for. */
  lemma QueueStep(addr: AddressOf, n: Node, s: Effect, peer: Address, queued: seq<QueuedSend>, used: set<nat>, bad: set<nat>)
    requires StepOk(addr, n, s, used, bad) && peer in s.node.handshakes
    ensures StepOk(addr, n, s.(node := s.node.(handshakes := s.node.handshakes[peer := s.node.handshakes[peer].(queued := queued)])), used, bad)
  {
  }

  lemma SubmitStep(addr: AddressOf, n: Node, q: QueuedSend, e: nat, now: nat, used: set<nat>, bad: set<nat>)
    requires Ready(addr, n, used, e, bad)
    ensures StepOk(addr, n, SendOrQueue(n, q, e, now), used + {e}, bad)
  {
    if q.dst in n.sessions {
    } else if q.dst in n.handshakes {
      QueueStep(addr, n, Quiet(n), q.dst, n.handshakes[q.dst].queued + [q], used + {e}, bad);
    } else {
      var s := StartHandshake(n, q.dst, e, now);
      StartStep(addr, n, q.dst, e, now, used, bad);
      if q.dst in s.node.handshakes {
        QueueStep(addr, n, s, q.dst, s.node.handshakes[q.dst].queued + [q], used + {e}, bad);
      }
    }
  }

  lemma RequeuedStep(addr: AddressOf, n: Node, peer: Address, qs: seq<QueuedSend>, e: nat, now: nat, used: set<nat>, bad: set<nat>)
    requires Ready(addr, n, used, e, bad)
    ensures StepOk(addr, n, Requeued(n, peer, qs, e, now), used + {e}, bad)
  {
    var s := StartHandshake(n, peer, e, now);
    StartStep(addr, n, peer, e, now, used, bad);
    if qs != [] && peer in s.node.handshakes {
      var q := s.node.handshakes[peer].queued;
      QueueStep(addr, n, s, peer, q + qs[..Min(|qs|, SatSub(MAX_QUEUED, |q|))], used + {e}, bad);
    }
  }

  /** A call that first drops a session. */
  lemma DroppedFirst(addr: AddressOf, n: Node, peer: Address, f: Effect, used: set<nat>, bad: set<nat>)
    requires f.installed.None? && StepOk(addr, n.(sessions := n.sessions - {peer}), f, used, bad)
    ensures StepOk(addr, n, f, used, bad)
  {
  }

  lemma NoticeStep(addr: AddressOf, n: Node, peer: Address, os: seq<Outstanding>, timeout: nat, e: nat, now: nat,
                   used: set<nat>, bad: set<nat>)
    requires Ready(addr, n, used, e, bad)
    ensures StepOk(addr, n, NoSessionNotice(n, peer, os, timeout, e, now), used + {e}, bad)
  {
    var f := NoSessionNotice(n, peer, os, timeout, e, now);
    if peer in n.sessions && !CanResend(n.sessions[peer], timeout, now) {
      var n1 := n.(sessions := n.sessions - {peer});
      forall p <- n1.handshakes ensures PendingOk(n1, p, n1.handshakes[p], used, bad) {
        assert PendingOk(n, p, n.handshakes[p], used, bad);
      }
      RequeuedStep(addr, n1, peer, Again(peer, os), e, now, used, bad);
      DroppedFirst(addr, n, peer, f, used + {e}, bad);
    } else {
      SessionsShrink(addr, n, f, e, used, bad);
    }
  }

  /** Every event keeps the invariant of the node it happens at. */
  lemma AnyStep(addr: AddressOf, n: Node, ev: Event, used: set<nat>, bad: set<nat>)
    requires Ready(addr, n, used, ev.e, bad)
    ensures StepOk(addr, n, Do(addr, n, ev), used + {ev.e}, bad)
  {
    match ev
    case Open(_, peer, e, now) => StartStep(addr, n, peer, e, now, used, bad);
    case Submit(_, q, e, now) => SubmitStep(addr, n, q, e, now, used, bad);
    case Receive(_, src, no, msg, e, now) =>
      match no {
        case One => RespondStep(addr, n, src, msg, e, now, used, bad);
        case Two => ContinueStep(addr, n, src, msg, e, now, used, bad);
        case Three => FinishStep(addr, n, src, msg, e, now, used, bad);
      }
    case Notice(_, peer, os, timeout, e, now) => NoticeStep(addr, n, peer, os, timeout, e, now, used, bad);
    case DropSession(_, peer, e) => SessionsShrink(addr, n, Quiet(n.(sessions := n.sessions - {peer})), e, used, bad);
    case DropHandshake(_, peer, e) => DroppedOk(addr, n, peer, Quiet(n.(handshakes := n.handshakes - {peer})), e, used, bad);
  }

  /** A call that only drops sessions or counts resends. */
  lemma SessionsShrink(addr: AddressOf, n: Node, f: Effect, e: nat, used: set<nat>, bad: set<nat>)
    requires Ready(addr, n, used, e, bad) && f.installed.None? && f.node == n.(sessions := f.node.sessions)
    requires forall p <- f.node.sessions :: p in n.sessions && f.node.sessions[p] == n.sessions[p].(m3Resends := f.node.sessions[p].m3Resends)
    ensures StepOk(addr, n, f, used + {e}, bad)
  {
  }

  lemma LocalUpdate(addr: AddressOf, w: World, at: Address, e: nat, f: Effect, bad: set<nat>)
    requires LocalOk(addr, w, bad) && at in w.nodes && StepOk(addr, w.nodes[at], f, w.used + {e}, bad)
    ensures LocalOk(addr, Update(w, at, e, f), bad)
  {
    var n := w.nodes[at];
    var w' := Update(w, at, e, f);
    forall p <- f.node.sessions
      ensures exists i <- w'.installs :: ComesFrom(f.node.sessions[p], at, p, i)
    {
      if p in n.sessions && f.node.sessions[p] == n.sessions[p].(m3Resends := f.node.sessions[p].m3Resends) {
        var i :| i in w.installs && ComesFrom(n.sessions[p], at, p, i);
        assert i in w'.installs && ComesFrom(f.node.sessions[p], at, p, i);
      } else {
        assert f.installed.value in w'.installs;
      }
    }
    forall a <- w'.nodes ensures NodeOk(addr, a, w'.nodes[a], w'.installs, w'.used, bad) {
      if a != at {
        forall p <- w.nodes[a].sessions ensures exists i <- w'.installs :: ComesFrom(w.nodes[a].sessions[p], a, p, i) {
          var i :| i in w.installs && ComesFrom(w.nodes[a].sessions[p], a, p, i);
          assert i in w'.installs;
        }
      }
    }
  }

  lemma LocalStep(addr: AddressOf, w: World, ev: Event, bad: set<nat>)
    requires LocalOk(addr, w, bad) && Enabled(w, ev, bad, false)
    ensures LocalOk(addr, Apply(addr, w, ev), bad)
  {
    AnyStep(addr, w.nodes[ev.at], ev, w.used, bad);
    LocalUpdate(addr, w, ev.at, ev.e, Do(addr, w.nodes[ev.at], ev), bad);
  }

  lemma {:induction false} LocalRun(addr: AddressOf, w: World, evs: seq<Event>, bad: set<nat>, confined: bool)
    requires LocalOk(addr, w, bad) && Legal(addr, w, evs, bad, confined)
    ensures LocalOk(addr, Exec(addr, w, evs, bad, confined), bad)
    decreases |evs|
  {
    if evs != [] {
      LocalStep(addr, w, evs[0], bad);
      LocalRun(addr, Apply(addr, w, evs[0]), evs[1..], bad, confined);
    }
  }
}
