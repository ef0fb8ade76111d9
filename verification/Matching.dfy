/** Sessions on a network that cannot encrypt under a key it does not know: none is
    one-sided. */
module Matching {
  import opened Basics
  import opened Crypto
  import opened Noise
  import opened NodeSession
  import opened Worlds
  import opened HandshakeSteps
  import opened Agreement

  ghost predicate SentOk(w: World) {
    forall l <- w.sent ::
      && (l.msg.M2? ==> l.from in w.nodes && IsM2Of(w.nodes[l.from], l.to, l.msg))
      && (l.msg.M3? ==> exists j <- w.installs :: j.owner == l.from && j.peer == l.to && IsM3Of(j, l.msg))
  }

  /** A message 3 kept for retransmission has been sent before. */
  ghost predicate KeptM3(n: Node, sent: set<Letter>) {
    forall p <- n.sessions :: n.sessions[p].m3.Some? ==> Letter(n.address, p, n.sessions[p].m3.value) in sent
  }

  /** No handshake in flight shares its ephemeral with a finished one. */
  ghost predicate FreshOk(w: World) { forall a <- w.nodes :: FreshNode(a, w.nodes[a], w.installs) }

  ghost predicate FreshNode(a: Address, n: Node, installs: set<Install>) {
    forall p, j ::
      p in n.handshakes && n.handshakes[p].hs.role.Initiator? && j in installs && j.owner == a && j.peer == p && j.hs.role.Initiator?
      ==> j.hs.e != n.handshakes[p].hs.e
  }

  /** The honest owner of the address `p` holds the only key that hashes to it. */
  ghost predicate Honest(addr: AddressOf, w: World, p: Address) {
    p in w.nodes && forall id: PublicIdentity :: addr(id) == p ==> id == w.nodes[p].id
  }

  /** The message 2 that the initiator's transcript `h` continues. */
  ghost predicate Continues(h: Term, m: Message) {
    && m.M2? && m.encPayload.Aead? && h.Hash? && h.left.Hash?
    && h.left.left == Hash(m.encPayload.ad, m.encPayload)
  }

  /** The node at `p` sent the letter to `a`, and it holds a message 2 that answers `a`. */
  ghost predicate Wrote2(w: World, p: Address, a: Address, l: Letter)
    requires p in w.nodes
  {
    l.from == p && l.to == a && IsM2Of(w.nodes[p], a, l.msg)
  }

  /** The session `i` has a counterpart at its peer: the initiator's session that the
      responder confirms, or the message 2 that the initiator confirms. */
  ghost predicate Matched(w: World, i: Install)
    requires i.peer in w.nodes
  {
    && (i.hs.role.Responder? ==>
          exists j <- w.installs :: j.owner == i.peer && j.peer == i.owner && j.hs.role.Initiator? && j.hs.ss.h == i.hs.ss.h)
    && (i.hs.role.Initiator? ==>
          exists l <- w.sent :: Wrote2(w, i.peer, i.owner, l) && Continues(i.hs.ss.h, l.msg))
  }

  ghost predicate NetOk(addr: AddressOf, w: World) {
    && SentOk(w) && FreshOk(w)
    && (forall a <- w.nodes :: KeptM3(w.nodes[a], w.sent))
    && forall i <- w.installs :: Honest(addr, w, i.peer) ==> Matched(w, i)
  }

  /** A key derived from the DH of two honest secrets is not known to the network, so
      a ciphertext under it was sent by an honest node. */
  lemma Unforgeable(c: Term, e: nat, sk: nat, sent: set<Letter>, bad: set<nat>)
    requires e !in bad && sk !in bad
    requires c.Aead? && c.k.Kdf? && Dh(e, Pub(sk)) == Ok(c.k.ikm)
    requires Forgeable(c, sent, bad)
    ensures InCiphers(c, sent)
  {
    assert !Knows(c.k.ikm, bad);
  }

  /** How much of the transcript each ciphertext of a message 2 covers. */
  lemma M2Covers(w: World, l: Letter)
    requires SentOk(w) && l in w.sent && l.msg.M2?
    ensures l.from in w.nodes && IsM2Of(w.nodes[l.from], l.to, l.msg)
    ensures |Transcript(l.msg.encPayload.ad)| == 5 && Item(l.msg.encPayload.ad, 0, Prologue(l.to, w.nodes[l.from].address))
  {
    var m := l.msg;
    assert Transcript(m.encPayload.ad) == Transcript(m.encStatic.ad) + [m.encStatic];
  }

  /** A ciphertext over a transcript of seven or more items with nonce 0 is the
      payload of a message 3. */
  lemma LateCipherIsM3(addr: AddressOf, w: World, c: Term, bad: set<nat>) returns (l: Letter, j: Install)
    requires LocalOk(addr, w, bad) && SentOk(w) && InCiphers(c, w.sent)
    requires c.Aead? && c.n == 0 && |Transcript(c.ad)| >= 6
    ensures l in w.sent && l.msg.M3? && c == l.msg.encPayload && j in w.installs && IsM3Of(j, l.msg)
  {
    l :| l in w.sent && (l.msg.M2? || l.msg.M3?) && (c == l.msg.encStatic || c == l.msg.encPayload);
    if l.msg.M2? { M2Covers(w, l); }
    j :| j in w.installs && j.owner == l.from && j.peer == l.to && IsM3Of(j, l.msg);
  }

  lemma ResponderMatched(addr: AddressOf, w: World, n: Node, peer: Address, msg: Message, i: Install, bad: set<nat>) returns (j: Install)
    requires LocalOk(addr, w, bad) && SentOk(w)
    requires n.address in w.nodes && n == w.nodes[n.address] && peer in n.handshakes && n.handshakes[peer].hs.role.Responder?
    requires ResponderInstall(addr, n, peer, n.handshakes[peer], msg, i)
    requires Deliverable(msg, w.sent, bad) && Honest(addr, w, peer)
    ensures j in w.installs && j.owner == peer && j.peer == n.address && j.hs.role.Initiator? && j.hs.ss.h == i.hs.ss.h
  {
    var h := n.handshakes[peer];
    var c := msg.encPayload;
    Unforgeable(c, h.hs.e, w.nodes[peer].id.sk, w.sent, bad);
    assert Transcript(c.ad) == Transcript(h.hs.ss.h) + [msg.encStatic];
    var l;
    l, j := LateCipherIsM3(addr, w, c, bad);
    assert j.hs.ss.h == i.hs.ss.h;
    ResponderInstallOk(addr, n, peer, h, msg, i, w.used, bad);
    PrologueInjective(j.owner, j.peer, i.peer, i.owner);
  }

  /** Two more items leave those before them in place. */
  lemma CipherCovers(h: Term, x: Term, y: Term, ad: Term)
    requires ad == Hash(Hash(h, x), y)
    ensures Transcript(ad) == Transcript(h) + [x, y]
    ensures forall i: nat, z :: Item(h, i, z) ==> Item(ad, i, z)
  {
    assert Transcript(Hash(h, x)) == Transcript(h) + [x];
  }

  lemma InitiatorMatched(addr: AddressOf, w: World, n: Node, peer: Address, msg: Message, i: Install, m3: Message, bad: set<nat>) returns (l: Letter)
    requires LocalOk(addr, w, bad) && SentOk(w) && FreshOk(w)
    requires n.address in w.nodes && n == w.nodes[n.address] && peer in n.handshakes && n.handshakes[peer].hs.role.Initiator?
    requires InitiatorInstall(addr, n, peer, n.handshakes[peer], msg, i, m3)
    requires Deliverable(msg, w.sent, bad) && Honest(addr, w, peer)
    ensures l in w.sent && Wrote2(w, peer, n.address, l) && Continues(i.hs.ss.h, l.msg)
  {
    var h := n.handshakes[peer];
    var c := msg.encPayload;
    Unforgeable(c, h.hs.e, w.nodes[peer].id.sk, w.sent, bad);
    CipherCovers(h.hs.ss.h, msg.e, msg.encStatic, c.ad);
    l := EarlyCipherIsM2(addr, w, n, peer, c, h.hs.e, bad);
  }

  /** A ciphertext with nonce 0 over the transcript of a handshake that we opened with
      `peer` and that is still in flight is the payload of a message 2 that `peer`
      wrote for us. */
  lemma EarlyCipherIsM2(addr: AddressOf, w: World, n: Node, peer: Address, c: Term, e: nat, bad: set<nat>) returns (l: Letter)
    requires LocalOk(addr, w, bad) && SentOk(w) && FreshOk(w) && InCiphers(c, w.sent)
    requires n.address in w.nodes && n == w.nodes[n.address] && peer in n.handshakes && n.handshakes[peer].hs.role.Initiator?
    requires n.handshakes[peer].hs.e == e
    requires c.Aead? && c.n == 0 && |Transcript(c.ad)| >= 5
    requires Item(c.ad, 0, Prologue(n.address, peer)) && Item(c.ad, 1, Pub(e))
    ensures l in w.sent && l.msg.M2? && c == l.msg.encPayload && peer in w.nodes && Wrote2(w, peer, n.address, l)
  {
    l :| l in w.sent && (l.msg.M2? || l.msg.M3?) && (c == l.msg.encStatic || c == l.msg.encPayload);
    if l.msg.M3? {
      OwnM3(addr, w, l, n.address, peer, e, bad);
    }
    M2Covers(w, l);
    PrologueInjective(l.to, l.from, n.address, peer);
  }

  /** A message 3 over our own transcript belongs to a handshake we have finished. */
  lemma OwnM3(addr: AddressOf, w: World, l: Letter, a: Address, p: Address, e: nat, bad: set<nat>)
    requires LocalOk(addr, w, bad) && SentOk(w) && l in w.sent && l.msg.M3?
    ensures l.msg.encStatic.Aead? && l.msg.encStatic.n == 1 && l.msg.encPayload.Aead?
    ensures Item(l.msg.encPayload.ad, 0, Prologue(a, p)) && Item(l.msg.encPayload.ad, 1, Pub(e)) ==>
              exists j <- w.installs :: j.owner == a && j.peer == p && j.hs.role.Initiator? && j.hs.e == e
  {
    var m := l.msg;
    var j :| j in w.installs && j.owner == l.from && j.peer == l.to && IsM3Of(j, m);
    assert Transcript(j.hs.ss.h) == Transcript(m.encPayload.ad) + [m.encPayload];
    if Item(m.encPayload.ad, 0, Prologue(a, p)) && Item(m.encPayload.ad, 1, Pub(e)) {
      PrologueInjective(j.owner, j.peer, a, p);
    }
  }

  /** What one event sends, files and installs. */
  ghost predicate NetEffect(addr: AddressOf, n: Node, ev: Event, f: Effect, sent: set<Letter>) {
    && (forall s <- f.sent ::
          || s.msg.M1? || Letter(n.address, s.to, s.msg) in sent || IsM2Of(n, s.to, s.msg)
          || (f.installed.Some? && f.installed.value.peer == s.to && IsM3Of(f.installed.value, s.msg)))
    && (forall p <- f.node.handshakes ::
          f.node.handshakes[p].hs.role.Initiator? ==>
            || f.node.handshakes[p].hs.e == ev.e
            || (p in n.handshakes && n.handshakes[p].hs.role.Initiator? && n.handshakes[p].hs.e == f.node.handshakes[p].hs.e))
    && KeptM3(f.node, sent + Letters(n.address, f.sent))
    && (f.installed.Some? ==>
          && var i := f.installed.value;
          && ev.Receive? && i.peer == ev.src && i.peer in n.handshakes && i.peer !in f.node.handshakes
          && var h := n.handshakes[i.peer];
          && i.hs.role == h.hs.role
          && (h.hs.role.Responder? ==> ResponderInstall(addr, n, i.peer, h, ev.msg, i))
          && (h.hs.role.Initiator? ==> exists m3 :: InitiatorInstall(addr, n, i.peer, h, ev.msg, i, m3)))
  }

  lemma OpenNet(addr: AddressOf, n: Node, ev: Event, peer: Address, now: nat, sent: set<Letter>)
    requires KeptM3(n, sent)
    ensures NetEffect(addr, n, ev, StartHandshake(n, peer, ev.e, now), sent)
  {
    var epoch: byte := if peer in n.sessions then (n.sessions[peer].epoch + 1) % 256 else 0;
    Open1(n, peer, ev.e, epoch);
  }

  lemma QueueNet(addr: AddressOf, n: Node, ev: Event, s: Effect, peer: Address, queued: seq<QueuedSend>, sent: set<Letter>)
    requires NetEffect(addr, n, ev, s, sent) && peer in s.node.handshakes && s.installed.None?
    ensures NetEffect(addr, n, ev, s.(node := s.node.(handshakes := s.node.handshakes[peer := s.node.handshakes[peer].(queued := queued)])), sent)
  {
  }

  lemma SubmitNet(addr: AddressOf, n: Node, ev: Event, q: QueuedSend, now: nat, sent: set<Letter>)
    requires KeptM3(n, sent)
    ensures NetEffect(addr, n, ev, SendOrQueue(n, q, ev.e, now), sent)
  {
    if q.dst in n.sessions {
    } else if q.dst in n.handshakes {
      QueueNet(addr, n, ev, Quiet(n), q.dst, n.handshakes[q.dst].queued + [q], sent);
    } else {
      var s := StartHandshake(n, q.dst, ev.e, now);
      OpenNet(addr, n, ev, q.dst, now, sent);
      if q.dst in s.node.handshakes {
        QueueNet(addr, n, ev, s, q.dst, s.node.handshakes[q.dst].queued + [q], sent);
      }
    }
  }

  /** Answering a message 1 starts no handshake of our own and leaves the sessions alone. */
  lemma RespondKeeps(n: Node, ev: Event, n': Node, m2: Option<Message>)
    requires ev.Receive? && (n', m2) == ResponderStart(n, ev.src, ev.msg, ev.e, ev.now)
    ensures n'.sessions == n.sessions && n'.address == n.address
    ensures
      forall p <- n'.handshakes :: n'.handshakes[p].hs.role.Initiator? ==> p in n.handshakes && n'.handshakes[p] == n.handshakes[p]
  {
    var h := RespondCases(n, ev.src, ev.msg, ev.e, ev.now);
  }

  lemma RespondNet(addr: AddressOf, n: Node, ev: Event, used: set<nat>, bad: set<nat>, sent: set<Letter>)
    requires KeptM3(n, sent) && ev.Receive? && ev.no.One? && Ready(addr, n, used, ev.e, bad)
    ensures NetEffect(addr, n, ev, HandleHandshake(addr, n, ev.src, One, ev.msg, ev.e, ev.now), sent)
  {
    RespondStep(addr, n, ev.src, ev.msg, ev.e, ev.now, used, bad);
    var (n', m2) := ResponderStart(n, ev.src, ev.msg, ev.e, ev.now);
    RespondKeeps(n, ev, n', m2);
  }

  lemma OutcomeNet(addr: AddressOf, n: Node, ev: Event, f: Effect, sent: set<Letter>)
    requires KeptM3(n, sent) && ev.Receive?
    requires ContinueOutcome(addr, n, ev.src, ev.msg, f) || FinishOutcome(addr, n, ev.src, ev.msg, f)
    requires f.installed.Some? ==> KeptM3(f.node, sent + Letters(n.address, f.sent))
    ensures NetEffect(addr, n, ev, f, sent)
  {
  }

  /** Either the sessions are as they were, or one is filed with the message 3 just sent. */
  ghost predicate Filed(n: Node, peer: Address, f: Effect) {
    && f.node.address == n.address
    && (f.sent == [] ==> f.node.sessions == n.sessions)
    && (f.sent != [] ==>
          && |f.sent| == 1 && f.sent[0].to == peer && peer in f.node.sessions
          && f.node.sessions == n.sessions[peer := f.node.sessions[peer]] && f.node.sessions[peer].m3 == Some(f.sent[0].msg))
  }

  lemma FiledM3(addr: AddressOf, n: Node, peer: Address, msg: Message, now: nat)
    ensures Filed(n, peer, InitiatorContinue(addr, n, peer, msg, now))
  {
    if peer in n.handshakes && n.handshakes[peer].hs.role.Initiator? {
      var h := n.handshakes[peer];
      FiledBySend(n, peer, h, ReadMessage2(h.hs, msg).state, now);
    }
  }

  lemma FiledBySend(n: Node, peer: Address, h: Pending, hs: Handshake, now: nat)
    ensures Filed(n, peer, SendMessage3(n, peer, h, hs, now))
  {
  }

  lemma FiledKept(n: Node, peer: Address, f: Effect, sent: set<Letter>)
    requires KeptM3(n, sent) && Filed(n, peer, f)
    ensures KeptM3(f.node, sent + Letters(n.address, f.sent))
  {
    if f.sent != [] { assert f.sent[0] in f.sent; }
  }

  /** The session an initiator files keeps the message 3 it has just sent. */
  lemma ContinueKeepsM3(addr: AddressOf, n: Node, peer: Address, msg: Message, now: nat, sent: set<Letter>)
    requires KeptM3(n, sent)
    ensures var f := InitiatorContinue(addr, n, peer, msg, now); KeptM3(f.node, sent + Letters(n.address, f.sent))
  {
    FiledM3(addr, n, peer, msg, now);
    FiledKept(n, peer, InitiatorContinue(addr, n, peer, msg, now), sent);
  }

  lemma FinishKeepsM3(addr: AddressOf, n: Node, peer: Address, msg: Message, now: nat, sent: set<Letter>)
    requires KeptM3(n, sent)
    ensures KeptM3(ResponderFinish(addr, n, peer, msg, now).node, sent)
  {
  }

  lemma RequeuedNet(addr: AddressOf, n: Node, ev: Event, peer: Address, qs: seq<QueuedSend>, now: nat, sent: set<Letter>)
    requires KeptM3(n, sent)
    ensures NetEffect(addr, n, ev, Requeued(n, peer, qs, ev.e, now), sent)
  {
    var s := StartHandshake(n, peer, ev.e, now);
    OpenNet(addr, n, ev, peer, now, sent);
    if qs != [] && peer in s.node.handshakes {
      var q := s.node.handshakes[peer].queued;
      QueueNet(addr, n, ev, s, peer, q + qs[..Min(|qs|, SatSub(MAX_QUEUED, |q|))], sent);
    }
  }

  lemma NoticeNet(addr: AddressOf, n: Node, ev: Event, peer: Address, os: seq<Outstanding>, timeout: nat, now: nat, sent: set<Letter>)
    requires KeptM3(n, sent)
    ensures NetEffect(addr, n, ev, NoSessionNotice(n, peer, os, timeout, ev.e, now), sent)
  {
    if peer in n.sessions && !CanResend(n.sessions[peer], timeout, now) {
      RequeuedNet(addr, n.(sessions := n.sessions - {peer}), ev, peer, Again(peer, os), now, sent);
    }
  }

  lemma AnyNet(addr: AddressOf, n: Node, ev: Event, used: set<nat>, bad: set<nat>, sent: set<Letter>)
    requires KeptM3(n, sent) && Ready(addr, n, used, ev.e, bad)
    ensures NetEffect(addr, n, ev, Do(addr, n, ev), sent)
  {
    match ev
    case Open(_, peer, e, now) => OpenNet(addr, n, ev, peer, now, sent);
    case Submit(_, q, e, now) => SubmitNet(addr, n, ev, q, now, sent);
    case Receive(_, src, no, msg, e, now) =>
      match no {
        case One => RespondNet(addr, n, ev, used, bad, sent);
        case Two =>
          ContinueCases(addr, n, src, msg, now);
          ContinueKeepsM3(addr, n, src, msg, now, sent);
          OutcomeNet(addr, n, ev, InitiatorContinue(addr, n, src, msg, now), sent);
        case Three =>
          FinishCases(addr, n, src, msg, now);
          FinishKeepsM3(addr, n, src, msg, now, sent);
          OutcomeNet(addr, n, ev, ResponderFinish(addr, n, src, msg, now), sent);
      }
    case Notice(_, peer, os, timeout, e, now) => NoticeNet(addr, n, ev, peer, os, timeout, now, sent);
    case DropSession(_, _, _) =>
    case DropHandshake(_, _, _) =>
  }

  /** `f` is what the event does at its node. */
  ghost predicate Happens(addr: AddressOf, w: World, ev: Event, f: Effect, bad: set<nat>) {
    && LocalOk(addr, w, bad) && NetOk(addr, w) && Enabled(w, ev, bad, true)
    && StepOk(addr, w.nodes[ev.at], f, w.used + {ev.e}, bad)
    && NetEffect(addr, w.nodes[ev.at], ev, f, w.sent)
  }

  lemma SentStep(addr: AddressOf, w: World, ev: Event, f: Effect, bad: set<nat>)
    requires Happens(addr, w, ev, f, bad)
    ensures SentOk(Update(w, ev.at, ev.e, f))
  {
    var w' := Update(w, ev.at, ev.e, f);
    forall l <- w'.sent
      ensures l.msg.M2? ==> l.from in w'.nodes && IsM2Of(w'.nodes[l.from], l.to, l.msg)
      ensures l.msg.M3? ==> exists j <- w'.installs :: j.owner == l.from && j.peer == l.to && IsM3Of(j, l.msg)
    {
      if l in w.sent {
        if l.msg.M3? {
          var j :| j in w.installs && j.owner == l.from && j.peer == l.to && IsM3Of(j, l.msg);
          assert j in w'.installs;
        }
      } else if f.installed.Some? && IsM3Of(f.installed.value, l.msg) {
        assert f.installed.value in w'.installs;
      }
    }
  }

  /** Installing an initiator's session ends its handshake. */
  lemma InstallClears(addr: AddressOf, w: World, ev: Event, f: Effect, bad: set<nat>, j: Install)
    requires Happens(addr, w, ev, f, bad) && f.installed == Some(j) && j.hs.role.Initiator?
    ensures j.owner == ev.at == w.nodes[ev.at].address && j.peer !in f.node.handshakes
  {
  }

  lemma FreshAt(addr: AddressOf, w: World, ev: Event, f: Effect, bad: set<nat>)
    requires Happens(addr, w, ev, f, bad)
    ensures FreshNode(ev.at, f.node, w.installs)
  {
    forall p, j | p in f.node.handshakes && f.node.handshakes[p].hs.role.Initiator? && j in w.installs && j.owner == ev.at
                  && j.peer == p && j.hs.role.Initiator?
      ensures j.hs.e != f.node.handshakes[p].hs.e
    {
      assert InstallOk(addr, w.nodes[ev.at], j, w.used);
    }
  }

  /** A new installation concerns its owner only, and no handshake in flight. */
  lemma FreshWith(a: Address, n: Node, installs: set<Install>, i: Install)
    requires FreshNode(a, n, installs) && (i.owner == a && i.hs.role.Initiator? ==> i.peer !in n.handshakes)
    ensures FreshNode(a, n, installs + {i})
  {
  }

  lemma FreshStep(addr: AddressOf, w: World, ev: Event, f: Effect, bad: set<nat>)
    requires Happens(addr, w, ev, f, bad)
    ensures FreshOk(Update(w, ev.at, ev.e, f))
  {
    var w' := Update(w, ev.at, ev.e, f);
    forall a <- w'.nodes ensures FreshNode(a, w'.nodes[a], w'.installs) {
      if a == ev.at { FreshAt(addr, w, ev, f, bad); }
      if f.installed.Some? {
        var i := f.installed.value;
        if i.hs.role.Initiator? { InstallClears(addr, w, ev, f, bad, i); }
        FreshWith(a, w'.nodes[a], w.installs, i);
      }
    }
  }

  lemma MatchedKept(w: World, ev: Event, f: Effect, i: Install)
    requires ev.at in w.nodes && i.peer in w.nodes && Matched(w, i)
    requires f.node.address == w.nodes[ev.at].address
    ensures Matched(Update(w, ev.at, ev.e, f), i)
  {
    var w' := Update(w, ev.at, ev.e, f);
    if i.hs.role.Responder? {
      var j :| j in w.installs && j.owner == i.peer && j.peer == i.owner && j.hs.role.Initiator? && j.hs.ss.h == i.hs.ss.h;
      assert j in w'.installs;
    } else {
      var l :| l in w.sent && Wrote2(w, i.peer, i.owner, l) && Continues(i.hs.ss.h, l.msg);
      assert l in w'.sent && Wrote2(w', i.peer, i.owner, l);
    }
  }

  lemma NewMatched(addr: AddressOf, w: World, ev: Event, f: Effect, bad: set<nat>)
    requires Happens(addr, w, ev, f, bad)
    requires f.installed.Some? && Honest(addr, w, f.installed.value.peer)
    ensures Matched(Update(w, ev.at, ev.e, f), f.installed.value)
  {
    var n, i := w.nodes[ev.at], f.installed.value;
    var w' := Update(w, ev.at, ev.e, f);
    if i.hs.role.Responder? {
      var j := ResponderMatched(addr, w, n, i.peer, ev.msg, i, bad);
      assert j in w'.installs;
    } else {
      var m3 :| InitiatorInstall(addr, n, i.peer, n.handshakes[i.peer], ev.msg, i, m3);
      var l := InitiatorMatched(addr, w, n, i.peer, ev.msg, i, m3, bad);
      assert l in w'.sent && Wrote2(w', i.peer, i.owner, l);
    }
  }

  lemma NetUpdate(addr: AddressOf, w: World, ev: Event, f: Effect, bad: set<nat>)
    requires Happens(addr, w, ev, f, bad)
    ensures NetOk(addr, Update(w, ev.at, ev.e, f))
  {
    var w' := Update(w, ev.at, ev.e, f);
    SentStep(addr, w, ev, f, bad);
    FreshStep(addr, w, ev, f, bad);
    forall i <- w'.installs | Honest(addr, w', i.peer) ensures Matched(w', i) {
      assert Honest(addr, w, i.peer);
      if i in w.installs {
        MatchedKept(w, ev, f, i);
      } else {
        NewMatched(addr, w, ev, f, bad);
      }
    }
  }

  lemma NetStep(addr: AddressOf, w: World, ev: Event, bad: set<nat>)
    requires LocalOk(addr, w, bad) && NetOk(addr, w) && Enabled(w, ev, bad, true)
    ensures NetOk(addr, Apply(addr, w, ev))
  {
    var n := w.nodes[ev.at];
    AnyStep(addr, n, ev, w.used, bad);
    AnyNet(addr, n, ev, w.used, bad, w.sent);
    NetUpdate(addr, w, ev, Do(addr, n, ev), bad);
  }

  lemma {:induction false} NetRun(addr: AddressOf, w: World, evs: seq<Event>, bad: set<nat>)
    requires LocalOk(addr, w, bad) && NetOk(addr, w) && Legal(addr, w, evs, bad, true)
    ensures NetOk(addr, Exec(addr, w, evs, bad, true))
    decreases |evs|
  {
    if evs != [] {
      LocalStep(addr, w, evs[0], bad);
      NetStep(addr, w, evs[0], bad);
      NetRun(addr, Apply(addr, w, evs[0]), evs[1..], bad);
    }
  }

  /** The peer installed, as the initiator, the mirrored session of the handshake. */
  ghost predicate Mirrors(j: Install, p: Address, a: Address, s: Session) {
    && j.owner == p && j.peer == a && j.hs.role.Initiator? && j.epoch == s.epoch
    && Finish(j.hs).Ok?
    && var k := Finish(j.hs).value.0;
       k.hash == s.keys.hash && k.send == s.keys.recv && k.recv == s.keys.send
  }

  /** The session at `a` filed under `p` is not one-sided. */
  ghost predicate HasCounterpart(w: World, a: Address, p: Address)
    requires a in w.nodes && p in w.nodes && p in w.nodes[a].sessions
  {
    var s := w.nodes[a].sessions[p];
    && s.peer == w.nodes[p].id
    && (s.m3.None? ==> exists j <- w.installs :: Mirrors(j, p, a, s))
    && (s.m3.Some? ==> exists l <- w.sent :: Wrote2(w, p, a, l) && Continues(s.keys.hash, l.msg))
  }

  lemma MirrorsOf(addr: AddressOf, n: Node, i: Install, n': Node, j: Install, s: Session, used: set<nat>)
    requires InstallOk(addr, n, i, used) && InstallOk(addr, n', j, used) && i.owner != j.owner
    requires i.hs.role.Responder? && j.hs.role.Initiator? && i.hs.ss.h == j.hs.ss.h
    requires ComesFrom(s, i.owner, i.peer, i)
    ensures Mirrors(j, i.peer, i.owner, s)
  {
    SameHash(addr, n, i, n', j, used);
  }

  lemma Counterpart(addr: AddressOf, w: World, bad: set<nat>, a: Address, p: Address)
    requires LocalOk(addr, w, bad) && NetOk(addr, w)
    requires a in w.nodes && a != p && p in w.nodes[a].sessions && Honest(addr, w, p)
    ensures HasCounterpart(w, a, p)
  {
    var s := w.nodes[a].sessions[p];
    assert NodeOk(addr, a, w.nodes[a], w.installs, w.used, bad);
    var i :| i in w.installs && ComesFrom(s, a, p, i);
    assert InstallOk(addr, w.nodes[a], i, w.used);
    assert Matched(w, i);
    if s.m3.None? {
      var j :| j in w.installs && j.owner == i.peer && j.peer == i.owner && j.hs.role.Initiator? && j.hs.ss.h == i.hs.ss.h;
      MirrorsOf(addr, w.nodes[a], i, w.nodes[p], j, s, w.used);
    } else {
      var l :| l in w.sent && Wrote2(w, i.peer, i.owner, l) && Continues(i.hs.ss.h, l.msg);
      assert Wrote2(w, p, a, l) && Continues(s.keys.hash, l.msg);
    }
  }

  /** On a network that cannot encrypt under keys it does not know, a session is never
      one-sided: when a node holds a session filed under an honest peer's address, then
      if it is the responder the peer has installed the mirrored session of the same
      handshake, and if it is the initiator the peer sent this node exactly the message 2
      that the session's transcript continues. */
  lemma SessionsMatch(addr: AddressOf, w0: World, evs: seq<Event>, bad: set<nat>, a: Address, p: Address)
    requires Initial(addr, w0, bad) && Legal(addr, w0, evs, bad, true)
    requires
      var w := Exec(addr, w0, evs, bad, true);
      a in w.nodes && a != p && p in w.nodes[a].sessions && Honest(addr, w, p)
    ensures HasCounterpart(Exec(addr, w0, evs, bad, true), a, p)
  {
    LocalRun(addr, w0, evs, bad, true);
    NetRun(addr, w0, evs, bad);
    Counterpart(addr, Exec(addr, w0, evs, bad, true), bad, a, p);
  }
}
