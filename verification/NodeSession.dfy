/** Session establishment as a node runs it: which handshake is in flight with
    which peer, what a retransmitted or crossing message 1 does, and when a
    session is installed. */
module NodeSession {
  import opened Basics
  import opened Crypto
  import opened Noise

  /** A send waiting for a session. */
  datatype QueuedSend = QueuedSend(dst: Address, payload: seq<byte>, handle: nat)

  /** A handshake in flight.  `m1` is the initiator's message 1, kept for
      retransmission; `re` and `m2` are the responder's copy of the initiator's
      ephemeral and its own answer. */
  datatype Pending = Pending(
    hs: Handshake, startedAt: nat, epoch: byte, queued: seq<QueuedSend>, attempts: nat,
    m1: Option<Message>, re: Option<Term>, m2: Option<Message>)

  /** An installed session; only an initiator's session keeps a message 3. */
  datatype Session = Session(
    peer: PublicIdentity, epoch: byte, keys: TransportKeys, establishedAt: nat,
    m3: Option<Message>, m3Resends: nat)

  /** The address derived from a public identity (a truncated hash, so not
      necessarily injective). */
  type AddressOf = PublicIdentity -> Address

  datatype Node = Node(
    id: PublicIdentity, address: Address, role: byte,
    handshakes: map<Address, Pending>, sessions: map<Address, Session>)

  /** A handshake packet handed to the router. */
  datatype Sent = Sent(to: Address, msg: Message)

  /** What one call does: the new node, the packets it sends, the queued sends it
      hands to the session layer, the ones it reports as failed, and a record of the
      session it installs, if any. */
  datatype Effect = Effect(
    node: Node, sent: seq<Sent>, released: seq<QueuedSend>, failed: seq<QueuedSend>, installed: Option<Install>)
  {
    /** This call and then another that installs nothing. */
    function Then(f: Effect): Effect { Effect(f.node, sent + f.sent, released + f.released, failed + f.failed, installed) }
  }

  /** A session installation: who installed it for which peer, and the finished
      handshake it came from. */
  datatype Install = Install(owner: Address, peer: Address, epoch: byte, hs: Handshake)

  function Quiet(node: Node): Effect { Effect(node, [], [], [], None) }

  const PROLOGUE_TAG: seq<byte> := [77, 101, 115, 104, 83, 116, 97, 114, 47, 120, 120, 47, 118, 49] // "MeshStar/xx/v1"

  /** The prologue binds both addresses, initiator first. */
  function Prologue(initiator: Address, responder: Address): Term {
    Data(Lits(PROLOGUE_TAG + Be(initiator, 8) + Be(responder, 8)))
  }

  lemma PrologueInjective(i: Address, r: Address, i': Address, r': Address)
    requires Prologue(i, r) == Prologue(i', r')
    ensures i == i' && r == r'
  {
    LitsInjective(PROLOGUE_TAG + Be(i, 8) + Be(r, 8), PROLOGUE_TAG + Be(i', 8) + Be(r', 8));
    var s, s' := PROLOGUE_TAG + Be(i, 8) + Be(r, 8), PROLOGUE_TAG + Be(i', 8) + Be(r', 8);
    assert Be(i, 8) == s[14..22] && Be(r, 8) == s[22..] && Be(i', 8) == s'[14..22] && Be(r', 8) == s'[22..];
    Pow256Values();
    BeInjective(i, i', 8);
    BeInjective(r, r', 8);
  }

  /** Second byte of the message 1 payload, 0 when there is none. */
  function EpochOf(payload: Term): byte {
    if payload.Data? && |payload.bytes| >= 2 && payload.bytes[1].Lit? then payload.bytes[1].v else 0
  }

  function Payload1(role: byte, epoch: byte): Term { Data([Lit(role), Lit(epoch)]) }

  /** Begin a handshake with `peer`; `e` is the ephemeral drawn from the RNG. */
  function StartHandshake(n: Node, peer: Address, e: nat, now: nat): Effect {
    if peer in n.handshakes || peer == n.address then Quiet(n)
    else
      var epoch: byte := if peer in n.sessions then (n.sessions[peer].epoch + 1) % 256 else 0;
      var w := WriteMessage1(New(Initiator, n.id, Prologue(n.address, peer), e), Payload1(n.role, epoch));
      match w.result
      case Err(_) => Quiet(n)
      case Ok(m1) =>
        var h := Pending(w.state, now, epoch, [], 1, Some(m1), None, None);
        Effect(n.(handshakes := n.handshakes[peer := h]), [Sent(peer, m1)], [], [], None)
  }

  /** Responder side of message 1: the new node and the message 2 to send back. */
  function ResponderStart(n: Node, peer: Address, msg: Message, e: nat, now: nat): (Node, Option<Message>) {
    if !msg.M1? then (n, None)
    else if peer in n.handshakes && n.handshakes[peer].hs.role.Initiator? && n.address < peer then
      (n, None)                                  // simultaneous open: the higher address yields
    else if peer in n.handshakes && n.handshakes[peer].hs.role.Responder? && n.handshakes[peer].re == Some(msg.e) then
      (n, n.handshakes[peer].m2)                 // retransmitted message 1: same answer
    else
      var queued := if peer in n.handshakes then n.handshakes[peer].queued else [];
      var n1 := n.(handshakes := n.handshakes - {peer});
      var r := ReadMessage1(New(Responder, n.id, Prologue(peer, n.address), e), msg);
      match r.result
      case Err(_) => (n1, None)
      case Ok(p) =>
        var w := WriteMessage2(r.state, Data([Lit(n.role)]));
        match w.result
        case Err(_) => (n1, None)
        case Ok(m2) =>
          var h := Pending(w.state, now, EpochOf(p), queued, 1, None, Some(msg.e), Some(m2));
          (n1.(handshakes := n1.handshakes[peer := h]), Some(m2))
  }

  /** File the session of a finished handshake and release what waited for it. */
  function InstallSession(n: Node, peer: Address, h: Pending, hs: Handshake, keys: TransportKeys,
                          remote: PublicIdentity, m3: Option<Message>, now: nat): Effect {
    var s := Session(remote, h.epoch, keys, now, m3, 0);
    Effect(n.(sessions := n.sessions[peer := s]),
           match m3 case Some(m) => [Sent(peer, m)] case None => [],
           h.queued, [], Some(Install(n.address, peer, h.epoch, hs)))
  }

  predicate Verified(addr: AddressOf, hs: Handshake, peer: Address) {
    hs.remote.Some? && addr(hs.remote.value) == peer
  }

  /** Initiator side of message 2: send message 3 and install the session. */
  function InitiatorContinue(addr: AddressOf, n: Node, peer: Address, msg: Message, now: nat): Effect {
    if peer !in n.handshakes || !n.handshakes[peer].hs.role.Initiator? then Quiet(n)
    else
      var h := n.handshakes[peer];
      var r := ReadMessage2(h.hs, msg);
      if r.result.Err? then Quiet(n.(handshakes := n.handshakes[peer := h.(hs := r.state)]))
      else if !Verified(addr, r.state, peer) then Quiet(n.(handshakes := n.handshakes - {peer}))
      else SendMessage3(n, peer, h, r.state, now)
  }

  /** Answer a verified message 2: `hs` is the handshake after reading it. */
  function SendMessage3(n: Node, peer: Address, h: Pending, hs: Handshake, now: nat): Effect {
    var w := WriteMessage3(hs, Data([Lit(n.role)]));
    if w.result.Err? then Quiet(n.(handshakes := n.handshakes[peer := h.(hs := w.state)]))
    else
      var n1 := n.(handshakes := n.handshakes - {peer});
      match Finish(w.state)
      case Err(_) => Quiet(n1)
      case Ok((keys, remote)) => InstallSession(n1, peer, h, w.state, keys, remote, Some(w.result.value), now)
  }

  /** Responder side of message 3: install the session. */
  function ResponderFinish(addr: AddressOf, n: Node, peer: Address, msg: Message, now: nat): Effect {
    if peer !in n.handshakes || !n.handshakes[peer].hs.role.Responder? then Quiet(n)
    else
      var h := n.handshakes[peer];
      var r := ReadMessage3(h.hs, msg);
      if r.result.Err? then Quiet(n.(handshakes := n.handshakes[peer := h.(hs := r.state)]))
      else
        var n1 := n.(handshakes := n.handshakes - {peer});
        if !Verified(addr, r.state, peer) then Quiet(n1)
        else
          match Finish(r.state)
          case Err(_) => Quiet(n1)
          case Ok((keys, remote)) => InstallSession(n1, peer, h, r.state, keys, remote, None, now)
  }

  /** The number byte in front of a handshake message. */
  datatype Number = One | Two | Three

  /** A handshake packet from `src` addressed to this node. */
  function HandleHandshake(addr: AddressOf, n: Node, src: Address, no: Number, msg: Message, e: nat, now: nat): Effect {
    match no
    case One =>
      var (n', m2) := ResponderStart(n, src, msg, e, now);
      Effect(n', match m2 case Some(m) => [Sent(src, m)] case None => [], [], [], None)
    case Two => InitiatorContinue(addr, n, src, msg, now)
    case Three => ResponderFinish(addr, n, src, msg, now)
  }

  const MAX_QUEUED := 8

  /** Send through an existing session, or queue behind a handshake. */
  function SendOrQueue(n: Node, q: QueuedSend, e: nat, now: nat): Effect {
    if q.dst in n.sessions then Quiet(n).(released := [q])
    else if q.dst in n.handshakes then
      var h := n.handshakes[q.dst];
      if |h.queued| < MAX_QUEUED
      then Quiet(n.(handshakes := n.handshakes[q.dst := h.(queued := h.queued + [q])]))
      else Quiet(n).(failed := [q])
    else
      var s := StartHandshake(n, q.dst, e, now);
      if q.dst in s.node.handshakes
      then
        var h := s.node.handshakes[q.dst];
        s.(node := s.node.(handshakes := s.node.handshakes[q.dst := h.(queued := h.queued + [q])]))
      else s.(failed := [q])
  }

  /** A message that was sent and not yet confirmed; a deferred one waits in a mailbox and
      needs no session. */
  datatype Outstanding = Outstanding(payload: seq<byte>, handle: nat, deferred: bool)

  /** What has to be sent again to `peer`, in order. */
  function Again(peer: Address, os: seq<Outstanding>): (qs: seq<QueuedSend>)
    ensures |qs| <= |os| && forall i :: 0 <= i < |qs| ==> qs[i].dst == peer
  {
    if os == [] then []
    else
      var o := os[|os| - 1];
      Again(peer, os[..|os| - 1]) + if o.deferred then [] else [QueuedSend(peer, o.payload, o.handle)]
  }

  /** Add sends to the queue of a handshake as far as it has room; the rest fails. */
  function Behind(s: Effect, peer: Address, qs: seq<QueuedSend>): Effect
    requires peer in s.node.handshakes
  {
    var h := s.node.handshakes[peer];
    var k := Min(|qs|, SatSub(MAX_QUEUED, |h.queued|));
    s.(node := s.node.(handshakes := s.node.handshakes[peer := h.(queued := h.queued + qs[..k])]), failed := qs[k..])
  }

  /** Sends to a peer without a session: behind the handshake in flight, or behind a new
      one. */
  function Requeued(n: Node, peer: Address, qs: seq<QueuedSend>, e: nat, now: nat): Effect {
    if qs == [] then Quiet(n)
    else
      var s := StartHandshake(n, peer, e, now);
      if peer in s.node.handshakes then Behind(s, peer, qs) else s.(failed := qs)
  }

  predicate CanResend(s: Session, timeout: nat, now: nat) {
    s.m3Resends < 3 && SatSub(now, s.establishedAt) <= timeout && s.m3.Some?
  }

  /** The peer says it has no session with us: resend message 3 of a young session
      we initiated, at most three times; otherwise drop the session and queue what was
      under way behind a fresh handshake. */
  function NoSessionNotice(n: Node, peer: Address, os: seq<Outstanding>, timeout: nat, e: nat, now: nat): Effect {
    if peer !in n.sessions then Quiet(n)
    else
      var s := n.sessions[peer];
      if CanResend(s, timeout, now) then
        Effect(n.(sessions := n.sessions[peer := s.(m3Resends := s.m3Resends + 1)]), [Sent(peer, s.m3.value)], [], [], None)
      else Requeued(n.(sessions := n.sessions - {peer}), peer, Again(peer, os), e, now)
  }

  lemma BehindRoom(s: Effect, peer: Address, qs: seq<QueuedSend>, q: QueuedSend, e: nat, now: nat)
    requires peer in s.node.handshakes && peer !in s.node.sessions && q.dst == peer && s.released == []
    requires |s.node.handshakes[peer].queued| + |qs| < MAX_QUEUED
    ensures var f := Behind(s, peer, qs); Behind(s, peer, qs + [q]) == f.Then(SendOrQueue(f.node, q, e, now))
  {
    assert (qs + [q])[..|qs| + 1] == qs + [q] && (qs + [q])[|qs| + 1..] == [] && qs[..|qs|] == qs && qs[|qs|..] == [];
    assert s.node.handshakes[peer].queued + (qs + [q]) == s.node.handshakes[peer].queued + qs + [q];
  }

  lemma BehindFull(s: Effect, peer: Address, qs: seq<QueuedSend>, q: QueuedSend, e: nat, now: nat)
    requires peer in s.node.handshakes && peer !in s.node.sessions && q.dst == peer && s.released == []
    requires |s.node.handshakes[peer].queued| + |qs| >= MAX_QUEUED
    ensures var f := Behind(s, peer, qs); Behind(s, peer, qs + [q]) == f.Then(SendOrQueue(f.node, q, e, now))
  {
    var room := SatSub(MAX_QUEUED, |s.node.handshakes[peer].queued|);
    assert (qs + [q])[..room] == qs[..room] && (qs + [q])[room..] == qs[room..] + [q];
  }

  lemma RequeueFirst(n: Node, peer: Address, q: QueuedSend, e: nat, now: nat)
    requires peer !in n.sessions && q.dst == peer
    ensures Requeued(n, peer, [q], e, now) == Quiet(n).Then(SendOrQueue(n, q, e, now))
  {
    assert [q][..1] == [q] && [q][..0] == [] && [q][0..] == [q] && [q][1..] == [];
    if peer in n.handshakes {
      var h := n.handshakes[peer];
      assert h.queued + [] == h.queued;
      assert n.handshakes[peer := h] == n.handshakes;
    }
  }

  /** Sending one after the other is queueing them all. */
  lemma RequeueOne(n: Node, peer: Address, qs: seq<QueuedSend>, q: QueuedSend, e: nat, now: nat)
    requires peer !in n.sessions && q.dst == peer
    ensures var f := Requeued(n, peer, qs, e, now); Requeued(n, peer, qs + [q], e, now) == f.Then(SendOrQueue(f.node, q, e, now))
  {
    var s := StartHandshake(n, peer, e, now);
    if qs == [] {
      assert [] + [q] == [q];
      RequeueFirst(n, peer, q, e, now);
    } else if peer !in s.node.handshakes {
      assert s == Quiet(n);
    } else if |s.node.handshakes[peer].queued| + |qs| < MAX_QUEUED {
      BehindRoom(s, peer, qs, q, e, now);
    } else {
      BehindFull(s, peer, qs, q, e, now);
    }
  }

  /** What waits for a session with `peer`. */
  function Waiting(n: Node, peer: Address): seq<QueuedSend> {
    if peer in n.handshakes then n.handshakes[peer].queued else []
  }

  /** What is handed in ends up behind what waited already, in order, or fails. */
  ghost predicate Conserved(before: seq<QueuedSend>, qs: seq<QueuedSend>, after: seq<QueuedSend>, failed: seq<QueuedSend>) {
    && after + failed == before + qs
    && (|before| <= MAX_QUEUED ==> |after| <= MAX_QUEUED)
  }

  lemma BehindConserves(s: Effect, peer: Address, qs: seq<QueuedSend>)
    requires peer in s.node.handshakes
    ensures var f := Behind(s, peer, qs); Conserved(Waiting(s.node, peer), qs, Waiting(f.node, peer), f.failed)
    ensures var f := Behind(s, peer, qs); f.failed != [] ==> |Waiting(f.node, peer)| >= MAX_QUEUED
  {
    var q := s.node.handshakes[peer].queued;
    var k := Min(|qs|, SatSub(MAX_QUEUED, |q|));
    assert q + qs[..k] + qs[k..] == q + qs;
  }

  lemma StartKeepsWaiting(n: Node, peer: Address, e: nat, now: nat)
    ensures
      var s := StartHandshake(n, peer, e, now);
      && s.node.sessions == n.sessions && Waiting(s.node, peer) == Waiting(n, peer) && s.released == []
      && (peer in s.node.handshakes <==> peer in n.handshakes || peer != n.address)
  {
  }

  /** A notice that ends a session loses no message: each is queued again behind a
      handshake, in order, or reported as failed because the queue is full. */
  lemma NoticeConserves(n: Node, peer: Address, os: seq<Outstanding>, timeout: nat, e: nat, now: nat)
    requires peer in n.sessions && !CanResend(n.sessions[peer], timeout, now)
    ensures
      var f := NoSessionNotice(n, peer, os, timeout, e, now);
      && peer !in f.node.sessions && f.released == []
      && Conserved(Waiting(n, peer), Again(peer, os), Waiting(f.node, peer), f.failed)
      && (f.failed != [] ==> |Waiting(f.node, peer)| >= MAX_QUEUED || peer == n.address)
  {
    var n1, qs := n.(sessions := n.sessions - {peer}), Again(peer, os);
    var s := StartHandshake(n1, peer, e, now);
    StartKeepsWaiting(n1, peer, e, now);
    if qs == [] {
      assert Waiting(n, peer) + [] == Waiting(n, peer);
    } else if peer in s.node.handshakes {
      BehindConserves(s, peer, qs);
    }
  }

  // ----- crossing opens ---------------------------------------------------------

  /** The handshake is as `StartHandshake` left it: message 1 written, nothing read. */
  ghost predicate Opened(n: Node, peer: Address, h: Pending) {
    var w := WriteMessage1(New(Initiator, n.id, Prologue(n.address, peer), h.hs.e), Payload1(n.role, h.epoch));
    h.hs == w.state && w.result.Ok? && h.m1 == Some(w.result.value)
  }

  /** Both nodes have opened towards each other. */
  ghost predicate BothInitiators(lo: Node, hi: Node) {
    && lo.address < hi.address
    && hi.address in lo.handshakes && Opened(lo, hi.address, lo.handshakes[hi.address])
    && lo.address in hi.handshakes && Opened(hi, lo.address, hi.handshakes[lo.address])
  }

  lemma StartOpens(n: Node, peer: Address, e: nat, now: nat)
    requires peer !in n.handshakes && peer != n.address
    ensures
      var s := StartHandshake(n, peer, e, now);
      && s.node == n.(handshakes := s.node.handshakes)
      && peer in s.node.handshakes && Opened(s.node, peer, s.node.handshakes[peer])
      && s.node.handshakes[peer].m1.Some? && s.sent == [Sent(peer, s.node.handshakes[peer].m1.value)]
  {
  }

  /** Which of the two crossing message 1s is delivered: the lower address's one to
      the higher node, or the higher one's to the lower node.  `e` is what the
      receiver would draw for a new handshake. */
  datatype Crossing = LowToHigh(e: nat, now: nat) | HighToLow(e: nat, now: nat)

  /** Deliver the copies in order; the result is the two nodes and the answer to
      each delivery. */
  function Cross(lo: Node, hi: Node, m1lo: Message, m1hi: Message, ds: seq<Crossing>): (Node, Node, seq<Option<Message>>)
    decreases |ds|
  {
    if ds == [] then (lo, hi, [])
    else
      match ds[0]
      case LowToHigh(e, now) =>
        var (hi', m2) := ResponderStart(hi, lo.address, m1lo, e, now);
        var (l, h, out) := Cross(lo, hi', m1lo, m1hi, ds[1..]);
        (l, h, [m2] + out)
      case HighToLow(e, now) =>
        var (lo', m2) := ResponderStart(lo, hi.address, m1hi, e, now);
        var (l, h, out) := Cross(lo', hi, m1lo, m1hi, ds[1..]);
        (l, h, [m2] + out)
  }

  predicate DeliversLow(ds: seq<Crossing>) {
    ds != [] && (ds[0].LowToHigh? || DeliversLow(ds[1..]))
  }

  /** The first delivery of the lower node's message 1. */
  function FirstLow(ds: seq<Crossing>): (d: Crossing)
    requires DeliversLow(ds)
    ensures d.LowToHigh? && d in ds
  {
    if ds[0].LowToHigh? then ds[0] else FirstLow(ds[1..])
  }

  /** The higher node once it has yielded: a responder to the lower node's message 1,
      its own opening gone, its queue kept. */
  ghost predicate Answers(lo: Node, hi: Node, d: Crossing, h: Pending)
    requires BothInitiators(lo, hi)
  {
    var a := lo.handshakes[hi.address];
    var r := ReadMessage1(New(Responder, hi.id, Prologue(lo.address, hi.address), d.e), a.m1.value);
    var w := WriteMessage2(r.state, Data([Lit(hi.role)]));
    && w.result.Ok?
    && h == Pending(w.state, d.now, a.epoch, hi.handshakes[lo.address].queued, 1, None, Some(Pub(a.hs.e)), Some(w.result.value))
  }

  /** What the two nodes sent back: the same message 2 for every copy that reached
      the higher node, nothing from the lower node. */
  ghost predicate AnswersAre(ds: seq<Crossing>, out: seq<Option<Message>>, m2: Option<Message>) {
    && |out| == |ds|
    && forall i :: 0 <= i < |ds| ==> out[i] == if ds[i].LowToHigh? then m2 else None
  }

  lemma {:induction false} AfterYield(lo: Node, hi: Node, m1lo: Message, m1hi: Message, ds: seq<Crossing>)
    requires m1lo.M1? && m1hi.M1? && lo.address < hi.address
    requires hi.address in lo.handshakes && lo.handshakes[hi.address].hs.role.Initiator?
    requires lo.address in hi.handshakes && hi.handshakes[lo.address].hs.role.Responder?
    requires hi.handshakes[lo.address].re == Some(m1lo.e)
    ensures
      var (l, h, out) := Cross(lo, hi, m1lo, m1hi, ds);
      l == lo && h == hi && AnswersAre(ds, out, hi.handshakes[lo.address].m2)
    decreases |ds|
  {
    if ds != [] { AfterYield(lo, hi, m1lo, m1hi, ds[1..]); }
  }

  /** Crossing opens settle.  However the two message 1s are delivered, duplicated
      and interleaved, the lower node stays the initiator unchanged; once its message
      1 has arrived the higher node is the responder to it with its queue intact, and
      every copy gets the identical message 2. */
  lemma {:induction false} CrossingSettles(lo: Node, hi: Node, ds: seq<Crossing>) returns (h: Pending)
    requires BothInitiators(lo, hi)
    ensures
      var (l', h', out) := Cross(lo, hi, lo.handshakes[hi.address].m1.value, hi.handshakes[lo.address].m1.value, ds);
      && l' == lo
      && (DeliversLow(ds) ==>
            && Answers(lo, hi, FirstLow(ds), h)
            && h' == hi.(handshakes := hi.handshakes[lo.address := h])
            && AnswersAre(ds, out, h.m2))
      && (!DeliversLow(ds) ==> h' == hi && AnswersAre(ds, out, None))
    decreases |ds|
  {
    var m1lo, m1hi := lo.handshakes[hi.address].m1.value, hi.handshakes[lo.address].m1.value;
    h := hi.handshakes[lo.address];
    if ds != [] {
      if ds[0].HighToLow? {
        h := CrossingSettles(lo, hi, ds[1..]);
      } else {
        var hi' := ResponderStart(hi, lo.address, m1lo, ds[0].e, ds[0].now).0;
        h := Yields(lo, hi, ds[0]);
        AfterYield(lo, hi', m1lo, m1hi, ds[1..]);
      }
    }
  }

  lemma Yields(lo: Node, hi: Node, d: Crossing) returns (h: Pending)
    requires BothInitiators(lo, hi) && d.LowToHigh?
    ensures Answers(lo, hi, d, h)
    ensures ResponderStart(hi, lo.address, lo.handshakes[hi.address].m1.value, d.e, d.now)
            == (hi.(handshakes := hi.handshakes[lo.address := h]), h.m2)
    ensures h.hs.role.Responder?
  {
    var a := lo.handshakes[hi.address];
    var r := ReadMessage1(New(Responder, hi.id, Prologue(lo.address, hi.address), d.e), a.m1.value);
    WriteMessage2State(r.state, Data([Lit(hi.role)]));
    var w := WriteMessage2(r.state, Data([Lit(hi.role)]));
    h := Pending(w.state, d.now, a.epoch, hi.handshakes[lo.address].queued, 1, None, Some(Pub(a.hs.e)), Some(w.result.value));
    assert (hi.handshakes - {lo.address})[lo.address := h] == hi.handshakes[lo.address := h];
  }

  lemma ContinueEffect(addr: AddressOf, n: Node, peer: Address, msg: Message, now: nat,
                       x: Term, i2: Handshake, i3: Handshake, m3: Message, keys: TransportKeys, remote: PublicIdentity)
    requires peer in n.handshakes && n.handshakes[peer].hs.role.Initiator?
    requires ReadMessage2(n.handshakes[peer].hs, msg) == Outcome(i2, Ok(x)) && Verified(addr, i2, peer)
    requires WriteMessage3(i2, Data([Lit(n.role)])) == Outcome(i3, Ok(m3)) && Finish(i3) == Ok((keys, remote))
    ensures
      var h := n.handshakes[peer];
      var n1 := n.(handshakes := n.handshakes - {peer});
      InitiatorContinue(addr, n, peer, msg, now) == InstallSession(n1, peer, h, i3, keys, remote, Some(m3), now)
  {
  }

  lemma FinishEffect(addr: AddressOf, n: Node, peer: Address, msg: Message, now: nat,
                     x: Term, r3: Handshake, keys: TransportKeys, remote: PublicIdentity)
    requires peer in n.handshakes && n.handshakes[peer].hs.role.Responder?
    requires ReadMessage3(n.handshakes[peer].hs, msg) == Outcome(r3, Ok(x)) && Verified(addr, r3, peer)
    requires Finish(r3) == Ok((keys, remote))
    ensures
      var h := n.handshakes[peer];
      var n1 := n.(handshakes := n.handshakes - {peer});
      ResponderFinish(addr, n, peer, msg, now) == InstallSession(n1, peer, h, r3, keys, remote, None, now)
  {
  }

  /** The exchange that follows once the higher node has yielded. */
  lemma SettledExchange(lo: Node, hi: Node, d: Crossing, h: Pending) returns (x: Exchange)
    requires BothInitiators(lo, hi) && d.LowToHigh? && Answers(lo, hi, d, h)
    ensures
      var i := lo.handshakes[hi.address].hs;
      && i.role.Initiator?
      && ReadMessage2(i, x.m2) == Outcome(x.i2, Ok(Data([Lit(hi.role)])))
      && WriteMessage3(x.i2, Data([Lit(lo.role)])) == Outcome(x.i3, Ok(x.m3))
    ensures h.hs.role.Responder? && h.m2 == Some(x.m2) && ReadMessage3(h.hs, x.m3) == Outcome(x.r3, Ok(Data([Lit(lo.role)])))
    ensures Mirrored(x.i3, x.r3) && x.i3.id == lo.id && x.r3.id == hi.id && x.i2.remote == x.i3.remote
    ensures h.epoch == lo.handshakes[hi.address].epoch && h.queued == hi.handshakes[lo.address].queued
  {
    var a := lo.handshakes[hi.address];
    var r := ReadMessage1(New(Responder, hi.id, Prologue(lo.address, hi.address), d.e), a.m1.value).state;
    assert a.hs.ss == r.ss && a.hs.id == lo.id && r.id == hi.id;
    x := Completion(a.hs, r, Data([Lit(hi.role)]), Data([Lit(lo.role)]));
  }

  /** After crossing opens have settled, delivering message 2 and then message 3
      installs mirrored sessions on both sides and releases both queues in full. */
  lemma SettledCompletes(addr: AddressOf, lo: Node, hi: Node, d: Crossing, h: Pending, now: nat, later: nat)
    returns (s: Session, t: Session)
    requires BothInitiators(lo, hi) && d.LowToHigh? && Answers(lo, hi, d, h)
    requires addr(lo.id) == lo.address && addr(hi.id) == hi.address
    ensures s.m3.Some? && h.m2.Some?
    ensures InitiatorInstalls(addr, lo, hi.address, h.m2.value, s, now)
    ensures ResponderInstalls(addr, hi.(handshakes := hi.handshakes[lo.address := h]), lo.address, s.m3.value, t, later)
    ensures h.queued == hi.handshakes[lo.address].queued
    ensures s.keys.send == t.keys.recv && s.keys.recv == t.keys.send && s.keys.hash == t.keys.hash
    ensures s.epoch == t.epoch == h.epoch && s.peer == hi.id && t.peer == lo.id && t.m3.None?
  {
    var x := SettledExchange(lo, hi, d, h);
    s, t := ExchangeInstalls(addr, lo, hi.(handshakes := hi.handshakes[lo.address := h]), h, x, now, later);
  }

  /** Message 2 from `peer` makes the initiator `n` send message 3, file the session
      `s` and release everything queued for it. */
  ghost predicate InitiatorInstalls(addr: AddressOf, n: Node, peer: Address, m2: Message, s: Session, now: nat) {
    && peer in n.handshakes && s.m3.Some?
    && var f := InitiatorContinue(addr, n, peer, m2, now);
    && f.sent == [Sent(peer, s.m3.value)] && f.released == n.handshakes[peer].queued
    && f.node == n.(handshakes := n.handshakes - {peer}, sessions := n.sessions[peer := s])
  }

  /** Message 3 from `peer` makes the responder `n` file the session `s` and release
      everything queued for it. */
  ghost predicate ResponderInstalls(addr: AddressOf, n: Node, peer: Address, m3: Message, s: Session, now: nat) {
    && peer in n.handshakes
    && var f := ResponderFinish(addr, n, peer, m3, now);
    && f.sent == [] && f.released == n.handshakes[peer].queued
    && f.node == n.(handshakes := n.handshakes - {peer}, sessions := n.sessions[peer := s])
  }

  lemma ExchangeInstalls(addr: AddressOf, lo: Node, hi: Node, h: Pending, x: Exchange, now: nat, later: nat) returns (s: Session, t: Session)
    requires hi.address in lo.handshakes && lo.handshakes[hi.address].hs.role.Initiator?
    requires lo.address in hi.handshakes && hi.handshakes[lo.address] == h && h.hs.role.Responder?
    requires h.epoch == lo.handshakes[hi.address].epoch
    requires ReadMessage2(lo.handshakes[hi.address].hs, x.m2) == Outcome(x.i2, Ok(Data([Lit(hi.role)])))
    requires WriteMessage3(x.i2, Data([Lit(lo.role)])) == Outcome(x.i3, Ok(x.m3))
    requires ReadMessage3(h.hs, x.m3) == Outcome(x.r3, Ok(Data([Lit(lo.role)])))
    requires Mirrored(x.i3, x.r3) && x.i3.id == lo.id && x.r3.id == hi.id && x.i2.remote == x.i3.remote
    requires addr(lo.id) == lo.address && addr(hi.id) == hi.address
    ensures InitiatorInstalls(addr, lo, hi.address, x.m2, s, now) && s.m3.Some?
    ensures ResponderInstalls(addr, hi, lo.address, s.m3.value, t, later)
    ensures s.keys.send == t.keys.recv && s.keys.recv == t.keys.send && s.keys.hash == t.keys.hash
    ensures s.epoch == t.epoch == h.epoch && s.peer == hi.id && t.peer == lo.id && t.m3.None?
  {
    var (keys, remote) := Finish(x.i3).value;
    s := Session(remote, h.epoch, keys, now, Some(x.m3), 0);
    ContinueEffect(addr, lo, hi.address, x.m2, now, Data([Lit(hi.role)]), x.i2, x.i3, x.m3, keys, remote);
    var (keys', remote') := Finish(x.r3).value;
    t := Session(remote', h.epoch, keys', later, None, 0);
    FinishEffect(addr, hi, lo.address, x.m3, later, Data([Lit(lo.role)]), x.r3, keys', remote');
  }
}
