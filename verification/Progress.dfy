/** An undisturbed handshake succeeds between any two nodes. */
module Progress {
  import opened Basics
  import opened Crypto
  import opened Noise
  import opened NodeSession
  import opened Worlds
  import opened Agreement

  /** The epoch of the next session with `peer`. */
  function NextEpoch(n: Node, peer: Address): byte {
    if peer in n.sessions then (n.sessions[peer].epoch + 1) % 256 else 0
  }

  /** The node answers a message 1 from `peer` with that ephemeral afresh: it is neither
      the initiator that has the right of way nor already answering this very ephemeral. */
  ghost predicate Takes(m: Node, peer: Address, e: nat) {
    peer in m.handshakes ==>
      && (m.handshakes[peer].hs.role.Initiator? ==> peer < m.address)
      && (m.handshakes[peer].hs.role.Responder? ==> m.handshakes[peer].re != Some(Pub(e)))
  }

  /** When the four messages of a handshake are handled. */
  datatype Times = Times(open: nat, answer: nat, reply: nat, finish: nat)

  /** Nothing changed but the handshake with `peer`, which releases `queued` in the end. */
  ghost predicate OnlyPending(n: Node, n1: Node, peer: Address, queued: seq<QueuedSend>) {
    && n1 == n.(handshakes := n1.handshakes) && n1.handshakes - {peer} == n.handshakes - {peer}
    && peer in n1.handshakes && n1.handshakes[peer].queued == queued
  }

  /** What the four messages of an undisturbed handshake do to the two nodes. */
  ghost predicate Undisturbed(addr: AddressOf, n: Node, m: Node, e1: nat, e2: nat, at: Times,
                              n1: Node, m1: Message, r1: Node, m2: Message, s: Session, t: Session) {
    && StartHandshake(n, m.address, e1, at.open) == Effect(n1, [Sent(m.address, m1)], [], [], None)
    && HandleHandshake(addr, m, n.address, One, m1, e2, at.answer) == Effect(r1, [Sent(n.address, m2)], [], [], None)
    && OnlyPending(n, n1, m.address, []) && OnlyPending(m, r1, n.address, Waiting(m, n.address))
    && InitiatorInstalls(addr, n1, m.address, m2, s, at.reply) && s.m3.Some?
    && ResponderInstalls(addr, r1, n.address, s.m3.value, t, at.finish)
    && TwoEnds(s, t) && s.keys.hash == t.keys.hash && s.peer == m.id && t.peer == n.id
    && s.epoch == NextEpoch(n, m.address)
  }

  lemma Opens(n: Node, peer: Address, e: nat, now: nat) returns (h: Pending, m1: Message)
    requires peer != n.address && peer !in n.handshakes
    ensures WriteMessage1(New(Initiator, n.id, Prologue(n.address, peer), e), Payload1(n.role, NextEpoch(n, peer)))
            == Outcome(h.hs, Ok(m1))
    ensures h.epoch == NextEpoch(n, peer) && h.queued == [] && h.hs.role.Initiator? && m1.M1? && m1.e == Pub(e)
    ensures StartHandshake(n, peer, e, now) == Effect(n.(handshakes := n.handshakes[peer := h]), [Sent(peer, m1)], [], [], None)
  {
    var epoch := NextEpoch(n, peer);
    var w := WriteMessage1(New(Initiator, n.id, Prologue(n.address, peer), e), Payload1(n.role, epoch));
    m1 := w.result.value;
    h := Pending(w.state, now, epoch, [], 1, Some(m1), None, None);
  }

  lemma Answers1(addr: AddressOf, m: Node, peer: Address, m1: Message, e1: nat, e: nat, now: nat, p: Term,
                 r1: Handshake, r2: Handshake, m2: Message)
    returns (h: Pending)
    requires peer != m.address && Takes(m, peer, e1) && m1.M1? && m1.e == Pub(e1) && r2.role.Responder?
    requires ReadMessage1(New(Responder, m.id, Prologue(peer, m.address), e), m1) == Outcome(r1, Ok(p))
    requires WriteMessage2(r1, Data([Lit(m.role)])) == Outcome(r2, Ok(m2))
    ensures h.hs == r2 && h.hs.role.Responder? && h.epoch == EpochOf(p) && h.queued == Waiting(m, peer)
    ensures HandleHandshake(addr, m, peer, One, m1, e, now)
            == Effect(m.(handshakes := m.handshakes[peer := h]), [Sent(peer, m2)], [], [], None)
  {
    h := Pending(r2, now, EpochOf(p), Waiting(m, peer), 1, None, Some(m1.e), Some(m2));
    assert (m.handshakes - {peer})[peer := h] == m.handshakes[peer := h];
  }

  /** Two nodes in the middle of a handshake that nothing disturbs. */
  ghost predicate Poised(n: Node, m: Node, h: Pending, g: Pending, x: Exchange) {
    && m.address in n.handshakes && n.handshakes[m.address] == h && h.hs.role.Initiator?
    && n.address in m.handshakes && m.handshakes[n.address] == g && g.hs.role.Responder?
    && g.epoch == h.epoch
    && ReadMessage2(h.hs, x.m2) == Outcome(x.i2, Ok(Data([Lit(m.role)])))
    && WriteMessage3(x.i2, Data([Lit(n.role)])) == Outcome(x.i3, Ok(x.m3))
    && ReadMessage3(g.hs, x.m3) == Outcome(x.r3, Ok(Data([Lit(n.role)])))
    && Mirrored(x.i3, x.r3) && x.i3.id == n.id && x.r3.id == m.id && x.i2.remote == x.i3.remote
  }

  /** The objects of an honest run, one by one. */
  lemma Objects(n: Node, m: Node, i1: Handshake, m1: Message, e1: nat, e2: nat, p: Term) returns (r1: Handshake, x: Exchange)
    requires WriteMessage1(New(Initiator, n.id, Prologue(n.address, m.address), e1), p) == Outcome(i1, Ok(m1))
    ensures ReadMessage1(New(Responder, m.id, Prologue(n.address, m.address), e2), m1) == Outcome(r1, Ok(p))
    ensures WriteMessage2(r1, Data([Lit(m.role)])) == Outcome(x.r2, Ok(x.m2))
    ensures Completes(i1, r1, Data([Lit(m.role)]), Data([Lit(n.role)]), x) && x.r2.role.Responder?
    ensures Mirrored(x.i3, x.r3) && x.i3.id == n.id && x.r3.id == m.id && x.i2.remote == x.i3.remote
  {
    x := HonestRun(n.id, m.id, Prologue(n.address, m.address), e1, e2, p, Data([Lit(m.role)]), Data([Lit(n.role)]));
    r1 := ReadMessage1(New(Responder, m.id, Prologue(n.address, m.address), e2), m1).state;
    WriteMessage2State(r1, Data([Lit(m.role)]));
  }

  lemma Added(n: Node, peer: Address, h: Pending)
    ensures OnlyPending(n, n.(handshakes := n.handshakes[peer := h]), peer, h.queued)
  {
    assert n.handshakes[peer := h] - {peer} == n.handshakes - {peer};
  }

  lemma BothPending(n: Node, m: Node, h: Pending, g: Pending, i1: Handshake, r1: Handshake, x: Exchange)
    requires h.hs == i1 && g.hs == x.r2 && h.hs.role.Initiator? && g.hs.role.Responder? && g.epoch == h.epoch
    requires Completes(i1, r1, Data([Lit(m.role)]), Data([Lit(n.role)]), x)
    requires Mirrored(x.i3, x.r3) && x.i3.id == n.id && x.r3.id == m.id && x.i2.remote == x.i3.remote
    ensures Poised(n.(handshakes := n.handshakes[m.address := h]), m.(handshakes := m.handshakes[n.address := g]), h, g, x)
  {
  }

  /** The second node answers the opening message of the first. */
  lemma Answered(addr: AddressOf, n: Node, m: Node, h: Pending, m1: Message, e1: nat, e2: nat, now: nat) returns (x: Exchange, g: Pending)
    requires n.address != m.address && Takes(m, n.address, e1) && m1.M1? && m1.e == Pub(e1) && h.hs.role.Initiator?
    requires WriteMessage1(New(Initiator, n.id, Prologue(n.address, m.address), e1), Payload1(n.role, h.epoch)) == Outcome(h.hs, Ok(m1))
    ensures g.queued == Waiting(m, n.address)
    ensures HandleHandshake(addr, m, n.address, One, m1, e2, now)
            == Effect(m.(handshakes := m.handshakes[n.address := g]), [Sent(n.address, x.m2)], [], [], None)
    ensures Poised(n.(handshakes := n.handshakes[m.address := h]), m.(handshakes := m.handshakes[n.address := g]), h, g, x)
  {
    var r;
    var p := Payload1(n.role, h.epoch);
    assert EpochOf(p) == h.epoch;
    r, x := Objects(n, m, h.hs, m1, e1, e2, p);
    g := Answers1(addr, m, n.address, m1, e1, e2, now, p, r, x.r2, x.m2);
    BothPending(n, m, h, g, h.hs, r, x);
  }

  lemma FirstHalf(addr: AddressOf, n: Node, m: Node, e1: nat, e2: nat, at: Times)
    returns (n1: Node, m1: Message, r1: Node, x: Exchange, h: Pending, g: Pending)
    requires n.address != m.address && m.address !in n.handshakes && Takes(m, n.address, e1)
    ensures StartHandshake(n, m.address, e1, at.open) == Effect(n1, [Sent(m.address, m1)], [], [], None)
    ensures HandleHandshake(addr, m, n.address, One, m1, e2, at.answer) == Effect(r1, [Sent(n.address, x.m2)], [], [], None)
    ensures OnlyPending(n, n1, m.address, []) && OnlyPending(m, r1, n.address, Waiting(m, n.address))
    ensures Poised(n1, r1, h, g, x) && h.epoch == NextEpoch(n, m.address)
  {
    h, m1 := Opens(n, m.address, e1, at.open);
    x, g := Answered(addr, n, m, h, m1, e1, e2, at.answer);
    n1, r1 := n.(handshakes := n.handshakes[m.address := h]), m.(handshakes := m.handshakes[n.address := g]);
    Added(n, m.address, h);
    Added(m, n.address, g);
  }

  /** Any two nodes, whatever other handshakes and sessions they hold, and also when they
      replace a session they share: the opening message, the answer, the reply to it and
      its arrival leave each with a session filed under the other, the two ends of one
      handshake, with the right identities and the next epoch.  The second node may even
      hold a handshake with the first, as long as it is one that gives way. */
  lemma HandshakeSucceeds(addr: AddressOf, n: Node, m: Node, e1: nat, e2: nat, at: Times)
    returns (n1: Node, m1: Message, r1: Node, m2: Message, s: Session, t: Session)
    requires n.address != m.address && addr(n.id) == n.address && addr(m.id) == m.address
    requires m.address !in n.handshakes && Takes(m, n.address, e1)
    ensures Undisturbed(addr, n, m, e1, e2, at, n1, m1, r1, m2, s, t)
  {
    var x, h, g;
    n1, m1, r1, x, h, g := FirstHalf(addr, n, m, e1, e2, at);
    m2 := x.m2;
    s, t := ExchangeInstalls(addr, n1, r1, g, x, at.reply, at.finish);
  }

  /** Both nodes open towards each other, and the two message 1s arrive in any order and
      any number of copies, the lower node's at least once: every copy of that one gets
      the same message 2, and with its arrival and that of the reply both nodes hold the
      two ends of one handshake that the lower node initiated. */
  lemma CrossingSucceeds(addr: AddressOf, lo: Node, hi: Node, e: nat, e': nat, at: Times, ds: seq<Crossing>)
    returns (m1: Message, m1': Message, m2: Message, s: Session, t: Session)
    requires lo.address < hi.address && addr(lo.id) == lo.address && addr(hi.id) == hi.address
    requires hi.address !in lo.handshakes && lo.address !in hi.handshakes && DeliversLow(ds)
    ensures
      var f, g := StartHandshake(lo, hi.address, e, at.open), StartHandshake(hi, lo.address, e', at.answer);
      var (l, h, out) := Cross(f.node, g.node, m1, m1', ds);
      && f.sent == [Sent(hi.address, m1)] && g.sent == [Sent(lo.address, m1')]
      && AnswersAre(ds, out, Some(m2))
      && InitiatorInstalls(addr, l, hi.address, m2, s, at.reply) && s.m3.Some?
      && ResponderInstalls(addr, h, lo.address, s.m3.value, t, at.finish)
      && TwoEnds(s, t) && s.keys.hash == t.keys.hash && s.peer == hi.id && t.peer == lo.id
      && s.epoch == NextEpoch(lo, hi.address)
  {
    StartOpens(lo, hi.address, e, at.open);
    StartOpens(hi, lo.address, e', at.answer);
    var a, b := StartHandshake(lo, hi.address, e, at.open).node, StartHandshake(hi, lo.address, e', at.answer).node;
    m1, m1' := a.handshakes[hi.address].m1.value, b.handshakes[lo.address].m1.value;
    var h := CrossingSettles(a, b, ds);
    s, t := SettledCompletes(addr, a, b, FirstLow(ds), h, at.reply, at.finish);
    m2 := h.m2.value;
  }

  // ----- the same among all nodes ----------------------------------------------------------

  /** What one step leaves of the world. */
  lemma Updated(w: World, at: Address, e: nat, f: Effect, other: Address, x: nat, y: nat, z: nat, bad: set<nat>) returns (w': World)
    requires at in w.nodes && other in w.nodes && at != other && x != e && y != e && z != e
    requires Unused(x, w, bad) && Unused(y, w, bad) && Unused(z, w, bad)
    ensures w' == Update(w, at, e, f)
    ensures at in w'.nodes && w'.nodes[at] == f.node && other in w'.nodes && w'.nodes[other] == w.nodes[other]
    ensures Unused(x, w', bad) && Unused(y, w', bad) && Unused(z, w', bad)
    ensures forall s <- f.sent :: Letter(at, s.to, s.msg) in w'.sent
  {
    w' := Update(w, at, e, f);
  }

  /** What an honest node has sent can be delivered. */
  lemma SentIsDeliverable(l: Letter, sent: set<Letter>, bad: set<nat>)
    requires l in sent
    ensures Deliverable(l.msg, sent, bad)
  {
  }

  /** After the events, which are legal, each node holds its session with the other. */
  ghost predicate Connects(addr: AddressOf, w: World, evs: seq<Worlds.Event>, bad: set<nat>, a: Address, b: Address, s: Session, t: Session) {
    && Legal(addr, w, evs, bad, true)
    && var w' := Exec(addr, w, evs, bad, true);
    && a in w'.nodes && b in w'.nodes[a].sessions && w'.nodes[a].sessions[b] == s
    && b in w'.nodes && a in w'.nodes[b].sessions && w'.nodes[b].sessions[a] == t
  }

  lemma {:induction false} OneMore(addr: AddressOf, w: World, ev: Worlds.Event, n: Node, f: Effect, evs: seq<Worlds.Event>, bad: set<nat>,
                                   a: Address, b: Address, s: Session, t: Session)
    requires Enabled(w, ev, bad, true) && w.nodes[ev.at] == n && Do(addr, n, ev) == f
    requires Connects(addr, Update(w, ev.at, ev.e, f), evs, bad, a, b, s, t)
    ensures Connects(addr, w, [ev] + evs, bad, a, b, s, t)
  {
    assert ([ev] + evs)[1..] == evs;
  }

  ghost predicate Unused(e: nat, w: World, bad: set<nat>) { e !in w.used && e !in bad }

  /** Four ephemerals, or values in their place, that nobody has used. */
  datatype Draws = Draws(open: nat, answer: nat, reply: nat, finish: nat) {
    ghost predicate Fresh(w: World, bad: set<nat>) {
      && Unused(open, w, bad) && Unused(answer, w, bad) && Unused(reply, w, bad) && Unused(finish, w, bad)
      && open != answer && open != reply && open != finish && answer != reply && answer != finish && reply != finish
    }
  }

  lemma {:induction false} LastArrives(addr: AddressOf, w: World, a: Address, b: Address, n: Node, m3: Message, e: nat, now: nat, bad: set<nat>,
                                       s: Session, t: Session)
    requires a in w.nodes && b in w.nodes && a != b && b in w.nodes[a].sessions && w.nodes[a].sessions[b] == s
    requires w.nodes[b] == n && ResponderInstalls(addr, n, a, m3, t, now)
    requires Letter(a, b, m3) in w.sent && e !in w.used && e !in bad
    ensures Connects(addr, w, [Receive(b, a, Three, m3, e, now)], bad, a, b, s, t)
  {
    var ev := Receive(b, a, Three, m3, e, now);
    SentIsDeliverable(Letter(a, b, m3), w.sent, bad);
    OneMore(addr, w, ev, n, ResponderFinish(addr, n, a, m3, now), [], bad, a, b, s, t);
    assert [ev] + [] == [ev];
  }

  lemma {:induction false} ReplyArrives(addr: AddressOf, w: World, a: Address, b: Address, n: Node, m: Node, m2: Message, d: Draws, at: Times,
                                        bad: set<nat>, s: Session, t: Session)
    requires a in w.nodes && b in w.nodes && a != b && w.nodes[a] == n && w.nodes[b] == m
    requires InitiatorInstalls(addr, n, b, m2, s, at.reply) && ResponderInstalls(addr, m, a, s.m3.value, t, at.finish)
    requires Letter(b, a, m2) in w.sent && Unused(d.reply, w, bad) && Unused(d.finish, w, bad) && d.reply != d.finish
    ensures Connects(addr, w, LastTwo(a, b, m2, s.m3.value, d, at), bad, a, b, s, t)
  {
    var f := InitiatorContinue(addr, n, b, m2, at.reply);
    SentIsDeliverable(Letter(b, a, m2), w.sent, bad);
    assert f.sent[0] in f.sent;
    var w' := Updated(w, a, d.reply, f, b, d.finish, d.finish, d.finish, bad);
    LastArrives(addr, w', a, b, m, s.m3.value, d.finish, at.finish, bad, s, t);
    OneMore(addr, w, Receive(a, b, Two, m2, d.reply, at.reply), n, f, [Receive(b, a, Three, s.m3.value, d.finish, at.finish)], bad, a, b, s, t);
  }

  function LastTwo(a: Address, b: Address, m2: Message, m3: Message, d: Draws, at: Times): seq<Worlds.Event> {
    [Receive(a, b, Two, m2, d.reply, at.reply)] + [Receive(b, a, Three, m3, d.finish, at.finish)]
  }

  /** The four events of an undisturbed handshake. */
  function FourEvents(a: Address, b: Address, m1: Message, m2: Message, m3: Message, d: Draws, at: Times): seq<Worlds.Event> {
    [Open(a, b, d.open, at.open)] + ([Receive(b, a, One, m1, d.answer, at.answer)] + LastTwo(a, b, m2, m3, d, at))
  }

  lemma {:induction false} AnswerArrives(addr: AddressOf, w: World, a: Address, b: Address, n: Node, m: Node, m1: Message, g: Effect, m2: Message,
                                         d: Draws, at: Times, bad: set<nat>, s: Session, t: Session)
    requires a in w.nodes && b in w.nodes && a != b && m1.M1? && w.nodes[a] == n && w.nodes[b] == m
    requires Unused(d.answer, w, bad) && Unused(d.reply, w, bad) && Unused(d.finish, w, bad) && d.answer != d.reply && d.answer != d.finish && d.reply != d.finish
    requires HandleHandshake(addr, m, a, One, m1, d.answer, at.answer) == g && Sent(a, m2) in g.sent
    requires InitiatorInstalls(addr, n, b, m2, s, at.reply) && ResponderInstalls(addr, g.node, a, s.m3.value, t, at.finish)
    ensures Connects(addr, w, [Receive(b, a, One, m1, d.answer, at.answer)] + LastTwo(a, b, m2, s.m3.value, d, at), bad, a, b, s, t)
  {
    var w' := Updated(w, b, d.answer, g, a, d.reply, d.finish, d.finish, bad);
    ReplyArrives(addr, w', a, b, n, g.node, m2, d, at, bad, s, t);
    OneMore(addr, w, Receive(b, a, One, m1, d.answer, at.answer), m, g, LastTwo(a, b, m2, s.m3.value, d, at), bad, a, b, s, t);
  }

  lemma {:induction false} OpeningArrives(addr: AddressOf, w: World, a: Address, b: Address, n: Node, m: Node, f: Effect, m1: Message, g: Effect,
                                          m2: Message, d: Draws, at: Times, bad: set<nat>, s: Session, t: Session)
    requires a in w.nodes && b in w.nodes && a != b && w.nodes[a] == n && w.nodes[b] == m && m1.M1? && d.Fresh(w, bad)
    requires StartHandshake(n, b, d.open, at.open) == f
    requires HandleHandshake(addr, m, a, One, m1, d.answer, at.answer) == g && Sent(a, m2) in g.sent
    requires InitiatorInstalls(addr, f.node, b, m2, s, at.reply) && ResponderInstalls(addr, g.node, a, s.m3.value, t, at.finish)
    ensures Connects(addr, w, FourEvents(a, b, m1, m2, s.m3.value, d, at), bad, a, b, s, t)
  {
    var w' := Updated(w, a, d.open, f, b, d.answer, d.reply, d.finish, bad);
    AnswerArrives(addr, w', a, b, f.node, m, m1, g, m2, d, at, bad, s, t);
    OneMore(addr, w, Open(a, b, d.open, at.open), n, f,
            [Receive(b, a, One, m1, d.answer, at.answer)] + LastTwo(a, b, m2, s.m3.value, d, at), bad, a, b, s, t);
  }

  /** Among any number of nodes in any state, and on a network that cannot forge: two nodes
      connect by four events that are legal from there.  Runs that meet the hypotheses of
      the theorems about sessions therefore do install sessions. */
  lemma {:induction false} NodesConnect(addr: AddressOf, w: World, a: Address, b: Address, d: Draws, at: Times, bad: set<nat>)
    returns (m1: Message, m2: Message, s: Session, t: Session)
    requires a in w.nodes && b in w.nodes && a != b && d.Fresh(w, bad)
    requires w.nodes[a].address == a == addr(w.nodes[a].id) && w.nodes[b].address == b == addr(w.nodes[b].id)
    requires b !in w.nodes[a].handshakes && Takes(w.nodes[b], a, d.open)
    ensures TwoEnds(s, t) && s.peer == w.nodes[b].id && t.peer == w.nodes[a].id && s.m3.Some?
    ensures Connects(addr, w, FourEvents(a, b, m1, m2, s.m3.value, d, at), bad, a, b, s, t)
  {
    var n1, r1;
    n1, m1, r1, m2, s, t := HandshakeSucceeds(addr, w.nodes[a], w.nodes[b], d.open, d.answer, at);
    var f, g := Effect(n1, [Sent(b, m1)], [], [], None), Effect(r1, [Sent(a, m2)], [], [], None);
    OpeningArrives(addr, w, a, b, w.nodes[a], w.nodes[b], f, m1, g, m2, d, at, bad, s, t);
  }
}
