/** Sessions with one handshake hash are the two ends of one handshake, over every
    run and whatever the network does. */
module Agreement {
  import opened Basics
  import opened NodeSession
  import opened Worlds
  import opened HandshakeSteps

  /** The two sessions are the two ends of one handshake. */
  ghost predicate TwoEnds(s: Session, t: Session) {
    && s.keys.send == t.keys.recv && s.keys.recv == t.keys.send
    && s.epoch == t.epoch
    && s.m3.Some? != t.m3.Some?
  }

  lemma SameHash(addr: AddressOf, n: Node, i: Install, n': Node, j: Install, used: set<nat>)
    requires InstallOk(addr, n, i, used) && InstallOk(addr, n', j, used) && i.owner != j.owner
    requires i.hs.ss.h == j.hs.ss.h
    ensures i.hs.role != j.hs.role && i.epoch == j.epoch && i.peer == j.owner && j.peer == i.owner
    ensures i.hs.ss.ck == j.hs.ss.ck
  {
    var io, ir := if i.hs.role.Initiator? then i.owner else i.peer, if i.hs.role.Initiator? then i.peer else i.owner;
    var jo, jr := if j.hs.role.Initiator? then j.owner else j.peer, if j.hs.role.Initiator? then j.peer else j.owner;
    PrologueInjective(io, ir, jo, jr);
  }

  /** Over every run, whatever the network delivers: if two honest nodes hold
      sessions with the same handshake hash, each is filed under the other's address,
      the roles are opposite, the epochs equal and the keys swapped; and every stored
      session's verified identity has the address it is filed under. */
  lemma SessionsAgree(addr: AddressOf, w0: World, evs: seq<Event>, bad: set<nat>, a: Address, p: Address, b: Address, q: Address)
    requires Initial(addr, w0, bad) && Legal(addr, w0, evs, bad, false)
    requires
      var w := Exec(addr, w0, evs, bad, false);
      a in w.nodes && p in w.nodes[a].sessions && b in w.nodes && q in w.nodes[b].sessions
    ensures
      var w := Exec(addr, w0, evs, bad, false);
      var s, t := w.nodes[a].sessions[p], w.nodes[b].sessions[q];
      && addr(s.peer) == p
      && (a != b && s.keys.hash == t.keys.hash ==> p == b && q == a && TwoEnds(s, t))
  {
    LocalRun(addr, w0, evs, bad, false);
    AgreeIn(addr, Exec(addr, w0, evs, bad, false), bad, a, p, b, q);
  }

  lemma AgreeIn(addr: AddressOf, w: World, bad: set<nat>, a: Address, p: Address, b: Address, q: Address)
    requires LocalOk(addr, w, bad)
    requires a in w.nodes && p in w.nodes[a].sessions && b in w.nodes && q in w.nodes[b].sessions
    ensures
      var s, t := w.nodes[a].sessions[p], w.nodes[b].sessions[q];
      && addr(s.peer) == p
      && (a != b && s.keys.hash == t.keys.hash ==> p == b && q == a && TwoEnds(s, t))
  {
    var s, t := w.nodes[a].sessions[p], w.nodes[b].sessions[q];
    var i :| i in w.installs && ComesFrom(s, a, p, i);
    var j :| j in w.installs && ComesFrom(t, b, q, j);
    if a != b && s.keys.hash == t.keys.hash {
      SameHash(addr, w.nodes[a], i, w.nodes[b], j, w.used);
    }
  }
}
