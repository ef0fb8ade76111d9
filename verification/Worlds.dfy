/** Runs of any number of honest nodes on a hostile network: packets are lost,
    duplicated, reordered, redirected and forged. */
module Worlds {
  import opened Basics
  import opened Crypto
  import opened Noise
  import opened NodeSession

  /** A message and who sent it to whom. */
  datatype Letter = Letter(from: Address, to: Address, msg: Message)

  /** The honest nodes, every message they ever sent, every ephemeral they drew and
      every session they ever installed. */
  datatype World = World(nodes: map<Address, Node>, sent: set<Letter>, used: set<nat>, installs: set<Install>)

  datatype Event =
    | Open(at: Address, peer: Address, e: nat, now: nat)
    | Submit(at: Address, q: QueuedSend, e: nat, now: nat)
    | Receive(at: Address, src: Address, no: Number, msg: Message, e: nat, now: nat)
    | Notice(at: Address, peer: Address, os: seq<Outstanding>, timeout: nat, e: nat, now: nat)
    | DropSession(at: Address, peer: Address, e: nat)
    | DropHandshake(at: Address, peer: Address, e: nat)

  ghost function Do(addr: AddressOf, n: Node, ev: Event): Effect {
    match ev
    case Open(_, peer, e, now) => StartHandshake(n, peer, e, now)
    case Submit(_, q, e, now) => SendOrQueue(n, q, e, now)
    case Receive(_, src, no, msg, e, now) => HandleHandshake(addr, n, src, no, msg, e, now)
    case Notice(_, peer, os, timeout, e, now) => NoSessionNotice(n, peer, os, timeout, e, now)
    case DropSession(_, peer, _) => Quiet(n.(sessions := n.sessions - {peer}))
    case DropHandshake(_, peer, _) => Quiet(n.(handshakes := n.handshakes - {peer}))
  }

  ghost function Letters(from: Address, sent: seq<Sent>): set<Letter> {
    set s | s in sent :: Letter(from, s.to, s.msg)
  }

  /** The world after the node at `at`, having drawn `e`, does `f`. */
  ghost function Update(w: World, at: Address, e: nat, f: Effect): World {
    World(w.nodes[at := f.node],
          w.sent + Letters(at, f.sent),
          w.used + {e},
          w.installs + if f.installed.Some? then {f.installed.value} else {})
  }

  ghost function Apply(addr: AddressOf, w: World, ev: Event): World
    requires ev.at in w.nodes
  {
    Update(w, ev.at, ev.e, Do(addr, w.nodes[ev.at], ev))
  }

  /** Whether the network can compute a key: every DH secret in it involves a secret
      the network holds. */
  ghost predicate Knows(t: Term, bad: set<nat>) {
    match t
    case Kdf(ck, ikm, _) => Knows(ck, bad) && Knows(ikm, bad)
    case Shared(a, b) => a in bad || b in bad
    case _ => true
  }

  ghost predicate InCiphers(c: Term, sent: set<Letter>) {
    exists l <- sent :: (l.msg.M2? || l.msg.M3?) && (c == l.msg.encStatic || c == l.msg.encPayload)
  }

  ghost predicate Forgeable(c: Term, sent: set<Letter>, bad: set<nat>) {
    c.Aead? ==> Knows(c.k, bad) || InCiphers(c, sent)
  }

  /** What the network can deliver: any combination of terms, as long as each
      ciphertext was sent by an honest node or is under a key the network knows. */
  ghost predicate Deliverable(m: Message, sent: set<Letter>, bad: set<nat>) {
    m.M2? || m.M3? ==> Forgeable(m.encStatic, sent, bad) && Forgeable(m.encPayload, sent, bad)
  }

  /** `confined` says whether deliveries are limited to what the network can forge;
      without it the network may deliver any message whatever. */
  ghost predicate Enabled(w: World, ev: Event, bad: set<nat>, confined: bool) {
    && ev.at in w.nodes
    && ev.e !in w.used && ev.e !in bad
    && (confined && ev.Receive? ==> Deliverable(ev.msg, w.sent, bad))
  }

  ghost predicate Legal(addr: AddressOf, w: World, evs: seq<Event>, bad: set<nat>, confined: bool)
    decreases |evs|
  {
    evs == [] || (Enabled(w, evs[0], bad, confined) && Legal(addr, Apply(addr, w, evs[0]), evs[1..], bad, confined))
  }

  ghost function Exec(addr: AddressOf, w: World, evs: seq<Event>, bad: set<nat>, confined: bool): World
    requires Legal(addr, w, evs, bad, confined)
    decreases |evs|
  {
    if evs == [] then w else Exec(addr, Apply(addr, w, evs[0]), evs[1..], bad, confined)
  }

  /** The start of a run: honest nodes with secrets the network does not hold, each
      filed under the address of its key, nothing sent, nothing in flight. */
  ghost predicate Initial(addr: AddressOf, w: World, bad: set<nat>) {
    && w.sent == {} && w.used == {} && w.installs == {}
    && forall a <- w.nodes ::
         && w.nodes[a].address == a && addr(w.nodes[a].id) == a && w.nodes[a].id.sk !in bad
         && w.nodes[a].handshakes == map[] && w.nodes[a].sessions == map[]
  }
}
