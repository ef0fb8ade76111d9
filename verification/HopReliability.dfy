/** Hop-by-hop reliability: every unicast transmission is remembered until the next hop
    confirms it, retransmitted a few times, rerouted once, and then given up. */
module HopReliability {
  import opened Basics
  import opened Packet
  import opened TxQueue
  import opened Radio
  import PacketIds

  /** A relay reports a failed packet to its source and limits the table by its
      configuration; a node (`reports` false, `cap` 24) only drops it. */
  datatype Config = Config(
    me: Address, maxTtl: byte, retries: byte, cap: nat, maxQueue: nat, key: Option<NetworkKey>,
    profile: SoundProfile, jitterMs: u32, ackTimeoutMs: u32, reports: bool)

  /** What the neighbour, zone and route tables and the random source answer; the first
      argument numbers the questions, so any behaviour of theirs is some value here. */
  datatype Tables = Tables(nextHop: (nat, Address) -> Option<Address>, ttlFor: (nat, Address) -> byte, random: nat -> nat)

  datatype Pending = Pending(
    key: PacketKey, nextHop: Address, packet: Packet, attempts: byte, due: nat, isRelay: bool, rerouted: bool)

  /** `queued` records the key of every tracked packet put in the transmit queue, and `calls`
      the key of every packet handed to the reliability layer from outside it. */
  datatype State = State(
    pending: seq<Pending>, queue: seq<TxItem>, packetIds: u32, tick: nat, queued: seq<PacketKey>, calls: seq<PacketKey>)

  function WireLen(p: Packet): nat {
    HEADER_LEN + |p.payload| + if p.header.Has(NET_AUTH) then NET_TAG_LEN else 0
  }

  function HopTimeout(c: Config, p: Packet): nat {
    3 * c.profile.AirtimeMs(WireLen(p)) + c.jitterMs + c.ackTimeoutMs
  }

  /** Encode and queue a copy of a tracked packet. */
  function Enqueue(c: Config, s: State, p: Packet, notBefore: nat, priority: byte, isRelay: bool): State {
    match Encode(p, c.key)
    case Err(_) => s
    case Ok(frame) =>
      match Push(s.queue, TxItem(frame, notBefore, p.header.ptype, priority, isRelay, p.header.dst), c.maxQueue)
      case None => s
      case Some(q) => s.(queue := q, queued := s.queued + [p.header.Key()])
  }

  function Without(pending: seq<Pending>, key: PacketKey): seq<Pending> {
    if pending == [] then []
    else (if pending[0].key == key then [] else [pending[0]]) + Without(pending[1..], key)
  }

  function Track(c: Config, t: Tables, s: State, p: Packet, nextHop: Address, now: nat, isRelay: bool): State {
    if c.retries == 0 || |s.pending| >= c.cap then s
    else
      var due := now + HopTimeout(c, p) + t.random(s.tick) % 200;
      s.(pending := Without(s.pending, p.header.Key()) + [Pending(p.header.Key(), nextHop, p, 1, due, isRelay, false)],
         tick := s.tick + 1)
  }

  /** Hand a packet over from outside: track it and queue the first copy. */
  function Send(c: Config, t: Tables, s: State, p: Packet, nextHop: Address, at: nat, priority: byte, isRelay: bool): State {
    var s' := Track(c, t, s, p, nextHop, at, isRelay);
    Enqueue(c, s'.(calls := s.calls + [p.header.Key()]), p, at, priority, isRelay)
  }

  /** The next hop `from` confirmed the packet. */
  function Confirmed(pending: seq<Pending>, key: PacketKey, from: Address): seq<Pending> {
    if pending == [] then []
    else (if pending[0].key == key && pending[0].nextHop == from then [] else [pending[0]]) + Confirmed(pending[1..], key, from)
  }

  /** The report to `to` that `unreachable` cannot be reached: a packet of our own, with a
      fresh id. */
  function ErrorPacket(c: Config, t: Tables, ids: u32, tick: nat, to: Address, unreachable: Address): (p: Packet)
    ensures p.header.packetId == PacketIds.NextId(ids)
  {
    var id := PacketIds.NextId(ids);
    var ttl := t.ttlFor(tick + 1, to);
    var h := NewHeader(PacketType.RouteError, c.me, to, id, 0, if ttl < 1 then 1 else if ttl > c.maxTtl then c.maxTtl else ttl);
    var h' := if c.key.Some? then h.Set(NET_AUTH, true) else h;
    var nextHop := match t.nextHop(tick + 2, to) case None => NEXT_HOP_ANY case Some(nh) => Short(nh);
    Packet(h'.(nextHop := nextHop, relay := Short(c.me)), [1] + Be(unreachable, 8))
  }

  /** The id of the report is drawn and its questions are asked. */
  function Reporting(s: State, p: Packet): State { s.(packetIds := p.header.packetId, tick := s.tick + 3) }

  function SendReport(c: Config, t: Tables, s: State, p: Packet, nextHop: Option<Address>, now: nat): State {
    match nextHop
    case None => Reporting(s, p)
    case Some(nh) => Send(c, t, Reporting(s, p), p, nh, now, PRIO_CONTROL, true)
  }

  /** Send the report, if it has a route. */
  function ReportError(c: Config, t: Tables, s: State, to: Address, unreachable: Address, now: nat): State {
    if to == c.me || t.nextHop(s.tick, to).None? then s.(tick := s.tick + 1)
    else
      SendReport(c, t, s, ErrorPacket(c, t, s.packetIds, s.tick, to, unreachable), t.nextHop(s.tick + 2, to), now)
  }

  /** Mark the first entry with this key as rerouted. */
  function MarkRerouted(pending: seq<Pending>, key: PacketKey): seq<Pending> {
    if pending == [] then []
    else if pending[0].key == key then [pending[0].(rerouted := true)] + pending[1..]
    else [pending[0]] + MarkRerouted(pending[1..], key)
  }

  /** Send a failed packet through another neighbour. */
  function Reroute(c: Config, t: Tables, s: State, h: Pending, alt: Address, now: nat): State {
    var p := h.packet.(header := h.packet.header.(nextHop := Short(alt)));
    var s1 := Track(c, t, s, p, alt, now, h.isRelay);
    Enqueue(c, s1.(pending := MarkRerouted(s1.pending, p.header.Key())), p, now, PRIO_DATA, h.isRelay)
  }

  /** What becomes of the packet of an entry that has left the table: another neighbour
      once, or a report to its source. */
  function GiveUp(c: Config, t: Tables, s: State, h: Pending, alt: Option<Address>, now: nat): State {
    if alt.Some? && alt.value != h.nextHop then Reroute(c, t, s, h, alt.value, now)
    else if c.reports then ReportError(c, t, s, h.packet.header.src, h.packet.header.dst, now)
    else s
  }

  /** The neighbour to try instead, unless the entry is a second attempt already. */
  function Alternative(t: Tables, s: State, h: Pending): Option<Address> {
    if h.rerouted then None else t.nextHop(s.tick, h.packet.header.dst)
  }

  function Dropped(s: State, i: nat): State
    requires i < |s.pending|
  {
    s.(pending := RemoveAt(s.pending, i), tick := s.tick + 1)
  }

  /** An entry out of attempts leaves the table. */
  function Fail(c: Config, t: Tables, s: State, i: nat, now: nat): State
    requires i < |s.pending|
  {
    GiveUp(c, t, Dropped(s, i), s.pending[i], Alternative(t, s, s.pending[i]), now)
  }

  /** Queue another copy; the attempt counter is a byte that wraps. */
  function Retransmit(c: Config, t: Tables, s: State, i: nat, now: nat): State
    requires i < |s.pending|
  {
    var h := s.pending[i];
    var jitter := t.random(s.tick) % 300;
    var h' := h.(attempts := (h.attempts + 1) % 256, due := now + HopTimeout(c, h.packet) + jitter);
    Enqueue(c, s.(pending := s.pending[i := h'], tick := s.tick + 1), h.packet, now + jitter, PRIO_DATA, h.isRelay)
  }

  /** One turn of the retransmission loop. */
  function Turn(c: Config, t: Tables, s: State, i: nat, now: nat): (State, nat)
    requires i < |s.pending|
  {
    if s.pending[i].due > now then (s, i + 1)
    else if s.pending[i].attempts > c.retries then (Fail(c, t, s, i, now), i)
    else (Retransmit(c, t, s, i, now), i + 1)
  }

  /** The loop from index `i` on.  A failure can add an entry, but never one that is out of
      attempts. */
  function PollFrom(c: Config, t: Tables, s: State, i: nat, now: nat): State
    decreases Exhausted(s.pending, i, c.retries), |s.pending| - i
  {
    if i >= |s.pending| then s
    else
      TurnDecreases(c, t, s, i, now);
      var (s', i') := Turn(c, t, s, i, now);
      PollFrom(c, t, s', i', now)
  }

  // ----- termination ------------------------------------------------------------------------

  function CountExhausted(pending: seq<Pending>, retries: byte): nat {
    if pending == [] then 0 else (if pending[0].attempts > retries then 1 else 0) + CountExhausted(pending[1..], retries)
  }

  /** How many entries from `i` on are out of attempts. */
  function Exhausted(pending: seq<Pending>, i: nat, retries: byte): nat {
    if i <= |pending| then CountExhausted(pending[i..], retries) else 0
  }

  lemma {:induction false} CountAppend(a: seq<Pending>, b: seq<Pending>, retries: byte)
    ensures CountExhausted(a + b, retries) == CountExhausted(a, retries) + CountExhausted(b, retries)
  {
    if a == [] {
      assert a + b == b;
    } else {
      assert (a + b)[1..] == a[1..] + b;
      CountAppend(a[1..], b, retries);
    }
  }

  lemma CountSuffix(a: seq<Pending>, i: nat, retries: byte)
    requires i <= |a|
    ensures CountExhausted(a[i..], retries) <= CountExhausted(a, retries)
  {
    assert a == a[..i] + a[i..];
    CountAppend(a[..i], a[i..], retries);
  }

  lemma {:induction false} WithoutSmaller(a: seq<Pending>, key: PacketKey, retries: byte)
    ensures |Without(a, key)| <= |a| && CountExhausted(Without(a, key), retries) <= CountExhausted(a, retries)
  {
    if a != [] {
      WithoutSmaller(a[1..], key, retries);
      CountAppend(if a[0].key == key then [] else [a[0]], Without(a[1..], key), retries);
    }
  }

  lemma {:induction false} WithoutAppend(a: seq<Pending>, b: seq<Pending>, key: PacketKey)
    ensures Without(a + b, key) == Without(a, key) + Without(b, key)
  {
    if a == [] {
      assert a + b == b;
    } else {
      assert (a + b)[1..] == a[1..] + b;
      WithoutAppend(a[1..], b, key);
    }
  }

  lemma ReplaceExhausted(a: seq<Pending>, b: seq<Pending>, key: PacketKey, e: Pending, retries: byte)
    requires e.attempts <= retries
    ensures Exhausted(Without(a + b, key) + [e], |a|, retries) <= CountExhausted(b, retries)
  {
    WithoutAppend(a, b, key);
    WithoutSmaller(a, key, retries);
    WithoutSmaller(b, key, retries);
    var head, tail := Without(a, key), Without(b, key) + [e];
    CountAppend(Without(b, key), [e], retries);
    assert Without(a + b, key) + [e] == head + tail;
    if |a| <= |head + tail| {
      assert (head + tail)[|a|..] == tail[|a| - |head|..];
      CountSuffix(tail, |a| - |head|, retries);
    }
  }

  /** Tracking shifts entries forward at most, and adds one with attempts left. */
  lemma TrackExhausted(c: Config, t: Tables, s: State, p: Packet, nextHop: Address, now: nat, isRelay: bool, i: nat)
    ensures Exhausted(Track(c, t, s, p, nextHop, now, isRelay).pending, i, c.retries) <= Exhausted(s.pending, i, c.retries)
  {
    if c.retries != 0 && |s.pending| < c.cap {
      var s' := Track(c, t, s, p, nextHop, now, isRelay);
      var e := s'.pending[|s'.pending| - 1];
      WithoutSmaller(s.pending, p.header.Key(), c.retries);
      if i <= |s.pending| {
        assert s.pending == s.pending[..i] + s.pending[i..];
        ReplaceExhausted(s.pending[..i], s.pending[i..], p.header.Key(), e, c.retries);
      } else if i == |s'.pending| {
        assert s'.pending[i..] == [];
      }
    }
  }

  lemma {:induction false} MarkKeepsCounts(a: seq<Pending>, key: PacketKey, i: nat, retries: byte)
    ensures |MarkRerouted(a, key)| == |a| && Exhausted(MarkRerouted(a, key), i, retries) == Exhausted(a, i, retries)
  {
    if a != [] {
      var m := MarkRerouted(a, key);
      if a[0].key == key {
        if 0 < i <= |a| { assert m[i..] == a[i..]; }
      } else {
        MarkKeepsCounts(a[1..], key, if i == 0 then 0 else i - 1, retries);
        if 0 < i <= |a| {
          assert m[i..] == MarkRerouted(a[1..], key)[i - 1..];
          assert a[i..] == a[1..][i - 1..];
        }
      }
    }
  }

  lemma RemoveExhausted(a: seq<Pending>, i: nat, retries: byte)
    requires i < |a| && a[i].attempts > retries
    ensures Exhausted(RemoveAt(a, i), i, retries) < Exhausted(a, i, retries)
  {
    assert RemoveAt(a, i)[i..] == a[i..][1..];
  }

  lemma FailExhausted(c: Config, t: Tables, s: State, i: nat, now: nat)
    requires i < |s.pending| && s.pending[i].attempts > c.retries
    ensures Exhausted(Fail(c, t, s, i, now).pending, i, c.retries) < Exhausted(s.pending, i, c.retries)
  {
    var h := s.pending[i];
    var s1 := s.(pending := RemoveAt(s.pending, i), tick := s.tick + 1);
    RemoveExhausted(s.pending, i, c.retries);
    var alt := if h.rerouted then None else t.nextHop(s.tick, h.packet.header.dst);
    if alt.Some? && alt.value != h.nextHop {
      var p := h.packet.(header := h.packet.header.(nextHop := Short(alt.value)));
      TrackExhausted(c, t, s1, p, alt.value, now, h.isRelay, i);
      MarkKeepsCounts(Track(c, t, s1, p, alt.value, now, h.isRelay).pending, p.header.Key(), i, c.retries);
    } else if c.reports {
      ErrorExhausted(c, t, s1, h.packet.header.src, h.packet.header.dst, now, i);
    }
  }

  lemma {:induction false} SendExhausted(c: Config, t: Tables, s: State, p: Packet, nextHop: Address, at: nat, priority: byte, isRelay: bool, i: nat)
    ensures Exhausted(Send(c, t, s, p, nextHop, at, priority, isRelay).pending, i, c.retries) <= Exhausted(s.pending, i, c.retries)
  {
    TrackExhausted(c, t, s, p, nextHop, at, isRelay, i);
  }

  /** A failure is not reported, or some packet is sent. */
  lemma {:induction false} ErrorCases(c: Config, t: Tables, s: State, to: Address, unreachable: Address, now: nat)
    returns (p: Packet, nextHop: Option<Address>)
    ensures
      var s' := ReportError(c, t, s, to, unreachable, now);
      s' == s.(tick := s.tick + 1) || s' == SendReport(c, t, s, p, nextHop, now)
  {
    p, nextHop := ErrorPacket(c, t, s.packetIds, s.tick, to, unreachable), t.nextHop(s.tick + 2, to);
  }

  lemma {:induction false} ReportExhausted(c: Config, t: Tables, s: State, p: Packet, nextHop: Option<Address>, now: nat, i: nat)
    ensures Exhausted(SendReport(c, t, s, p, nextHop, now).pending, i, c.retries) <= Exhausted(s.pending, i, c.retries)
  {
    if nextHop.Some? { SendExhausted(c, t, Reporting(s, p), p, nextHop.value, now, PRIO_CONTROL, true, i); }
  }

  lemma {:induction false} ErrorExhausted(c: Config, t: Tables, s: State, to: Address, unreachable: Address, now: nat, i: nat)
    ensures Exhausted(ReportError(c, t, s, to, unreachable, now).pending, i, c.retries) <= Exhausted(s.pending, i, c.retries)
  {
    var p, nh := ErrorCases(c, t, s, to, unreachable, now);
    ReportExhausted(c, t, s, p, nh, now, i);
  }

  /** Every turn makes progress: fewer exhausted entries ahead, or one entry less to visit. */
  lemma TurnDecreases(c: Config, t: Tables, s: State, i: nat, now: nat)
    requires i < |s.pending|
    ensures
      var (s', i') := Turn(c, t, s, i, now);
      || Exhausted(s'.pending, i', c.retries) < Exhausted(s.pending, i, c.retries)
      || (Exhausted(s'.pending, i', c.retries) == Exhausted(s.pending, i, c.retries) && |s'.pending| - i' < |s.pending| - i)
  {
    var h := s.pending[i];
    assert s.pending[i..][1..] == s.pending[i + 1..];
    if h.due > now {
    } else if h.attempts > c.retries {
      FailExhausted(c, t, s, i, now);
    } else {
      var s' := Retransmit(c, t, s, i, now);
      assert s'.pending[i + 1..] == s.pending[i + 1..];
    }
  }
}
