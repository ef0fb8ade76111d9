/** What every run of the reliability layer keeps: unique pending keys within the cap, and
    a bound on the copies of a packet that reach the transmit queue. */
module HopCopies {
  import opened Basics
  import opened Packet
  import opened TxQueue
  import opened HopReliability

  function Count(keys: seq<PacketKey>, key: PacketKey): nat {
    if keys == [] then 0 else Count(keys[..|keys| - 1], key) + if keys[|keys| - 1] == key then 1 else 0
  }

  /** The copies an entry can still cause: the attempts it has left, and once more as many
      after a reroute. */
  function LeftOf(h: Pending, retries: byte): int {
    retries + 1 - h.attempts + if h.rerouted then 0 else retries + 1
  }

  function Left(pending: seq<Pending>, key: PacketKey, retries: byte): int {
    if pending == [] then 0
    else (if pending[0].key == key then LeftOf(pending[0], retries) else 0) + Left(pending[1..], key, retries)
  }

  predicate EntryOk(h: Pending, retries: byte) {
    1 <= h.attempts <= retries + 1 && h.key == h.packet.header.Key()
  }

  predicate Distinct(pending: seq<Pending>) {
    forall i, j :: 0 <= i < j < |pending| ==> pending[i].key != pending[j].key
  }

  ghost predicate Shape(c: Config, pending: seq<Pending>) {
    && Distinct(pending) && |pending| <= c.cap && (c.retries == 0 ==> pending == [])
    && forall h <- pending :: EntryOk(h, c.retries)
  }

  /** No packet has more copies queued or still to come than its calls account for. */
  ghost predicate Accounted(c: Config, s: State) {
    forall key :: Count(s.queued, key) + Left(s.pending, key, c.retries) <= 2 * (c.retries + 1) * Count(s.calls, key)
  }

  ghost predicate Inv(c: Config, s: State) {
    Shape(c, s.pending) && |s.queue| <= c.maxQueue && Accounted(c, s)
  }

  // ----- sequences of entries ---------------------------------------------------------------

  lemma {:induction false} LeftAppend(a: seq<Pending>, b: seq<Pending>, key: PacketKey, retries: byte)
    ensures Left(a + b, key, retries) == Left(a, key, retries) + Left(b, key, retries)
  {
    if a == [] {
      assert a + b == b;
    } else {
      assert (a + b)[1..] == a[1..] + b;
      LeftAppend(a[1..], b, key, retries);
    }
  }

  lemma {:induction false} LeftNonNegative(a: seq<Pending>, key: PacketKey, retries: byte)
    requires forall h <- a :: EntryOk(h, retries)
    ensures Left(a, key, retries) >= 0
  {
    if a != [] {
      assert a[0] in a;
      LeftNonNegative(a[1..], key, retries);
    }
  }

  /** A list without some of its entries. */
  ghost predicate Thinned(a: seq<Pending>, b: seq<Pending>) {
    |b| <= |a| && (forall h <- b :: h in a) && (Distinct(a) ==> Distinct(b))
  }

  lemma {:induction false} WithoutThins(a: seq<Pending>, key: PacketKey)
    ensures Thinned(a, Without(a, key))
    ensures forall h <- Without(a, key) :: h.key != key
  {
    if a != [] {
      var r := Without(a[1..], key);
      WithoutThins(a[1..], key);
      if Distinct(a) {
        assert Distinct(a[1..]);
        forall h | h in r ensures h.key != a[0].key { assert h in a[1..]; }
      }
    }
  }

  lemma {:induction false} WithoutLeft(a: seq<Pending>, key: PacketKey, other: PacketKey, retries: byte)
    ensures Left(Without(a, key), other, retries) == if other == key then 0 else Left(a, other, retries)
  {
    if a != [] {
      WithoutLeft(a[1..], key, other, retries);
      LeftAppend(if a[0].key == key then [] else [a[0]], Without(a[1..], key), other, retries);
    }
  }

  lemma {:induction false} ConfirmedThins(a: seq<Pending>, key: PacketKey, from: Address)
    ensures Thinned(a, Confirmed(a, key, from))
  {
    if a != [] {
      var r := Confirmed(a[1..], key, from);
      ConfirmedThins(a[1..], key, from);
      if Distinct(a) {
        assert Distinct(a[1..]);
        forall h | h in r ensures h.key != a[0].key { assert h in a[1..]; }
      }
    }
  }

  lemma {:induction false} ConfirmedLeft(a: seq<Pending>, key: PacketKey, from: Address, other: PacketKey, retries: byte)
    requires forall h <- a :: EntryOk(h, retries)
    ensures Left(Confirmed(a, key, from), other, retries) <= Left(a, other, retries)
  {
    if a != [] {
      assert a[0] in a;
      ConfirmedLeft(a[1..], key, from, other, retries);
      LeftAppend(if a[0].key == key && a[0].nextHop == from then [] else [a[0]], Confirmed(a[1..], key, from), other, retries);
    }
  }

  lemma RemoveLeft(a: seq<Pending>, i: nat, key: PacketKey, retries: byte)
    requires i < |a|
    ensures Left(RemoveAt(a, i), key, retries) == Left(a, key, retries) - if a[i].key == key then LeftOf(a[i], retries) else 0
  {
    assert a == a[..i] + ([a[i]] + a[i + 1..]);
    LeftAppend(a[..i], [a[i]] + a[i + 1..], key, retries);
    LeftAppend(a[..i], a[i + 1..], key, retries);
  }

  lemma UpdateLeft(a: seq<Pending>, i: nat, h: Pending, key: PacketKey, retries: byte)
    requires i < |a| && h.key == a[i].key
    ensures Left(a[i := h], key, retries) ==
              Left(a, key, retries) + if h.key == key then LeftOf(h, retries) - LeftOf(a[i], retries) else 0
  {
    assert a == a[..i] + ([a[i]] + a[i + 1..]);
    assert a[i := h] == a[..i] + ([h] + a[i + 1..]);
    LeftAppend(a[..i], [a[i]] + a[i + 1..], key, retries);
    LeftAppend(a[..i], [h] + a[i + 1..], key, retries);
  }

  lemma RemoveThins(a: seq<Pending>, i: nat)
    requires i < |a|
    ensures Thinned(a, RemoveAt(a, i))
    ensures Distinct(a) ==> forall h <- RemoveAt(a, i) :: h.key != a[i].key
  {
  }

  /** The only entry with a key is the last one: marking changes just that. */
  lemma {:induction false} MarkLast(a: seq<Pending>, h: Pending)
    requires forall x <- a :: x.key != h.key
    ensures MarkRerouted(a + [h], h.key) == a + [h.(rerouted := true)]
  {
    if a != [] {
      assert a[0] in a;
      assert (a + [h])[1..] == a[1..] + [h];
      MarkLast(a[1..], h);
    }
  }

  lemma {:induction false} WithoutAbsent(a: seq<Pending>, key: PacketKey)
    requires forall h <- a :: h.key != key
    ensures Without(a, key) == a
  {
    if a != [] {
      assert a[0] in a;
      WithoutAbsent(a[1..], key);
    }
  }

  // ----- steps ------------------------------------------------------------------------------

  /** Queueing adds at most one copy of the packet. */
  lemma EnqueueAdds(c: Config, s: State, p: Packet, notBefore: nat, priority: byte, isRelay: bool, key: PacketKey)
    ensures
      var s' := Enqueue(c, s, p, notBefore, priority, isRelay);
      && s'.pending == s.pending && s'.calls == s.calls
      && (|s.queue| <= c.maxQueue ==> |s'.queue| <= c.maxQueue)
      && Count(s'.queued, key) <= Count(s.queued, key) + if key == p.header.Key() then 1 else 0
  {
  }

  lemma TrackShape(c: Config, t: Tables, s: State, p: Packet, nextHop: Address, now: nat, isRelay: bool)
    requires Shape(c, s.pending)
    ensures Shape(c, Track(c, t, s, p, nextHop, now, isRelay).pending)
  {
    if c.retries != 0 && |s.pending| < c.cap {
      WithoutThins(s.pending, p.header.Key());
    }
  }

  lemma TrackLeft(c: Config, t: Tables, s: State, p: Packet, nextHop: Address, now: nat, isRelay: bool, key: PacketKey)
    requires Shape(c, s.pending)
    ensures
      var left, left' := Left(s.pending, key, c.retries), Left(Track(c, t, s, p, nextHop, now, isRelay).pending, key, c.retries);
      if key == p.header.Key() then left' <= left || left' == 2 * c.retries + 1 else left' == left
  {
    if c.retries != 0 && |s.pending| < c.cap {
      var r := Without(s.pending, p.header.Key());
      var s' := Track(c, t, s, p, nextHop, now, isRelay);
      var e := s'.pending[|s'.pending| - 1];
      assert s'.pending == r + [e];
      WithoutLeft(s.pending, p.header.Key(), key, c.retries);
      LeftAppend(r, [e], key, c.retries);
    }
  }

  /** One more call pays for what a hand-over adds. */
  lemma CallPays(retries: byte, n: nat, queued: nat, queued': nat, left: int, left': int)
    requires queued + left <= 2 * (retries + 1) * n && left >= 0
    requires queued' <= queued + 1 && (left' <= left || left' == 2 * retries + 1)
    ensures queued' + left' <= 2 * (retries + 1) * (n + 1)
  {
  }

  lemma SendCopies(c: Config, t: Tables, s: State, p: Packet, nextHop: Address, at: nat, priority: byte, isRelay: bool, key: PacketKey)
    requires Inv(c, s)
    ensures
      var s' := Send(c, t, s, p, nextHop, at, priority, isRelay);
      Count(s'.queued, key) + Left(s'.pending, key, c.retries) <= 2 * (c.retries + 1) * Count(s'.calls, key)
  {
    var s1 := Track(c, t, s, p, nextHop, at, isRelay);
    var s2 := s1.(calls := s.calls + [p.header.Key()]);
    var s' := Enqueue(c, s2, p, at, priority, isRelay);
    EnqueueAdds(c, s2, p, at, priority, isRelay, key);
    TrackLeft(c, t, s, p, nextHop, at, isRelay, key);
    LeftNonNegative(s.pending, key, c.retries);
    if key == p.header.Key() {
      CallPays(c.retries, Count(s.calls, key), Count(s.queued, key), Count(s'.queued, key),
               Left(s.pending, key, c.retries), Left(s'.pending, key, c.retries));
    }
  }

  lemma SendKeeps(c: Config, t: Tables, s: State, p: Packet, nextHop: Address, at: nat, priority: byte, isRelay: bool)
    requires Inv(c, s)
    ensures Inv(c, Send(c, t, s, p, nextHop, at, priority, isRelay))
  {
    TrackShape(c, t, s, p, nextHop, at, isRelay);
    forall key
      ensures
        var s' := Send(c, t, s, p, nextHop, at, priority, isRelay);
        Count(s'.queued, key) + Left(s'.pending, key, c.retries) <= 2 * (c.retries + 1) * Count(s'.calls, key)
    {
      SendCopies(c, t, s, p, nextHop, at, priority, isRelay, key);
    }
  }

  lemma {:induction false} ReportKeeps(c: Config, t: Tables, s: State, p: Packet, nextHop: Option<Address>, now: nat)
    requires Inv(c, s)
    ensures Inv(c, SendReport(c, t, s, p, nextHop, now))
  {
    if nextHop.Some? { SendKeeps(c, t, Reporting(s, p), p, nextHop.value, now, PRIO_CONTROL, true); }
  }

  lemma {:induction false} ErrorKeeps(c: Config, t: Tables, s: State, to: Address, unreachable: Address, now: nat)
    requires Inv(c, s)
    ensures Inv(c, ReportError(c, t, s, to, unreachable, now))
  {
    var p, nh := ErrorCases(c, t, s, to, unreachable, now);
    ReportKeeps(c, t, s, p, nh, now);
  }

  lemma RemoveKeeps(c: Config, s: State, i: nat)
    requires Inv(c, s) && i < |s.pending|
    ensures
      var s1 := s.(pending := RemoveAt(s.pending, i), tick := s.tick + 1);
      && Inv(c, s1)
      && (forall h <- s1.pending :: h.key != s.pending[i].key)
      && var key := s.pending[i].key;
         Count(s1.queued, key) + Left(s1.pending, key, c.retries) + LeftOf(s.pending[i], c.retries)
         <= 2 * (c.retries + 1) * Count(s1.calls, key)
  {
    var s1 := s.(pending := RemoveAt(s.pending, i), tick := s.tick + 1);
    RemoveThins(s.pending, i);
    assert s.pending[i] in s.pending;
    forall key
      ensures Count(s1.queued, key) + Left(s1.pending, key, c.retries) <= 2 * (c.retries + 1) * Count(s1.calls, key)
    {
      RemoveLeft(s.pending, i, key, c.retries);
    }
    RemoveLeft(s.pending, i, s.pending[i].key, c.retries);
  }

  /** The reroute of an entry that has left the table uses the second half of its copies. */
  lemma RerouteKeeps(c: Config, t: Tables, s: State, h: Pending, alt: Address, now: nat)
    requires Inv(c, s) && |s.pending| < c.cap && c.retries > 0 && EntryOk(h, c.retries) && !h.rerouted
    requires forall x <- s.pending :: x.key != h.key
    requires Count(s.queued, h.key) + Left(s.pending, h.key, c.retries) + LeftOf(h, c.retries) <= 2 * (c.retries + 1) * Count(s.calls, h.key)
    ensures Inv(c, Reroute(c, t, s, h, alt, now))
  {
    var p := h.packet.(header := h.packet.header.(nextHop := Short(alt)));
    var s1 := Track(c, t, s, p, alt, now, h.isRelay);
    WithoutAbsent(s.pending, h.key);
    var e := s1.pending[|s1.pending| - 1];
    MarkLast(s.pending, e);
    var s2 := s1.(pending := s.pending + [e.(rerouted := true)]);
    var s3 := Reroute(c, t, s, h, alt, now);
    TrackShape(c, t, s, p, alt, now, h.isRelay);
    EnqueueAdds(c, s2, p, now, PRIO_DATA, h.isRelay, h.key);
    assert Shape(c, s3.pending);
    forall key
      ensures Count(s3.queued, key) + Left(s3.pending, key, c.retries) <= 2 * (c.retries + 1) * Count(s3.calls, key)
    {
      EnqueueAdds(c, s2, p, now, PRIO_DATA, h.isRelay, key);
      LeftAppend(s.pending, [e.(rerouted := true)], key, c.retries);
    }
  }

  lemma FailKeeps(c: Config, t: Tables, s: State, i: nat, now: nat)
    requires Inv(c, s) && i < |s.pending|
    ensures Inv(c, Fail(c, t, s, i, now))
  {
    var h := s.pending[i];
    assert h in s.pending;
    var s1 := s.(pending := RemoveAt(s.pending, i), tick := s.tick + 1);
    RemoveKeeps(c, s, i);
    var alt := if h.rerouted then None else t.nextHop(s.tick, h.packet.header.dst);
    if alt.Some? && alt.value != h.nextHop {
      RerouteKeeps(c, t, s1, h, alt.value, now);
    } else if c.reports {
      ErrorKeeps(c, t, s1, h.packet.header.src, h.packet.header.dst, now);
    }
  }

  lemma UpdateShape(c: Config, pending: seq<Pending>, i: nat, h: Pending)
    requires Shape(c, pending) && i < |pending| && h.key == pending[i].key && EntryOk(h, c.retries)
    ensures Shape(c, pending[i := h])
  {
    assert pending[i] in pending;
  }

  lemma RetransmitCopies(c: Config, s: State, s1: State, s': State, i: nat, h': Pending, notBefore: nat, key: PacketKey)
    requires Accounted(c, s) && i < |s.pending| && s.pending[i].key == h'.key == h'.packet.header.Key()
    requires LeftOf(h', c.retries) == LeftOf(s.pending[i], c.retries) - 1
    requires s1 == s.(pending := s.pending[i := h'], tick := s.tick + 1)
    requires s' == Enqueue(c, s1, h'.packet, notBefore, PRIO_DATA, h'.isRelay)
    ensures Count(s'.queued, key) + Left(s'.pending, key, c.retries) <= 2 * (c.retries + 1) * Count(s'.calls, key)
  {
    EnqueueAdds(c, s1, h'.packet, notBefore, PRIO_DATA, h'.isRelay, key);
    UpdateLeft(s.pending, i, h', key, c.retries);
  }

  lemma RetransmitKeeps(c: Config, t: Tables, s: State, i: nat, now: nat)
    requires Inv(c, s) && i < |s.pending| && s.pending[i].attempts <= c.retries < 255
    ensures Inv(c, Retransmit(c, t, s, i, now))
  {
    var h := s.pending[i];
    assert h in s.pending;
    var jitter := t.random(s.tick) % 300;
    var h' := h.(attempts := h.attempts + 1, due := now + HopTimeout(c, h.packet) + jitter);
    var s1 := s.(pending := s.pending[i := h'], tick := s.tick + 1);
    var s' := Enqueue(c, s1, h.packet, now + jitter, PRIO_DATA, h.isRelay);
    assert s' == Retransmit(c, t, s, i, now);
    EnqueueAdds(c, s1, h.packet, now + jitter, PRIO_DATA, h.isRelay, h.key);
    UpdateShape(c, s.pending, i, h');
    forall key
      ensures Count(s'.queued, key) + Left(s'.pending, key, c.retries) <= 2 * (c.retries + 1) * Count(s'.calls, key)
    {
      RetransmitCopies(c, s, s1, s', i, h', now + jitter, key);
    }
  }

  lemma {:induction false} PollKeeps(c: Config, t: Tables, s: State, i: nat, now: nat)
    requires Inv(c, s) && c.retries < 255
    ensures Inv(c, PollFrom(c, t, s, i, now))
    decreases Exhausted(s.pending, i, c.retries), |s.pending| - i
  {
    if i < |s.pending| {
      TurnDecreases(c, t, s, i, now);
      var (s', i') := Turn(c, t, s, i, now);
      if s.pending[i].due > now {
      } else if s.pending[i].attempts > c.retries {
        FailKeeps(c, t, s, i, now);
      } else {
        RetransmitKeeps(c, t, s, i, now);
      }
      PollKeeps(c, t, s', i', now);
    }
  }

  // ----- runs -------------------------------------------------------------------------------

  /** What can happen to the layer: a packet handed over (forwarded, released or generated
      here), a confirmation, the timer, a frame taken by the radio, or an untracked packet
      queued. */
  datatype Event =
    | Hand(packet: Packet, nextHop: Address, at: nat, priority: byte, isRelay: bool)
    | Confirm(key: PacketKey, from: Address)
    | Poll(now: nat)
    | Transmit(index: nat)
    | Untracked(item: TxItem)

  function Step(c: Config, t: Tables, s: State, e: Event): State {
    match e
    case Hand(p, nextHop, at, priority, isRelay) => Send(c, t, s, p, nextHop, at, priority, isRelay)
    case Confirm(key, from) => s.(pending := Confirmed(s.pending, key, from))
    case Poll(now) => PollFrom(c, t, s, 0, now)
    case Transmit(i) => if i < |s.queue| then s.(queue := RemoveAt(s.queue, i)) else s
    case Untracked(item) => match Push(s.queue, item, c.maxQueue) case None => s case Some(q) => s.(queue := q)
  }

  function Run(c: Config, t: Tables, seed: u32, es: seq<Event>): State {
    if es == [] then State([], [], seed, 0, [], []) else Step(c, t, Run(c, t, seed, es[..|es| - 1]), es[|es| - 1])
  }

  lemma ConfirmKeeps(c: Config, s: State, key: PacketKey, from: Address)
    requires Inv(c, s)
    ensures Inv(c, s.(pending := Confirmed(s.pending, key, from)))
  {
    ConfirmedThins(s.pending, key, from);
    forall other ensures Left(Confirmed(s.pending, key, from), other, c.retries) <= Left(s.pending, other, c.retries) {
      ConfirmedLeft(s.pending, key, from, other, c.retries);
    }
  }

  lemma {:induction false} RunKeeps(c: Config, t: Tables, seed: u32, es: seq<Event>)
    requires c.retries < 255
    ensures Inv(c, Run(c, t, seed, es))
    decreases |es|
  {
    if es != [] {
      var s := Run(c, t, seed, es[..|es| - 1]);
      RunKeeps(c, t, seed, es[..|es| - 1]);
      match es[|es| - 1]
      case Hand(p, nextHop, at, priority, isRelay) => SendKeeps(c, t, s, p, nextHop, at, priority, isRelay);
      case Confirm(key, from) => ConfirmKeeps(c, s, key, from);
      case Poll(now) => PollKeeps(c, t, s, 0, now);
      case Transmit(_) =>
      case Untracked(_) =>
    }
  }

  /** At most 2 * (retries + 1) copies of a packet are queued for each time it is handed over. */
  ghost predicate Bounded(c: Config, s: State) {
    forall key :: Count(s.queued, key) <= 2 * (c.retries + 1) * Count(s.calls, key)
  }

  lemma CopiesBounded(c: Config, t: Tables, seed: u32, es: seq<Event>)
    requires c.retries < 255
    ensures Bounded(c, Run(c, t, seed, es))
  {
    RunKeeps(c, t, seed, es);
    var s := Run(c, t, seed, es);
    forall key ensures Left(s.pending, key, c.retries) >= 0 { LeftNonNegative(s.pending, key, c.retries); }
  }

  // ----- 255 retries -------------------------------------------------------------------------

  /** With 255 retries the attempt counter wraps before it can exceed them. */
  predicate Endless(c: Config, p: Packet) {
    c.retries == 255 && c.cap >= 1 && c.maxQueue >= 1 && Encode(p, c.key).Ok?
  }

  /** Hand one packet over, then poll whenever it is due. */
  function Persist(c: Config, t: Tables, p: Packet, n: nat): seq<Event> {
    if n == 0 then [Hand(p, p.header.dst, 0, PRIO_DATA, true)]
    else
      var es := Persist(c, t, p, n - 1);
      var s := Run(c, t, 0, es);
      es + [Poll(if s.pending == [] then 0 else s.pending[0].due)]
  }

  /** The packet is pending, and only relayed frames are queued. */
  predicate Persisting(s: State, p: Packet) {
    |s.pending| == 1 && s.pending[0].packet == p && s.pending[0].isRelay && forall i <- s.queue :: i.isRelay
  }

  predicate Persisted(s: State, p: Packet, copies: nat) {
    Persisting(s, p) && Count(s.queued, p.header.Key()) == copies && Count(s.calls, p.header.Key()) == 1
  }

  lemma EnqueuePersists(c: Config, s: State, p: Packet, notBefore: nat)
    requires Endless(c, p) && Persisting(s, p)
    ensures
      var s' := Enqueue(c, s, p, notBefore, PRIO_DATA, true);
      Persisting(s', p) && s'.pending == s.pending && s'.queued == s.queued + [p.header.Key()] && s'.calls == s.calls
  {
    if s.queue != [] { assert s.queue[0] in s.queue; }
  }

  lemma PersistStarts(c: Config, t: Tables, p: Packet)
    requires Endless(c, p)
    ensures
      var s := Run(c, t, 0, Persist(c, t, p, 0));
      Persisting(s, p) && s.queued == [p.header.Key()] == s.calls
  {
    var s0 := State([], [], 0, 0, [], []);
    var es := Persist(c, t, p, 0);
    assert es[..0] == [];
    assert Run(c, t, 0, es) == Step(c, t, s0, es[0]);
    EnqueuePersists(c, Track(c, t, s0, p, p.header.dst, 0, true).(calls := [p.header.Key()]), p, 0);
  }

  lemma PersistPoll(c: Config, t: Tables, s: State, p: Packet)
    requires Endless(c, p) && Persisting(s, p)
    ensures
      var s' := PollFrom(c, t, s, 0, s.pending[0].due);
      Persisting(s', p) && s'.queued == s.queued + [p.header.Key()] && s'.calls == s.calls
  {
    var now := s.pending[0].due;
    var h := s.pending[0];
    var jitter := t.random(s.tick) % 300;
    var h' := h.(attempts := (h.attempts + 1) % 256, due := now + HopTimeout(c, p) + jitter);
    var s1 := s.(pending := s.pending[0 := h'], tick := s.tick + 1);
    EnqueuePersists(c, s1, p, now + jitter);
    var s' := Retransmit(c, t, s, 0, now);
    assert Turn(c, t, s, 0, now) == (s', 1);
    assert PollFrom(c, t, s', 1, now) == s';
  }

  lemma {:induction false} PersistCopies(c: Config, t: Tables, p: Packet, n: nat)
    requires Endless(c, p)
    ensures Persisted(Run(c, t, 0, Persist(c, t, p, n)), p, n + 1)
  {
    if n == 0 {
      PersistStarts(c, t, p);
    } else {
      var es := Persist(c, t, p, n - 1);
      var s := Run(c, t, 0, es);
      PersistCopies(c, t, p, n - 1);
      PersistStep(c, t, p, s, es, n);
    }
  }

  lemma PersistStep(c: Config, t: Tables, p: Packet, s: State, es: seq<Event>, n: nat)
    requires Endless(c, p) && s == Run(c, t, 0, es) && Persisted(s, p, n)
    ensures Persisted(Run(c, t, 0, es + [Poll(s.pending[0].due)]), p, n + 1)
  {
    var e := Poll(s.pending[0].due);
    assert (es + [e])[..|es|] == es;
    PersistPoll(c, t, s, p);
    var s' := PollFrom(c, t, s, 0, e.now);
    assert Run(c, t, 0, es + [e]) == s';
    assert s'.queued[..|s.queued|] == s.queued;
  }

  /** The bound holds over every run exactly when fewer than 255 retries are configured. */
  lemma CopyBound(retries: byte)
    ensures (forall c: Config, t: Tables, seed: u32, es: seq<Event> :: c.retries == retries ==> Bounded(c, Run(c, t, seed, es)))
            <==> retries < 255
  {
    if retries < 255 {
      forall c: Config, t: Tables, seed: u32, es: seq<Event> | c.retries == retries ensures Bounded(c, Run(c, t, seed, es)) {
        CopiesBounded(c, t, seed, es);
      }
    } else {
      var c := Config(1, 8, retries, 1, 1, None, Radio.EU868, 60, 1500, true);
      var t := Tables((_, _) => None, (_, _) => 8, _ => 0);
      var p := Packet(NewHeader(Data, 1, 2, 7, 0, 4), []);
      var es := TooMany(c, t, p);
      assert !Bounded(c, Run(c, t, 0, es));
    }
  }

  lemma TooMany(c: Config, t: Tables, p: Packet) returns (es: seq<Event>)
    requires Endless(c, p)
    ensures !Bounded(c, Run(c, t, 0, es))
  {
    var n := 2 * (c.retries + 1);
    PersistCopies(c, t, p, n);
    es := Persist(c, t, p, n);
    assert Count(Run(c, t, 0, es).queued, p.header.Key()) > n;
  }
}
