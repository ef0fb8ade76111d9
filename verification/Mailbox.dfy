/** The encrypted mailbox of an anchor node: bounded storage of envelopes for sleeping
    destinations, with limited and spaced delivery attempts. */
module Mailbox {
  import opened Basics

  /** A stored envelope.  The source keeps the number of attempts and the time of the last;
      `handed` is the full list of times it was handed out. */
  datatype Envelope = Envelope(
    dst: Address, id: u32, depositor: Address, storedAt: nat, expiresAt: nat,
    attempts: byte, lastAttempt: nat, body: seq<byte>, handed: seq<nat>)

  datatype Config = Config(
    maxEntries: nat, maxBytes: nat, maxPerDestination: nat, maxTtlMs: nat, maxAttempts: byte, retryInterval: nat)

  datatype Reason = Full | PerDestination | Duplicate

  /** `retired` holds the envelopes that have left the mailbox, `handedOut` counts the copies
      given to callers. */
  datatype State = State(
    entries: seq<Envelope>, bytes: nat, stored: nat, delivered: nat, expired: nat, rejected: nat,
    retired: seq<Envelope>, handedOut: nat)

  const EMPTY := State([], 0, 0, 0, 0, 0, [], 0)

  // ----- operations --------------------------------------------------------------------------

  function Held(entries: seq<Envelope>, dst: Address): nat {
    if entries == [] then 0 else (if entries[0].dst == dst then 1 else 0) + Held(entries[1..], dst)
  }

  /** The first envelope with this destination and id. */
  function Find(entries: seq<Envelope>, dst: Address, id: u32): (r: Option<nat>)
    ensures r.None? <==> forall i :: 0 <= i < |entries| ==> !(entries[i].dst == dst && entries[i].id == id)
    ensures r.Some? ==> r.value < |entries| && entries[r.value].dst == dst && entries[r.value].id == id
  {
    if entries == [] then None
    else if entries[0].dst == dst && entries[0].id == id then Some(0)
    else match Find(entries[1..], dst, id) case None => None case Some(i) => Some(i + 1)
  }

  function Store(c: Config, s: State, now: nat, depositor: Address, dst: Address, id: u32, ttlS: u32, body: seq<byte>): (State, Option<Reason>) {
    if Find(s.entries, dst, id).Some? then (s.(rejected := s.rejected + 1), Some(Reason.Duplicate))
    else if Held(s.entries, dst) >= c.maxPerDestination then (s.(rejected := s.rejected + 1), Some(PerDestination))
    else if |s.entries| >= c.maxEntries || s.bytes + |body| > c.maxBytes then (s.(rejected := s.rejected + 1), Some(Reason.Full))
    else
      var e := Envelope(dst, id, depositor, now, now + Min(ttlS * 1000, c.maxTtlMs), 0, 0, body, []);
      (s.(entries := s.entries + [e], bytes := s.bytes + |body|, stored := s.stored + 1), None)
  }

  predicate Ready(c: Config, e: Envelope, now: nat) {
    && (e.attempts == 0 || SatSub(now, e.lastAttempt) >= c.retryInterval)
    && e.attempts < c.maxAttempts
  }

  function Attempted(e: Envelope, now: nat): Envelope {
    e.(attempts := (e.attempts + 1) % 256, lastAttempt := now, handed := e.handed + [now])
  }

  /** Mark an attempt on up to `max` ready envelopes for `dst`, and hand those out. */
  function Take(c: Config, entries: seq<Envelope>, dst: Address, now: nat, max: nat): (seq<Envelope>, seq<(u32, seq<byte>)>) {
    if entries == [] then ([], [])
    else
      var e := entries[0];
      if e.dst != dst then var (rest, out) := Take(c, entries[1..], dst, now, max); ([e] + rest, out)
      else if max == 0 then (entries, [])
      else if !Ready(c, e, now) then var (rest, out) := Take(c, entries[1..], dst, now, max); ([e] + rest, out)
      else
        var (rest, out) := Take(c, entries[1..], dst, now, max - 1);
        ([Attempted(e, now)] + rest, [(e.id, e.body)] + out)
  }

  /** The same with some entries already visited and some envelopes already handed out. */
  function TakeRest(c: Config, done: seq<Envelope>, rest: seq<Envelope>, out: seq<(u32, seq<byte>)>, dst: Address, now: nat, max: nat)
    : (seq<Envelope>, seq<(u32, seq<byte>)>)
    requires |out| <= max
  {
    var (rest', more) := Take(c, rest, dst, now, max - |out|);
    (done + rest', out + more)
  }

  /** The scan of `was` has come to index `i`: what it changed, what it has handed out, and
      what is left give the whole. */
  ghost predicate Taking(c: Config, was: seq<Envelope>, entries: seq<Envelope>, i: nat, out: seq<(u32, seq<byte>)>, dst: Address, now: nat, max: nat) {
    && i <= |entries| == |was| && |out| <= max && entries[i..] == was[i..]
    && Take(c, was, dst, now, max) == TakeRest(c, entries[..i], was[i..], out, dst, now, max)
  }

  /** The first match is what `Find` returns. */
  lemma {:induction false} FindFirst(entries: seq<Envelope>, dst: Address, id: u32, i: nat)
    requires i <= |entries| && forall j :: 0 <= j < i ==> !(entries[j].dst == dst && entries[j].id == id)
    requires i < |entries| ==> entries[i].dst == dst && entries[i].id == id
    ensures Find(entries, dst, id) == if i < |entries| then Some(i) else None
  {
    if i > 0 { FindFirst(entries[1..], dst, id, i - 1); }
  }

  lemma TakeStart(c: Config, was: seq<Envelope>, dst: Address, now: nat, max: nat)
    ensures Taking(c, was, was, 0, [], dst, now, max)
  {
    var (r, o) := Take(c, was, dst, now, max);
    assert [] + r == r && [] + o == o && was[0..] == was && was[..0] == [];
  }

  lemma TakeEnd(c: Config, was: seq<Envelope>, entries: seq<Envelope>, i: nat, out: seq<(u32, seq<byte>)>, dst: Address, now: nat, max: nat)
    requires Taking(c, was, entries, i, out, dst, now, max) && (i < |entries| ==> entries[i].dst == dst && |out| >= max)
    ensures Take(c, was, dst, now, max) == (entries, out)
  {
    assert entries == entries[..i] + entries[i..] && out + [] == out;
    if i < |entries| { assert was[i..][0] == entries[i..][0] == entries[i]; }
  }

  /** One step of the scan. */
  lemma TakeVisit(c: Config, was: seq<Envelope>, entries: seq<Envelope>, i: nat, out: seq<(u32, seq<byte>)>, dst: Address, now: nat, max: nat)
    requires Taking(c, was, entries, i, out, dst, now, max) && i < |entries| && !(entries[i].dst == dst && |out| >= max)
    ensures
      var e := entries[i];
      if e.dst == dst && Ready(c, e, now)
      then Taking(c, was, entries[i := Attempted(e, now)], i + 1, out + [(e.id, e.body)], dst, now, max)
      else Taking(c, was, entries, i + 1, out, dst, now, max)
  {
    var e := entries[i];
    var hit := e.dst == dst && Ready(c, e, now);
    var e' := if hit then Attempted(e, now) else e;
    var entries' := entries[i := e'];
    assert !hit ==> entries' == entries;
    assert was[i..][0] == entries[i..][0] == e && was[i..][1..] == was[i + 1..];
    assert entries'[i + 1..] == entries[i..][1..] && entries'[..i + 1] == entries[..i] + [e'];
    VisitRest(c, entries[..i], was[i..], out, dst, now, max, e');
  }

  lemma VisitRest(c: Config, done: seq<Envelope>, rest: seq<Envelope>, out: seq<(u32, seq<byte>)>, dst: Address, now: nat, max: nat, e': Envelope)
    requires |out| <= max && rest != [] && !(rest[0].dst == dst && |out| >= max)
    requires e' == if rest[0].dst == dst && Ready(c, rest[0], now) then Attempted(rest[0], now) else rest[0]
    ensures
      var e := rest[0];
      var out' := if e.dst == dst && Ready(c, e, now) then out + [(e.id, e.body)] else out;
      TakeRest(c, done, rest, out, dst, now, max) == TakeRest(c, done + [e'], rest[1..], out', dst, now, max)
  {
    var e := rest[0];
    if e.dst == dst && Ready(c, e, now) {
      var (r, o) := Take(c, rest[1..], dst, now, max - |out| - 1);
      assert done + ([e'] + r) == done + [e'] + r;
      assert out + ([(e.id, e.body)] + o) == out + [(e.id, e.body)] + o;
    } else {
      var (r, o) := Take(c, rest[1..], dst, now, max - |out|);
      assert done + ([e] + r) == done + [e] + r;
    }
  }

  function TakeDeliverable(c: Config, s: State, dst: Address, now: nat, max: nat): (State, seq<(u32, seq<byte>)>) {
    var (entries, out) := Take(c, s.entries, dst, now, max);
    (s.(entries := entries, handedOut := s.handedOut + |out|), out)
  }

  function Delivered(s: State, dst: Address, id: u32): (State, bool)
    requires s.bytes >= Size(s.entries)
  {
    match Find(s.entries, dst, id)
    case None => (s, false)
    case Some(i) =>
      var e := s.entries[i];
      SizeRemove(s.entries, i);
      (s.(entries := s.entries[..i] + s.entries[i + 1..], bytes := s.bytes - |e.body|,
          delivered := s.delivered + 1, retired := s.retired + [e]), true)
  }

  predicate Keeps(c: Config, e: Envelope, now: nat) { e.expiresAt > now && e.attempts < c.maxAttempts }

  function Kept(c: Config, entries: seq<Envelope>, now: nat, keep: bool): seq<Envelope> {
    if entries == [] then []
    else (if Keeps(c, entries[0], now) == keep then [entries[0]] else []) + Kept(c, entries[1..], now, keep)
  }

  /** Drop the expired and exhausted envelopes. */
  function Gc(c: Config, s: State, now: nat): State
    requires s.bytes >= Size(s.entries)
  {
    KeptPartition(c, s.entries, now);
    var dropped := Kept(c, s.entries, now, false);
    s.(entries := Kept(c, s.entries, now, true), bytes := s.bytes - Size(dropped),
       expired := s.expired + |dropped|, retired := s.retired + dropped)
  }

  // ----- what every run keeps -----------------------------------------------------------------

  function Size(entries: seq<Envelope>): nat {
    if entries == [] then 0 else |entries[0].body| + Size(entries[1..])
  }

  function Hands(entries: seq<Envelope>): nat {
    if entries == [] then 0 else |entries[0].handed| + Hands(entries[1..])
  }

  /** Attempts are counted, limited, and spaced by at least the retry interval. */
  ghost predicate EnvelopeOk(c: Config, e: Envelope) {
    && |e.handed| == e.attempts <= c.maxAttempts
    && (e.handed != [] ==> e.handed[|e.handed| - 1] == e.lastAttempt)
    && forall i :: 0 <= i < |e.handed| - 1 ==> SatSub(e.handed[i + 1], e.handed[i]) >= c.retryInterval
  }

  ghost predicate AllOk(c: Config, entries: seq<Envelope>) {
    forall i :: 0 <= i < |entries| ==> EnvelopeOk(c, entries[i])
  }

  ghost predicate Unique(entries: seq<Envelope>) {
    forall i, j :: 0 <= i < j < |entries| ==> !(entries[i].dst == entries[j].dst && entries[i].id == entries[j].id)
  }

  ghost predicate Limited(c: Config, entries: seq<Envelope>) {
    |entries| <= c.maxEntries && forall dst: Address :: Held(entries, dst) <= c.maxPerDestination
  }

  ghost predicate Inv(c: Config, s: State) {
    && s.stored == |s.entries| + |s.retired| && |s.retired| == s.delivered + s.expired
    && s.bytes == Size(s.entries) <= c.maxBytes
    && Limited(c, s.entries) && Unique(s.entries)
    && AllOk(c, s.entries) && AllOk(c, s.retired)
    && s.handedOut == Hands(s.entries) + Hands(s.retired)
  }

  lemma {:induction false} Appends(a: seq<Envelope>, b: seq<Envelope>, dst: Address)
    ensures Size(a + b) == Size(a) + Size(b) && Hands(a + b) == Hands(a) + Hands(b) && Held(a + b, dst) == Held(a, dst) + Held(b, dst)
  {
    if a == [] {
      assert a + b == b;
    } else {
      assert (a + b)[1..] == a[1..] + b;
      Appends(a[1..], b, dst);
    }
  }

  lemma SizeRemove(entries: seq<Envelope>, i: nat)
    requires i < |entries|
    ensures Size(entries) == Size(entries[..i] + entries[i + 1..]) + |entries[i].body|
  {
    RemoveCounts(entries, i, NULL);
  }

  lemma RemoveCounts(entries: seq<Envelope>, i: nat, dst: Address)
    requires i < |entries|
    ensures
      var e, rest := entries[i], entries[..i] + entries[i + 1..];
      && Size(entries) == Size(rest) + |e.body| && Hands(entries) == Hands(rest) + |e.handed|
      && Held(rest, dst) <= Held(entries, dst)
  {
    assert entries == entries[..i] + ([entries[i]] + entries[i + 1..]);
    Appends(entries[..i], [entries[i]] + entries[i + 1..], dst);
    Appends([entries[i]], entries[i + 1..], dst);
    Appends(entries[..i], entries[i + 1..], dst);
  }

  lemma StoreKeeps(c: Config, s: State, now: nat, depositor: Address, dst: Address, id: u32, ttlS: u32, body: seq<byte>)
    requires Inv(c, s)
    ensures Inv(c, Store(c, s, now, depositor, dst, id, ttlS, body).0)
  {
    var (s', reason) := Store(c, s, now, depositor, dst, id, ttlS, body);
    if reason.None? {
      var e := s'.entries[|s.entries|];
      assert s'.entries == s.entries + [e];
      forall d: Address
        ensures Held(s'.entries, d) == Held(s.entries, d) + (if d == dst then 1 else 0)
        ensures Size(s'.entries) == Size(s.entries) + |body| && Hands(s'.entries) == Hands(s.entries)
      {
        Appends(s.entries, [e], d);
      }
      assert Size(s'.entries) == Size(s.entries) + |body| && Hands(s'.entries) == Hands(s.entries) by { Appends(s.entries, [e], dst); }
      assert EnvelopeOk(c, e);
    }
  }

  lemma AttemptOk(c: Config, e: Envelope, now: nat)
    requires EnvelopeOk(c, e) && Ready(c, e, now)
    ensures EnvelopeOk(c, Attempted(e, now))
  {
  }

  /** Handing out changes nothing but the attempts of the envelopes handed out. */
  lemma {:induction false} TakeKeeps(c: Config, entries: seq<Envelope>, dst: Address, now: nat, max: nat, d: Address)
    requires AllOk(c, entries)
    ensures
      var (rest, out) := Take(c, entries, dst, now, max);
      && AllOk(c, rest) && |rest| == |entries| && Size(rest) == Size(entries) && Held(rest, d) == Held(entries, d)
      && Hands(rest) == Hands(entries) + |out|
      && forall i :: 0 <= i < |entries| ==>
           rest[i] == entries[i] || (rest[i] == Attempted(entries[i], now) && entries[i].dst == dst && Ready(c, entries[i], now))
  {
    if entries != [] {
      var e := entries[0];
      assert AllOk(c, entries[1..]);
      if e.dst != dst || (max > 0 && !Ready(c, e, now)) {
        TakeKeeps(c, entries[1..], dst, now, max, d);
      } else if max > 0 {
        AttemptOk(c, e, now);
        TakeKeeps(c, entries[1..], dst, now, max - 1, d);
      }
    }
  }

  /** The envelopes for `dst` that are ready, in order. */
  function Due(c: Config, entries: seq<Envelope>, dst: Address, now: nat): seq<Envelope> {
    if entries == [] then []
    else (if entries[0].dst == dst && Ready(c, entries[0], now) then [entries[0]] else []) + Due(c, entries[1..], dst, now)
  }

  function Contents(es: seq<Envelope>): seq<(u32, seq<byte>)> {
    seq(|es|, i requires 0 <= i < |es| => (es[i].id, es[i].body))
  }

  lemma ContentsFirst(e: Envelope, es: seq<Envelope>)
    ensures Contents([e] + es) == [(e.id, e.body)] + Contents(es)
  {
  }

  /** What comes out is exactly the first `max` envelopes for `dst` that are ready, each with
      its own contents. */
  lemma {:induction false} TakeReturns(c: Config, entries: seq<Envelope>, dst: Address, now: nat, max: nat)
    ensures
      var due := Due(c, entries, dst, now);
      Take(c, entries, dst, now, max).1 == Contents(due[..Min(max, |due|)])
  {
    if entries != [] {
      var e, due := entries[0], Due(c, entries[1..], dst, now);
      if e.dst == dst && max > 0 && Ready(c, e, now) {
        TakeReturns(c, entries[1..], dst, now, max - 1);
        ContentsFirst(e, due[..Min(max - 1, |due|)]);
        assert ([e] + due)[..Min(max, |due| + 1)] == [e] + due[..Min(max - 1, |due|)];
      } else if e.dst != dst || max > 0 {
        TakeReturns(c, entries[1..], dst, now, max);
      }
    }
  }

  /** Exactly the envelopes handed out have one attempt more. */
  lemma {:induction false} TakeMarks(c: Config, entries: seq<Envelope>, dst: Address, now: nat, max: nat, i: nat)
    requires i < |entries|
    ensures
      var rest, e := Take(c, entries, dst, now, max).0, entries[i];
      && |rest| == |entries|
      && rest[i] == if e.dst == dst && Ready(c, e, now) && |Due(c, entries[..i], dst, now)| < max then Attempted(e, now) else e
  {
    var e := entries[0];
    assert i > 0 ==> entries[..i][1..] == entries[1..][..i - 1];
    if max > 0 || e.dst != dst {
      var max' := if e.dst == dst && Ready(c, e, now) then max - 1 else max;
      if i > 0 {
        TakeMarks(c, entries[1..], dst, now, max', i - 1);
      } else if |entries| > 1 {
        TakeMarks(c, entries[1..], dst, now, max', 0);
      }
    }
  }

  lemma TakeDeliverableKeeps(c: Config, s: State, dst: Address, now: nat, max: nat)
    requires Inv(c, s)
    ensures Inv(c, TakeDeliverable(c, s, dst, now, max).0)
  {
    TakeKeeps(c, s.entries, dst, now, max, dst);
    forall d: Address ensures Held(Take(c, s.entries, dst, now, max).0, d) == Held(s.entries, d) {
      TakeKeeps(c, s.entries, dst, now, max, d);
    }
  }

  lemma DeliveredKeeps(c: Config, s: State, dst: Address, id: u32)
    requires Inv(c, s)
    ensures Inv(c, Delivered(s, dst, id).0)
  {
    var f := Find(s.entries, dst, id);
    if f.Some? {
      var i := f.value;
      var rest := s.entries[..i] + s.entries[i + 1..];
      forall d: Address ensures Held(rest, d) <= Held(s.entries, d) { RemoveCounts(s.entries, i, d); }
      RemoveCounts(s.entries, i, dst);
      Appends(s.retired, [s.entries[i]], dst);
    }
  }

  /** Garbage collection splits the entries in two. */
  lemma {:induction false} KeptPartition(c: Config, entries: seq<Envelope>, now: nat)
    ensures
      var kept, dropped := Kept(c, entries, now, true), Kept(c, entries, now, false);
      |kept| + |dropped| == |entries| && Size(kept) + Size(dropped) == Size(entries) && Hands(kept) + Hands(dropped) == Hands(entries)
  {
    if entries != [] {
      KeptPartition(c, entries[1..], now);
      var keep := Keeps(c, entries[0], now);
      Appends(if keep then [entries[0]] else [], Kept(c, entries[1..], now, true), NULL);
      Appends(if keep then [] else [entries[0]], Kept(c, entries[1..], now, false), NULL);
    }
  }

  lemma {:induction false} KeptHeld(c: Config, entries: seq<Envelope>, now: nat, keep: bool, dst: Address)
    ensures Held(Kept(c, entries, now, keep), dst) <= Held(entries, dst)
  {
    if entries != [] {
      KeptHeld(c, entries[1..], now, keep, dst);
      Appends(if Keeps(c, entries[0], now) == keep then [entries[0]] else [], Kept(c, entries[1..], now, keep), dst);
    }
  }

  lemma {:induction false} KeptFrom(c: Config, entries: seq<Envelope>, now: nat, keep: bool)
    ensures forall i :: 0 <= i < |Kept(c, entries, now, keep)| ==> Kept(c, entries, now, keep)[i] in entries
    ensures AllOk(c, entries) ==> AllOk(c, Kept(c, entries, now, keep))
  {
    if entries != [] { KeptFrom(c, entries[1..], now, keep); }
  }

  lemma {:induction false} KeptUnique(c: Config, entries: seq<Envelope>, now: nat, keep: bool)
    requires Unique(entries)
    ensures Unique(Kept(c, entries, now, keep))
  {
    if entries != [] {
      var rest := Kept(c, entries[1..], now, keep);
      assert Unique(entries[1..]);
      KeptUnique(c, entries[1..], now, keep);
      KeptFrom(c, entries[1..], now, keep);
      forall i | 0 <= i < |rest| ensures !(rest[i].dst == entries[0].dst && rest[i].id == entries[0].id) {
        var j :| 0 <= j < |entries[1..]| && entries[1..][j] == rest[i];
        assert entries[j + 1] == rest[i];
      }
    }
  }

  lemma GcKeeps(c: Config, s: State, now: nat)
    requires Inv(c, s)
    ensures Inv(c, Gc(c, s, now))
  {
    var kept, dropped := Kept(c, s.entries, now, true), Kept(c, s.entries, now, false);
    KeptPartition(c, s.entries, now);
    KeptUnique(c, s.entries, now, true);
    KeptFrom(c, s.entries, now, true);
    KeptFrom(c, s.entries, now, false);
    Appends(s.retired, dropped, NULL);
    forall d: Address ensures Held(kept, d) <= Held(s.entries, d) { KeptHeld(c, s.entries, now, true, d); }
  }

  datatype Event =
    | StoreOp(now: nat, depositor: Address, dst: Address, id: u32, ttlS: u32, body: seq<byte>)
    | TakeOp(dst: Address, now: nat, max: nat)
    | DeliveredOp(dst: Address, id: u32)
    | GcOp(now: nat)

  function Step(c: Config, s: State, e: Event): State
    requires s.bytes >= Size(s.entries)
  {
    match e
    case StoreOp(now, depositor, dst, id, ttlS, body) => Store(c, s, now, depositor, dst, id, ttlS, body).0
    case TakeOp(dst, now, max) => TakeDeliverable(c, s, dst, now, max).0
    case DeliveredOp(dst, id) => Delivered(s, dst, id).0
    case GcOp(now) => Gc(c, s, now)
  }

  lemma StepKeeps(c: Config, s: State, e: Event)
    requires Inv(c, s)
    ensures Inv(c, Step(c, s, e))
  {
    match e
    case StoreOp(now, depositor, dst, id, ttlS, body) => StoreKeeps(c, s, now, depositor, dst, id, ttlS, body);
    case TakeOp(dst, now, max) => TakeDeliverableKeeps(c, s, dst, now, max);
    case DeliveredOp(dst, id) => DeliveredKeeps(c, s, dst, id);
    case GcOp(now) => GcKeeps(c, s, now);
  }

  /** A run of operations on an empty mailbox.  Its conclusion is the law of the mailbox:
      stored = held + delivered + expired, the byte count is the held bytes, all three limits
      hold, (destination, id) pairs are unique, and every envelope, held or gone, was handed
      out at most the allowed number of times, spaced by the retry interval. */
  function Run(c: Config, es: seq<Event>): (s: State)
    ensures Inv(c, s)
  {
    if es == [] then EMPTY
    else
      var s := Run(c, es[..|es| - 1]);
      StepKeeps(c, s, es[|es| - 1]);
      Step(c, s, es[|es| - 1])
  }

  lemma {:induction false} HandsBound(c: Config, entries: seq<Envelope>)
    requires AllOk(c, entries)
    ensures Hands(entries) <= |entries| * c.maxAttempts
  {
    if entries != [] {
      HandsBound(c, entries[1..]);
      assert |entries| * c.maxAttempts == c.maxAttempts + |entries[1..]| * c.maxAttempts;
    }
  }

  /** The counters over every run. */
  lemma RunConserves(c: Config, es: seq<Event>)
    ensures
      var s := Run(c, es);
      && s.stored - s.delivered - s.expired == |s.entries|
      && s.bytes == Size(s.entries) <= c.maxBytes
      && s.handedOut <= s.stored * c.maxAttempts
  {
    HandedBound(c, Run(c, es));
  }

  lemma HandedBound(c: Config, s: State)
    requires Inv(c, s)
    ensures s.handedOut <= s.stored * c.maxAttempts
  {
    HandsBound(c, s.entries);
    HandsBound(c, s.retired);
    Distribute(|s.entries|, |s.retired|, c.maxAttempts);
  }

  lemma Distribute(a: nat, b: nat, k: nat)
    ensures (a + b) * k == a * k + b * k
  {
  }
}

/** The mailbox as an object, method by method equal to the functions of Mailbox. */
module MailboxObject {
  import opened Basics
  import Spec = Mailbox

  class Mailbox {
    const config: Spec.Config
    var entries: seq<Spec.Envelope>
    var bytes: nat
    var stored: nat
    var delivered: nat
    var expired: nat
    var rejected: nat
    ghost var retired: seq<Spec.Envelope>
    ghost var handedOut: nat

    ghost function Model(): Spec.State reads this {
      Spec.State(entries, bytes, stored, delivered, expired, rejected, retired, handedOut)
    }

    ghost predicate Valid() reads this { Spec.Inv(config, Model()) }

    constructor (config: Spec.Config)
      ensures Valid() && Model() == Spec.EMPTY && this.config == config
    {
      this.config := config;
      entries, bytes, stored, delivered, expired, rejected, retired, handedOut := [], 0, 0, 0, 0, 0, [], 0;
    }

    method Position(dst: Address, id: u32) returns (r: Option<nat>)
      ensures r == Spec.Find(entries, dst, id)
    {
      var i := 0;
      while i < |entries| && !(entries[i].dst == dst && entries[i].id == id)
        invariant 0 <= i <= |entries|
        invariant forall j :: 0 <= j < i ==> !(entries[j].dst == dst && entries[j].id == id)
      {
        i := i + 1;
      }
      Spec.FindFirst(entries, dst, id, i);
      r := if i < |entries| then Some(i) else None;
    }

    method PendingFor(dst: Address) returns (n: nat)
      ensures n == Spec.Held(entries, dst)
    {
      n := 0;
      var i := |entries|;
      while i > 0
        invariant 0 <= i <= |entries| && n == Spec.Held(entries[i..], dst)
      {
        i := i - 1;
        assert entries[i..][1..] == entries[i + 1..];
        if entries[i].dst == dst { n := n + 1; }
      }
    }

    method Store(now: nat, depositor: Address, dst: Address, id: u32, ttlS: u32, body: seq<byte>) returns (reason: Option<Spec.Reason>)
      requires Valid()
      modifies this
      ensures Valid() && (Model(), reason) == Spec.Store(config, old(Model()), now, depositor, dst, id, ttlS, body)
    {
      Spec.StoreKeeps(config, Model(), now, depositor, dst, id, ttlS, body);
      var present := Position(dst, id);
      if present.Some? {
        rejected := rejected + 1;
        return Some(Spec.Reason.Duplicate);
      }
      var held := PendingFor(dst);
      if held >= config.maxPerDestination {
        rejected := rejected + 1;
        return Some(Spec.PerDestination);
      }
      if |entries| >= config.maxEntries || bytes + |body| > config.maxBytes {
        rejected := rejected + 1;
        return Some(Spec.Reason.Full);
      }
      var ttl := Min(ttlS * 1000, config.maxTtlMs);
      bytes := bytes + |body|;
      entries := entries + [Spec.Envelope(dst, id, depositor, now, now + ttl, 0, 0, body, [])];
      stored := stored + 1;
      return None;
    }

    /** Visit the entries in order until enough have been handed out. */
    method Scan(dst: Address, now: nat, max: nat) returns (out: seq<(u32, seq<byte>)>)
      modifies this`entries
      ensures (entries, out) == Spec.Take(config, old(entries), dst, now, max)
    {
      ghost var was := entries;
      out := [];
      var i := 0;
      Spec.TakeStart(config, was, dst, now, max);
      while i < |entries| && !(entries[i].dst == dst && |out| >= max)
        invariant 0 <= i <= |entries| && Spec.Taking(config, was, entries, i, out, dst, now, max)
      {
        var e := entries[i];
        Spec.TakeVisit(config, was, entries, i, out, dst, now, max);
        if e.dst == dst && Spec.Ready(config, e, now) {
          entries := entries[i := Spec.Attempted(e, now)];
          out := out + [(e.id, e.body)];
        }
        i := i + 1;
      }
      Spec.TakeEnd(config, was, entries, i, out, dst, now, max);
    }

    method TakeDeliverable(dst: Address, now: nat, max: nat) returns (out: seq<(u32, seq<byte>)>)
      requires Valid()
      modifies this
      ensures Valid() && (Model(), out) == Spec.TakeDeliverable(config, old(Model()), dst, now, max)
    {
      Spec.TakeDeliverableKeeps(config, Model(), dst, now, max);
      out := Scan(dst, now, max);
      handedOut := handedOut + |out|;
    }

    method Delivered(dst: Address, id: u32) returns (known: bool)
      requires Valid()
      modifies this
      ensures Valid() && (Model(), known) == Spec.Delivered(old(Model()), dst, id)
    {
      Spec.DeliveredKeeps(config, Model(), dst, id);
      var i := Position(dst, id);
      if i.None? { return false; }
      var e := entries[i.value];
      Spec.SizeRemove(entries, i.value);
      entries := entries[..i.value] + entries[i.value + 1..];
      bytes := bytes - |e.body|;
      delivered := delivered + 1;
      retired := retired + [e];
      return true;
    }

    method Gc(now: nat) returns (n: nat)
      requires Valid()
      modifies this
      ensures Valid() && Model() == Spec.Gc(config, old(Model()), now) && n == |old(entries)| - |entries|
    {
      Spec.GcKeeps(config, Model(), now);
      Spec.KeptPartition(config, entries, now);
      var kept: seq<Spec.Envelope> := [];
      ghost var dropped: seq<Spec.Envelope> := [];
      var freed := 0;
      var i := |entries|;
      while i > 0
        invariant 0 <= i <= |entries|
        invariant kept == Spec.Kept(config, entries[i..], now, true) && dropped == Spec.Kept(config, entries[i..], now, false)
        invariant freed == Spec.Size(dropped)
      {
        i := i - 1;
        assert entries[i..][1..] == entries[i + 1..];
        var e := entries[i];
        if Spec.Keeps(config, e, now) {
          kept := [e] + kept;
        } else {
          freed := freed + |e.body|;
          dropped := [e] + dropped;
        }
      }
      assert entries[0..] == entries;
      n := |entries| - |kept|;
      entries, bytes, expired, retired := kept, bytes - freed, expired + n, retired + dropped;
    }
  }
}
