/** Reassembling many split messages whose fragments arrive interleaved and in any
    order, and the reassembler as the object that a node owns. */
module Reassembly {
  import opened Basics
  import opened Packet
  import opened Fragmentation
  import Spec = Fragmentation

  /** A message that was split into pieces of at most `chunk`. */
  datatype Message<T> = Message(body: seq<T>, chunk: nat)

  ghost predicate Splittable<T>(m: Message<T>) {
    m.chunk > 0 && Total(|m.body|, m.chunk) <= 255
  }

  function Pieces<T>(m: Message<T>): (n: byte)
    requires Splittable(m)
    ensures n >= 1
  {
    Total(|m.body|, m.chunk)
  }

  /** The fragment with index `index` of the message known as `key` arrives at `now`. */
  datatype Arrival = Arrival(now: nat, key: Key, index: byte)

  type Seen = set<(Key, nat)>

  /** The slots of a set that has received the fragments in `seen`. */
  ghost function SlotsOf<T>(m: Message<T>, key: Key, seen: Seen): (s: Slots<T>)
    requires Splittable(m)
    ensures |s| == Pieces(m)
    ensures forall i :: 0 <= i < |s| ==> s[i] == if (key, i) in seen then Some(Part(m.body, m.chunk, i)) else None
  {
    seq(Pieces(m), i requires 0 <= i < Pieces(m) => if (key, i) in seen then Some(Part(m.body, m.chunk, i)) else None)
  }

  ghost predicate Begun<T>(m: Message<T>, key: Key, seen: Seen)
    requires Splittable(m)
  {
    exists i: nat :: i < Pieces(m) && (key, i) in seen
  }

  ghost predicate Complete<T>(m: Message<T>, key: Key, seen: Seen)
    requires Splittable(m)
  {
    forall i: nat :: i < Pieces(m) ==> (key, i) in seen
  }

  ghost predicate AllSplittable<T>(msgs: map<Key, Message<T>>) {
    forall k <- msgs :: Splittable(msgs[k])
  }

  /** The reassembler holds exactly the messages that have begun and are not complete,
      each with exactly the pieces that have arrived. */
  ghost predicate Tracks<T>(cfg: Config, r: State<T>, msgs: map<Key, Message<T>>, seen: Seen)
    requires AllSplittable(msgs)
  {
    Valid(cfg, r) && Holds(r.sets, msgs, seen)
  }

  /** The limits leave room for a piece of `n` elements: neither an eviction nor the
      byte budget interferes. */
  ghost predicate Fits<T>(cfg: Config, r: State<T>, key: Key, n: nat) {
    (key in r.sets || |r.sets| < cfg.maxSets) && r.bytes + n <= cfg.maxBytes
  }

  // ----- joining --------------------------------------------------------------------

  lemma {:induction false} JoinPrefix<T>(m: Message<T>, parts: Slots<T>)
    requires forall i :: 0 <= i < |parts| ==> parts[i] == Some(Part(m.body, m.chunk, i))
    ensures Join(parts) == m.body[..Offset(|m.body|, m.chunk, |parts|)]
  {
    if parts != [] {
      var n := |parts| - 1;
      var a, b := Offset(|m.body|, m.chunk, n), Offset(|m.body|, m.chunk, n + 1);
      JoinPrefix(m, parts[..n]);
      assert parts[n] == Some(m.body[a..b]);
      assert m.body[..b] == m.body[..a] + m.body[a..b];
    }
  }

  lemma JoinWhole<T>(m: Message<T>, parts: Slots<T>)
    requires Splittable(m) && |parts| == Pieces(m)
    requires forall i :: 0 <= i < |parts| ==> parts[i] == Some(Part(m.body, m.chunk, i))
    ensures Join(parts) == m.body
  {
    JoinPrefix(m, parts);
    if |m.body| > 0 { OffsetReaches(|m.body|, m.chunk, |parts|); }
  }

  lemma {:induction false} SizePrefix<T>(m: Message<T>, parts: Slots<T>)
    requires forall i :: 0 <= i < |parts| ==> parts[i].None? || parts[i] == Some(Part(m.body, m.chunk, i))
    ensures Size(parts) <= Offset(|m.body|, m.chunk, |parts|)
  {
    if parts != [] {
      SizePrefix(m, parts[..|parts| - 1]);
    }
  }

  // ----- one arrival -----------------------------------------------------------------

  lemma EmptyIsSlots<T>(m: Message<T>, key: Key, seen: Seen, now: nat)
    requires Splittable(m) && !Begun(m, key, seen)
    ensures NewSet<T>(Pieces(m), now).parts == SlotsOf(m, key, seen)
  {
  }

  lemma FillIsSlots<T>(m: Message<T>, key: Key, seen: Seen, index: nat)
    requires Splittable(m) && index < Pieces(m)
    ensures SlotsOf(m, key, seen)[index := Some(Part(m.body, m.chunk, index))] == SlotsOf(m, key, seen + {(key, index)})
  {
  }

  lemma SlotsFull<T>(m: Message<T>, key: Key, seen: Seen)
    requires Splittable(m)
    ensures Count(SlotsOf(m, key, seen)) == Pieces(m) <==> Complete(m, key, seen)
    ensures Complete(m, key, seen) ==> Join(SlotsOf(m, key, seen)) == m.body
  {
    var parts := SlotsOf(m, key, seen);
    CountFull(parts);
    if Complete(m, key, seen) { JoinWhole(m, parts); }
    if Count(parts) == |parts| {
      forall i: nat | i < Pieces(m) ensures (key, i) in seen { assert parts[i].Some?; }
    }
  }

  function HeaderOf<T>(m: Message<T>, key: Key, index: byte): FragHeader
    requires Splittable(m)
  {
    FragHeader(key.1, index, Pieces(m))
  }

  /** What `Push` does with a new fragment of a message that fits. */
  lemma StoreArrival<T>(cfg: Config, r: State<T>, m: Message<T>, seen: Seen, a: Arrival)
    requires Splittable(m) && a.index < Pieces(m) && (a.key, a.index as nat) !in seen
    requires if a.key in r.sets then r.sets[a.key].parts == SlotsOf(m, a.key, seen) && SetOk(r.sets[a.key]) else !Begun(m, a.key, seen)
    requires Fits(cfg, r, a.key, |Part(m.body, m.chunk, a.index)|)
    ensures
      var seen' := seen + {(a.key, a.index as nat)};
      var (r', res) := Push(cfg, r, a.now, a.key.0, HeaderOf(m, a.key, a.index), Part(m.body, m.chunk, a.index));
      && res == Ok(if Complete(m, a.key, seen') then Some(m.body) else None)
      && (Complete(m, a.key, seen') ==> r'.sets == r.sets - {a.key})
      && (!Complete(m, a.key, seen') ==>
            && a.key in r'.sets && r'.sets == r.sets[a.key := r'.sets[a.key]]
            && r'.sets[a.key].parts == SlotsOf(m, a.key, seen'))
  {
    var s := if a.key in r.sets then r.sets[a.key] else NewSet(Pieces(m), a.now);
    if a.key !in r.sets {
      EmptyIsSlots(m, a.key, seen, a.now);
      EmptySlots<T>(Pieces(m));
    }
    assert s.parts == SlotsOf(m, a.key, seen) && s.received == Count(s.parts);
    FillSlot(s.parts, a.index, Part(m.body, m.chunk, a.index));
    FillIsSlots(m, a.key, seen, a.index);
    SlotsFull(m, a.key, seen + {(a.key, a.index as nat)});
  }

  lemma OthersUnmoved<T>(msgs: map<Key, Message<T>>, seen: Seen, key: Key, index: nat, k: Key)
    requires AllSplittable(msgs) && k in msgs && k != key
    ensures
      var seen' := seen + {(key, index)};
      && Begun(msgs[k], k, seen') == Begun(msgs[k], k, seen)
      && Complete(msgs[k], k, seen') == Complete(msgs[k], k, seen)
      && SlotsOf(msgs[k], k, seen') == SlotsOf(msgs[k], k, seen)
  {
    var seen' := seen + {(key, index)};
    assert forall i: nat :: (k, i) in seen' <==> (k, i) in seen;
  }

  ghost function PushArrival<T>(cfg: Config, r: State<T>, msgs: map<Key, Message<T>>, a: Arrival): (State<T>, Result<Option<seq<T>>>)
    requires AllSplittable(msgs) && a.key in msgs && a.index < Pieces(msgs[a.key])
  {
    var m := msgs[a.key];
    Push(cfg, r, a.now, a.key.0, HeaderOf(m, a.key, a.index), Part(m.body, m.chunk, a.index))
  }

  lemma ArrivalStep<T>(cfg: Config, r: State<T>, msgs: map<Key, Message<T>>, seen: Seen, a: Arrival)
    requires AllSplittable(msgs) && Tracks(cfg, r, msgs, seen)
    requires a.key in msgs && a.index < Pieces(msgs[a.key]) && (a.key, a.index as nat) !in seen
    requires Fits(cfg, r, a.key, |Part(msgs[a.key].body, msgs[a.key].chunk, a.index)|)
    ensures
      var seen' := seen + {(a.key, a.index as nat)};
      var (r', res) := PushArrival(cfg, r, msgs, a);
      && Tracks(cfg, r', msgs, seen')
      && res == Ok(if Complete(msgs[a.key], a.key, seen') then Some(msgs[a.key].body) else None)
  {
    var m := msgs[a.key];
    var seen' := seen + {(a.key, a.index as nat)};
    var r' := PushArrival(cfg, r, msgs, a).0;
    StoreArrival(cfg, r, m, seen, a);
    PushValid(cfg, r, a.now, a.key.0, HeaderOf(m, a.key, a.index), Part(m.body, m.chunk, a.index));
    assert Begun(m, a.key, seen');
    TracksAfter(r.sets, r'.sets, msgs, seen, a.key, a.index);
  }

  /** The table holds exactly the begun and incomplete messages with their pieces. */
  ghost predicate Holds<T>(sets: map<Key, FragSet<T>>, msgs: map<Key, Message<T>>, seen: Seen)
    requires AllSplittable(msgs)
  {
    && (forall k :: k in sets <==> k in msgs && Begun(msgs[k], k, seen) && !Complete(msgs[k], k, seen))
    && (forall k <- sets :: sets[k].parts == SlotsOf(msgs[k], k, seen))
  }

  lemma TracksAfter<T>(sets: map<Key, FragSet<T>>, sets': map<Key, FragSet<T>>, msgs: map<Key, Message<T>>, seen: Seen, key: Key, index: nat)
    requires AllSplittable(msgs) && key in msgs && Holds(sets, msgs, seen)
    requires
      var seen' := seen + {(key, index)};
      && Begun(msgs[key], key, seen')
      && (Complete(msgs[key], key, seen') ==> sets' == sets - {key})
      && (!Complete(msgs[key], key, seen') ==>
            && key in sets' && sets' == sets[key := sets'[key]]
            && sets'[key].parts == SlotsOf(msgs[key], key, seen'))
    ensures Holds(sets', msgs, seen + {(key, index)})
  {
    var seen' := seen + {(key, index)};
    forall k
      ensures k in sets' <==> k in msgs && Begun(msgs[k], k, seen') && !Complete(msgs[k], k, seen')
      ensures k in sets' ==> sets'[k].parts == SlotsOf(msgs[k], k, seen')
    {
      if k in msgs && k != key {
        OthersUnmoved(msgs, seen, key, index, k);
      }
      assert k != key ==> (k in sets' <==> k in sets);
      assert k != key && k in sets' ==> sets'[k] == sets[k];
    }
  }

  // ----- whole interleavings ------------------------------------------------------------

  ghost function SeenAfter(seen: Seen, arrivals: seq<Arrival>): Seen
    decreases |arrivals|
  {
    if arrivals == [] then seen
    else SeenAfter(seen + {(arrivals[0].key, arrivals[0].index as nat)}, arrivals[1..])
  }

  /** Every arrival is a fragment of a known message that has not come before, and it
      fits when it comes. */
  ghost predicate Orderly<T>(cfg: Config, r: State<T>, msgs: map<Key, Message<T>>, seen: Seen, arrivals: seq<Arrival>)
    requires AllSplittable(msgs)
    decreases |arrivals|
  {
    arrivals == []
    || (var a := arrivals[0];
        && a.key in msgs && a.index < Pieces(msgs[a.key]) && (a.key, a.index as nat) !in seen
        && Fits(cfg, r, a.key, |Part(msgs[a.key].body, msgs[a.key].chunk, a.index)|)
        && Orderly(cfg, PushArrival(cfg, r, msgs, a).0, msgs, seen + {(a.key, a.index as nat)}, arrivals[1..]))
  }

  /** The results of feeding the arrivals one after the other. */
  ghost function Results<T>(cfg: Config, r: State<T>, msgs: map<Key, Message<T>>, seen: Seen, arrivals: seq<Arrival>): (s: seq<Result<Option<seq<T>>>>)
    requires AllSplittable(msgs) && Orderly(cfg, r, msgs, seen, arrivals)
    ensures |s| == |arrivals|
    decreases |arrivals|
  {
    if arrivals == [] then []
    else
      var (r', res) := PushArrival(cfg, r, msgs, arrivals[0]);
      [res] + Results(cfg, r', msgs, seen + {(arrivals[0].key, arrivals[0].index as nat)}, arrivals[1..])
  }

  lemma {:induction false} ArrivalsAreMessages<T>(cfg: Config, r: State<T>, msgs: map<Key, Message<T>>, seen: Seen, arrivals: seq<Arrival>, j: nat)
    requires AllSplittable(msgs) && Orderly(cfg, r, msgs, seen, arrivals) && j < |arrivals|
    ensures arrivals[j].key in msgs && arrivals[j].index < Pieces(msgs[arrivals[j].key])
    decreases |arrivals|
  {
    if j > 0 {
      ArrivalsAreMessages(cfg, PushArrival(cfg, r, msgs, arrivals[0]).0, msgs, seen + {(arrivals[0].key, arrivals[0].index as nat)}, arrivals[1..], j - 1);
    }
  }

  lemma ResultsUnfold<T>(cfg: Config, r: State<T>, msgs: map<Key, Message<T>>, seen: Seen, arrivals: seq<Arrival>)
    requires AllSplittable(msgs) && Orderly(cfg, r, msgs, seen, arrivals) && arrivals != []
    ensures
      var a := arrivals[0];
      var (r', res) := PushArrival(cfg, r, msgs, a);
      var seen' := seen + {(a.key, a.index as nat)};
      && Orderly(cfg, r', msgs, seen', arrivals[1..])
      && Results(cfg, r, msgs, seen, arrivals) == [res] + Results(cfg, r', msgs, seen', arrivals[1..])
  {
  }

  /** Arrival `j` returns the whole body of its message exactly when it completes it,
      and nothing otherwise. */
  ghost predicate ReturnsAt<T>(cfg: Config, r: State<T>, msgs: map<Key, Message<T>>, seen: Seen, arrivals: seq<Arrival>, j: nat)
    requires AllSplittable(msgs) && Orderly(cfg, r, msgs, seen, arrivals) && j < |arrivals|
  {
    var k := arrivals[j].key;
    && k in msgs
    && Results(cfg, r, msgs, seen, arrivals)[j]
       == Ok(if Complete(msgs[k], k, SeenAfter(seen, arrivals[..j + 1])) then Some(msgs[k].body) else None)
  }

  lemma HeadReturns<T>(cfg: Config, r: State<T>, msgs: map<Key, Message<T>>, seen: Seen, arrivals: seq<Arrival>, res: Result<Option<seq<T>>>)
    requires AllSplittable(msgs) && Orderly(cfg, r, msgs, seen, arrivals) && arrivals != []
    requires Results(cfg, r, msgs, seen, arrivals)[0] == res
    requires
      var a := arrivals[0];
      res == Ok(if Complete(msgs[a.key], a.key, seen + {(a.key, a.index as nat)}) then Some(msgs[a.key].body) else None)
    ensures ReturnsAt(cfg, r, msgs, seen, arrivals, 0)
  {
    SeenTail(seen, arrivals, 0);
  }

  lemma TailReturns<T>(cfg: Config, r: State<T>, msgs: map<Key, Message<T>>, seen: Seen, arrivals: seq<Arrival>, j: nat,
                       r': State<T>, seen': Seen)
    requires AllSplittable(msgs) && Orderly(cfg, r, msgs, seen, arrivals) && 0 < j < |arrivals|
    requires seen' == seen + {(arrivals[0].key, arrivals[0].index as nat)}
    requires Orderly(cfg, r', msgs, seen', arrivals[1..])
    requires Results(cfg, r, msgs, seen, arrivals)[1..] == Results(cfg, r', msgs, seen', arrivals[1..])
    requires ReturnsAt(cfg, r', msgs, seen', arrivals[1..], j - 1)
    ensures ReturnsAt(cfg, r, msgs, seen, arrivals, j)
  {
    SeenTail(seen, arrivals, j);
    assert Results(cfg, r, msgs, seen, arrivals)[j] == Results(cfg, r, msgs, seen, arrivals)[1..][j - 1];
  }

  /** The first arrival, and what is left to do after it. */
  lemma FirstArrival<T>(cfg: Config, r: State<T>, msgs: map<Key, Message<T>>, seen: Seen, arrivals: seq<Arrival>)
    returns (r': State<T>, seen': Seen)
    requires AllSplittable(msgs) && Tracks(cfg, r, msgs, seen) && Orderly(cfg, r, msgs, seen, arrivals) && arrivals != []
    ensures seen' == seen + {(arrivals[0].key, arrivals[0].index as nat)}
    ensures Tracks(cfg, r', msgs, seen') && Orderly(cfg, r', msgs, seen', arrivals[1..])
    ensures Results(cfg, r, msgs, seen, arrivals)[1..] == Results(cfg, r', msgs, seen', arrivals[1..])
    ensures ReturnsAt(cfg, r, msgs, seen, arrivals, 0)
  {
    ArrivalStep(cfg, r, msgs, seen, arrivals[0]);
    ResultsUnfold(cfg, r, msgs, seen, arrivals);
    var res;
    seen' := seen + {(arrivals[0].key, arrivals[0].index as nat)};
    r', res := PushArrival(cfg, r, msgs, arrivals[0]).0, PushArrival(cfg, r, msgs, arrivals[0]).1;
    HeadReturns(cfg, r, msgs, seen, arrivals, res);
  }

  /** Each arrival of an orderly run returns the whole body of its message exactly when it
      completes it, and nothing otherwise. */
  lemma {:induction false} OrderlyReturns<T>(cfg: Config, r: State<T>, msgs: map<Key, Message<T>>, seen: Seen, arrivals: seq<Arrival>, j: nat)
    requires AllSplittable(msgs) && Tracks(cfg, r, msgs, seen) && Orderly(cfg, r, msgs, seen, arrivals) && j < |arrivals|
    ensures ReturnsAt(cfg, r, msgs, seen, arrivals, j)
    decreases |arrivals|
  {
    var r', seen' := FirstArrival(cfg, r, msgs, seen, arrivals);
    if j > 0 {
      OrderlyReturns(cfg, r', msgs, seen', arrivals[1..], j - 1);
      TailReturns(cfg, r, msgs, seen, arrivals, j, r', seen');
    }
  }

  lemma SeenTail(seen: Seen, arrivals: seq<Arrival>, j: nat)
    requires j < |arrivals|
    ensures SeenAfter(seen, arrivals[..j + 1]) == SeenAfter(seen + {(arrivals[0].key, arrivals[0].index as nat)}, arrivals[1..][..j])
  {
    assert arrivals[..j + 1][1..] == arrivals[1..][..j];
  }

  lemma {:induction false} SeenGrows(seen: Seen, arrivals: seq<Arrival>, x: (Key, nat))
    requires x in seen
    ensures x in SeenAfter(seen, arrivals)
    decreases |arrivals|
  {
    if arrivals != [] {
      SeenGrows(seen + {(arrivals[0].key, arrivals[0].index as nat)}, arrivals[1..], x);
    }
  }

  lemma {:induction false} NotSeenBefore<T>(cfg: Config, r: State<T>, msgs: map<Key, Message<T>>, seen: Seen, arrivals: seq<Arrival>, j: nat)
    requires AllSplittable(msgs) && Orderly(cfg, r, msgs, seen, arrivals) && j < |arrivals|
    ensures (arrivals[j].key, arrivals[j].index as nat) !in SeenAfter(seen, arrivals[..j])
    decreases |arrivals|
  {
    if j > 0 {
      var a := arrivals[0];
      NotSeenBefore(cfg, PushArrival(cfg, r, msgs, a).0, msgs, seen + {(a.key, a.index as nat)}, arrivals[1..], j - 1);
      assert arrivals[..j][1..] == arrivals[1..][..j - 1];
    }
  }

  lemma {:induction false} SeenSplits(seen: Seen, a: seq<Arrival>, b: seq<Arrival>)
    ensures SeenAfter(seen, a + b) == SeenAfter(SeenAfter(seen, a), b)
    decreases |a|
  {
    if a == [] {
      assert a + b == b;
    } else {
      SeenSplits(seen + {(a[0].key, a[0].index as nat)}, a[1..], b);
      assert (a + b)[1..] == a[1..] + b;
    }
  }

  /** Only the last arrival of a message returns it. */
  lemma OrderlyOnce<T>(cfg: Config, r: State<T>, msgs: map<Key, Message<T>>, seen: Seen, arrivals: seq<Arrival>, i: nat, j: nat)
    requires AllSplittable(msgs) && Tracks(cfg, r, msgs, seen) && Orderly(cfg, r, msgs, seen, arrivals)
    requires i < j < |arrivals| && arrivals[i].key == arrivals[j].key
    ensures Results(cfg, r, msgs, seen, arrivals)[i] == Ok(None)
  {
    OrderlyReturns(cfg, r, msgs, seen, arrivals, i);
    ArrivalsAreMessages(cfg, r, msgs, seen, arrivals, j);
    NotYetSeen(cfg, r, msgs, seen, arrivals, i, j);
  }

  /** The later of two fragments has not been seen when the earlier has arrived. */
  lemma NotYetSeen<T>(cfg: Config, r: State<T>, msgs: map<Key, Message<T>>, seen: Seen, arrivals: seq<Arrival>, i: nat, j: nat)
    requires AllSplittable(msgs) && Tracks(cfg, r, msgs, seen) && Orderly(cfg, r, msgs, seen, arrivals)
    requires i < j < |arrivals|
    ensures (arrivals[j].key, arrivals[j].index as nat) !in SeenAfter(seen, arrivals[..i + 1])
  {
    NotSeenBefore(cfg, r, msgs, seen, arrivals, j);
    SeenStays(seen, arrivals, i + 1, j, (arrivals[j].key, arrivals[j].index as nat));
  }

  lemma SeenStays(seen: Seen, arrivals: seq<Arrival>, i: nat, j: nat, x: (Key, nat))
    requires i <= j <= |arrivals|
    ensures x in SeenAfter(seen, arrivals[..i]) ==> x in SeenAfter(seen, arrivals[..j])
  {
    var a, b := arrivals[..i], arrivals[i..j];
    SeenSplits(seen, a, b);
    assert arrivals[..j] == a + b;
    if x in SeenAfter(seen, a) { SeenGrows(SeenAfter(seen, a), b, x); }
  }

  // ----- limits known in advance ----------------------------------------------------------

  ghost function BodySum<T>(msgs: map<Key, Message<T>>): nat
    decreases |msgs|
  {
    if msgs == map[] then 0
    else
      var k :| k in msgs;
      assert (msgs - {k}).Keys == msgs.Keys - {k};
      |msgs[k].body| + BodySum(msgs - {k})
  }

  lemma {:induction false} BodyTake<T>(msgs: map<Key, Message<T>>, k: Key)
    requires k in msgs
    ensures BodySum(msgs) == |msgs[k].body| + BodySum(msgs - {k})
    decreases |msgs|
  {
    var x :| x in msgs && BodySum(msgs) == |msgs[x].body| + BodySum(msgs - {x});
    if x != k {
      assert (msgs - {x}).Keys == msgs.Keys - {x};
      BodyTake(msgs - {x}, k);
      assert (msgs - {k}).Keys == msgs.Keys - {k};
      BodyTake(msgs - {k}, x);
      assert msgs - {x} - {k} == msgs - {k} - {x};
    }
  }

  lemma {:induction false} SumWithinBodies<T>(sets: map<Key, FragSet<T>>, msgs: map<Key, Message<T>>)
    requires forall k <- sets :: k in msgs && sets[k].bytes <= |msgs[k].body|
    ensures Sum(sets) <= BodySum(msgs)
    decreases |sets|
  {
    if sets != map[] {
      var x :| x in sets;
      SumTake(sets, x);
      BodyTake(msgs, x);
      assert (sets - {x}).Keys == sets.Keys - {x};
      SumWithinBodies(sets - {x}, msgs - {x});
    }
  }

  /** The bytes a set holds and the piece that is still missing fit its body. */
  lemma PieceFitsBody<T>(m: Message<T>, key: Key, seen: Seen, index: nat)
    requires Splittable(m) && index < Pieces(m) && (key, index) !in seen
    ensures Size(SlotsOf(m, key, seen)) + |Part(m.body, m.chunk, index)| <= |m.body|
  {
    FillSlot(SlotsOf(m, key, seen), index, Part(m.body, m.chunk, index));
    FillIsSlots(m, key, seen, index);
    SizePrefix(m, SlotsOf(m, key, seen + {(key, index)}));
  }

  lemma {:induction false} HeldWithinBodies<T>(sets: map<Key, FragSet<T>>, msgs: map<Key, Message<T>>, seen: Seen, key: Key)
    requires AllSplittable(msgs) && Holds(sets, msgs, seen) && forall k <- sets :: SetOk(sets[k])
    ensures Sum(sets - {key}) <= BodySum(msgs - {key})
  {
    forall k <- sets - {key} ensures k in msgs - {key} && sets[k].bytes <= |msgs[k].body| {
      SizePrefix(msgs[k], sets[k].parts);
    }
    SumWithinBodies(sets - {key}, msgs - {key});
  }

  /** There are no more messages than sets, and their bodies fit the byte budget together. */
  ghost predicate Roomy<T>(cfg: Config, msgs: map<Key, Message<T>>) {
    |msgs| <= cfg.maxSets && BodySum(msgs) <= cfg.maxBytes
  }

  /** A message that has no set yet leaves a set free. */
  lemma SetFree<T>(sets: map<Key, FragSet<T>>, msgs: map<Key, Message<T>>, key: Key)
    requires sets.Keys <= msgs.Keys && key in msgs && key !in sets
    ensures |sets| < |msgs|
  {
    SubsetSize(sets.Keys, msgs.Keys - {key});
  }

  /** What all sets hold is at most what the others hold and the pieces of this one. */
  lemma {:induction false} OwnBytes<T>(sets: map<Key, FragSet<T>>, m: Message<T>, key: Key, seen: Seen)
    requires Splittable(m) && (key in sets ==> SetOk(sets[key]) && sets[key].parts == SlotsOf(m, key, seen))
    ensures Sum(sets) <= Sum(sets - {key}) + Size(SlotsOf(m, key, seen))
  {
    if key in sets {
      SumTake(sets, key);
    } else {
      assert sets - {key} == sets;
    }
  }

  /** What the other sets hold, and what this one holds with one more piece, fit the bodies. */
  lemma {:induction false} BytesFree<T>(r: State<T>, msgs: map<Key, Message<T>>, seen: Seen, key: Key, index: byte)
    requires AllSplittable(msgs) && Holds(r.sets, msgs, seen) && forall k <- r.sets :: SetOk(r.sets[k])
    requires key in msgs && index < Pieces(msgs[key]) && (key, index as nat) !in seen
    ensures Sum(r.sets) + |Part(msgs[key].body, msgs[key].chunk, index)| <= BodySum(msgs)
  {
    HeldWithinBodies(r.sets, msgs, seen, key);
    BodyTake(msgs, key);
    PieceFitsBody(msgs[key], key, seen, index);
    OwnBytes(r.sets, msgs[key], key, seen);
  }

  /** A new fragment of a tracked message fits. */
  lemma FitsInAdvance<T>(cfg: Config, r: State<T>, msgs: map<Key, Message<T>>, seen: Seen, key: Key, index: byte)
    requires AllSplittable(msgs) && Tracks(cfg, r, msgs, seen) && Roomy(cfg, msgs)
    requires key in msgs && index < Pieces(msgs[key]) && (key, index as nat) !in seen
    ensures Fits(cfg, r, key, |Part(msgs[key].body, msgs[key].chunk, index)|)
  {
    BytesFree(r, msgs, seen, key, index);
    if key !in r.sets { SetFree(r.sets, msgs, key); }
  }

  /** Every arrival is a fragment of one of the messages, none of them has been seen, and
      no two are the same. */
  ghost predicate Distinct<T>(msgs: map<Key, Message<T>>, seen: Seen, arrivals: seq<Arrival>)
    requires AllSplittable(msgs)
  {
    && (forall i :: 0 <= i < |arrivals| ==>
          && arrivals[i].key in msgs && arrivals[i].index < Pieces(msgs[arrivals[i].key])
          && (arrivals[i].key, arrivals[i].index as nat) !in seen)
    && (forall i, j :: 0 <= i < j < |arrivals| ==>
          arrivals[i].key != arrivals[j].key || arrivals[i].index != arrivals[j].index)
  }

  lemma DistinctTail<T>(msgs: map<Key, Message<T>>, seen: Seen, arrivals: seq<Arrival>)
    requires AllSplittable(msgs) && Distinct(msgs, seen, arrivals) && arrivals != []
    ensures Distinct(msgs, seen + {(arrivals[0].key, arrivals[0].index as nat)}, arrivals[1..])
  {
    var rest := arrivals[1..];
    forall i | 0 <= i < |rest|
      ensures (rest[i].key, rest[i].index as nat) !in seen + {(arrivals[0].key, arrivals[0].index as nat)}
    {
      assert rest[i] == arrivals[i + 1];
    }
  }

  /** With room for all the messages, their fragments fit in every order of arrival. */
  lemma {:induction false} EveryOrderFits<T>(cfg: Config, r: State<T>, msgs: map<Key, Message<T>>, seen: Seen, arrivals: seq<Arrival>)
    requires AllSplittable(msgs) && Tracks(cfg, r, msgs, seen) && Roomy(cfg, msgs) && Distinct(msgs, seen, arrivals)
    ensures Orderly(cfg, r, msgs, seen, arrivals)
    decreases |arrivals|
  {
    if arrivals != [] {
      var a := arrivals[0];
      FitsInAdvance(cfg, r, msgs, seen, a.key, a.index);
      ArrivalStep(cfg, r, msgs, seen, a);
      DistinctTail(msgs, seen, arrivals);
      EveryOrderFits(cfg, PushArrival(cfg, r, msgs, a).0, msgs, seen + {(a.key, a.index as nat)}, arrivals[1..]);
    }
  }

  /** With room for all the messages, in every order and interleaving of their fragments
      each arrival returns the whole body of its message exactly when it completes it, and
      nothing otherwise. */
  lemma Interleaving<T>(cfg: Config, r: State<T>, msgs: map<Key, Message<T>>, seen: Seen, arrivals: seq<Arrival>)
    requires AllSplittable(msgs) && Tracks(cfg, r, msgs, seen) && Roomy(cfg, msgs) && Distinct(msgs, seen, arrivals)
    ensures Orderly(cfg, r, msgs, seen, arrivals)
    ensures forall j :: 0 <= j < |arrivals| ==> ReturnsAt(cfg, r, msgs, seen, arrivals, j)
  {
    EveryOrderFits(cfg, r, msgs, seen, arrivals);
    forall j | 0 <= j < |arrivals| ensures ReturnsAt(cfg, r, msgs, seen, arrivals, j) {
      OrderlyReturns(cfg, r, msgs, seen, arrivals, j);
    }
  }

  lemma {:induction false} SeenOnlyArrived(seen: Seen, arrivals: seq<Arrival>, x: (Key, nat))
    requires forall i :: 0 <= i < |arrivals| ==> arrivals[i].key != x.0
    ensures x in SeenAfter(seen, arrivals) ==> x in seen
    decreases |arrivals|
  {
    if arrivals != [] {
      SeenOnlyArrived(seen + {(arrivals[0].key, arrivals[0].index as nat)}, arrivals[1..], x);
    }
  }

  /** A message that becomes complete does so with the last arrival of its fragments. */
  lemma {:induction false} LastArrival<T>(m: Message<T>, key: Key, seen: Seen, arrivals: seq<Arrival>) returns (j: nat)
    requires Splittable(m) && !Complete(m, key, seen) && Complete(m, key, SeenAfter(seen, arrivals))
    ensures j < |arrivals| && arrivals[j].key == key && Complete(m, key, SeenAfter(seen, arrivals[..j + 1]))
    ensures forall i :: j < i < |arrivals| ==> arrivals[i].key != key
    decreases |arrivals|
  {
    var n := |arrivals| - 1;
    var init, last := arrivals[..n], arrivals[n];
    if last.key == key {
      j := n;
      assert arrivals[..n + 1] == arrivals;
    } else {
      assert arrivals == init + [last];
      SeenSplits(seen, init, [last]);
      forall i: nat | i < Pieces(m) ensures (key, i) in SeenAfter(seen, init) {
        SeenOnlyArrived(SeenAfter(seen, init), [last], (key, i));
      }
      j := LastArrival(m, key, seen, init);
      assert init[..j + 1] == arrivals[..j + 1];
    }
  }

  /** With room for all the messages: if the fragments of a message all arrive, in any
      order and mixed with any others, exactly one arrival returns its body, and every
      other arrival of the message returns nothing. */
  lemma ReturnedOnce<T>(cfg: Config, r: State<T>, msgs: map<Key, Message<T>>, seen: Seen, arrivals: seq<Arrival>, key: Key)
    returns (j: nat)
    requires AllSplittable(msgs) && Tracks(cfg, r, msgs, seen) && Roomy(cfg, msgs) && Distinct(msgs, seen, arrivals)
    requires key in msgs && !Complete(msgs[key], key, seen) && Complete(msgs[key], key, SeenAfter(seen, arrivals))
    ensures Orderly(cfg, r, msgs, seen, arrivals) && j < |arrivals| && arrivals[j].key == key
    ensures
      forall i :: 0 <= i < |arrivals| && arrivals[i].key == key ==>
        Results(cfg, r, msgs, seen, arrivals)[i] == Ok(if i == j then Some(msgs[key].body) else None)
  {
    EveryOrderFits(cfg, r, msgs, seen, arrivals);
    j := LastArrival(msgs[key], key, seen, arrivals);
    OrderlyReturns(cfg, r, msgs, seen, arrivals, j);
    forall i | 0 <= i < j && arrivals[i].key == key
      ensures Results(cfg, r, msgs, seen, arrivals)[i] == Ok(None)
    {
      OrderlyOnce(cfg, r, msgs, seen, arrivals, i, j);
    }
  }

  // ----- the reassembler object -----------------------------------------------------------

  lemma OldestUnique<T>(sets: map<Key, FragSet<T>>, k: Key, k': Key)
    requires IsOldest(sets, k) && IsOldest(sets, k')
    ensures k == k'
  {
    assert Older(sets, k, k') && Older(sets, k', k);
  }

  /** Some of the stale sets have been dropped, `todo` is still to go. */
  ghost predicate Dropping<T>(start: map<Key, FragSet<T>>, stale: map<Key, FragSet<T>>, todo: map<Key, FragSet<T>>,
                              sets: map<Key, FragSet<T>>, freed: int) {
    && todo.Keys <= stale.Keys && (forall k <- todo :: k in start && todo[k] == stale[k] == start[k])
    && sets == start - (stale.Keys - todo.Keys)
    && freed == Sum(stale) - Sum(todo)
  }

  lemma DropEnds<T>(start: map<Key, FragSet<T>>, stale: map<Key, FragSet<T>>, sets: map<Key, FragSet<T>>, freed: int)
    requires forall k <- stale :: k in start && start[k] == stale[k]
    ensures Dropping(start, stale, stale, start, 0)
    ensures Dropping(start, stale, map[], sets, freed) ==> sets == start - stale.Keys && freed == Sum(stale)
  {
    assert start - (stale.Keys - stale.Keys) == start;
    var none: map<Key, FragSet<T>> := map[];
    assert stale.Keys - none.Keys == stale.Keys;
  }

  lemma DropOne<T>(start: map<Key, FragSet<T>>, stale: map<Key, FragSet<T>>, todo: map<Key, FragSet<T>>,
                   sets: map<Key, FragSet<T>>, freed: int, k: Key)
    requires Dropping(start, stale, todo, sets, freed) && k in todo
    ensures k in sets && |todo - {k}| < |todo|
    ensures Dropping(start, stale, todo - {k}, sets - {k}, freed + sets[k].bytes)
  {
    SumTake(todo, k);
    assert (todo - {k}).Keys == todo.Keys - {k};
  }

  class Reassembler<T> {
    const cfg: Config
    var sets: map<Key, FragSet<T>>
    var bytes: int
    var dropped: nat

    function Model(): State<T>
      reads this
    {
      State(sets, bytes, dropped)
    }

    constructor (cfg: Config)
      ensures this.cfg == cfg && Model() == State(map[], 0, 0) && Valid(cfg, Model())
    {
      this.cfg := cfg;
      sets, bytes, dropped := map[], 0, 0;
    }

    /** Scan the table for the set that started first. */
    method FindOldest() returns (oldest: Key)
      requires sets != map[]
      ensures IsOldest(sets, oldest)
    {
      oldest :| oldest in sets;
      var rest := sets.Keys;
      while rest != {}
        invariant oldest in sets && rest <= sets.Keys
        invariant forall k :: k in sets && k !in rest ==> Older(sets, oldest, k)
        decreases |rest|
      {
        var k :| k in rest;
        if !Older(sets, oldest, k) {
          oldest := k;
        }
        rest := rest - {k};
      }
    }

    method EvictOldest()
      modifies this
      ensures Model() == Spec.EvictOldest(old(Model()))
    {
      if sets != map[] {
        var k := FindOldest();
        OldestUnique(sets, k, Oldest(sets));
        bytes := bytes - sets[k].bytes;
        sets := sets - {k};
        dropped := dropped + 1;
      }
    }

    /** The pieces of a complete set, in order. */
    method Concatenate(parts: Slots<T>) returns (out: seq<T>)
      ensures out == Join(parts)
    {
      out := [];
      var i := 0;
      while i < |parts|
        invariant 0 <= i <= |parts|
        invariant out == Join(parts[..i])
      {
        assert parts[..i + 1][..i] == parts[..i];
        if parts[i].Some? {
          out := out + parts[i].value;
        } else {
          assert out + [] == out;
        }
        i := i + 1;
      }
      assert parts[..|parts|] == parts;
    }

    method Push(now: nat, src: Address, h: FragHeader, chunk: seq<T>) returns (r: Result<Option<seq<T>>>)
      requires h.index < h.total
      modifies this
      ensures (Model(), r) == Spec.Push(cfg, old(Model()), now, src, h, chunk)
    {
      var key := (src, h.fragId);
      if key !in sets {
        if |sets| >= cfg.maxSets {
          EvictOldest();
        }
        if |sets| >= cfg.maxSets {
          return Err(Full);
        }
      }
      r := Store(now, key, h, chunk, if key in sets then sets[key] else NewSet(h.total, now));
    }

    method Store(now: nat, key: Key, h: FragHeader, chunk: seq<T>, s: FragSet<T>) returns (r: Result<Option<seq<T>>>)
      requires h.index < h.total
      modifies this
      ensures (Model(), r) == Spec.Store(cfg, old(Model()), now, key, h, chunk, s)
    {
      if |s.parts| != h.total {
        Drop(key);
        return Err(BadField);
      }
      if s.parts[h.index].Some? {
        return Err(Duplicate);
      }
      if bytes + |chunk| > cfg.maxBytes {
        Drop(key);
        return Err(Full);
      }
      var s' := Filled(s, h.index, chunk, now);
      bytes := bytes + |chunk|;
      if s'.received == |s'.parts| {
        sets := sets - {key};
        bytes := bytes - s'.bytes;
        var out := Concatenate(s'.parts);
        return Ok(Some(out));
      }
      sets := sets[key := s'];
      return Ok(None);
    }

    method Drop(key: Key)
      modifies this
      ensures Model() == Remove(old(Model()), key)
    {
      if key in sets {
        bytes := bytes - sets[key].bytes;
        sets := sets - {key};
      }
      dropped := dropped + 1;
    }

    /** Remove the given sets one by one. */
    method DropAll(stale: map<Key, FragSet<T>>)
      requires forall k <- stale :: k in sets && sets[k] == stale[k]
      modifies this`sets, this`bytes
      ensures sets == old(sets) - stale.Keys && bytes == old(bytes) - Sum(stale)
    {
      var todo := stale;
      ghost var start := sets;
      DropEnds(start, stale, sets, 0);
      while todo != map[]
        invariant Dropping(start, stale, todo, sets, old(bytes) - bytes)
        decreases |todo|
      {
        var k :| k in todo;
        DropOne(start, stale, todo, sets, old(bytes) - bytes, k);
        bytes := bytes - sets[k].bytes;
        sets := sets - {k};
        todo := todo - {k};
      }
      DropEnds(start, stale, sets, old(bytes) - bytes);
    }

    /** Drop timed-out sets. */
    method Expire(now: nat) returns (n: nat)
      modifies this
      ensures Model() == Spec.Expire(cfg, old(Model()), now)
      ensures dropped == old(dropped) + n
    {
      var stale := map k | k in sets && Stale(cfg, sets[k], now) :: sets[k];
      DropAll(stale);
      n := |stale|;
      dropped := dropped + n;
    }
  }
}
