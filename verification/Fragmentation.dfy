/** Splitting a message into fragments and reassembling many messages at once with
    a bounded number of partial sets and a bounded number of bytes. */
module Fragmentation {
  import opened Basics
  import opened Packet

  // ----- split -----------------------------------------------------------------------

  /** The number of fragments: the length over the chunk size, rounded up, at least one. */
  function Total(length: nat, chunk: nat): (t: nat)
    requires chunk > 0
    ensures t >= 1
  {
    if length <= chunk then 1 else 1 + Total(length - chunk, chunk)
  }

  lemma {:induction false} TotalIsCeiling(length: nat, chunk: nat)
    requires chunk > 0
    ensures Total(length, chunk) == Max((length + chunk - 1) / chunk, 1)
  {
    if length > chunk {
      TotalIsCeiling(length - chunk, chunk);
      DivStep(length - 1, chunk);
    } else {
      DivSmall(length + chunk - 1, chunk);
    }
  }

  lemma DivStep(n: nat, chunk: nat)
    requires chunk > 0
    ensures (n + chunk) / chunk == n / chunk + 1
  {
    var q, r := n / chunk, n % chunk;
    assert n + chunk == (q + 1) * chunk + r;
    RemainderUnique(n + chunk, chunk, q + 1, r);
  }

  lemma DivSmall(n: nat, chunk: nat)
    requires chunk > 0 && n < 2 * chunk
    ensures n / chunk == if n < chunk then 0 else 1
  {
    if n < chunk { RemainderUnique(n, chunk, 0, n); } else { RemainderUnique(n, chunk, 1, n - chunk); }
  }

  /** Where the `i`-th piece of a body of `length` starts. */
  function Offset(length: nat, chunk: nat, i: nat): (o: nat)
    ensures o <= length
  {
    if i == 0 then 0 else Min(Offset(length, chunk, i - 1) + chunk, length)
  }

  /** The `i`-th piece of `body`. */
  function Part<T>(body: seq<T>, chunk: nat, i: nat): seq<T> {
    body[Offset(|body|, chunk, i)..Offset(|body|, chunk, i + 1)]
  }

  function Split<T>(fragId: u16, body: seq<T>, chunk: nat): Option<seq<(FragHeader, seq<T>)>> {
    if chunk == 0 then None
    else
      var total := Total(|body|, chunk);
      if total > 255 then None
      else Some(seq(total, i requires 0 <= i < total => (FragHeader(fragId, i, total), Part(body, chunk, i))))
  }

  lemma {:induction false} OffsetIsProduct(length: nat, chunk: nat, i: nat)
    ensures Offset(length, chunk, i) == Min(i * chunk, length)
  {
    if i > 0 {
      OffsetIsProduct(length, chunk, i - 1);
      assert i * chunk == (i - 1) * chunk + chunk;
    }
  }

  lemma {:induction false} TotalBounds(length: nat, chunk: nat)
    requires chunk > 0
    ensures Total(length, chunk) * chunk >= length
    ensures length > 0 ==> (Total(length, chunk) - 1) * chunk < length
  {
    if length > chunk {
      TotalBounds(length - chunk, chunk);
      var t := Total(length - chunk, chunk);
      assert (t + 1) * chunk == t * chunk + chunk;
      assert t * chunk == (t - 1) * chunk + chunk;
    }
  }

  lemma TotalFits(length: nat, chunk: nat)
    requires chunk > 0
    ensures Total(length, chunk) > 255 <==> length > 255 * chunk
  {
    TotalBounds(length, chunk);
    var t := Total(length, chunk);
    if t > 255 { MulMonotone(255, t - 1, chunk); } else { MulMonotone(t, 255, chunk); }
  }

  /** The pieces cover the body: the first `Total` offsets are the body's, no fewer. */
  lemma OffsetReaches(length: nat, chunk: nat, i: nat)
    requires chunk > 0 && length > 0
    ensures Offset(length, chunk, i) == length <==> i >= Total(length, chunk)
  {
    var total := Total(length, chunk);
    TotalBounds(length, chunk);
    OffsetIsProduct(length, chunk, i);
    if i >= total {
      MulMonotone(total, i, chunk);
    } else {
      MulMonotone(i, total - 1, chunk);
    }
  }

  /** `out` holds the first pieces of the body. */
  ghost predicate Pieces<T>(fragId: u16, body: seq<T>, chunk: nat, total: nat, out: seq<(FragHeader, seq<T>)>) {
    && |out| <= total <= 255
    && forall j :: 0 <= j < |out| ==> out[j] == (FragHeader(fragId, j, total), Part(body, chunk, j)) && |out[j].1| <= chunk
  }

  lemma NextPiece<T>(fragId: u16, body: seq<T>, chunk: nat, total: nat, out: seq<(FragHeader, seq<T>)>)
    requires chunk > 0 && Pieces(fragId, body, chunk, total, out) && total == Total(|body|, chunk)
    requires Offset(|body|, chunk, |out|) < |body|
    ensures |out| < total
    ensures
      var at := Offset(|body|, chunk, |out|);
      Pieces(fragId, body, chunk, total, out + [(FragHeader(fragId, |out|, total), body[at..Min(at + chunk, |body|)])])
  {
    OffsetReaches(|body|, chunk, |out|);
    ExtendPieces(fragId, body, chunk, total, out);
  }

  lemma ExtendPieces<T>(fragId: u16, body: seq<T>, chunk: nat, total: nat, out: seq<(FragHeader, seq<T>)>)
    requires Pieces(fragId, body, chunk, total, out) && |out| < total
    ensures
      var at := Offset(|body|, chunk, |out|);
      Pieces(fragId, body, chunk, total, out + [(FragHeader(fragId, |out|, total), body[at..Min(at + chunk, |body|)])])
  {
    var at := Offset(|body|, chunk, |out|);
    assert Offset(|body|, chunk, |out| + 1) == Min(at + chunk, |body|);
    assert Part(body, chunk, |out|) == body[at..Min(at + chunk, |body|)];
  }

  lemma AllPieces<T>(fragId: u16, body: seq<T>, chunk: nat, out: seq<(FragHeader, seq<T>)>)
    requires chunk > 0 && |out| == Total(|body|, chunk) && Pieces(fragId, body, chunk, |out|, out)
    ensures Split(fragId, body, chunk) == Some(out)
  {
    assert Split(fragId, body, chunk).value == out;
  }

  /** Cut the body chunk by chunk. */
  method SplitBody<T>(fragId: u16, body: seq<T>, chunk: nat) returns (r: Option<seq<(FragHeader, seq<T>)>>)
    ensures r == Split(fragId, body, chunk)
    ensures r.None? <==> chunk == 0 || |body| > 255 * chunk
    ensures r.Some? ==> forall i :: 0 <= i < |r.value| ==> |r.value[i].1| <= chunk
  {
    if chunk == 0 { return None; }
    var total := Total(|body|, chunk);
    TotalFits(|body|, chunk);
    if total > 255 { return None; }
    var out: seq<(FragHeader, seq<T>)> := [];
    var at := 0;
    while at < |body|
      invariant at == Offset(|body|, chunk, |out|)
      invariant Pieces(fragId, body, chunk, total, out)
      decreases |body| - at
    {
      NextPiece(fragId, body, chunk, total, out);
      var end := Min(at + chunk, |body|);
      out := out + [(FragHeader(fragId, |out|, total), body[at..end])];
      at := end;
    }
    if |body| == 0 {
      out := [(FragHeader(fragId, 0, 1), [])];
      assert Part(body, chunk, 0) == [];
    } else {
      OffsetReaches(|body|, chunk, |out|);
    }
    AllPieces(fragId, body, chunk, out);
    return Some(out);
  }

  // ----- partial sets -----------------------------------------------------------------

  type Slots<T> = seq<Option<seq<T>>>

  function Count<T>(parts: Slots<T>): (n: nat)
    ensures n <= |parts|
  {
    if parts == [] then 0 else Count(parts[..|parts| - 1]) + if parts[|parts| - 1].Some? then 1 else 0
  }

  function Size<T>(parts: Slots<T>): nat {
    if parts == [] then 0 else Size(parts[..|parts| - 1]) + if parts[|parts| - 1].Some? then |parts[|parts| - 1].value| else 0
  }

  /** The stored pieces one after the other. */
  function Join<T>(parts: Slots<T>): seq<T> {
    if parts == [] then [] else Join(parts[..|parts| - 1]) + if parts[|parts| - 1].Some? then parts[|parts| - 1].value else []
  }

  lemma {:induction false} FillSlot<T>(parts: Slots<T>, i: nat, c: seq<T>)
    requires i < |parts| && parts[i].None?
    ensures Count(parts[i := Some(c)]) == Count(parts) + 1
    ensures Size(parts[i := Some(c)]) == Size(parts) + |c|
  {
    var parts' := parts[i := Some(c)];
    var n := |parts| - 1;
    if i < n {
      FillSlot(parts[..n], i, c);
      assert parts'[..n] == parts[..n][i := Some(c)];
    } else {
      assert parts'[..n] == parts[..n];
    }
  }

  lemma {:induction false} CountFull<T>(parts: Slots<T>)
    ensures Count(parts) == |parts| <==> forall i :: 0 <= i < |parts| ==> parts[i].Some?
  {
    if parts != [] { CountFull(parts[..|parts| - 1]); }
  }

  lemma {:induction false} EmptySlots<T>(n: nat)
    ensures var s: Slots<T> := seq(n, _ => None); Count(s) == 0 && Size(s) == 0
  {
    if n > 0 {
      EmptySlots<T>(n - 1);
      var s: Slots<T> := seq(n, _ => None);
      var s': Slots<T> := seq(n - 1, _ => None);
      assert s[..n - 1] == s';
    }
  }

  datatype FragSet<T> = FragSet(parts: Slots<T>, received: nat, bytes: nat, startedAt: nat, lastAt: nat)

  type Key = (Address, u16)

  datatype Config = Config(maxSets: nat, maxBytes: nat, timeout: nat)

  /** The reassembler's fields as a value. */
  datatype State<T> = State(sets: map<Key, FragSet<T>>, bytes: int, dropped: nat)

  /** Iteration order of the table, then age: the set `k` would be evicted before `k'`. */
  predicate Older<T>(sets: map<Key, FragSet<T>>, k: Key, k': Key)
    requires k in sets && k' in sets
  {
    var s, s' := sets[k].startedAt, sets[k'].startedAt;
    s < s' || (s == s' && (k.0 < k'.0 || (k.0 == k'.0 && k.1 <= k'.1)))
  }

  ghost predicate IsOldest<T>(sets: map<Key, FragSet<T>>, k: Key) {
    k in sets && forall k' <- sets :: Older(sets, k, k')
  }

  lemma {:induction false} OldestExists<T>(sets: map<Key, FragSet<T>>) returns (k: Key)
    requires sets != map[]
    ensures IsOldest(sets, k)
    decreases |sets|
  {
    var x :| x in sets;
    var rest := sets - {x};
    if rest == map[] {
      k := x;
      forall k' <- sets ensures Older(sets, k, k') { assert k' == x || k' in rest; }
    } else {
      assert |rest| < |sets| by { assert rest.Keys == sets.Keys - {x}; }
      var y := OldestExists(rest);
      k := if Older(sets, x, y) then x else y;
      forall k' <- sets ensures Older(sets, k, k') {
        if k' != x { assert k' in rest && Older(rest, y, k'); }
      }
    }
  }

  ghost function Oldest<T>(sets: map<Key, FragSet<T>>): (k: Key)
    requires sets != map[]
    ensures IsOldest(sets, k)
  {
    var _ := OldestOf(sets);
    var k :| IsOldest(sets, k); k
  }

  ghost function OldestOf<T>(sets: map<Key, FragSet<T>>): ()
    requires sets != map[]
    ensures exists k :: IsOldest(sets, k)
  {
    assert exists k :: IsOldest(sets, k) by { var k := OldestExists(sets); }
    ()
  }

  function Remove<T>(r: State<T>, key: Key): State<T> {
    if key in r.sets then State(r.sets - {key}, r.bytes - r.sets[key].bytes, r.dropped + 1) else r.(dropped := r.dropped + 1)
  }

  ghost function EvictOldest<T>(r: State<T>): State<T> {
    if r.sets == map[] then r else Remove(r, Oldest(r.sets))
  }

  function NewSet<T>(total: nat, now: nat): FragSet<T> {
    FragSet(seq(total, _ => None), 0, 0, now, now)
  }

  /** Feed one fragment; the result is the whole message when it was the last piece. */
  ghost function Push<T>(cfg: Config, r: State<T>, now: nat, src: Address, h: FragHeader, chunk: seq<T>): (State<T>, Result<Option<seq<T>>>)
    requires h.index < h.total
  {
    var key := (src, h.fragId);
    var r1 := if key !in r.sets && |r.sets| >= cfg.maxSets then EvictOldest(r) else r;
    if key !in r1.sets && |r1.sets| >= cfg.maxSets then (r1, Err(Full))
    else Store(cfg, r1, now, key, h, chunk, if key in r1.sets then r1.sets[key] else NewSet(h.total, now))
  }

  /** The part of `Push` after the set has been found or created. */
  ghost function Store<T>(cfg: Config, r: State<T>, now: nat, key: Key, h: FragHeader, chunk: seq<T>, set_: FragSet<T>): (State<T>, Result<Option<seq<T>>>)
    requires h.index < h.total
  {
    if |set_.parts| != h.total then (Remove(r, key), Err(BadField))
    else if set_.parts[h.index].Some? then (r, Err(Duplicate))
    else if r.bytes + |chunk| > cfg.maxBytes then (Remove(r, key), Err(Full))
    else
      var parts := set_.parts[h.index := Some(chunk)];
      if set_.received + 1 == |parts| then
        (State(r.sets - {key}, r.bytes - set_.bytes, r.dropped), Ok(Some(Join(parts))))
      else (State(r.sets[key := Filled(set_, h.index, chunk, now)], r.bytes + |chunk|, r.dropped), Ok(None))
  }

  /** The set with one more piece. */
  function Filled<T>(s: FragSet<T>, i: nat, chunk: seq<T>, now: nat): FragSet<T>
    requires i < |s.parts|
  {
    FragSet(s.parts[i := Some(chunk)], s.received + 1, s.bytes + |chunk|, s.startedAt, now)
  }

  predicate Stale<T>(cfg: Config, s: FragSet<T>, now: nat) {
    SatSub(now, s.startedAt) > cfg.timeout
  }

  ghost function Expire<T>(cfg: Config, r: State<T>, now: nat): State<T> {
    var stale := map k | k in r.sets && Stale(cfg, r.sets[k], now) :: r.sets[k];
    State(r.sets - stale.Keys, r.bytes - Sum(stale), r.dropped + |stale|)
  }

  // ----- the bytes held -----------------------------------------------------------------

  ghost function Sum<T>(sets: map<Key, FragSet<T>>): nat
    decreases |sets|
  {
    if sets == map[] then 0
    else
      var k :| k in sets;
      assert (sets - {k}).Keys == sets.Keys - {k};
      sets[k].bytes + Sum(sets - {k})
  }

  lemma {:induction false} SumTake<T>(sets: map<Key, FragSet<T>>, k: Key)
    requires k in sets
    ensures Sum(sets) == sets[k].bytes + Sum(sets - {k})
    decreases |sets|
  {
    var x :| x in sets && Sum(sets) == sets[x].bytes + Sum(sets - {x});
    if x != k {
      assert (sets - {x}).Keys == sets.Keys - {x};
      SumTake(sets - {x}, k);
      assert (sets - {k}).Keys == sets.Keys - {k};
      SumTake(sets - {k}, x);
      assert sets - {x} - {k} == sets - {k} - {x};
    }
  }

  lemma {:induction false} SumPut<T>(sets: map<Key, FragSet<T>>, k: Key, s: FragSet<T>)
    ensures Sum(sets[k := s]) == s.bytes + Sum(sets - {k})
  {
    SumTake(sets[k := s], k);
    assert sets[k := s] - {k} == sets - {k};
  }

  lemma TakeTwice<T>(sets: map<Key, FragSet<T>>, keys: set<Key>, x: Key)
    requires x in keys
    ensures sets - {x} - (keys - {x}) == sets - keys
  {
  }

  lemma {:induction false} SumSplit<T>(sets: map<Key, FragSet<T>>, part: map<Key, FragSet<T>>)
    requires forall k <- part :: k in sets && sets[k] == part[k]
    ensures Sum(sets) == Sum(part) + Sum(sets - part.Keys)
    decreases |part|
  {
    if part == map[] {
      assert sets - part.Keys == sets;
    } else {
      var x :| x in part;
      SumTake(part, x);
      SumTake(sets, x);
      var part' := part - {x};
      assert part'.Keys == part.Keys - {x};
      assert |part'| < |part|;
      SumSplit(sets - {x}, part');
      TakeTwice(sets, part.Keys, x);
    }
  }

  /** A stored set is partial and its counters are right. */
  ghost predicate SetOk<T>(s: FragSet<T>) {
    0 < s.received == Count(s.parts) < |s.parts| <= 255 && s.bytes == Size(s.parts)
  }

  /** What every run keeps: the bytes held are the bytes stored and within the limit,
      the number of sets is within the limit, and every stored set is incomplete. */
  ghost predicate Valid<T>(cfg: Config, r: State<T>) {
    && r.bytes == Sum(r.sets) <= cfg.maxBytes
    && |r.sets| <= cfg.maxSets
    && forall k <- r.sets :: SetOk(r.sets[k])
  }

  lemma RemoveValid<T>(cfg: Config, r: State<T>, key: Key)
    requires Valid(cfg, r)
    ensures Valid(cfg, Remove(r, key))
    ensures key in r.sets ==> |Remove(r, key).sets| == |r.sets| - 1
  {
    if key in r.sets {
      SumTake(r.sets, key);
      assert (r.sets - {key}).Keys == r.sets.Keys - {key};
    }
  }

  lemma PutSize<T>(sets: map<Key, FragSet<T>>, key: Key, s': FragSet<T>)
    ensures |sets[key := s']| == |sets| + if key in sets then 0 else 1
  {
    if key in sets {
      assert sets[key := s'].Keys == sets.Keys;
    } else {
      assert sets[key := s'].Keys == sets.Keys + {key};
    }
  }

  lemma {:induction false} PutTotals<T>(sets: map<Key, FragSet<T>>, key: Key, s': FragSet<T>)
    ensures Sum(sets[key := s']) == Sum(sets) + s'.bytes - if key in sets then sets[key].bytes else 0
  {
    SumPut(sets, key, s');
    if key in sets {
      SumTake(sets, key);
    } else {
      assert sets - {key} == sets;
    }
  }

  lemma PutValid<T>(cfg: Config, r: State<T>, key: Key, s: FragSet<T>, s': FragSet<T>, n: nat)
    requires Valid(cfg, r) && SetOk(s') && s'.bytes == s.bytes + n && r.bytes + n <= cfg.maxBytes
    requires if key in r.sets then s == r.sets[key] else s.bytes == 0 && |r.sets| < cfg.maxSets
    ensures Valid(cfg, State(r.sets[key := s'], r.bytes + n, r.dropped))
  {
    PutTotals(r.sets, key, s');
    PutSize(r.sets, key, s');
    var sets' := r.sets[key := s'];
    forall k <- sets' ensures SetOk(sets'[k]) {
      if k != key { assert k in r.sets; }
    }
  }

  lemma TakeValid<T>(cfg: Config, r: State<T>, key: Key, s: FragSet<T>)
    requires Valid(cfg, r)
    requires if key in r.sets then s == r.sets[key] else s.bytes == 0
    ensures Valid(cfg, State(r.sets - {key}, r.bytes - s.bytes, r.dropped))
  {
    if key in r.sets {
      RemoveValid(cfg, r, key);
    } else {
      assert r.sets - {key} == r.sets;
    }
  }

  lemma FilledOk<T>(s: FragSet<T>, i: nat, chunk: seq<T>, now: nat)
    requires i < |s.parts| <= 255 && s.parts[i].None? && s.received == Count(s.parts) && s.bytes == Size(s.parts)
    requires s.received + 1 != |s.parts|
    ensures SetOk(Filled(s, i, chunk, now))
  {
    FillSlot(s.parts, i, chunk);
  }

  lemma StoreValid<T>(cfg: Config, r: State<T>, now: nat, key: Key, h: FragHeader, chunk: seq<T>, s: FragSet<T>)
    requires Valid(cfg, r) && h.index < h.total
    requires if key in r.sets then s == r.sets[key] else s == NewSet(h.total, now) && |r.sets| < cfg.maxSets
    ensures Valid(cfg, Store(cfg, r, now, key, h, chunk, s).0)
  {
    EmptySlots<T>(h.total);
    assert s.received == Count(s.parts) && s.bytes == Size(s.parts);
    if |s.parts| != h.total {
      RemoveValid(cfg, r, key);
    } else if s.parts[h.index].Some? {
    } else if r.bytes + |chunk| > cfg.maxBytes {
      RemoveValid(cfg, r, key);
    } else if s.received + 1 == |s.parts| {
      TakeValid(cfg, r, key, s);
    } else {
      FilledOk(s, h.index, chunk, now);
      PutValid(cfg, r, key, s, Filled(s, h.index, chunk, now), |chunk|);
    }
  }

  lemma PushValid<T>(cfg: Config, r: State<T>, now: nat, src: Address, h: FragHeader, chunk: seq<T>)
    requires Valid(cfg, r) && h.index < h.total
    ensures Valid(cfg, Push(cfg, r, now, src, h, chunk).0)
  {
    var key := (src, h.fragId);
    var r1 := if key !in r.sets && |r.sets| >= cfg.maxSets then EvictOldest(r) else r;
    if r.sets != map[] { RemoveValid(cfg, r, Oldest(r.sets)); }
    if key in r1.sets || |r1.sets| < cfg.maxSets {
      StoreValid(cfg, r1, now, key, h, chunk, if key in r1.sets then r1.sets[key] else NewSet(h.total, now));
    }
  }

  lemma ExpireValid<T>(cfg: Config, r: State<T>, now: nat)
    requires Valid(cfg, r)
    ensures Valid(cfg, Expire(cfg, r, now))
  {
    var stale := map k | k in r.sets && Stale(cfg, r.sets[k], now) :: r.sets[k];
    SumSplit(r.sets, stale);
    var rest := r.sets - stale.Keys;
    assert rest.Keys <= r.sets.Keys;
    SubsetSize(rest.Keys, r.sets.Keys);
  }

  lemma {:induction false} SubsetSize<X>(a: set<X>, b: set<X>)
    requires a <= b
    ensures |a| <= |b|
  {
    if a != {} {
      var x :| x in a;
      SubsetSize(a - {x}, b - {x});
    }
  }

  /** One operation on a reassembler. */
  datatype Op<T> = Feed(now: nat, src: Address, h: FragHeader, chunk: seq<T>) | Tick(now: nat)

  ghost function Run<T>(cfg: Config, r: State<T>, ops: seq<Op<T>>): State<T>
    requires forall o <- ops :: o.Feed? ==> o.h.index < o.h.total
    decreases |ops|
  {
    if ops == [] then r
    else
      var o := ops[0];
      assert o in ops;
      Run(cfg, if o.Feed? then Push(cfg, r, o.now, o.src, o.h, o.chunk).0 else Expire(cfg, r, o.now), ops[1..])
  }

  /** Over every run of fragments and timer ticks, whoever sends them: the memory
      bounds hold and nothing complete is left behind. */
  lemma {:induction false} RunValid<T>(cfg: Config, r: State<T>, ops: seq<Op<T>>)
    requires Valid(cfg, r) && forall o <- ops :: o.Feed? ==> o.h.index < o.h.total
    ensures Valid(cfg, Run(cfg, r, ops))
    decreases |ops|
  {
    if ops != [] {
      var o := ops[0];
      assert o in ops;
      if o.Feed? {
        PushValid(cfg, r, o.now, o.src, o.h, o.chunk);
      } else {
        ExpireValid(cfg, r, o.now);
      }
      RunValid(cfg, if o.Feed? then Push(cfg, r, o.now, o.src, o.h, o.chunk).0 else Expire(cfg, r, o.now), ops[1..]);
    }
  }
}
