/** The route cache: a few alternative routes for each destination, best first. */
module Routing {
  import opened Basics
  import opened SortedTable
  import opened StableSort

  datatype RouteSource = Zone | Discovery | Reverse | AnchorProxy | Static

  datatype RouteEntry = RouteEntry(
    dst: Address, nextHop: Address, hops: byte, cost: u16, learnedAt: nat, expiresAt: nat, lastUsed: nat,
    failures: byte, source: RouteSource, viaAnchor: Option<Address>)
  {
    /** Cost with the age penalty (a tenth an hour, at most ten) and the failures. */
    function EffectiveCost(now: nat): nat {
      var hours := SatSub(now, learnedAt) / 3_600_000;
      cost + Min(hours, 10) * cost / 10 + failures * 50
    }

    predicate Live(now: nat) { expiresAt > now }
  }

  datatype Config = Config(maxDestinations: nat, alternatives: nat, routeTtl: nat, maxFailures: byte)

  type Table = seq<Item<seq<RouteEntry>>>

  // The functions that sorting and filtering are given.
  function CostAt(now: nat): RouteEntry -> int { (r: RouteEntry) => r.EffectiveCost(now) }
  function NotVia(hop: Address): RouteEntry -> bool { (r: RouteEntry) => r.nextHop != hop }
  function LiveAt(now: nat): RouteEntry -> bool { (r: RouteEntry) => r.Live(now) }

  // ----- one destination's list -----------------------------------------------------------------

  /** The first entry through `hop`. */
  function FindHop(list: seq<RouteEntry>, hop: Address): (r: Option<nat>)
    ensures r.None? <==> forall e <- list :: e.nextHop != hop
    ensures r.Some? ==> r.value < |list| && list[r.value].nextHop == hop
  {
    if list == [] then None
    else if list[0].nextHop == hop then Some(0)
    else match FindHop(list[1..], hop) case None => None case Some(i) => Some(i + 1)
  }

  function Select(list: seq<RouteEntry>, keep: RouteEntry -> bool): seq<RouteEntry> {
    if list == [] then [] else (if keep(list[0]) then [list[0]] else []) + Select(list[1..], keep)
  }

  /** The latest use of any entry. */
  function LastUse(list: seq<RouteEntry>): nat {
    if list == [] then 0 else Max(list[0].lastUsed, LastUse(list[1..]))
  }

  /** The best of the first `n` entries: the first live one of least effective cost. */
  function Best(list: seq<RouteEntry>, now: nat, n: nat): (r: Option<nat>)
    requires n <= |list|
    ensures r.None? <==> forall i :: 0 <= i < n ==> !list[i].Live(now)
    ensures r.Some? ==>
              && r.value < n && list[r.value].Live(now)
              && forall i :: 0 <= i < n && list[i].Live(now) ==>
                   && list[r.value].EffectiveCost(now) <= list[i].EffectiveCost(now)
                   && (i < r.value ==> list[r.value].EffectiveCost(now) < list[i].EffectiveCost(now))
  {
    if n == 0 then None
    else
      var r := Best(list, now, n - 1);
      if list[n - 1].Live(now) && (r.None? || list[n - 1].EffectiveCost(now) < list[r.value].EffectiveCost(now))
      then Some(n - 1) else r
  }

  // ----- operations -----------------------------------------------------------------------------

  /** Of the first `n` destinations, the first of those unused for longest. */
  function Victim(t: Table, n: nat): (v: nat)
    requires 0 < n <= |t|
    ensures v < n
    ensures forall i :: 0 <= i < n ==> LastUse(t[v].value) <= LastUse(t[i].value) && (i < v ==> LastUse(t[v].value) < LastUse(t[i].value))
  {
    if n == 1 then 0
    else
      var v := Victim(t, n - 1);
      if LastUse(t[n - 1].value) < LastUse(t[v].value) then n - 1 else v
  }

  /** Make room for a new destination. */
  function Evict(c: Config, t: Table, dst: Address): Table {
    if Get(t, dst).None? && |t| >= c.maxDestinations && t != [] then Delete(t, t[Victim(t, |t|)].key) else t
  }

  /** An entry as the cache stores it. */
  function Stamped(c: Config, e: RouteEntry, now: nat): RouteEntry {
    e.(learnedAt := now, lastUsed := now, expiresAt := if e.expiresAt == 0 then now + c.routeTtl else e.expiresAt)
  }

  /** A new entry replaces one through the same hop. */
  predicate Better(had: RouteEntry, e: RouteEntry) { e.cost <= had.cost || e.source.Discovery? }

  function Refreshed(had: RouteEntry, e: RouteEntry): RouteEntry {
    if Better(had, e) then e else had.(expiresAt := Max(had.expiresAt, e.expiresAt))
  }

  /** A list with a stamped entry added or refreshed. */
  function Candidates(list: seq<RouteEntry>, e: RouteEntry): seq<RouteEntry> {
    match FindHop(list, e.nextHop)
    case Some(i) => list[i := Refreshed(list[i], e)]
    case None => list + [e]
  }

  /** That list sorted and cut, and whether the entry was new or better. */
  function Place(c: Config, list: seq<RouteEntry>, e: RouteEntry, now: nat): (seq<RouteEntry>, bool) {
    var sorted := Sort(Candidates(list, e), CostAt(now));
    match FindHop(list, e.nextHop)
    case Some(i) => (sorted, Better(list[i], e))
    case None =>
      var kept := if |sorted| > c.alternatives then sorted[..c.alternatives] else sorted;
      (kept, FindHop(kept, e.nextHop).Some?)
  }

  function ListOf(t: Table, dst: nat): seq<RouteEntry> {
    match Get(t, dst) case None => [] case Some(list) => list
  }

  function Insert(c: Config, t: Table, e: RouteEntry, now: nat): (Table, bool) {
    var e' := Stamped(c, e, now);
    var t' := Evict(c, t, e.dst);
    var (list, better) := Place(c, ListOf(t', e.dst), e', now);
    (Put(t', e.dst, list), better)
  }

  function Lookup(t: Table, dst: Address, now: nat): Option<RouteEntry> {
    var list := ListOf(t, dst);
    match Best(list, now, |list|) case None => None case Some(i) => Some(list[i])
  }

  /** Replace the entry through `hop`, if there is one. */
  function Change(t: Table, dst: Address, hop: Address, f: RouteEntry -> RouteEntry): Table {
    var list := ListOf(t, dst);
    match FindHop(list, hop) case None => t case Some(i) => Put(t, dst, list[i := f(list[i])])
  }

  function Touched(c: Config, now: nat): RouteEntry -> RouteEntry {
    (r: RouteEntry) => r.(lastUsed := now, expiresAt := Max(r.expiresAt, now + c.routeTtl / 2))
  }

  function Succeeded(c: Config, now: nat): RouteEntry -> RouteEntry {
    (r: RouteEntry) => r.(failures := 0, lastUsed := now, expiresAt := now + c.routeTtl)
  }

  /** Record a failure; an entry with too many is removed, and an empty list with it. */
  function MarkFailure(c: Config, t: Table, dst: Address, hop: Address): (Table, bool) {
    var list := ListOf(t, dst);
    match FindHop(list, hop)
    case None => (if Get(t, dst) == Some([]) then Delete(t, dst) else t, false)
    case Some(i) =>
      var r := list[i].(failures := SatAdd(list[i].failures, 1, 255));
      if r.failures >= c.maxFailures then
        var rest := Select(list[i := r], NotVia(hop));
        (if rest == [] then Delete(t, dst) else Put(t, dst, rest), true)
      else (Put(t, dst, list[i := r]), false)
  }

  /** Keep only the entries that satisfy `keep`, and only lists that keep some. */
  function Prune(t: Table, keep: RouteEntry -> bool): Table {
    if t == [] then []
    else
      var list := Select(t[0].value, keep);
      (if list == [] then [] else [Item(t[0].key, list)]) + Prune(t[1..], keep)
  }

  /** The destinations whose lists lose an entry that way. */
  function Affected(t: Table, keep: RouteEntry -> bool): seq<nat> {
    if t == [] then []
    else (if |Select(t[0].value, keep)| != |t[0].value| then [t[0].key] else []) + Affected(t[1..], keep)
  }

  /** How many entries are lost. */
  function Dropped(t: Table, keep: RouteEntry -> bool): int {
    if t == [] then 0 else |t[0].value| - |Select(t[0].value, keep)| + Dropped(t[1..], keep)
  }

  // ----- what every run keeps -------------------------------------------------------------------

  ghost predicate OneEach(list: seq<RouteEntry>) {
    forall i, j :: 0 <= i < j < |list| ==> list[i].nextHop != list[j].nextHop
  }

  ghost predicate ListOk(c: Config, dst: nat, list: seq<RouteEntry>) {
    list != [] && |list| <= c.alternatives && OneEach(list) && forall i :: 0 <= i < |list| ==> list[i].dst == dst
  }

  /** Sorted by destination, within the limits, lists non-empty with one entry for each next
      hop, and every entry filed under its own destination. */
  ghost predicate Inv(c: Config, t: Table) {
    Sorted(t) && |t| <= c.maxDestinations && forall i :: 0 <= i < |t| ==> ListOk(c, t[i].key, t[i].value)
  }

  lemma {:induction false} InsertEntry(s: seq<RouteEntry>, x: RouteEntry, key: RouteEntry -> int)
    ensures forall i :: 0 <= i < |InsertLast(s, x, key)| ==> InsertLast(s, x, key)[i] == x || InsertLast(s, x, key)[i] in s
    ensures OneEach(s + [x]) ==> OneEach(InsertLast(s, x, key))
  {
    if s != [] && key(s[|s| - 1]) > key(x) {
      var s', last := s[..|s| - 1], s[|s| - 1];
      InsertEntry(s', x, key);
      var r := InsertLast(s', x, key);
      if OneEach(s + [x]) {
        assert forall i :: 0 <= i < |s'| ==> (s + [x])[i] == s'[i] == (s' + [x])[i];
        assert (s + [x])[|s| - 1] == last && (s + [x])[|s|] == x;
        assert OneEach(s' + [x]);
        forall i | 0 <= i < |r| ensures r[i].nextHop != last.nextHop {
          if r[i] != x {
            var j :| 0 <= j < |s'| && s'[j] == r[i];
            assert (s + [x])[j] == r[i];
          }
        }
      }
    }
  }

  lemma {:induction false} SortEntries(s: seq<RouteEntry>, key: RouteEntry -> int)
    ensures |Sort(s, key)| == |s|
    ensures forall i :: 0 <= i < |s| ==> Sort(s, key)[i] in s
    ensures OneEach(s) ==> OneEach(Sort(s, key))
  {
    SortIsStable(s, key);
    if s != [] {
      var s', x := s[..|s| - 1], s[|s| - 1];
      SortEntries(s', key);
      InsertEntry(Sort(s', key), x, key);
      if OneEach(s) {
        var a := Sort(s', key) + [x];
        forall i | 0 <= i < |s'| ensures a[i].nextHop != x.nextHop {
          var j :| 0 <= j < |s'| && s'[j] == Sort(s', key)[i];
          assert s[j] == a[i];
        }
        assert OneEach(a);
      }
      forall i | 0 <= i < |s| ensures Sort(s, key)[i] in s {
        var y := Sort(s, key)[i];
        if y != x { assert y in s'; }
      }
    }
  }

  lemma PutKeeps(c: Config, t: Table, dst: nat, list: seq<RouteEntry>)
    requires Inv(c, t) && ListOk(c, dst, list) && (dst in Contents(t) || |t| < c.maxDestinations)
    ensures Inv(c, Put(t, dst, list))
  {
    PutItems(t, dst, list);
    PutIsUpdate(t, dst, list);
  }

  lemma DeleteKeeps(c: Config, t: Table, dst: nat)
    requires Inv(c, t)
    ensures Inv(c, Delete(t, dst))
  {
    DeleteIsRemoval(t, dst);
    var t' := Delete(t, dst);
    forall i | 0 <= i < |t'| ensures ListOk(c, t'[i].key, t'[i].value) {
      assert t'[i] in t;
    }
  }

  lemma ListFiled(c: Config, t: Table, dst: nat)
    requires Inv(c, t)
    ensures dst in Contents(t) <==> ListOf(t, dst) != []
    ensures dst in Contents(t) ==> ListOk(c, dst, ListOf(t, dst)) && Get(t, dst) == Some(ListOf(t, dst))
    ensures dst !in Contents(t) ==> Get(t, dst) == None
  {
    GetIsContents(t, dst);
    KeysAre(t, dst);
    if dst in Contents(t) {
      var i :| 0 <= i < |t| && t[i].key == dst;
      GetAt(t, i);
    }
  }

  lemma EvictKeeps(c: Config, t: Table, dst: Address)
    requires Inv(c, t) && c.maxDestinations >= 1
    ensures Inv(c, Evict(c, t, dst)) && (dst in Contents(Evict(c, t, dst)) || |Evict(c, t, dst)| < c.maxDestinations)
  {
    GetIsContents(t, dst);
    if Get(t, dst).None? && |t| >= c.maxDestinations {
      var k := t[Victim(t, |t|)].key;
      DeleteKeeps(c, t, k);
      DeleteIsRemoval(t, k);
      KeysAre(t, k);
    }
  }

  /** A list of one destination's entries, sorted, is still one. */
  lemma SortOk(c: Config, dst: Address, list: seq<RouteEntry>, now: nat)
    requires list != [] && OneEach(list) && forall i :: 0 <= i < |list| ==> list[i].dst == dst
    ensures
      var sorted := Sort(list, CostAt(now));
      |sorted| == |list| && OneEach(sorted) && forall i :: 0 <= i < |sorted| ==> sorted[i].dst == dst
  {
    var sorted := Sort(list, CostAt(now));
    SortEntries(list, CostAt(now));
    forall i | 0 <= i < |sorted| ensures sorted[i].dst == dst { assert sorted[i] in list; }
  }

  lemma RefreshOk(c: Config, dst: Address, list: seq<RouteEntry>, i: nat, r: RouteEntry, now: nat)
    requires ListOk(c, dst, list) && i < |list| && r.dst == dst && r.nextHop == list[i].nextHop
    ensures ListOk(c, dst, Sort(list[i := r], CostAt(now)))
  {
    SortOk(c, dst, list[i := r], now);
  }

  lemma AdditionOk(c: Config, dst: Address, list: seq<RouteEntry>, e: RouteEntry, now: nat)
    requires c.alternatives >= 1 && e.dst == dst && (list == [] || ListOk(c, dst, list)) && forall x <- list :: x.nextHop != e.nextHop
    ensures
      var sorted := Sort(list + [e], CostAt(now));
      ListOk(c, dst, if |sorted| > c.alternatives then sorted[..c.alternatives] else sorted)
  {
    OneMore(list, e);
    var more := list + [e];
    assert forall i :: 0 <= i < |more| ==> more[i].dst == dst;
    SortOk(c, dst, more, now);
    CutOk(c, dst, Sort(more, CostAt(now)));
  }

  lemma CutOk(c: Config, dst: Address, s: seq<RouteEntry>)
    requires c.alternatives >= 1 && s != [] && OneEach(s) && forall i :: 0 <= i < |s| ==> s[i].dst == dst
    ensures ListOk(c, dst, if |s| > c.alternatives then s[..c.alternatives] else s)
  {
  }

  lemma PlaceKeeps(c: Config, dst: Address, list: seq<RouteEntry>, e: RouteEntry, now: nat)
    requires c.alternatives >= 1 && e.dst == dst && (list == [] || ListOk(c, dst, list))
    ensures ListOk(c, dst, Place(c, list, e, now).0)
  {
    match FindHop(list, e.nextHop)
    case Some(i) =>
      RefreshOk(c, dst, list, i, Refreshed(list[i], e), now);
    case None => AdditionOk(c, dst, list, e, now);
  }

  lemma OneMore(list: seq<RouteEntry>, e: RouteEntry)
    requires OneEach(list) && forall x <- list :: x.nextHop != e.nextHop
    ensures OneEach(list + [e])
  {
    forall i | 0 <= i < |list| ensures list[i].nextHop != e.nextHop { assert list[i] in list; }
  }

  lemma InsertKeeps(c: Config, t: Table, e: RouteEntry, now: nat)
    requires Inv(c, t) && c.maxDestinations >= 1 && c.alternatives >= 1
    ensures Inv(c, Insert(c, t, e, now).0)
  {
    var t' := Evict(c, t, e.dst);
    EvictKeeps(c, t, e.dst);
    ListFiled(c, t', e.dst);
    PlaceKeeps(c, e.dst, ListOf(t', e.dst), Stamped(c, e, now), now);
    PutKeeps(c, t', e.dst, Place(c, ListOf(t', e.dst), Stamped(c, e, now), now).0);
  }

  lemma ChangeKeeps(c: Config, t: Table, dst: Address, hop: Address, f: RouteEntry -> RouteEntry)
    requires Inv(c, t) && forall r: RouteEntry :: f(r).dst == r.dst && f(r).nextHop == r.nextHop
    ensures Inv(c, Change(t, dst, hop, f))
  {
    ListFiled(c, t, dst);
    var list := ListOf(t, dst);
    match FindHop(list, hop)
    case None =>
    case Some(i) => PutKeeps(c, t, dst, list[i := f(list[i])]);
  }

  /** What is selected, and nothing else, in order. */
  lemma {:induction false} SelectIs(list: seq<RouteEntry>, keep: RouteEntry -> bool)
    ensures |Select(list, keep)| <= |list|
    ensures forall r :: r in Select(list, keep) <==> r in list && keep(r)
    ensures |Select(list, keep)| == |list| <==> forall r <- list :: keep(r)
  {
    if list != [] {
      SelectIs(list[1..], keep);
      assert forall r :: r in list <==> r == list[0] || r in list[1..];
    }
  }

  lemma {:induction false} SelectOneEach(list: seq<RouteEntry>, keep: RouteEntry -> bool)
    requires OneEach(list)
    ensures OneEach(Select(list, keep))
  {
    if list != [] {
      var rest := Select(list[1..], keep);
      SelectOneEach(list[1..], keep);
      SelectIs(list[1..], keep);
      forall i | 0 <= i < |rest| ensures rest[i].nextHop != list[0].nextHop {
        assert rest[i] in rest && rest[i] in list[1..];
        var j :| 0 <= j < |list[1..]| && list[1..][j] == rest[i];
        assert list[j + 1] == rest[i];
      }
    }
  }

  lemma SelectOk(c: Config, dst: nat, list: seq<RouteEntry>, keep: RouteEntry -> bool)
    requires ListOk(c, dst, list) && Select(list, keep) != []
    ensures ListOk(c, dst, Select(list, keep))
  {
    SelectIs(list, keep);
    SelectOneEach(list, keep);
    forall i | 0 <= i < |Select(list, keep)| ensures Select(list, keep)[i].dst == dst {
      assert Select(list, keep)[i] in list;
    }
  }

  lemma FailureKeeps(c: Config, t: Table, dst: Address, hop: Address)
    requires Inv(c, t)
    ensures Inv(c, MarkFailure(c, t, dst, hop).0)
  {
    ListFiled(c, t, dst);
    var list := ListOf(t, dst);
    match FindHop(list, hop)
    case None => DeleteKeeps(c, t, dst);
    case Some(i) =>
      var r := list[i].(failures := SatAdd(list[i].failures, 1, 255));
      var list' := list[i := r];
      assert ListOk(c, dst, list');
      if r.failures >= c.maxFailures {
        DeleteKeeps(c, t, dst);
        if Select(list', NotVia(hop)) != [] {
          SelectOk(c, dst, list', NotVia(hop));
          PutKeeps(c, t, dst, Select(list', NotVia(hop)));
        }
      } else {
        PutKeeps(c, t, dst, list');
      }
  }

  lemma {:induction false} PruneAbove(t: Table, keep: RouteEntry -> bool, low: nat)
    requires forall i :: 0 <= i < |t| ==> low < t[i].key
    ensures forall i :: 0 <= i < |Prune(t, keep)| ==> low < Prune(t, keep)[i].key
  {
    if t != [] { PruneAbove(t[1..], keep, low); }
  }

  lemma {:induction false} PruneSorted(t: Table, keep: RouteEntry -> bool)
    requires Sorted(t)
    ensures Sorted(Prune(t, keep))
  {
    if t != [] {
      PruneSorted(t[1..], keep);
      PruneAbove(t[1..], keep, t[0].key);
    }
  }

  lemma {:induction false} PruneKeeps(c: Config, t: Table, keep: RouteEntry -> bool)
    requires Inv(c, t)
    ensures Inv(c, Prune(t, keep)) && |Prune(t, keep)| <= |t|
  {
    PruneSorted(t, keep);
    if t != [] {
      assert Inv(c, t[1..]);
      PruneKeeps(c, t[1..], keep);
      if Select(t[0].value, keep) != [] { SelectOk(c, t[0].key, t[0].value, keep); }
    }
  }

  lemma RefreshReports(list: seq<RouteEntry>, i: nat, e: RouteEntry, r: RouteEntry, now: nat)
    requires i < |list| && OneEach(list) && list[i].nextHop == e.nextHop == r.nextHop
    ensures e in Sort(list[i := r], CostAt(now)) <==> e == r
    ensures Ordered(Sort(list[i := r], CostAt(now)), CostAt(now))
  {
    var list' := list[i := r];
    SortIsStable(list', CostAt(now));
    assert e in multiset(Sort(list', CostAt(now))) <==> e in multiset(list');
    assert list'[i] == r;
  }

  lemma AdditionReports(list: seq<RouteEntry>, e: RouteEntry, now: nat, n: nat)
    requires (forall x <- list :: x.nextHop != e.nextHop) && n <= |Sort(list + [e], CostAt(now))|
    ensures
      var kept := Sort(list + [e], CostAt(now))[..n];
      (FindHop(kept, e.nextHop).Some? <==> e in kept) && Ordered(kept, CostAt(now))
  {
    var sorted := Sort(list + [e], CostAt(now));
    SortEntries(list + [e], CostAt(now));
    SortIsStable(list + [e], CostAt(now));
    forall i | 0 <= i < n && sorted[i].nextHop == e.nextHop ensures sorted[i] == e {
      assert sorted[i] in list + [e];
    }
  }

  /** `kept` are the `n` cheapest of `all`: of the entries left out, each costs at least as much
      as every one kept. */
  ghost predicate Cheapest(all: seq<RouteEntry>, kept: seq<RouteEntry>, n: nat, key: RouteEntry -> int) {
    && |kept| == Min(n, |all|) && multiset(kept) <= multiset(all)
    && forall x, y :: x in multiset(all) - multiset(kept) && y in kept ==> key(y) <= key(x)
  }

  /** An ordered sequence starts with its cheapest elements. */
  lemma PrefixIsCheapest(all: seq<RouteEntry>, head: seq<RouteEntry>, tail: seq<RouteEntry>, n: nat, key: RouteEntry -> int)
    requires multiset(head) + multiset(tail) == multiset(all) && |head| == Min(n, |all|)
    requires forall i, j :: 0 <= i < |head| && 0 <= j < |tail| ==> key(head[i]) <= key(tail[j])
    ensures Cheapest(all, head, n, key)
  {
    assert multiset(all) - multiset(head) == multiset(tail);
    forall x, y | x in multiset(all) - multiset(head) && y in head ensures key(y) <= key(x) {
      assert x in tail;
    }
  }

  lemma SplitElements(s: seq<RouteEntry>, k: nat)
    requires k <= |s|
    ensures multiset(s[..k]) + multiset(s[k..]) == multiset(s)
  {
    assert s == s[..k] + s[k..];
  }

  lemma CutIsCheapest(all: seq<RouteEntry>, n: nat, key: RouteEntry -> int)
    ensures |Sort(all, key)| == |all| && Cheapest(all, Sort(all, key)[..Min(n, |all|)], n, key)
  {
    SortIsStable(all, key);
    var sorted, k := Sort(all, key), Min(n, |all|);
    SplitElements(sorted, k);
    PrefixIsCheapest(all, sorted[..k], sorted[k..], n, key);
  }

  /** Placing keeps the cheapest of the candidates. */
  lemma PlaceKeepsCheapest(c: Config, dst: Address, list: seq<RouteEntry>, e: RouteEntry, now: nat)
    requires list == [] || ListOk(c, dst, list)
    ensures Cheapest(Candidates(list, e), Place(c, list, e, now).0, c.alternatives, CostAt(now))
  {
    var all := Candidates(list, e);
    CutIsCheapest(all, c.alternatives, CostAt(now));
    var sorted := Sort(all, CostAt(now));
    assert sorted[..|sorted|] == sorted;
  }

  /** Making room leaves the destination's own list alone. */
  lemma EvictSpares(c: Config, t: Table, dst: Address)
    requires Inv(c, t)
    ensures ListOf(Evict(c, t, dst), dst) == ListOf(t, dst)
  {
    var t1 := Evict(c, t, dst);
    GetIsContents(t, dst);
    GetIsContents(t1, dst);
    if t1 != t { DeleteIsRemoval(t, t[Victim(t, |t|)].key); }
  }

  /** Placing reports whether the entry is in the list afterwards, and orders the list. */
  lemma PlaceReports(c: Config, dst: Address, list: seq<RouteEntry>, e: RouteEntry, now: nat)
    requires list == [] || ListOk(c, dst, list)
    ensures Place(c, list, e, now).1 <==> e in Place(c, list, e, now).0
    ensures Ordered(Place(c, list, e, now).0, CostAt(now))
  {
    match FindHop(list, e.nextHop)
    case Some(i) =>
      RefreshReports(list, i, e, Refreshed(list[i], e), now);
    case None =>
      var sorted := Sort(list + [e], CostAt(now));
      assert sorted[..|sorted|] == sorted;
      AdditionReports(list, e, now, Min(c.alternatives, |sorted|));
  }

  /** Learning a route changes its own destination's list, and otherwise at most drops one
      destination, the one unused for longest, when a new one finds the table full.  The list
      becomes the cheapest of its entries and the new one, in order of cost.  The answer tells
      whether the route is now stored. */
  lemma LearnExact(c: Config, t: Table, e: RouteEntry, now: nat, d: nat)
    requires Inv(c, t) && c.maxDestinations >= 1 && c.alternatives >= 1
    ensures
      var (t', better) := Insert(c, t, e, now);
      && (better <==> Stamped(c, e, now) in ListOf(t', e.dst))
      && Ordered(ListOf(t', e.dst), CostAt(now))
      && Cheapest(Candidates(ListOf(t, e.dst), Stamped(c, e, now)), ListOf(t', e.dst), c.alternatives, CostAt(now))
      && (d != e.dst && ListOf(t', d) != ListOf(t, d) ==>
            && ListOf(t', d) == [] && ListOf(t, e.dst) == [] && |t| == c.maxDestinations
            && forall i :: 0 <= i < |t| ==> LastUse(ListOf(t, d)) <= LastUse(t[i].value))
  {
    var t1 := Evict(c, t, e.dst);
    EvictKeeps(c, t, e.dst);
    ListFiled(c, t, e.dst);
    ListFiled(c, t1, e.dst);
    EvictSpares(c, t, e.dst);
    PlaceReports(c, e.dst, ListOf(t1, e.dst), Stamped(c, e, now), now);
    PlaceKeepsCheapest(c, e.dst, ListOf(t1, e.dst), Stamped(c, e, now), now);
    var list := Place(c, ListOf(t1, e.dst), Stamped(c, e, now), now).0;
    PutIsUpdate(t1, e.dst, list);
    GetIsContents(Put(t1, e.dst, list), e.dst);
    GetIsContents(Put(t1, e.dst, list), d);
    GetIsContents(t1, d);
    GetIsContents(t, d);
    if t1 != t {
      var v := Victim(t, |t|);
      DeleteIsRemoval(t, t[v].key);
      GetAt(t, v);
    }
  }

  datatype Event =
    | Learn(entry: RouteEntry, now: nat)
    | Touch(dst: Address, hop: Address, now: nat)
    | Failure(dst: Address, hop: Address)
    | Success(dst: Address, hop: Address, now: nat)
    | InvalidateVia(hop: Address)
    | Remove(dst: Address)
    | Expire(now: nat)

  function Step(c: Config, t: Table, e: Event): Table {
    match e
    case Learn(entry, now) => Insert(c, t, entry, now).0
    case Touch(dst, hop, now) => Change(t, dst, hop, Touched(c, now))
    case Failure(dst, hop) => MarkFailure(c, t, dst, hop).0
    case Success(dst, hop, now) => Change(t, dst, hop, Succeeded(c, now))
    case InvalidateVia(hop) => Prune(t, NotVia(hop))
    case Remove(dst) => Delete(t, dst)
    case Expire(now) => Prune(t, LiveAt(now))
  }

  function Run(c: Config, es: seq<Event>): Table {
    if es == [] then [] else Step(c, Run(c, es[..|es| - 1]), es[|es| - 1])
  }

  lemma StepKeeps(c: Config, t: Table, e: Event)
    requires Inv(c, t) && c.maxDestinations >= 1 && c.alternatives >= 1
    ensures Inv(c, Step(c, t, e))
  {
    match e
    case Learn(entry, now) => InsertKeeps(c, t, entry, now);
    case Touch(dst, hop, now) => ChangeKeeps(c, t, dst, hop, Touched(c, now));
    case Failure(dst, hop) => FailureKeeps(c, t, dst, hop);
    case Success(dst, hop, now) => ChangeKeeps(c, t, dst, hop, Succeeded(c, now));
    case InvalidateVia(hop) => PruneKeeps(c, t, NotVia(hop));
    case Remove(dst) => DeleteKeeps(c, t, dst);
    case Expire(now) => PruneKeeps(c, t, LiveAt(now));
  }

  lemma {:induction false} RunKeeps(c: Config, es: seq<Event>)
    requires c.maxDestinations >= 1 && c.alternatives >= 1
    ensures Inv(c, Run(c, es))
  {
    if es != [] {
      RunKeeps(c, es[..|es| - 1]);
      StepKeeps(c, Run(c, es[..|es| - 1]), es[|es| - 1]);
    }
  }

  /** The table keeps its shape over every run exactly when both limits are at least one:
      otherwise the first route learned breaks it. */
  lemma KeepsShape(c: Config)
    ensures (forall es :: Inv(c, Run(c, es))) <==> c.maxDestinations >= 1 && c.alternatives >= 1
  {
    if c.maxDestinations >= 1 && c.alternatives >= 1 {
      forall es ensures Inv(c, Run(c, es)) { RunKeeps(c, es); }
    } else {
      var e := RouteEntry(1, 2, 1, 100, 0, 0, 0, 0, Discovery, None);
      var es := [Learn(e, 0)];
      assert es[..0] == [];
      assert Run(c, []) == [];
      FirstRoute(c, e);
      assert !Inv(c, Run(c, es));
    }
  }

  lemma FirstRoute(c: Config, e: RouteEntry)
    ensures |Insert(c, [], e, 0).0| == 1 && |Insert(c, [], e, 0).0[0].value| <= c.alternatives
  {
    var e' := Stamped(c, e, 0);
    assert Place(c, [], e', 0).0 == if c.alternatives == 0 then [] else [e'] by {
      SortIsStable([e'], CostAt(0));
      assert [] + [e'] == [e'];
      assert [e'][..0] == [];
      assert Sort([e'], CostAt(0)) == [e'];
    }
  }

  // ----- lookups and invalidation ---------------------------------------------------------------

  /** A lookup finds a route exactly when a live one is stored, and then one of least
      effective cost for that destination. */
  lemma LookupIsBest(c: Config, t: Table, dst: Address, now: nat)
    requires Inv(c, t)
    ensures Lookup(t, dst, now).Some? <==> exists i, j ::
              0 <= i < |t| && 0 <= j < |t[i].value| && t[i].value[j].dst == dst && t[i].value[j].Live(now)
    ensures Lookup(t, dst, now).Some? ==>
              var r := Lookup(t, dst, now).value;
              && r.dst == dst && r.Live(now)
              && forall i, j :: 0 <= i < |t| && 0 <= j < |t[i].value| && t[i].value[j].dst == dst && t[i].value[j].Live(now)
                   ==> r.EffectiveCost(now) <= t[i].value[j].EffectiveCost(now)
  {
    ListFiled(c, t, dst);
    KeysAre(t, dst);
    var list := ListOf(t, dst);
    forall i, j | 0 <= i < |t| && 0 <= j < |t[i].value| && t[i].value[j].dst == dst ensures t[i].value == list {
      GetAt(t, i);
    }
    if Lookup(t, dst, now).Some? {
      var j := Best(list, now, |list|).value;
      var i :| 0 <= i < |t| && t[i].key == dst;
      GetAt(t, i);
      assert t[i].value[j].Live(now);
    }
  }

  lemma PruneUnfolds(t: Table, keep: RouteEntry -> bool, dst: nat)
    requires t != []
    ensures
      var list, rest := Select(t[0].value, keep), Prune(t[1..], keep);
      ListOf(Prune(t, keep), dst) == if t[0].key == dst && list != [] then list else ListOf(rest, dst)
  {
    var rest := Prune(t[1..], keep);
    if Select(t[0].value, keep) == [] {
      assert Prune(t, keep) == rest;
    } else {
      assert Prune(t, keep)[1..] == rest;
    }
  }

  lemma {:induction false} PruneAt(t: Table, keep: RouteEntry -> bool, dst: nat)
    requires Sorted(t)
    ensures ListOf(Prune(t, keep), dst) == Select(ListOf(t, dst), keep)
  {
    if t != [] {
      assert Sorted(t[1..]);
      PruneUnfolds(t, keep, dst);
      if t[0].key == dst { AbsentList(t[1..], dst, keep); } else { PruneAt(t[1..], keep, dst); }
    }
  }

  lemma {:induction false} AbsentList(t: Table, dst: nat, keep: RouteEntry -> bool)
    requires forall i :: 0 <= i < |t| ==> t[i].key != dst
    ensures ListOf(t, dst) == [] && ListOf(Prune(t, keep), dst) == [] && dst !in Affected(t, keep)
  {
    if t != [] {
      PruneUnfolds(t, keep, dst);
      AbsentList(t[1..], dst, keep);
    }
  }

  lemma {:induction false} AffectedAt(t: Table, keep: RouteEntry -> bool, dst: nat)
    requires Sorted(t)
    ensures dst in Affected(t, keep) <==> exists r <- ListOf(t, dst) :: !keep(r)
  {
    if t != [] {
      assert Sorted(t[1..]);
      SelectIs(t[0].value, keep);
      if t[0].key == dst { AbsentList(t[1..], dst, keep); } else { AffectedAt(t[1..], keep, dst); }
    }
  }

  ghost predicate Increasing(s: seq<nat>) {
    forall i, j :: 0 <= i < j < |s| ==> s[i] < s[j]
  }

  lemma {:induction false} AffectedIncreasing(t: Table, keep: RouteEntry -> bool)
    requires Sorted(t)
    ensures Increasing(Affected(t, keep))
  {
    if t != [] {
      assert Sorted(t[1..]);
      AffectedIncreasing(t[1..], keep);
      var rest := Affected(t[1..], keep);
      forall i | 0 <= i < |rest| ensures t[0].key < rest[i] {
        assert rest[i] in rest;
        AffectedAbove(t[1..], keep, t[0].key, rest[i]);
      }
    }
  }

  lemma {:induction false} AffectedAbove(t: Table, keep: RouteEntry -> bool, low: nat, k: nat)
    requires k in Affected(t, keep) && forall i :: 0 <= i < |t| ==> low < t[i].key
    ensures low < k
  {
    if k in Affected(t[1..], keep) { AffectedAbove(t[1..], keep, low, k); }
  }

  /** Losing a neighbour removes exactly the routes through it, everywhere, and reports
      exactly the destinations that had one, each once and in order. */
  lemma InvalidateExact(c: Config, t: Table, hop: Address)
    requires Inv(c, t)
    ensures forall dst: nat :: ListOf(Prune(t, NotVia(hop)), dst) == Select(ListOf(t, dst), NotVia(hop))
    ensures forall dst: nat :: dst in Affected(t, NotVia(hop)) <==> exists r <- ListOf(t, dst) :: r.nextHop == hop
    ensures Increasing(Affected(t, NotVia(hop)))
    ensures forall i, r :: 0 <= i < |Prune(t, NotVia(hop))| && r in Prune(t, NotVia(hop))[i].value ==> r.nextHop != hop
  {
    var t' := Prune(t, NotVia(hop));
    AffectedIncreasing(t, NotVia(hop));
    PruneKeeps(c, t, NotVia(hop));
    forall dst: nat
      ensures ListOf(t', dst) == Select(ListOf(t, dst), NotVia(hop))
      ensures dst in Affected(t, NotVia(hop)) <==> exists r <- ListOf(t, dst) :: r.nextHop == hop
    {
      PruneAt(t, NotVia(hop), dst);
      AffectedAt(t, NotVia(hop), dst);
      if dst in Affected(t, NotVia(hop)) {
        var r :| r in ListOf(t, dst) && !NotVia(hop)(r);
        assert r.nextHop == hop;
      }
      if r :| r in ListOf(t, dst) && r.nextHop == hop { assert !NotVia(hop)(r); }
    }
    forall i, r | 0 <= i < |t'| && r in t'[i].value ensures r.nextHop != hop {
      GetAt(t', i);
      SelectIs(ListOf(t, t'[i].key), NotVia(hop));
    }
  }

  /** How many entries a table holds. */
  ghost function Entries(t: Table): nat {
    if t == [] then 0 else |t[0].value| + Entries(t[1..])
  }

  lemma {:induction false} DroppedAreGone(t: Table, keep: RouteEntry -> bool)
    ensures Dropped(t, keep) == Entries(t) - Entries(Prune(t, keep))
  {
    if t != [] {
      var list, rest := Select(t[0].value, keep), Prune(t[1..], keep);
      DroppedAreGone(t[1..], keep);
      if list == [] { assert Prune(t, keep) == rest; } else { assert Prune(t, keep)[1..] == rest; }
    }
  }

  /** Expiry removes exactly the routes that are no longer live, everywhere, and counts them. */
  lemma ExpireExact(c: Config, t: Table, now: nat, dst: nat)
    requires Inv(c, t)
    ensures forall r :: r in ListOf(Prune(t, LiveAt(now)), dst) <==> r in ListOf(t, dst) && r.Live(now)
    ensures Dropped(t, LiveAt(now)) == Entries(t) - Entries(Prune(t, LiveAt(now)))
  {
    PruneAt(t, LiveAt(now), dst);
    SelectIs(ListOf(t, dst), LiveAt(now));
    DroppedAreGone(t, LiveAt(now));
  }

  /** A failure concerns one entry only: it is counted, or removed exactly when it has had
      its last one; every other route stays as it was. */
  lemma FailureExact(c: Config, t: Table, dst: Address, hop: Address, d: nat, r: RouteEntry)
    requires Inv(c, t)
    ensures
      var (t', removed) := MarkFailure(c, t, dst, hop);
      match FindHop(ListOf(t, dst), hop)
      case None => !removed && t' == t
      case Some(i) =>
        var was := ListOf(t, dst)[i];
        var x := was.(failures := SatAdd(was.failures, 1, 255));
        && removed == (x.failures >= c.maxFailures)
        && (d != dst ==> ListOf(t', d) == ListOf(t, d))
        && (r in ListOf(t', dst) <==> if r.nextHop == hop then !removed && r == x else r in ListOf(t, dst))
  {
    ListFiled(c, t, dst);
    var list := ListOf(t, dst);
    match FindHop(list, hop)
    case None =>
    case Some(i) =>
      var x := list[i].(failures := SatAdd(list[i].failures, 1, 255));
      OneUpdated(list, i, x, r);
      if x.failures >= c.maxFailures {
        var rest := Select(list[i := x], NotVia(hop));
        SelectIs(list[i := x], NotVia(hop));
        assert NotVia(hop)(r) <==> r.nextHop != hop;
        assert r in rest <==> r.nextHop != hop && r in list;
        if rest == [] {
          Removed(t, dst, d);
          Removed(t, dst, dst);
        } else {
          Replaced(t, dst, rest, d);
          Replaced(t, dst, rest, dst);
        }
      } else {
        Replaced(t, dst, list[i := x], d);
        Replaced(t, dst, list[i := x], dst);
      }
  }

  lemma OneUpdated(list: seq<RouteEntry>, i: nat, x: RouteEntry, r: RouteEntry)
    requires i < |list| && OneEach(list) && x.nextHop == list[i].nextHop
    ensures r in list[i := x] <==> if r.nextHop == x.nextHop then r == x else r in list
  {
    assert list[i := x][i] == x;
    if r in list && r.nextHop != x.nextHop {
      var j :| 0 <= j < |list| && list[j] == r;
      assert list[i := x][j] == r;
    }
  }

  lemma Replaced(t: Table, dst: nat, list: seq<RouteEntry>, d: nat)
    requires Sorted(t)
    ensures ListOf(Put(t, dst, list), d) == if d == dst then list else ListOf(t, d)
  {
    PutIsUpdate(t, dst, list);
    GetIsContents(Put(t, dst, list), d);
    GetIsContents(t, d);
  }

  lemma Removed(t: Table, dst: nat, d: nat)
    requires Sorted(t)
    ensures ListOf(Delete(t, dst), d) == if d == dst then [] else ListOf(t, d)
  {
    DeleteIsRemoval(t, dst);
    GetIsContents(Delete(t, dst), d);
    GetIsContents(t, d);
  }
}
