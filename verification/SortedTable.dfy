/** Tables kept as sequences sorted by key, specified by plain recursion. */
module SortedTable {
  import opened Basics

  datatype Item<+V> = Item(key: nat, value: V)

  ghost predicate Sorted<V>(t: seq<Item<V>>) {
    forall i, j :: 0 <= i < j < |t| ==> t[i].key < t[j].key
  }

  /** The finite map a table stands for. */
  ghost function Contents<V>(t: seq<Item<V>>): map<nat, V> {
    if t == [] then map[] else Contents(t[1..])[t[0].key := t[0].value]
  }

  function Get<V>(t: seq<Item<V>>, k: nat): Option<V> {
    if t == [] then None else if t[0].key == k then Some(t[0].value) else Get(t[1..], k)
  }

  function Put<V>(t: seq<Item<V>>, k: nat, v: V): seq<Item<V>> {
    if t == [] || k < t[0].key then [Item(k, v)] + t
    else if t[0].key == k then [Item(k, v)] + t[1..]
    else [t[0]] + Put(t[1..], k, v)
  }

  function Delete<V>(t: seq<Item<V>>, k: nat): seq<Item<V>> {
    if t == [] then [] else if t[0].key == k then t[1..] else [t[0]] + Delete(t[1..], k)
  }

  function Filter<V>(t: seq<Item<V>>, keep: (nat, V) -> bool): seq<Item<V>> {
    if t == [] then []
    else (if keep(t[0].key, t[0].value) then [t[0]] else []) + Filter(t[1..], keep)
  }

  // ----- the map they refine -----------------------------------------------------------------

  lemma {:induction false} GetIsContents<V>(t: seq<Item<V>>, k: nat)
    ensures Get(t, k) == if k in Contents(t) then Some(Contents(t)[k]) else None
  {
    if t != [] { GetIsContents(t[1..], k); }
  }

  lemma {:induction false} KeysAre<V>(t: seq<Item<V>>, k: nat)
    ensures k in Contents(t) <==> exists i :: 0 <= i < |t| && t[i].key == k
  {
    if t != [] {
      KeysAre(t[1..], k);
      if exists i :: 0 <= i < |t[1..]| && t[1..][i].key == k {
        var i :| 0 <= i < |t[1..]| && t[1..][i].key == k;
        assert t[i + 1].key == k;
      }
      if exists i :: 0 < i < |t| && t[i].key == k {
        var i :| 0 < i < |t| && t[i].key == k;
        assert t[1..][i - 1].key == k;
      }
    }
  }

  lemma {:induction false} GetAt<V>(t: seq<Item<V>>, i: nat)
    requires Sorted(t) && i < |t|
    ensures Get(t, t[i].key) == Some(t[i].value)
  {
    if i > 0 { GetAt(t[1..], i - 1); }
  }

  lemma {:induction false} PutItems<V>(t: seq<Item<V>>, k: nat, v: V)
    ensures forall i :: 0 <= i < |Put(t, k, v)| ==> Put(t, k, v)[i] == Item(k, v) || Put(t, k, v)[i] in t
    ensures Sorted(t) ==> Sorted(Put(t, k, v))
  {
    if t != [] && t[0].key < k {
      var r := Put(t[1..], k, v);
      PutItems(t[1..], k, v);
      if Sorted(t) {
        assert Sorted(t[1..]);
        forall i | 0 <= i < |r| ensures t[0].key < r[i].key {
          if r[i].key != k { assert r[i] in t[1..]; }
        }
      }
    }
  }

  lemma ContentsCons<V>(x: Item<V>, t: seq<Item<V>>)
    ensures Contents([x] + t) == Contents(t)[x.key := x.value]
  {
    assert ([x] + t)[1..] == t;
  }

  /** A key smaller than all the others is new. */
  lemma {:induction false} FirstIsNew<V>(t: seq<Item<V>>, k: nat)
    requires forall i :: 0 <= i < |t| ==> k < t[i].key
    ensures k !in Contents(t)
  {
    KeysAre(t, k);
  }

  lemma MapSwap<V>(m: map<nat, V>, k: nat, v: V, k': nat, v': V)
    requires k != k'
    ensures m[k := v][k' := v'] == m[k' := v'][k := v]
  {
  }

  /** Adding a binding updates the map. */
  lemma {:induction false} PutIsUpdate<V>(t: seq<Item<V>>, k: nat, v: V)
    requires Sorted(t)
    ensures Sorted(Put(t, k, v)) && Contents(Put(t, k, v)) == Contents(t)[k := v]
    ensures |Put(t, k, v)| == |t| + if k in Contents(t) then 0 else 1
  {
    PutItems(t, k, v);
    if t == [] || k < t[0].key {
      FirstIsNew(t, k);
      ContentsCons(Item(k, v), t);
    } else if t[0].key == k {
      ContentsCons(Item(k, v), t[1..]);
    } else {
      PutIsUpdate(t[1..], k, v);
      ContentsCons(t[0], Put(t[1..], k, v));
      MapSwap(Contents(t[1..]), k, v, t[0].key, t[0].value);
    }
  }

  lemma {:induction false} DeleteIsRemoval<V>(t: seq<Item<V>>, k: nat)
    requires Sorted(t)
    ensures Sorted(Delete(t, k)) && Contents(Delete(t, k)) == Contents(t) - {k}
    ensures |Delete(t, k)| == |t| - if k in Contents(t) then 1 else 0
    ensures forall i <- Delete(t, k) :: i in t
  {
    if t != [] {
      if t[0].key == k {
        KeysAre(t[1..], k);
      } else {
        DeleteIsRemoval(t[1..], k);
      }
    }
  }

  lemma {:induction false} FilterItems<V>(t: seq<Item<V>>, keep: (nat, V) -> bool)
    ensures |Filter(t, keep)| <= |t|
    ensures forall i <- Filter(t, keep) :: i in t && keep(i.key, i.value)
    ensures Sorted(t) ==> Sorted(Filter(t, keep))
  {
    if t != [] {
      var r := Filter(t[1..], keep);
      FilterItems(t[1..], keep);
      if Sorted(t) {
        assert Sorted(t[1..]);
        forall i | i in r ensures t[0].key < i.key { assert i in t[1..]; }
      }
    }
  }

  lemma {:induction false} FilterAt<V>(t: seq<Item<V>>, keep: (nat, V) -> bool, k: nat)
    requires Sorted(t)
    ensures k in Contents(Filter(t, keep)) <==> k in Contents(t) && keep(k, Contents(t)[k])
    ensures k in Contents(Filter(t, keep)) ==> Contents(Filter(t, keep))[k] == Contents(t)[k]
  {
    if t != [] {
      var r := Filter(t[1..], keep);
      FilterAt(t[1..], keep, k);
      FirstIsNew(t[1..], t[0].key);
      if keep(t[0].key, t[0].value) {
        ContentsCons(t[0], r);
      } else {
        assert Filter(t, keep) == r;
      }
    }
  }

  lemma FilterIsRestriction<V>(t: seq<Item<V>>, keep: (nat, V) -> bool)
    requires Sorted(t)
    ensures Sorted(Filter(t, keep))
    ensures Contents(Filter(t, keep)) == map k | k in Contents(t) && keep(k, Contents(t)[k]) :: Contents(t)[k]
  {
    FilterItems(t, keep);
    forall k: nat
      ensures k in Contents(Filter(t, keep)) <==> k in Contents(t) && keep(k, Contents(t)[k])
      ensures k in Contents(Filter(t, keep)) ==> Contents(Filter(t, keep))[k] == Contents(t)[k]
    {
      FilterAt(t, keep, k);
    }
  }

  // ----- splices ------------------------------------------------------------------------------

  /** Where a key is, or would go. */
  ghost predicate Position<V>(t: seq<Item<V>>, k: nat, i: nat) {
    i <= |t| && (forall j :: 0 <= j < i ==> t[j].key < k) && (forall j :: i <= j < |t| ==> k <= t[j].key)
  }

  lemma SpliceShift<V>(t: seq<Item<V>>, i: nat, x: Item<V>)
    requires 0 < i <= |t|
    ensures [t[0]] + (t[1..][..i - 1] + [x] + t[1..][i - 1..]) == t[..i] + [x] + t[i..]
  {
  }

  lemma {:induction false} PutSplices<V>(t: seq<Item<V>>, k: nat, v: V, i: nat)
    requires Sorted(t) && Position(t, k, i)
    ensures Put(t, k, v) == if i < |t| && t[i].key == k then t[i := Item(k, v)] else t[..i] + [Item(k, v)] + t[i..]
  {
    if i > 0 {
      PutSplices(t[1..], k, v, i - 1);
      assert Put(t, k, v) == [t[0]] + Put(t[1..], k, v);
      if i < |t| && t[i].key == k {
        assert [t[0]] + t[1..][i - 1 := Item(k, v)] == t[i := Item(k, v)];
      } else {
        SpliceShift(t, i, Item(k, v));
      }
    }
  }

  lemma {:induction false} DeleteSplices<V>(t: seq<Item<V>>, k: nat, i: nat)
    requires Sorted(t) && Position(t, k, i)
    ensures Delete(t, k) == if i < |t| && t[i].key == k then t[..i] + t[i + 1..] else t
  {
    if i > 0 {
      DeleteSplices(t[1..], k, i - 1);
      if i < |t| { assert t[..i] == [t[0]] + t[1..][..i - 1] && t[1..][i..] == t[i + 1..]; }
    } else if t != [] && t[0].key != k {
      DeleteAbsent(t, k);
    }
  }

  lemma {:induction false} DeleteAbsent<V>(t: seq<Item<V>>, k: nat)
    requires forall i :: 0 <= i < |t| ==> t[i].key != k
    ensures Delete(t, k) == t && Get(t, k) == None
  {
    if t != [] {
      DeleteAbsent(t[1..], k);
    }
  }

  lemma GetAtPosition<V>(t: seq<Item<V>>, k: nat, i: nat)
    requires Sorted(t) && Position(t, k, i)
    ensures Get(t, k) == if i < |t| && t[i].key == k then Some(t[i].value) else None
  {
    if i < |t| && t[i].key == k { GetAt(t, i); } else { DeleteAbsent(t, k); }
  }
}

/** The sorted vector map: binary search, and updates in place. */
module SmallMapObject {
  import opened Basics
  import opened SortedTable

  class SmallMap<V> {
    var items: seq<Item<V>>

    ghost predicate Valid() reads this { Sorted(items) }

    ghost function Map(): map<nat, V> reads this { Contents(items) }

    constructor ()
      ensures Valid() && items == [] && Map() == map[]
    {
      items := [];
    }

    /** Binary search: the index of the key, or where to insert it. */
    method Find(k: nat) returns (found: bool, i: nat)
      requires Valid()
      ensures Position(items, k, i) && (found <==> i < |items| && items[i].key == k)
      ensures found <==> k in Map()
    {
      var lo, hi := 0, |items|;
      while lo < hi
        invariant 0 <= lo <= hi <= |items|
        invariant forall j :: 0 <= j < lo ==> items[j].key < k
        invariant forall j :: hi <= j < |items| ==> k <= items[j].key
      {
        var mid := (lo + hi) / 2;
        if items[mid].key < k { lo := mid + 1; } else { hi := mid; }
      }
      i := lo;
      found := i < |items| && items[i].key == k;
      GetAtPosition(items, k, i);
      GetIsContents(items, k);
    }

    method Get(k: nat) returns (v: Option<V>)
      requires Valid()
      ensures v == SortedTable.Get(items, k)
      ensures v == if k in Map() then Some(Map()[k]) else None
    {
      var found, i := Find(k);
      GetAtPosition(items, k, i);
      GetIsContents(items, k);
      v := if found then Some(items[i].value) else None;
    }

    /** Insert or replace; returns the previous value. */
    method Insert(k: nat, v: V) returns (previous: Option<V>)
      requires Valid()
      modifies this
      ensures Valid() && items == Put(old(items), k, v) && Map() == old(Map())[k := v]
      ensures previous == SortedTable.Get(old(items), k)
    {
      var found, i := Find(k);
      PutSplices(items, k, v, i);
      PutIsUpdate(items, k, v);
      GetAtPosition(items, k, i);
      if found {
        previous := Some(items[i].value);
        items := items[i := Item(k, v)];
      } else {
        previous := None;
        items := items[..i] + [Item(k, v)] + items[i..];
      }
    }

    method Remove(k: nat) returns (removed: Option<V>)
      requires Valid()
      modifies this
      ensures Valid() && items == Delete(old(items), k) && Map() == old(Map()) - {k}
      ensures removed == SortedTable.Get(old(items), k)
    {
      var found, i := Find(k);
      DeleteSplices(items, k, i);
      DeleteIsRemoval(items, k);
      GetAtPosition(items, k, i);
      if found {
        removed := Some(items[i].value);
        items := items[..i] + items[i + 1..];
      } else {
        removed := None;
      }
    }

    /** The value for a key, inserting `default` first if there is none. */
    method GetOrDefault(k: nat, default: V) returns (v: V)
      requires Valid()
      modifies this
      ensures Valid() && k in Map() && v == Map()[k]
      ensures k in old(Map()) ==> items == old(items)
      ensures k !in old(Map()) ==> items == Put(old(items), k, default) && v == default && Map() == old(Map())[k := default]
    {
      var found, i := Find(k);
      GetAtPosition(items, k, i);
      GetIsContents(items, k);
      if found { return items[i].value; }
      PutSplices(items, k, default, i);
      PutIsUpdate(items, k, default);
      items := items[..i] + [Item(k, default)] + items[i..];
      return default;
    }

    method Retain(keep: (nat, V) -> bool)
      requires Valid()
      modifies this
      ensures Valid() && items == Filter(old(items), keep)
      ensures Map() == map k | k in old(Map()) && keep(k, old(Map())[k]) :: old(Map())[k]
    {
      FilterIsRestriction(items, keep);
      var kept: seq<Item<V>> := [];
      var i := |items|;
      while i > 0
        invariant 0 <= i <= |items| && items == old(items)
        invariant kept == Filter(items[i..], keep)
      {
        i := i - 1;
        assert items[i..][1..] == items[i + 1..];
        if keep(items[i].key, items[i].value) { kept := [items[i]] + kept; }
      }
      assert items[0..] == items;
      items := kept;
    }
  }
}
