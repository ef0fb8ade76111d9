/** Insertion sort by key: the stable sorting permutation. */
module StableSort {

  /** Insert behind everything with the same or a smaller key. */
  function InsertLast<T>(s: seq<T>, x: T, key: T -> int): seq<T> {
    if s == [] || key(s[|s| - 1]) <= key(x) then s + [x]
    else InsertLast(s[..|s| - 1], x, key) + [s[|s| - 1]]
  }

  function Sort<T>(s: seq<T>, key: T -> int): seq<T> {
    if s == [] then [] else InsertLast(Sort(s[..|s| - 1], key), s[|s| - 1], key)
  }

  ghost predicate Ordered<T>(s: seq<T>, key: T -> int) {
    forall i, j :: 0 <= i < j < |s| ==> key(s[i]) <= key(s[j])
  }

  /** The elements with one key, in their order. */
  ghost function WithKey<T>(s: seq<T>, key: T -> int, k: int): seq<T> {
    if s == [] then [] else WithKey(s[..|s| - 1], key, k) + if key(s[|s| - 1]) == k then [s[|s| - 1]] else []
  }

  lemma {:induction false} InsertElements<T>(s: seq<T>, x: T, key: T -> int)
    ensures multiset(InsertLast(s, x, key)) == multiset(s) + multiset{x}
    ensures |InsertLast(s, x, key)| == |s| + 1
  {
    if s != [] && key(s[|s| - 1]) > key(x) {
      assert s == s[..|s| - 1] + [s[|s| - 1]];
      InsertElements(s[..|s| - 1], x, key);
    }
  }

  /** No key exceeds `top`. */
  ghost predicate AtMost<T>(s: seq<T>, key: T -> int, top: int) {
    forall i :: 0 <= i < |s| ==> key(s[i]) <= top
  }

  lemma {:induction false} InsertAtMost<T>(s: seq<T>, x: T, key: T -> int, top: int)
    requires AtMost(s, key, top) && key(x) <= top
    ensures AtMost(InsertLast(s, x, key), key, top)
  {
    if s != [] && key(s[|s| - 1]) > key(x) { InsertAtMost(s[..|s| - 1], x, key, top); }
  }

  lemma {:induction false} InsertOrdered<T>(s: seq<T>, x: T, key: T -> int)
    requires Ordered(s, key)
    ensures Ordered(InsertLast(s, x, key), key)
  {
    if s != [] && key(s[|s| - 1]) > key(x) {
      InsertOrdered(s[..|s| - 1], x, key);
      InsertAtMost(s[..|s| - 1], x, key, key(s[|s| - 1]));
    }
  }

  lemma {:induction false} WithKeyAppend<T>(a: seq<T>, b: seq<T>, key: T -> int, k: int)
    ensures WithKey(a + b, key, k) == WithKey(a, key, k) + WithKey(b, key, k)
  {
    if b == [] {
      assert a + b == a;
    } else {
      assert (a + b)[..|a + b| - 1] == a + b[..|b| - 1];
      WithKeyAppend(a, b[..|b| - 1], key, k);
    }
  }

  lemma {:induction false} InsertStable<T>(s: seq<T>, x: T, key: T -> int, k: int)
    ensures WithKey(InsertLast(s, x, key), key, k) == WithKey(s + [x], key, k)
  {
    if s != [] && key(s[|s| - 1]) > key(x) {
      var s', last := s[..|s| - 1], s[|s| - 1];
      InsertStable(s', x, key, k);
      WithKeyAppend(InsertLast(s', x, key), [last], key, k);
      assert s + [x] == s' + ([last] + [x]);
      WithKeyAppend(s', [last] + [x], key, k);
      WithKeyAppend(s', [x], key, k);
      WithKeyAppend([last], [x], key, k);
    }
  }

  /** Sorting orders the elements, loses none, and keeps equal ones in their order. */
  lemma {:induction false} SortIsStable<T>(s: seq<T>, key: T -> int)
    ensures Ordered(Sort(s, key), key)
    ensures multiset(Sort(s, key)) == multiset(s) && |Sort(s, key)| == |s|
    ensures forall k: int :: WithKey(Sort(s, key), key, k) == WithKey(s, key, k)
  {
    if s != [] {
      var s', last := s[..|s| - 1], s[|s| - 1];
      assert s == s' + [last];
      SortIsStable(s', key);
      InsertOrdered(Sort(s', key), last, key);
      InsertElements(Sort(s', key), last, key);
      forall k: int ensures WithKey(Sort(s, key), key, k) == WithKey(s, key, k) {
        InsertStable(Sort(s', key), last, key, k);
        WithKeyAppend(Sort(s', key), [last], key, k);
        WithKeyAppend(s', [last], key, k);
      }
    }
  }

  /** Those three facts leave no choice: two ordered sequences with the same elements of
      every key, in the same order, are equal. */
  lemma {:induction false} StableUnique<T>(a: seq<T>, b: seq<T>, key: T -> int)
    requires Ordered(a, key) && Ordered(b, key)
    requires forall k: int :: WithKey(a, key, k) == WithKey(b, key, k)
    ensures a == b
    decreases |a|
  {
    if a == [] || b == [] {
      var k := if a != [] then key(a[|a| - 1]) else if b != [] then key(b[|b| - 1]) else 0;
      assert WithKey(a, key, k) == WithKey(b, key, k);
    } else {
      var a', x, b', y := a[..|a| - 1], a[|a| - 1], b[..|b| - 1], b[|b| - 1];
      assert WithKey(a, key, key(x)) == WithKey(b, key, key(x));
      assert WithKey(a, key, key(y)) == WithKey(b, key, key(y));
      WithKeySome(a, key, key(y));
      WithKeySome(b, key, key(x));
      var w := WithKey(a, key, key(x));
      assert w[|w| - 1] == x && w[|w| - 1] == y;
      forall k: int ensures WithKey(a', key, k) == WithKey(b', key, k) {
        assert WithKey(a, key, k) == WithKey(b, key, k);
        assert key(x) != k ==> WithKey(a', key, k) == WithKey(a, key, k) && WithKey(b', key, k) == WithKey(b, key, k);
        assert key(x) == k ==> WithKey(a', key, k) == WithKey(a, key, k)[..|WithKey(a, key, k)| - 1];
        assert key(x) == k ==> WithKey(b', key, k) == WithKey(b, key, k)[..|WithKey(b, key, k)| - 1];
      }
      StableUnique(a', b', key);
      assert a == a' + [x] && b == b' + [y];
    }
  }

  lemma {:induction false} WithKeySome<T>(s: seq<T>, key: T -> int, k: int)
    requires Ordered(s, key) && WithKey(s, key, k) != []
    ensures s != [] && key(s[|s| - 1]) >= k
  {
    if key(s[|s| - 1]) != k { WithKeySome(s[..|s| - 1], key, k); }
  }

  // ----- in place ------------------------------------------------------------------------------

  /** Carry the element at `i` down to its place in the sorted prefix. */
  method SiftDown<T>(v: array<T>, i: nat, key: T -> int)
    requires i < v.Length
    modifies v
    ensures v[..] == InsertLast(old(v[..i]), old(v[i]), key) + old(v[i + 1..])
  {
    ghost var a, x, rest := v[..i], v[i], v[i + 1..];
    var j := i;
    assert a[..i] == a && a[i..] == [];
    assert v[..] == a[..j] + [x] + a[j..] + rest;
    while j > 0 && key(v[j - 1]) > key(v[j])
      invariant 0 <= j <= i
      invariant v[..] == a[..j] + [x] + a[j..] + rest
      invariant InsertLast(a, x, key) == InsertLast(a[..j], x, key) + a[j..]
    {
      SiftStep(a, x, key, j);
      assert v[..][j - 1] == a[j - 1] && v[..][j] == x;
      v[j - 1], v[j] := v[j], v[j - 1];
      Swapped(a, x, rest, j);
      assert v[..] == (a[..j] + [x] + a[j..] + rest)[j - 1 := x][j := a[j - 1]];
      j := j - 1;
    }
    if j > 0 { assert v[..][j - 1] == a[j - 1] && v[..][j] == x; }
    assert InsertLast(a[..j], x, key) == a[..j] + [x];
  }

  lemma SiftStep<T>(a: seq<T>, x: T, key: T -> int, j: nat)
    requires 0 < j <= |a| && key(a[j - 1]) > key(x)
    ensures InsertLast(a[..j], x, key) + a[j..] == InsertLast(a[..j - 1], x, key) + a[j - 1..]
  {
    assert a[..j][..j - 1] == a[..j - 1];
    assert a[j - 1..] == [a[j - 1]] + a[j..];
  }

  lemma Swapped<T>(a: seq<T>, x: T, rest: seq<T>, j: nat)
    requires 0 < j <= |a|
    ensures (a[..j] + [x] + a[j..] + rest)[j - 1 := x][j := a[j - 1]] == a[..j - 1] + [x] + a[j - 1..] + rest
  {
  }

  lemma SortedPrefix<T>(was: seq<T>, i: nat, key: T -> int, v: seq<T>)
    requires i < |was| && v == Sort(was[..i], key) + was[i..]
    ensures |v| == |was| && v[..i] == Sort(was[..i], key) && v[i] == was[i] && v[i + 1..] == was[i + 1..]
    ensures Sort(was[..i + 1], key) == InsertLast(Sort(was[..i], key), was[i], key)
  {
    SortIsStable(was[..i], key);
    assert was[..i + 1][..i] == was[..i];
  }

  method SortByKey<T>(v: array<T>, key: T -> int)
    modifies v
    ensures v[..] == Sort(old(v[..]), key)
  {
    ghost var was := v[..];
    var i := if v.Length == 0 then 0 else 1;
    SortOne(was, key);
    while i < v.Length
      invariant 0 <= i <= v.Length && v.Length == |was|
      invariant v[..] == Sort(was[..i], key) + was[i..]
    {
      ghost var now := v[..];
      SortedPrefix(was, i, key, now);
      assert v[..i] == now[..i] && v[i + 1..] == now[i + 1..];
      SiftDown(v, i, key);
      i := i + 1;
    }
    assert was[..i] == was && was[i..] == [];
  }

  /** At most one element is sorted as it is. */
  lemma SortOne<T>(s: seq<T>, key: T -> int)
    ensures s == [] ==> s == Sort(s[..0], key) + s[0..]
    ensures s != [] ==> s == Sort(s[..1], key) + s[1..]
  {
    if s != [] { assert s[..1][..0] == []; }
  }
}
