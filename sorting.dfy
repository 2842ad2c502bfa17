/** Stable sorting by a key. The storage provider's `orderBy` and
    JavaScript's `Array.prototype.sort` (stable since ES2019) both order
    rows by a comparison that can tie; `SortBy` is the one ordering that
    both produce: ascending by key, ties left in their original order.
    `InsertionSort` computes it in place on an array. */
module Sorting {
  import opened Util

  /** A sort key, compared lexicographically: first component, then second. */
  type Key = (int, int)

  predicate KeyLe(a: Key, b: Key) {
    a.0 < b.0 || (a.0 == b.0 && a.1 <= b.1)
  }

  predicate SortedBy<T>(s: seq<T>, key: T -> Key) {
    forall i, j :: 0 <= i < j < |s| ==> KeyLe(key(s[i]), key(s[j]))
  }

  /** Inserts x after every element of s whose key is not greater than x's. */
  function Insert<T>(s: seq<T>, x: T, key: T -> Key): (r: seq<T>)
    ensures |r| == |s| + 1
    decreases |s|
  {
    if s == [] || KeyLe(key(s[|s| - 1]), key(x)) then s + [x]
    else Insert(s[..|s| - 1], x, key) + [s[|s| - 1]]
  }

  lemma {:induction false} InsertPermutes<T>(s: seq<T>, x: T, key: T -> Key)
    ensures multiset(Insert(s, x, key)) == multiset(s) + multiset{x}
    decreases |s|
  {
    if s != [] && !KeyLe(key(s[|s| - 1]), key(x)) {
      InsertPermutes(s[..|s| - 1], x, key);
      assert s == s[..|s| - 1] + [s[|s| - 1]];
    }
  }

  /** Stable insertion sort, as a function: the specification of every
      ordering in the model. */
  function SortBy<T>(s: seq<T>, key: T -> Key): (r: seq<T>)
    ensures |r| == |s|
    decreases |s|
  {
    if s == [] then [] else Insert(SortBy(s[..|s| - 1], key), s[|s| - 1], key)
  }

  /** SortBy returns a permutation of its input. */
  lemma {:induction false} SortByPermutes<T>(s: seq<T>, key: T -> Key)
    ensures multiset(SortBy(s, key)) == multiset(s)
    decreases |s|
  {
    if s != [] {
      SortByPermutes(s[..|s| - 1], key);
      InsertPermutes(SortBy(s[..|s| - 1], key), s[|s| - 1], key);
      assert s == s[..|s| - 1] + [s[|s| - 1]];
    }
  }

  lemma {:induction false} InsertSorted<T>(s: seq<T>, x: T, key: T -> Key)
    requires SortedBy(s, key)
    ensures SortedBy(Insert(s, x, key), key)
    decreases |s|
  {
    if s == [] || KeyLe(key(s[|s| - 1]), key(x)) {
    } else {
      var init := s[..|s| - 1];
      var last := s[|s| - 1];
      InsertSorted(init, x, key);
      var r := Insert(init, x, key);
      InsertPermutes(init, x, key);
      forall e | e in multiset(r)
        ensures KeyLe(key(e), key(last))
      {
        assert e in multiset(init) + multiset{x};
        if e in multiset(init) {
          var i :| 0 <= i < |init| && init[i] == e;
          assert s[i] == e;
        }
      }
      forall i, j | 0 <= i < j < |r| + 1
        ensures KeyLe(key((r + [last])[i]), key((r + [last])[j]))
      {
        if j == |r| {
          assert r[i] in multiset(r);
        }
      }
    }
  }

  /** SortBy orders by key. */
  lemma {:induction false} SortBySorted<T>(s: seq<T>, key: T -> Key)
    ensures SortedBy(SortBy(s, key), key)
    decreases |s|
  {
    if s != [] {
      SortBySorted(s[..|s| - 1], key);
      InsertSorted(SortBy(s[..|s| - 1], key), s[|s| - 1], key);
    }
  }

  /** The elements of s whose key is k, in their order in s. */
  function WithKey<T>(s: seq<T>, key: T -> Key, k: Key): seq<T> {
    Filter(s, KeyIs(key, k))
  }

  function KeyIs<T>(key: T -> Key, k: Key): T -> bool {
    e => key(e) == k
  }

  lemma {:induction false} FilterSingleton<T>(x: T, keep: T -> bool)
    ensures Filter([x], keep) == if keep(x) then [x] else []
  {
    assert [x][1..] == [];
  }

  lemma {:induction false} InsertStable<T>(s: seq<T>, x: T, key: T -> Key, k: Key)
    ensures WithKey(Insert(s, x, key), key, k) == WithKey(s, key, k) + (if key(x) == k then [x] else [])
    decreases |s|
  {
    var keep := KeyIs(key, k);
    FilterSingleton(x, keep);
    if s == [] || KeyLe(key(s[|s| - 1]), key(x)) {
      assert Insert(s, x, key) == s + [x];
      FilterAppend(s, [x], keep);
    } else {
      var init := s[..|s| - 1];
      var last := s[|s| - 1];
      assert Insert(s, x, key) == Insert(init, x, key) + [last];
      InsertStable(init, x, key, k);
      FilterAppend(Insert(init, x, key), [last], keep);
      assert s == init + [last];
      FilterAppend(init, [last], keep);
      FilterSingleton(last, keep);
    }
  }

  /** SortBy is stable: the elements that share a key come out in the
      order they went in. */
  lemma {:induction false} SortByStable<T>(s: seq<T>, key: T -> Key, k: Key)
    ensures WithKey(SortBy(s, key), key, k) == WithKey(s, key, k)
    decreases |s|
  {
    if s != [] {
      var init := s[..|s| - 1];
      var last := s[|s| - 1];
      var tail := if key(last) == k then [last] else [];
      assert s == init + [last];
      calc {
        WithKey(SortBy(s, key), key, k);
        WithKey(Insert(SortBy(init, key), last, key), key, k);
        { InsertStable(SortBy(init, key), last, key, k); }
        WithKey(SortBy(init, key), key, k) + tail;
        { SortByStable(init, key, k); }
        WithKey(init, key, k) + tail;
        { FilterSingleton(last, KeyIs(key, k)); }
        Filter(init, KeyIs(key, k)) + Filter([last], KeyIs(key, k));
        { FilterAppend(init, [last], KeyIs(key, k)); }
        Filter(init + [last], KeyIs(key, k));
      }
    }
  }

  /** No two elements of s agree on f (f is an identifier of the rows). */
  ghost predicate InjectiveOn<T, U>(s: seq<T>, f: T -> U) {
    forall i, j :: 0 <= i < j < |s| ==> f(s[i]) != f(s[j])
  }

  /** Appending rows with fresh, distinct identifiers keeps them distinct. */
  lemma {:induction false} AppendInjective<T, U>(s: seq<T>, t: seq<T>, f: T -> U)
    requires InjectiveOn(s, f) && InjectiveOn(t, f)
    requires forall i, j :: 0 <= i < |s| && 0 <= j < |t| ==> f(s[i]) != f(t[j])
    ensures InjectiveOn(s + t, f)
  {
    var st := s + t;
    forall i, j | 0 <= i < j < |st|
      ensures f(st[i]) != f(st[j])
    {
      if j < |s| {
        assert st[i] == s[i] && st[j] == s[j];
      } else if i < |s| {
        assert st[i] == s[i] && st[j] == t[j - |s|];
      } else {
        assert st[i] == t[i - |s|] && st[j] == t[j - |s|];
      }
    }
  }

  lemma {:induction false} InsertInjective<T, U>(s: seq<T>, x: T, key: T -> Key, f: T -> U)
    requires InjectiveOn(s, f)
    requires forall i :: 0 <= i < |s| ==> f(s[i]) != f(x)
    ensures InjectiveOn(Insert(s, x, key), f)
    decreases |s|
  {
    if s == [] || KeyLe(key(s[|s| - 1]), key(x)) {
    } else {
      var init := s[..|s| - 1];
      var last := s[|s| - 1];
      InsertInjective(init, x, key, f);
      var r := Insert(init, x, key);
      InsertPermutes(init, x, key);
      forall i | 0 <= i < |r|
        ensures f(r[i]) != f(last)
      {
        assert r[i] in multiset(init) + multiset{x};
        if r[i] in multiset(init) {
          var m :| 0 <= m < |init| && init[m] == r[i];
          assert s[m] == r[i];
        }
      }
    }
  }

  /** Sorting keeps the rows' identifiers distinct. */
  lemma {:induction false} SortByInjective<T, U>(s: seq<T>, key: T -> Key, f: T -> U)
    requires InjectiveOn(s, f)
    ensures InjectiveOn(SortBy(s, key), f)
    decreases |s|
  {
    if s != [] {
      var init := s[..|s| - 1];
      var last := s[|s| - 1];
      SortByInjective(init, key, f);
      var r := SortBy(init, key);
      SortByPermutes(init, key);
      forall i | 0 <= i < |r|
        ensures f(r[i]) != f(last)
      {
        assert r[i] in multiset(init);
        var m :| 0 <= m < |init| && init[m] == r[i];
        assert s[m] == r[i];
      }
      InsertInjective(r, last, key, f);
    }
  }

  /** One step of the insertion, from the right: x goes before a last
      element whose key is greater. */
  lemma {:induction false} InsertPasses<T>(s: seq<T>, x: T, key: T -> Key, j: nat)
    requires 0 < j <= |s|
    requires !KeyLe(key(s[j - 1]), key(x))
    ensures Insert(s[..j], x, key) == Insert(s[..j - 1], x, key) + [s[j - 1]]
  {
    assert s[..j][..j - 1] == s[..j - 1];
  }

  /** The insertion stops at the first element from the right whose key is
      not greater than x's. */
  lemma {:induction false} InsertStops<T>(s: seq<T>, x: T, key: T -> Key, j: nat)
    requires j <= |s|
    requires j == 0 || KeyLe(key(s[j - 1]), key(x))
    ensures Insert(s[..j], x, key) == s[..j] + [x]
  {
  }

  lemma {:induction false} SortByPrefix<T>(s: seq<T>, key: T -> Key, i: nat)
    requires i < |s|
    ensures SortBy(s[..i + 1], key) == Insert(SortBy(s[..i], key), s[i], key)
  {
    assert s[..i + 1][..i] == s[..i];
  }

  lemma {:induction false} InsertShift<T>(s: seq<T>, x: T, key: T -> Key, j: nat)
    requires 0 < j <= |s|
    requires !KeyLe(key(s[j - 1]), key(x))
    requires Insert(s, x, key) == Insert(s[..j], x, key) + s[j..]
    ensures Insert(s, x, key) == Insert(s[..j - 1], x, key) + s[j - 1..]
  {
    var front := Insert(s[..j - 1], x, key);
    InsertPasses(s, x, key, j);
    assert s[j - 1..] == [s[j - 1]] + s[j..];
    assert (front + [s[j - 1]]) + s[j..] == front + ([s[j - 1]] + s[j..]);
  }

  /** Moves a[i] left past every element of a[..i] with a greater key. */
  method InsertAt<T>(a: array<T>, i: nat, key: T -> Key)
    requires i < a.Length
    modifies a
    ensures a[..i + 1] == Insert(old(a[..i]), old(a[i]), key)
    ensures a[i + 1..] == old(a[i + 1..])
  {
    var x := a[i];
    ghost var sorted := a[..i];
    ghost var before := a[..];
    assert sorted[..i] == sorted && sorted[i..] == [];
    var j := i;
    while j > 0 && !KeyLe(key(a[j - 1]), key(x))
      invariant 0 <= j <= i
      invariant forall k :: 0 <= k < j ==> a[k] == sorted[k]
      invariant forall k :: j < k <= i ==> a[k] == sorted[k - 1]
      invariant forall k :: i < k < a.Length ==> a[k] == before[k]
      invariant Insert(sorted, x, key) == Insert(sorted[..j], x, key) + sorted[j..]
    {
      InsertShift(sorted, x, key, j);
      a[j] := a[j - 1];
      j := j - 1;
    }
    InsertStops(sorted, x, key, j);
    a[j] := x;
    assert a[..i + 1] == sorted[..j] + [x] + sorted[j..];
    assert a[i + 1..] == before[i + 1..];
  }

  /** Stable insertion sort of an array in place: the page-local re-sort. */
  method InsertionSort<T>(a: array<T>, key: T -> Key)
    modifies a
    ensures a[..] == SortBy(old(a[..]), key)
  {
    ghost var input := a[..];
    var i := 0;
    while i < a.Length
      invariant 0 <= i <= a.Length
      invariant a[..i] == SortBy(input[..i], key)
      invariant a[i..] == input[i..]
    {
      InsertAt(a, i, key);
      SortByPrefix(input, key, i);
      i := i + 1;
    }
    assert input[..a.Length] == input;
  }
}
