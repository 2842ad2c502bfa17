/** Shared vocabulary of the services: optional values, the exceptions the
    handlers raise, the JavaScript string operations they use, and a few
    generic sequence functions that stand for the storage provider's
    filtered reads. */
module Util {

  datatype Option<T> = None | Some(value: T)

  /** The HTTP exceptions the services raise. `Unhandled` is an error that
      escapes the handler without being translated (HTTP 500 in NestJS);
      `cause` names it. */
  datatype Error =
    | BadRequest
    | Forbidden(message: string)
    | Unauthorized
    | Unhandled(cause: string)

  datatype Result<T> = Ok(value: T) | Err(error: Error)

  type Id = string

  /** JavaScript truthiness of an optional string: present and not "". */
  predicate Truthy(s: Option<string>) {
    s.Some? && s.value != ""
  }

  /** JavaScript truthiness of an optional number: present and not 0. */
  predicate TruthyNumber(n: Option<int>) {
    n.Some? && n.value != 0
  }

  // ---------------------------------------------------------------------
  // Strings
  // ---------------------------------------------------------------------

  predicate IsUpperLetter(c: char) {
    'A' <= c <= 'Z'
  }

  predicate IsLowerLetter(c: char) {
    'a' <= c <= 'z'
  }

  /** `toLowerCase` on one character (ASCII letters only). */
  function LowerChar(c: char): char {
    if IsUpperLetter(c) then (c as int + 32) as char else c
  }

  /** `toUpperCase` on one character (ASCII letters only). */
  function UpperChar(c: char): char {
    if IsLowerLetter(c) then (c as int - 32) as char else c
  }

  function Lower(s: string): string {
    seq(|s|, i requires 0 <= i < |s| => LowerChar(s[i]))
  }

  function Upper(s: string): string {
    seq(|s|, i requires 0 <= i < |s| => UpperChar(s[i]))
  }

  predicate NoUpperLetter(s: string) {
    forall i :: 0 <= i < |s| ==> !IsUpperLetter(s[i])
  }

  predicate NoLowerLetter(s: string) {
    forall i :: 0 <= i < |s| ==> !IsLowerLetter(s[i])
  }

  /** A lower-cased string has no upper-case letter left, keeps its length,
      and lower-casing it again changes nothing. */
  lemma {:induction false} LowerNormalises(s: string)
    ensures |Lower(s)| == |s|
    ensures NoUpperLetter(Lower(s))
    ensures Lower(Lower(s)) == Lower(s)
  {
    assert forall i :: 0 <= i < |s| ==> LowerChar(LowerChar(s[i])) == LowerChar(s[i]);
  }

  /** An upper-cased string has no lower-case letter left. */
  lemma {:induction false} UpperNormalises(s: string)
    ensures |Upper(s)| == |s|
    ensures NoLowerLetter(Upper(s))
    ensures Upper(Upper(s)) == Upper(s)
  {
    assert forall i :: 0 <= i < |s| ==> UpperChar(UpperChar(s[i])) == UpperChar(s[i]);
  }

  /** A string without upper-case letters is its own lower-case form. */
  lemma {:induction false} LowerOfLowercase(s: string)
    requires NoUpperLetter(s)
    ensures Lower(s) == s
  {
  }

  /** q occurs in s starting at position i. */
  predicate OccursAt(s: string, q: string, i: int) {
    0 <= i && i + |q| <= |s| && s[i..i + |q|] == q
  }

  /** `s.includes(q)`: q occurs in s as a contiguous substring. */
  predicate Contains(s: string, q: string) {
    exists i :: 0 <= i <= |s| && OccursAt(s, q, i)
  }

  /** Prisma's `contains` with `mode: 'insensitive'`. */
  predicate ContainsIgnoreCase(s: string, q: string) {
    Contains(Lower(s), Lower(q))
  }

  /** Prisma's `equals` with `mode: 'insensitive'`. */
  predicate EqualsIgnoreCase(a: string, b: string) {
    Lower(a) == Lower(b)
  }

  predicate IsHexDigit(c: char) {
    ('0' <= c <= '9') || ('a' <= c <= 'f') || ('A' <= c <= 'F')
  }

  /** The shape of a MongoDB ObjectId: 24 hexadecimal digits. The storage
      provider rejects a lookup by any other string with an error. */
  predicate IsObjectId(s: string) {
    |s| == 24 && forall i :: 0 <= i < |s| ==> IsHexDigit(s[i])
  }

  // ---------------------------------------------------------------------
  // Numbers
  // ---------------------------------------------------------------------

  function Sum(s: seq<int>): int
    decreases |s|
  {
    if s == [] then 0 else Sum(s[..|s| - 1]) + s[|s| - 1]
  }

  /** `Math.round(sum / count)`: the integer nearest to sum / count, with
      halves rounded up (towards positive infinity). */
  function RoundedMean(sum: int, count: nat): (r: int)
    requires count > 0
    ensures 2 * count * r - count <= 2 * sum < 2 * count * r + count
  {
    var q := (2 * sum + count) / (2 * count);
    var m := (2 * sum + count) % (2 * count);
    assert 2 * sum + count == (2 * count) * q + m && 0 <= m < 2 * count;
    assert 2 * count * q == (2 * count) * q;
    q
  }

  /** The rounded mean lies between the smallest and the largest value. */
  lemma {:induction false} RoundedMeanWithin(sum: int, count: nat, lo: int, hi: int)
    requires count > 0
    requires count * lo <= sum <= count * hi
    ensures lo <= RoundedMean(sum, count) <= hi
  {
    var r := RoundedMean(sum, count);
    var cr := count * r;
    assert 2 * count * r == 2 * cr;
    assert 2 * cr - count <= 2 * sum < 2 * cr + count;
    if r < lo {
      MulMonotone(count, r + 1, lo);
      MulSucc(count, r);
      assert false;
    }
    if r > hi {
      MulMonotone(count, hi + 1, r);
      MulSucc(count, hi);
      assert false;
    }
  }

  lemma {:induction false} MulSucc(k: int, a: int)
    ensures k * (a + 1) == k * a + k
  {
  }

  lemma {:induction false} MulMonotone(k: nat, a: int, b: int)
    requires a <= b
    ensures k * a <= k * b
  {
  }

  // ---------------------------------------------------------------------
  // Generic reads over a table kept in storage order
  // ---------------------------------------------------------------------

  /** A sum of numbers each within [lo, hi] lies within [|s| * lo, |s| * hi]. */
  lemma {:induction false} SumBounds(s: seq<int>, lo: int, hi: int)
    requires forall i :: 0 <= i < |s| ==> lo <= s[i] <= hi
    ensures |s| * lo <= Sum(s) <= |s| * hi
    decreases |s|
  {
    if s != [] {
      var init := s[..|s| - 1];
      assert forall i :: 0 <= i < |init| ==> init[i] == s[i];
      SumBounds(init, lo, hi);
      MulSucc(lo, |init|);
      MulSucc(hi, |init|);
      assert |s| * lo == |init| * lo + lo;
      assert |s| * hi == |init| * hi + hi;
    }
  }

  /** The rows that satisfy `keep`, in their original order
      (a `findMany` with a `where`). */
  function Filter<T>(s: seq<T>, keep: T -> bool): (r: seq<T>)
    ensures |r| <= |s|
    decreases |s|
  {
    if s == [] then [] else (if keep(s[0]) then [s[0]] else []) + Filter(s[1..], keep)
  }

  /** Filter keeps exactly the rows that satisfy `keep`. */
  lemma {:induction false} FilterMembers<T>(s: seq<T>, keep: T -> bool)
    ensures forall i :: 0 <= i < |Filter(s, keep)| ==> Filter(s, keep)[i] in s && keep(Filter(s, keep)[i])
    ensures forall i :: 0 <= i < |s| && keep(s[i]) ==> s[i] in Filter(s, keep)
    decreases |s|
  {
    if s != [] {
      FilterMembers(s[1..], keep);
      var head := if keep(s[0]) then [s[0]] else [];
      var rest := Filter(s[1..], keep);
      assert Filter(s, keep) == head + rest;
      forall i | 0 <= i < |s| && keep(s[i])
        ensures s[i] in Filter(s, keep)
      {
        if i > 0 {
          assert s[i] == s[1..][i - 1];
        }
      }
    }
  }

  lemma {:induction false} FilterAppend<T>(a: seq<T>, b: seq<T>, keep: T -> bool)
    ensures Filter(a + b, keep) == Filter(a, keep) + Filter(b, keep)
    decreases |a|
  {
    if a == [] {
      assert a + b == b;
    } else {
      var head := if keep(a[0]) then [a[0]] else [];
      assert (a + b)[0] == a[0];
      assert (a + b)[1..] == a[1..] + b;
      assert Filter(a + b, keep) == head + Filter(a[1..] + b, keep);
      FilterAppend(a[1..], b, keep);
      assert Filter(a, keep) == head + Filter(a[1..], keep);
      assert head + (Filter(a[1..], keep) + Filter(b, keep)) == (head + Filter(a[1..], keep)) + Filter(b, keep);
    }
  }

  lemma {:induction false} FilterAll<T>(s: seq<T>, keep: T -> bool)
    requires forall i :: 0 <= i < |s| ==> keep(s[i])
    ensures Filter(s, keep) == s
    decreases |s|
  {
    if s != [] {
      FilterAll(s[1..], keep);
    }
  }

  lemma {:induction false} FilterNone<T>(s: seq<T>, keep: T -> bool)
    requires forall i :: 0 <= i < |s| ==> !keep(s[i])
    ensures Filter(s, keep) == []
    decreases |s|
  {
    if s != [] {
      FilterNone(s[1..], keep);
    }
  }

  /** Filtering by a stronger predicate keeps no more rows. */
  lemma {:induction false} FilterStronger<T>(s: seq<T>, strong: T -> bool, weak: T -> bool)
    requires forall x :: strong(x) ==> weak(x)
    ensures |Filter(s, strong)| <= |Filter(s, weak)|
    decreases |s|
  {
    if s != [] {
      FilterStronger(s[1..], strong, weak);
    }
  }

  /** Filtering keeps the number of rows that satisfy the predicate, so a
      permutation of the table filters to the same number of rows. */
  lemma {:induction false} FilterCountsMultiset<T>(s: seq<T>, t: seq<T>, keep: T -> bool)
    requires multiset(s) == multiset(t)
    ensures |Filter(s, keep)| == |Filter(t, keep)|
    decreases |s|
  {
    if s == [] {
      assert |t| == |multiset(t)| == 0;
    } else {
      var x := s[0];
      assert x in multiset(t);
      var k :| 0 <= k < |t| && t[k] == x;
      var t' := t[..k] + t[k + 1..];
      assert multiset(s[1..]) == multiset(t') by {
        RemoveAtMultiset(t, k);
        assert s == [x] + s[1..];
        assert multiset(s) == multiset{x} + multiset(s[1..]);
        forall y
          ensures multiset(s[1..])[y] == multiset(t')[y]
        {
          assert multiset(s)[y] == multiset(t)[y];
          assert multiset(s)[y] == multiset{x}[y] + multiset(s[1..])[y];
          assert multiset(t)[y] == multiset(t')[y] + multiset{x}[y];
        }
      }
      FilterCountsMultiset(s[1..], t', keep);
      FilterRemoveAt(t, k, keep);
    }
  }

  lemma {:induction false} RemoveAtMultiset<T>(t: seq<T>, k: nat)
    requires k < |t|
    ensures multiset(t) == multiset(t[..k] + t[k + 1..]) + multiset{t[k]}
  {
    assert t == t[..k] + [t[k]] + t[k + 1..];
  }

  lemma {:induction false} FilterRemoveAt<T>(t: seq<T>, k: nat, keep: T -> bool)
    requires k < |t|
    ensures |Filter(t, keep)| == |Filter(t[..k] + t[k + 1..], keep)| + (if keep(t[k]) then 1 else 0)
  {
    assert t == t[..k] + ([t[k]] + t[k + 1..]);
    FilterAppend(t[..k], [t[k]] + t[k + 1..], keep);
    FilterAppend([t[k]], t[k + 1..], keep);
    FilterAppend(t[..k], t[k + 1..], keep);
  }

  /** The k-th kept row sits at some position m of s, and the rows kept
      up to it are exactly the rows kept from s[..m + 1]. */
  lemma {:induction false} FilterPosition<T>(s: seq<T>, keep: T -> bool, k: nat) returns (m: nat)
    requires k < |Filter(s, keep)|
    ensures m < |s| && s[m] == Filter(s, keep)[k]
    ensures Filter(s[..m + 1], keep) == Filter(s, keep)[..k + 1]
    decreases |s|
  {
    if keep(s[0]) && k == 0 {
      m := 0;
      FilterFirst(s, keep);
    } else {
      var k' := if keep(s[0]) then k - 1 else k;
      var m' := FilterPosition(s[1..], keep, k');
      m := m' + 1;
      FilterPositionStep(s, keep, k, m');
    }
  }

  lemma {:induction false} FilterFirst<T>(s: seq<T>, keep: T -> bool)
    requires s != [] && keep(s[0])
    ensures Filter(s, keep)[0] == s[0]
    ensures Filter(s[..1], keep) == Filter(s, keep)[..1]
  {
    assert s[..1][1..] == [];
  }

  lemma {:induction false} FilterPositionStep<T>(s: seq<T>, keep: T -> bool, k: nat, m': nat)
    requires s != [] && !(keep(s[0]) && k == 0)
    requires m' + 1 < |s|
    requires var k' := if keep(s[0]) then k - 1 else k;
      k' < |Filter(s[1..], keep)| &&
      s[1..][m'] == Filter(s[1..], keep)[k'] &&
      Filter(s[1..][..m' + 1], keep) == Filter(s[1..], keep)[..k' + 1]
    ensures k < |Filter(s, keep)|
    ensures s[m' + 1] == Filter(s, keep)[k]
    ensures Filter(s[..m' + 2], keep) == Filter(s, keep)[..k + 1]
  {
    var rest := Filter(s[1..], keep);
    var front := Filter(s[1..][..m' + 1], keep);
    FilterConsPrefix(s, keep, m');
    assert s[1..][m'] == s[m' + 1];
    if keep(s[0]) {
      assert Filter(s, keep) == [s[0]] + rest;
      assert front == rest[..k];
      assert ([s[0]] + rest)[..k + 1] == [s[0]] + rest[..k];
    } else {
      assert Filter(s, keep) == rest;
      assert front == rest[..k + 1];
    }
  }

  lemma {:induction false} FilterConsPrefix<T>(s: seq<T>, keep: T -> bool, n: nat)
    requires n + 1 < |s|
    ensures Filter(s[..n + 2], keep) == (if keep(s[0]) then [s[0]] else []) + Filter(s[1..][..n + 1], keep)
  {
    var prefix := s[..n + 2];
    assert prefix[0] == s[0];
    assert prefix[1..] == s[1..][..n + 1];
  }

  /** Position of the first row that satisfies `p` (a `findUnique` when at
      most one row can satisfy it). */
  function FindIndex<T>(s: seq<T>, p: T -> bool): (r: Option<nat>)
    ensures r.Some? ==> r.value < |s| && p(s[r.value])
    ensures r.Some? ==> forall j :: 0 <= j < r.value ==> !p(s[j])
    ensures r.None? <==> forall j :: 0 <= j < |s| ==> !p(s[j])
    decreases |s|
  {
    if s == [] then None
    else if p(s[0]) then Some(0)
    else match FindIndex(s[1..], p)
      case None => None
      case Some(k) => Some(k + 1)
  }

  /** `take` on a list: at most n leading rows. */
  function Take<T>(s: seq<T>, n: nat): (r: seq<T>)
    ensures |r| <= n && |r| <= |s|
    ensures r == s[..|r|]
    ensures |r| == if n < |s| then n else |s|
  {
    if n < |s| then s[..n] else s
  }

  /** `skip` on a list: all but the first n rows. */
  function Skip<T>(s: seq<T>, n: nat): (r: seq<T>)
    ensures |r| == if n < |s| then |s| - n else 0
    ensures forall i :: 0 <= i < |r| ==> r[i] == s[i + n]
  {
    if n < |s| then s[n..] else []
  }
}
