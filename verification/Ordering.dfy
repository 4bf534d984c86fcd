/**
 Sorting by a caller's "less" function, as sort.Slice does, and why the result
 is unique once the keys are.
 */
module Ordering {

  /** No element belongs strictly before an earlier one. */
  ghost predicate Ordered<T(!new)>(less: (T, T) -> bool, s: seq<T>) {
    forall i, j | 0 <= i < j < |s| :: !less(s[j], s[i])
  }

  /** Each element belongs strictly before every later one. */
  ghost predicate Increasing<T(!new)>(less: (T, T) -> bool, s: seq<T>) {
    forall i, j | 0 <= i < j < |s| :: less(s[i], s[j])
  }

  /** What sort.Slice asks of its comparison: a strict weak order. */
  ghost predicate StrictWeak<T(!new)>(less: (T, T) -> bool) {
    && (forall x, y | less(x, y) :: !less(y, x))
    && (forall x, y, z | !less(x, y) && !less(y, z) :: !less(x, z))
  }

  /**
   sort.Slice: some ordered permutation of the input. Callers see only this
   contract, so nothing they prove depends on which permutation it is.
   */
  method Sort<T(!new, ==)>(less: (T, T) -> bool, s: seq<T>) returns (r: seq<T>)
    requires StrictWeak(less)
    ensures multiset(r) == multiset(s)
    ensures Ordered(less, r)
  {
    r := [];
    for i := 0 to |s|
      invariant multiset(r) == multiset(s[..i])
      invariant Ordered(less, r)
    {
      assert s[..i + 1] == s[..i] + [s[i]];
      r := Insert(less, r, s[i]);
    }
    assert s[..|s|] == s;
  }

  method Insert<T(!new, ==)>(less: (T, T) -> bool, s: seq<T>, x: T) returns (r: seq<T>)
    requires StrictWeak(less) && Ordered(less, s)
    ensures multiset(r) == multiset(s) + multiset{x}
    ensures Ordered(less, r)
  {
    var n := |s|;
    while n > 0 && less(x, s[n - 1])
      invariant 0 <= n <= |s|
      invariant forall k | n <= k < |s| :: less(x, s[k])
    {
      n := n - 1;
    }
    r := s[..n] + [x] + s[n..];
    assert s == s[..n] + s[n..];
    InsertedOrdered(less, s[..n], x, s[n..]);
  }

  lemma InsertedOrdered<T(!new)>(less: (T, T) -> bool, a: seq<T>, x: T, b: seq<T>)
    requires StrictWeak(less) && Ordered(less, a + b)
    requires a != [] ==> !less(x, a[|a| - 1])
    requires forall k | 0 <= k < |b| :: less(x, b[k])
    ensures Ordered(less, a + [x] + b)
  {
    var s, r := a + b, a + [x] + b;
    forall i, j | 0 <= i < j < |r| ensures !less(r[j], r[i]) {
      if j < |a| {
        assert r[i] == s[i] && r[j] == s[j];
      } else if j == |a| {
        var last := |a| - 1;
        assert r[i] == s[i] && s[last] == a[last];
        assert !less(s[last], s[i]);
      } else if i == |a| {
        assert less(x, b[j - |a| - 1]);
      } else {
        assert r[j] == s[j - 1] && r[i] == s[if i < |a| then i else i - 1];
      }
    }
  }

  /** An increasing sequence is determined by its members. */
  lemma {:induction false} IncreasingUnique<T(!new)>(less: (T, T) -> bool, a: seq<T>, b: seq<T>)
    requires StrictWeak(less)
    requires Increasing(less, a) && Increasing(less, b)
    requires forall x :: x in a <==> x in b
    ensures a == b
  {
    assert a != [] ==> a[0] in b;
    assert b != [] ==> b[0] in a;
    if a != [] {
      assert a[0] in b && b[0] in a;
      assert a[0] == b[0];
      forall x ensures x in a[1..] <==> x in b[1..] {
        assert !less(a[0], a[0]);
        assert x in a[1..] <==> x in a && x != a[0] by { TailMembers(less, a, x); }
        assert x in b[1..] <==> x in b && x != b[0] by { TailMembers(less, b, x); }
      }
      IncreasingUnique(less, a[1..], b[1..]);
      assert a == [a[0]] + a[1..] && b == [b[0]] + b[1..];
    }
  }

  lemma TailMembers<T(!new)>(less: (T, T) -> bool, a: seq<T>, x: T)
    requires StrictWeak(less) && Increasing(less, a) && a != []
    ensures x in a[1..] <==> x in a && x != a[0]
  {
    if x in a && x != a[0] {
      var i :| 0 <= i < |a| && a[i] == x;
      assert a[1..][i - 1] == x;
    }
    if x in a[1..] {
      var i :| 0 <= i < |a[1..]| && a[1..][i] == x;
      assert a[i + 1] == x && less(a[0], a[i + 1]);
      assert !less(a[0], a[0]);
    }
  }

  /**
   Ordered plus distinct keys is increasing: with no two elements equivalent,
   an unstable sort has only one possible result.
   */
  lemma OrderedDistinct<T(!new)>(less: (T, T) -> bool, s: seq<T>)
    requires Ordered(less, s)
    requires forall i, j | 0 <= i < j < |s| :: less(s[i], s[j]) || less(s[j], s[i])
    ensures Increasing(less, s)
  {
  }

  /** A permutation keeps the pairwise-comparable property. */
  lemma PermutedComparable<T(!new)>(less: (T, T) -> bool, s: seq<T>, r: seq<T>)
    requires StrictWeak(less)
    requires multiset(s) == multiset(r)
    requires forall i, j | 0 <= i < j < |s| :: less(s[i], s[j]) || less(s[j], s[i])
    ensures forall i, j | 0 <= i < j < |r| :: less(r[i], r[j]) || less(r[j], r[i])
    ensures forall x :: x in r <==> x in s
  {
    forall x ensures x in r <==> x in s {
      assert x in r <==> x in multiset(r);
      assert x in s <==> x in multiset(s);
    }
    forall i, j | 0 <= i < j < |r|
      ensures less(r[i], r[j]) || less(r[j], r[i])
    {
      assert r[i] in s && r[j] in s;
      var k :| 0 <= k < |s| && s[k] == r[i];
      var l :| 0 <= l < |s| && s[l] == r[j];
      if k == l {
        // One occurrence in s cannot fill two places of r.
        TwoOccurrences(r, i, j);
        SingleOccurrence(less, s, k);
        assert false;
      }
    }
  }

  lemma TwoOccurrences<T>(r: seq<T>, i: nat, j: nat)
    requires i < j < |r| && r[i] == r[j]
    ensures multiset(r)[r[i]] >= 2
  {
    assert r == r[..i] + [r[i]] + r[i + 1..j] + [r[j]] + r[j + 1..];
  }

  lemma SingleOccurrence<T(!new)>(less: (T, T) -> bool, s: seq<T>, k: nat)
    requires StrictWeak(less) && k < |s|
    requires forall i, j | 0 <= i < j < |s| :: less(s[i], s[j]) || less(s[j], s[i])
    ensures multiset(s)[s[k]] == 1
  {
    assert s == s[..k] + [s[k]] + s[k + 1..];
    assert s[k] !in s[..k] && s[k] !in s[k + 1..] by {
      assert !less(s[k], s[k]);
    }
    assert s[k] !in multiset(s[..k]) && s[k] !in multiset(s[k + 1..]);
  }
}
