/**
 What the judge relies on in Go's sort.Slice and sort.Ints: a sorted permutation, not necessarily a stable one, and
 that sums over a sequence and its elements do not change when it is sorted. Shared by the other modules.
 */
module Sorting {

  ghost predicate TotalPreorder<T(!new)>(before: (T, T) -> bool) {
    && (forall x, y :: before(x, y) || before(y, x))
    && (forall x, y, z :: before(x, y) && before(y, z) ==> before(x, z))
  }

  ghost predicate SortedBy<T>(s: seq<T>, before: (T, T) -> bool) {
    forall i, j :: 0 <= i < j < |s| ==> before(s[i], s[j])
  }

  method Sort<T(!new)>(s: seq<T>, before: (T, T) -> bool) returns (r: seq<T>)
    requires TotalPreorder(before)
    ensures multiset(r) == multiset(s) && SortedBy(r, before)
  {
    r := [];
    for n := 0 to |s|
      invariant multiset(r) == multiset(s[..n]) && SortedBy(r, before)
    {
      assert s[..n + 1] == s[..n] + [s[n]];
      r := Insert(r, before, s[n]);
    }
    assert s[..|s|] == s;
  }

  method Insert<T(!new)>(s: seq<T>, before: (T, T) -> bool, x: T) returns (r: seq<T>)
    requires TotalPreorder(before) && SortedBy(s, before)
    ensures multiset(r) == multiset(s) + multiset{x} && SortedBy(r, before)
  {
    var i := |s|;
    while i > 0 && !before(s[i - 1], x)
      invariant 0 <= i <= |s|
      invariant forall k :: i <= k < |s| ==> before(x, s[k])
    {
      i := i - 1;
    }
    assert s == s[..i] + s[i..];
    Inserted(s, before, i, x);
    r := s[..i] + [x] + s[i..];
  }

  lemma Inserted<T(!new)>(r: seq<T>, before: (T, T) -> bool, i: nat, x: T)
    requires TotalPreorder(before) && SortedBy(r, before) && i <= |r|
    requires i > 0 ==> before(r[i - 1], x)
    requires forall k :: i <= k < |r| ==> before(x, r[k])
    ensures SortedBy(r[..i] + [x] + r[i..], before)
  {
    forall k | 0 <= k < i
      ensures before(r[k], x)
    {
      assert k < i - 1 ==> before(r[k], r[i - 1]);
    }
  }

  ghost predicate StrictlyBy<T>(s: seq<T>, key: T -> int) {
    forall i, j :: 0 <= i < j < |s| ==> key(s[i]) < key(s[j])
  }

  lemma WithoutLast<T>(a: seq<T>)
    requires a != []
    ensures a == a[..|a| - 1] + [a[|a| - 1]]
    ensures multiset(a[..|a| - 1]) == multiset(a) - multiset{a[|a| - 1]}
  {
    assert a == a[..|a| - 1] + [a[|a| - 1]];
  }

  lemma WithoutSameLast<T>(a: seq<T>, b: seq<T>)
    requires multiset(a) == multiset(b) && a != [] && b != [] && a[|a| - 1] == b[|b| - 1]
    ensures multiset(a[..|a| - 1]) == multiset(b[..|b| - 1])
  {
    WithoutLast(a);
    WithoutLast(b);
  }

  ghost predicate WeaklyBy<T>(s: seq<T>, key: T -> int) {
    forall i, j :: 0 <= i < j < |s| ==> key(s[i]) <= key(s[j])
  }

  lemma SameLargest<T>(a: seq<T>, b: seq<T>, key: T -> int)
    requires multiset(a) == multiset(b) && a != [] && b != []
    requires WeaklyBy(a, key) && StrictlyBy(b, key)
    ensures a[|a| - 1] == b[|b| - 1]
  {
    var x, y := a[|a| - 1], b[|b| - 1];
    assert x in multiset(b) && y in multiset(a);
    var i :| 0 <= i < |a| && a[i] == y;
    var j :| 0 <= j < |b| && b[j] == x;
    assert key(y) <= key(x) && (j < |b| - 1 ==> key(x) < key(y));
  }

  /** Sorting elements with different keys leaves no choice. */
  lemma {:induction false} SortedIsStrict<T>(a: seq<T>, b: seq<T>, key: T -> int)
    requires multiset(a) == multiset(b) && WeaklyBy(a, key) && StrictlyBy(b, key)
    ensures a == b
    decreases |a|
  {
    SameLength(a, b);
    if a != [] {
      SameLargest(a, b, key);
      WithoutSameLast(a, b);
      SortedIsStrict(a[..|a| - 1], b[..|b| - 1], key);
    }
  }

  lemma SameLength<T>(a: seq<T>, b: seq<T>)
    requires multiset(a) == multiset(b)
    ensures |a| == |b|
  {
    assert |multiset(a)| == |a| && |multiset(b)| == |b|;
  }

  // ---------- Sums over sequences do not depend on the order ----------

  function SumSeq<T>(s: seq<T>, f: T -> int): int {
    if s == [] then 0 else SumSeq(s[..|s| - 1], f) + f(s[|s| - 1])
  }

  lemma {:induction false} SumAppend<T>(a: seq<T>, b: seq<T>, f: T -> int)
    ensures SumSeq(a + b, f) == SumSeq(a, f) + SumSeq(b, f)
    decreases |b|
  {
    if b == [] {
      assert a + b == a;
    } else {
      assert (a + b)[..|a + b| - 1] == a + b[..|b| - 1];
      SumAppend(a, b[..|b| - 1], f);
    }
  }

  lemma SumOfOne<T>(x: T, f: T -> int)
    ensures SumSeq([x], f) == f(x)
  {
    assert [x][..0] == [];
  }

  lemma SumBetween<T>(a: seq<T>, x: T, b: seq<T>, f: T -> int)
    ensures SumSeq(a + [x] + b, f) == SumSeq(a + b, f) + f(x)
  {
    SumAppend(a + [x], b, f);
    SumAppend(a, [x], f);
    SumAppend(a, b, f);
    SumOfOne(x, f);
  }

  lemma ElementsBetween<T>(a: seq<T>, x: T, b: seq<T>)
    ensures multiset(a + b) == multiset(a + [x] + b) - multiset{x}
  {
  }

  /** An element of s, and what stands before and behind it. */
  lemma Around<T>(s: seq<T>, x: T) returns (a: seq<T>, b: seq<T>)
    requires x in s
    ensures s == a + [x] + b
  {
    var k :| 0 <= k < |s| && s[k] == x;
    a, b := s[..k], s[k + 1..];
  }

  lemma {:induction false} SumPermutation<T>(a: seq<T>, b: seq<T>, f: T -> int)
    requires multiset(a) == multiset(b)
    ensures SumSeq(a, f) == SumSeq(b, f)
    decreases |a|
  {
    SameLength(a, b);
    if a != [] {
      var n := |a| - 1;
      WithoutLast(a);
      assert a[n] in multiset(b);
      var c, d := Around(b, a[n]);
      ElementsBetween(c, a[n], d);
      SumBetween(c, a[n], d, f);
      SumPermutation(a[..n], c + d, f);
    }
  }

  lemma {:induction false} SumPointwise<T, U>(a: seq<T>, b: seq<U>, f: T -> int, g: U -> int)
    requires |a| == |b| && forall i :: 0 <= i < |a| ==> f(a[i]) == g(b[i])
    ensures SumSeq(a, f) == SumSeq(b, g)
    decreases |a|
  {
    if a != [] {
      SumPointwise(a[..|a| - 1], b[..|b| - 1], f, g);
    }
  }
}
