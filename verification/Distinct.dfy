/**
 Sequences without repetition, and counting over them: a sequence without repetition is a listing of the set of its
 elements, and two listings of one set are permutations of each other. Shared by the other modules.
 */
module Distinct {
  import opened MapSums
  import opened Sorting

  function Elems<T>(s: seq<T>): set<T> {
    set x | x in s
  }

  ghost predicate NoRepeats<T>(s: seq<T>) {
    forall i, j :: 0 <= i < j < |s| ==> s[i] != s[j]
  }

  lemma ElemsSplit<T>(s: seq<T>)
    requires s != []
    ensures Elems(s) == Elems(s[..|s| - 1]) + {s[|s| - 1]}
  {
    assert s == s[..|s| - 1] + [s[|s| - 1]];
  }

  lemma ElemsAppend<T>(s: seq<T>, x: T)
    ensures Elems(s + [x]) == Elems(s) + {x}
    ensures NoRepeats(s) && x !in s ==> NoRepeats(s + [x])
  {
    ElemsSplit(s + [x]);
    assert (s + [x])[..|s|] == s;
  }

  lemma RepeatsSplit<T>(s: seq<T>)
    requires s != []
    ensures NoRepeats(s) <==> NoRepeats(s[..|s| - 1]) && s[|s| - 1] !in Elems(s[..|s| - 1])
  {
    var n := |s| - 1;
    if s[n] in s[..n] {
      var i :| 0 <= i < n && s[..n][i] == s[n];
      assert s[i] == s[n];
    } else {
      assert forall i :: 0 <= i < n ==> s[i] == s[..n][i] && s[i] in s[..n];
    }
  }

  /** A sequence has no repetitions exactly when it is as long as its set of elements is large. */
  lemma {:induction false} NoRepeatsCounts<T>(s: seq<T>)
    ensures |Elems(s)| <= |s|
    ensures NoRepeats(s) <==> |Elems(s)| == |s|
    decreases |s|
  {
    if s != [] {
      var n := |s| - 1;
      NoRepeatsCounts(s[..n]);
      ElemsSplit(s);
      RepeatsSplit(s);
      if s[n] in Elems(s[..n]) {
        assert Elems(s) == Elems(s[..n]);
      }
    }
  }

  /** A permutation keeps the elements and the absence of repetitions. */
  lemma PermutationKeeps<T>(a: seq<T>, b: seq<T>)
    requires multiset(a) == multiset(b)
    ensures Elems(a) == Elems(b) && (NoRepeats(a) <==> NoRepeats(b))
  {
    assert forall x :: x in a <==> x in multiset(a);
    assert forall x :: x in b <==> x in multiset(b);
    SameLength(a, b);
    NoRepeatsCounts(a);
    NoRepeatsCounts(b);
  }

  /** Over a sequence without repetitions, a sum of bits is the size of the chosen subset. */
  lemma {:induction false} SumOfBits<T>(s: seq<T>, f: T -> int, ones: set<T>)
    requires NoRepeats(s) && ones <= Elems(s)
    requires forall x :: x in s ==> f(x) == if x in ones then 1 else 0
    ensures SumSeq(s, f) == |ones|
    decreases |s|
  {
    if s != [] {
      var n := |s| - 1;
      ElemsSplit(s);
      RepeatsSplit(s);
      SumOfBits(s[..n], f, ones - {s[n]});
      if s[n] in ones {
        assert ones == (ones - {s[n]}) + {s[n]};
      } else {
        assert ones == ones - {s[n]};
      }
    }
  }

  lemma {:induction false} OccursOnce<T>(s: seq<T>, x: T)
    requires NoRepeats(s)
    ensures multiset(s)[x] == if x in Elems(s) then 1 else 0
    decreases |s|
  {
    if s != [] {
      var n := |s| - 1;
      ElemsSplit(s);
      RepeatsSplit(s);
      OccursOnce(s[..n], x);
      assert s == s[..n] + [s[n]];
    }
  }

  /** Two sequences without repetitions and with the same elements are permutations of each other. */
  lemma SameElemsPermute<T(!new)>(a: seq<T>, b: seq<T>)
    requires NoRepeats(a) && NoRepeats(b) && Elems(a) == Elems(b)
    ensures multiset(a) == multiset(b)
  {
    forall x
      ensures multiset(a)[x] == multiset(b)[x]
    {
      OccursOnce(a, x);
      OccursOnce(b, x);
    }
  }

  /** The elements in whatever order, as when Go ranges over a map. */
  method Listed<T(==)>(s: set<T>) returns (q: seq<T>)
    ensures NoRepeats(q) && Elems(q) == s
  {
    q := [];
    var todo := s;
    while todo != {}
      invariant NoRepeats(q) && Elems(q) !! todo && Elems(q) + todo == s
      decreases |todo|
    {
      var x := Pick(todo);
      Visit(s, todo, Elems(q), x);
      ElemsAppend(q, x);
      q := q + [x];
      todo := todo - {x};
    }
  }
}
