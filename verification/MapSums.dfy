/**
 Sums over finite maps and sets, independent of the order in which the elements are visited: how they change when an
 element is added, removed or replaced, and when they count. Shared by the other modules.
 */
module MapSums {

  /** Some element of the set, as when Go ranges over a map. */
  method Pick<T(==)>(s: set<T>) returns (x: T)
    requires s != {}
    ensures x in s
  {
    x :| x in s;
  }

  /** One element moves from the elements still to visit to the visited ones. */
  lemma Visit<T>(all: set<T>, todo: set<T>, done: set<T>, x: T)
    requires todo !! done && todo + done == all && x in todo
    ensures x in all && x !in done
    ensures todo - {x} !! done + {x} && (todo - {x}) + (done + {x}) == all && |todo - {x}| < |todo|
  {
    assert (todo - {x}) + {x} == todo;
  }

  lemma SameElements<T(!new)>(a: set<T>, b: set<T>)
    requires forall x :: x in a <==> x in b
    ensures a == b
  {
  }

  ghost function SumMap<K, V>(m: map<K, V>, w: V -> nat): nat {
    if m == map[] then 0
    else
      var k :| k in m;
      w(m[k]) + SumMap(m - {k}, w)
  }

  lemma {:induction false} SumMapRemove<K, V>(m: map<K, V>, w: V -> nat, k: K)
    requires k in m
    ensures SumMap(m, w) == w(m[k]) + SumMap(m - {k}, w)
    decreases |m|
  {
    var p :| p in m && SumMap(m, w) == w(m[p]) + SumMap(m - {p}, w);
    if p != k {
      SumMapRemove(m - {p}, w, k);
      SumMapRemove(m - {k}, w, p);
      assert m - {p} - {k} == m - {k} - {p};
    }
  }

  lemma SumMapUpdate<K, V>(m: map<K, V>, w: V -> nat, k: K, v: V)
    ensures SumMap(m[k := v], w) == w(v) + SumMap(m - {k}, w)
  {
    SumMapRemove(m[k := v], w, k);
    assert m[k := v] - {k} == m - {k};
  }

  ghost function Sum<T>(s: set<T>, f: T -> int): int {
    if s == {} then 0
    else
      var x :| x in s;
      f(x) + Sum(s - {x}, f)
  }

  lemma {:induction false} SumRemove<T>(s: set<T>, f: T -> int, x: T)
    requires x in s
    ensures Sum(s, f) == f(x) + Sum(s - {x}, f)
    decreases |s|
  {
    var p :| p in s && Sum(s, f) == f(p) + Sum(s - {p}, f);
    if p != x {
      SumRemove(s - {p}, f, x);
      SumRemove(s - {x}, f, p);
      assert s - {p} - {x} == s - {x} - {p};
    }
  }

  lemma {:induction false} SumSame<T>(s: set<T>, f: T -> int, g: T -> int)
    requires forall x :: x in s ==> f(x) == g(x)
    ensures Sum(s, f) == Sum(s, g)
    decreases |s|
  {
    if s != {} {
      var x :| x in s;
      SumRemove(s, f, x);
      SumRemove(s, g, x);
      SumSame(s - {x}, f, g);
    }
  }

  lemma SumInsert<T>(s: set<T>, f: T -> int, x: T)
    requires x !in s
    ensures Sum(s + {x}, f) == Sum(s, f) + f(x)
  {
    SumRemove(s + {x}, f, x);
    assert s + {x} - {x} == s;
  }

  /** How a sum changes when one element is added or its summand changes. */
  lemma OneSummandChanges<T>(s: set<T>, p: T, f: T -> int, g: T -> int)
    requires forall x :: x in s && x != p ==> f(x) == g(x)
    ensures Sum(s + {p}, g) == Sum(s, f) + g(p) - if p in s then f(p) else 0
  {
    var rest := s - {p};
    SumInsert(rest, g, p);
    SumSame(rest, f, g);
    assert s + {p} == rest + {p};
    if p in s {
      SumInsert(rest, f, p);
      assert s == rest + {p};
    } else {
      assert s == rest;
    }
  }

  lemma {:induction false} CountBits<T>(s: set<T>, f: T -> int, ones: set<T>)
    requires forall x :: x in s ==> f(x) == if x in ones then 1 else 0
    requires ones <= s
    ensures Sum(s, f) == |ones|
    decreases |s|
  {
    if s != {} {
      var y :| y in s;
      SumRemove(s, f, y);
      CountBits(s - {y}, f, ones - {y});
    }
  }
}
