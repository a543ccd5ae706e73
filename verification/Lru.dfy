/** The specification of the LRU cache: a sequence of entries, most recently used first. */
module Lru {
  import opened Distinct

  function KeysOf<K, V>(s: seq<(K, V)>): seq<K> {
    seq(|s|, i requires 0 <= i < |s| => s[i].0)
  }

  ghost predicate Unique<K, V>(s: seq<(K, V)>) {
    forall i, j :: 0 <= i < j < |s| ==> s[i].0 != s[j].0
  }

  /** The position of the key, or the length of s when the key is absent. */
  function Find<K(==), V>(s: seq<(K, V)>, k: K): (i: nat)
    ensures i <= |s|
    ensures i < |s| ==> s[i].0 == k
    ensures forall j :: 0 <= j < i ==> s[j].0 != k
  {
    if s == [] then 0
    else
      var i := Find(s[..|s| - 1], k);
      if i < |s| - 1 || s[|s| - 1].0 == k then i else |s|
  }

  function Without<T>(s: seq<T>, i: nat): seq<T>
    requires i < |s|
  {
    s[..i] + s[i + 1..]
  }

  /** The element at i leaves its place and x comes first. */
  function Front<T>(s: seq<T>, i: nat, x: T): seq<T>
    requires i < |s|
  {
    [x] + Without(s, i)
  }

  datatype Op<K, V> = Get(k: K) | Put(k: K, v: V) | Delete(k: K) | Clear

  /** The cache after an operation: a use moves the key to the front, a new key may push the last one out. */
  function Next<K(==), V>(capacity: int, s: seq<(K, V)>, op: Op<K, V>): seq<(K, V)> {
    match op
    case Get(k) =>
      var i := Find(s, k);
      if i < |s| then Front(s, i, s[i]) else s
    case Put(k, v) =>
      var i := Find(s, k);
      if i < |s| then Front(s, i, (k, v))
      else if |s| + 1 > capacity then ([(k, v)] + s)[..|s|]
      else [(k, v)] + s
    case Delete(k) =>
      var i := Find(s, k);
      if i < |s| then Without(s, i) else s
    case Clear => []
  }

  /** The keys an operation reports to onDelete. */
  function Dropped<K(==), V>(capacity: int, s: seq<(K, V)>, op: Op<K, V>): multiset<K> {
    match op
    case Get(_) => multiset{}
    case Put(k, v) =>
      if Find(s, k) == |s| && |s| + 1 > capacity then multiset{([(k, v)] + s)[|s|].0} else multiset{}
    case Delete(k) => if Find(s, k) < |s| then multiset{k} else multiset{}
    case Clear => multiset(KeysOf(s))
  }

  lemma PutOfNewKey<K, V>(capacity: int, s: seq<(K, V)>, k: K, v: V)
    requires Find(s, k) == |s|
    ensures var more, op := [(k, v)] + s, Op.Put(k, v);
      if |more| <= capacity then Next(capacity, s, op) == more && Dropped(capacity, s, op) == multiset([])
      else Next(capacity, s, op) == more[..|more| - 1] && Dropped(capacity, s, op) == multiset([more[|more| - 1].0])
  {
  }

  // ---------- Runs ----------

  function Bound(capacity: int): nat {
    if capacity >= 0 then capacity else 0
  }

  function Run<K(==), V>(capacity: int, ops: seq<Op<K, V>>): seq<(K, V)> {
    if ops == [] then [] else Next(capacity, Run(capacity, ops[..|ops| - 1]), ops[|ops| - 1])
  }

  predicate Uses<K(==), V>(op: Op<K, V>, k: K) {
    (op.Get? || op.Put?) && op.k == k
  }

  /** The position after the last Get or Put of the key, 0 when there is none. */
  function LastUse<K(==), V>(ops: seq<Op<K, V>>, k: K): nat {
    if ops == [] then 0
    else if Uses(ops[|ops| - 1], k) then |ops|
    else LastUse(ops[..|ops| - 1], k)
  }

  /** The position after the last Put of the key, 0 when there is none. */
  function LastPut<K(==), V>(ops: seq<Op<K, V>>, k: K): nat {
    if ops == [] then 0
    else if ops[|ops| - 1].Put? && ops[|ops| - 1].k == k then |ops|
    else LastPut(ops[..|ops| - 1], k)
  }

  /** The cache after ops: distinct keys in order of last use, each with the value of its last Put, within capacity. */
  ghost predicate ByLastUse<K, V>(capacity: int, ops: seq<Op<K, V>>, s: seq<(K, V)>) {
    && |s| <= Bound(capacity)
    && (forall i, j :: 0 <= i < j < |s| ==> LastUse(ops, s[i].0) > LastUse(ops, s[j].0))
    && (forall i :: 0 <= i < |s| ==> HasLastValue(ops, s[i]))
  }

  ghost predicate HasLastValue<K, V>(ops: seq<Op<K, V>>, x: (K, V)) {
    var p := LastPut(ops, x.0);
    0 < p <= |ops| && ops[p - 1] == Op.Put(x.0, x.1)
  }

  lemma {:induction false} RunIsByLastUse<K, V>(capacity: int, ops: seq<Op<K, V>>)
    ensures ByLastUse(capacity, ops, Run(capacity, ops))
    decreases |ops|
  {
    if ops != [] {
      var n := |ops| - 1;
      RunIsByLastUse(capacity, ops[..n]);
      assert ops == ops[..n] + [ops[n]];
      StepByLastUse(capacity, ops[..n], Run(capacity, ops[..n]), ops[n]);
    }
  }

  lemma {:induction false} LastUseIsBefore<K, V>(ops: seq<Op<K, V>>, k: K)
    ensures LastUse(ops, k) <= |ops|
    decreases |ops|
  {
    if ops != [] {
      LastUseIsBefore(ops[..|ops| - 1], k);
    }
  }

  lemma OneMoreOp<K, V>(ops: seq<Op<K, V>>, op: Op<K, V>, k: K)
    ensures LastUse(ops + [op], k) == if Uses(op, k) then |ops| + 1 else LastUse(ops, k)
    ensures LastPut(ops + [op], k) == if op.Put? && op.k == k then |ops| + 1 else LastPut(ops, k)
  {
    assert (ops + [op])[..|ops|] == ops;
  }

  lemma OneMoreItem<K, V>(ops: seq<Op<K, V>>, op: Op<K, V>, x: (K, V))
    requires HasLastValue(ops, x) && !(op.Put? && op.k == x.0)
    ensures HasLastValue(ops + [op], x)
  {
    OneMoreOp(ops, op, x.0);
  }

  /** The items keep their order when those of other keys stay and the used key, if any, comes first. */
  lemma UsedKeyFirst<K, V>(capacity: int, ops: seq<Op<K, V>>, s: seq<(K, V)>, op: Op<K, V>, i: nat, x: (K, V))
    requires ByLastUse(capacity, ops, s) && i < |s| && i == Find(s, x.0)
    requires (op == Op.Get(x.0) && x == s[i]) || op == Op.Put(x.0, x.1)
    ensures ByLastUse(capacity, ops + [op], Front(s, i, x))
  {
    var next, more := Front(s, i, x), ops + [op];
    forall j | 0 <= j < |next|
      ensures HasLastValue(more, next[j])
    {
      UsedItem(capacity, ops, s, op, i, x, j);
    }
    forall j, l | 0 <= j < l < |next|
      ensures LastUse(more, next[j].0) > LastUse(more, next[l].0)
    {
      UsedItem(capacity, ops, s, op, i, x, j);
      UsedItem(capacity, ops, s, op, i, x, l);
      LastUseIsBefore(ops, next[l].0);
    }
  }

  lemma UsedItem<K, V>(capacity: int, ops: seq<Op<K, V>>, s: seq<(K, V)>, op: Op<K, V>, i: nat, x: (K, V), j: nat)
    requires ByLastUse(capacity, ops, s) && i < |s| && i == Find(s, x.0) && j < |s|
    requires (op == Op.Get(x.0) && x == s[i]) || op == Op.Put(x.0, x.1)
    ensures var next := Front(s, i, x);
      && |next| == |s| && HasLastValue(ops + [op], next[j]) && (j > 0 ==> next[j] == s[if j <= i then j - 1 else j])
      && LastUse(ops + [op], next[j].0) == if j == 0 then |ops| + 1 else LastUse(ops, next[j].0)
  {
    FrontAt(s, i, x, j);
    var y := Front(s, i, x)[j];
    OneMoreOp(ops, op, y.0);
    if j > 0 || op.Get? {
      assert HasLastValue(ops, y);
      OneMoreItem(ops, op, y);
    }
  }

  /** A subsequence of the items stays in order when the operation uses none of its keys. */
  lemma KeptInOrder<K, V>(capacity: int, ops: seq<Op<K, V>>, s: seq<(K, V)>, op: Op<K, V>,
                          next: seq<(K, V)>, at: nat -> nat)
    requires ByLastUse(capacity, ops, s) && |next| <= |s|
    requires forall j: nat :: j < |next| ==> at(j) < |s| && next[j] == s[at(j)] && !Uses(op, next[j].0)
    requires forall j: nat, l: nat :: j < l < |next| ==> at(j) < at(l)
    ensures ByLastUse(capacity, ops + [op], next)
  {
    forall j: nat | j < |next|
      ensures HasLastValue(ops + [op], next[j])
      ensures LastUse(ops + [op], next[j].0) == LastUse(ops, s[at(j)].0)
    {
      OneMoreOp(ops, op, next[j].0);
      OneMoreItem(ops, op, next[j]);
    }
  }

  lemma PushInOrder<K, V>(capacity: int, ops: seq<Op<K, V>>, s: seq<(K, V)>, k: K, v: V)
    requires ByLastUse(capacity, ops, s) && Find(s, k) == |s|
    ensures ByLastUse(|s| + 1, ops + [Op.Put(k, v)], [(k, v)] + s)
  {
    var op, next := Op.Put(k, v), [(k, v)] + s;
    forall j | 0 <= j < |next|
      ensures HasLastValue(ops + [op], next[j])
    {
      PushedItem(capacity, ops, s, k, v, j);
    }
    forall j, l | 0 <= j < l < |next|
      ensures LastUse(ops + [op], next[j].0) > LastUse(ops + [op], next[l].0)
    {
      PushedItem(capacity, ops, s, k, v, j);
      PushedItem(capacity, ops, s, k, v, l);
    }
  }

  lemma PushedItem<K, V>(capacity: int, ops: seq<Op<K, V>>, s: seq<(K, V)>, k: K, v: V, j: nat)
    requires ByLastUse(capacity, ops, s) && Find(s, k) == |s| && j <= |s|
    ensures var more, x := ops + [Op.Put(k, v)], ([(k, v)] + s)[j];
      && HasLastValue(more, x) && (j > 0 ==> x == s[j - 1] && LastUse(ops, x.0) <= |ops|)
      && LastUse(more, x.0) == if j == 0 then |more| else LastUse(ops, x.0)
  {
    var x := ([(k, v)] + s)[j];
    OneMoreOp(ops, Op.Put(k, v), x.0);
    if j > 0 {
      assert x == s[j - 1] && HasLastValue(ops, x);
      OneMoreItem(ops, Op.Put(k, v), x);
      LastUseIsBefore(ops, x.0);
    }
  }

  lemma PutNewByLastUse<K, V>(capacity: int, ops: seq<Op<K, V>>, s: seq<(K, V)>, k: K, v: V)
    requires ByLastUse(capacity, ops, s) && Find(s, k) == |s|
    ensures ByLastUse(capacity, ops + [Op.Put(k, v)], Next(capacity, s, Op.Put(k, v)))
  {
    PushInOrder(capacity, ops, s, k, v);
    PutOfNewKey(capacity, s, k, v);
  }

  lemma DeleteByLastUse<K, V>(capacity: int, ops: seq<Op<K, V>>, s: seq<(K, V)>, k: K)
    requires ByLastUse(capacity, ops, s)
    ensures ByLastUse(capacity, ops + [Op.Delete(k)], Next(capacity, s, Op.Delete(k)))
  {
    var i, next := Find(s, k), Next(capacity, s, Op.Delete(k));
    KeptInOrder(capacity, ops, s, Op.Delete(k), next, (j: nat) => if j < i then j else j + 1);
  }

  lemma GetByLastUse<K, V>(capacity: int, ops: seq<Op<K, V>>, s: seq<(K, V)>, k: K)
    requires ByLastUse(capacity, ops, s)
    ensures ByLastUse(capacity, ops + [Op.Get(k)], Next(capacity, s, Op.Get(k)))
  {
    var i := Find(s, k);
    if i < |s| {
      UsedKeyFirst(capacity, ops, s, Op.Get(k), i, s[i]);
    } else {
      KeptInOrder(capacity, ops, s, Op.Get(k), s, (j: nat) => j);
    }
  }

  lemma StepByLastUse<K, V>(capacity: int, ops: seq<Op<K, V>>, s: seq<(K, V)>, op: Op<K, V>)
    requires ByLastUse(capacity, ops, s)
    ensures ByLastUse(capacity, ops + [op], Next(capacity, s, op))
  {
    match op
    case Get(k) => GetByLastUse(capacity, ops, s, k);
    case Put(k, v) =>
      if Find(s, k) < |s| {
        UsedKeyFirst(capacity, ops, s, op, Find(s, k), (k, v));
      } else {
        PutNewByLastUse(capacity, ops, s, k, v);
      }
    case Delete(k) => DeleteByLastUse(capacity, ops, s, k);
    case Clear =>
  }

  /** Get and Put never report a key that was used more recently than one that stays. */
  lemma EvictsLeastRecent<K, V>(capacity: int, ops: seq<Op<K, V>>, k: K, v: V, gone: K)
    requires gone in Dropped(capacity, Run(capacity, ops), Op.Put(k, v))
    ensures forall x :: x in Run(capacity, ops) && x.0 != gone ==> LastUse(ops, gone) < LastUse(ops, x.0)
    ensures if capacity > 0 then gone in KeysOf(Run(capacity, ops)) else gone == k
  {
    RunIsByLastUse(capacity, ops);
    var s := Run(capacity, ops);
    if capacity > 0 {
      var last := |s| - 1;
      assert gone == s[last].0 == KeysOf(s)[last];
    }
  }

  /** The key a Put brings into the cache. */
  function Added<K(==), V>(s: seq<(K, V)>, op: Op<K, V>): multiset<K> {
    if op.Put? && Find(s, op.k) == |s| then multiset{op.k} else multiset{}
  }

  function AllAdded<K(==), V>(capacity: int, ops: seq<Op<K, V>>): multiset<K> {
    if ops == [] then multiset{}
    else
      var before := ops[..|ops| - 1];
      AllAdded(capacity, before) + Added(Run(capacity, before), ops[|ops| - 1])
  }

  function AllDropped<K(==), V>(capacity: int, ops: seq<Op<K, V>>): multiset<K> {
    if ops == [] then multiset{}
    else
      var before := ops[..|ops| - 1];
      AllDropped(capacity, before) + Dropped(capacity, Run(capacity, before), ops[|ops| - 1])
  }

  lemma KeysSplit<K, V>(s: seq<(K, V)>, i: nat)
    requires i < |s|
    ensures multiset(KeysOf(s)) == multiset(KeysOf(Without(s, i))) + multiset{s[i].0}
  {
    assert KeysOf(s) == KeysOf(s[..i]) + [s[i].0] + KeysOf(s[i + 1..]);
    assert KeysOf(Without(s, i)) == KeysOf(s[..i]) + KeysOf(s[i + 1..]);
  }

  lemma KeysPushed<K, V>(s: seq<(K, V)>, x: (K, V))
    ensures multiset(KeysOf([x] + s)) == multiset(KeysOf(s)) + multiset{x.0}
  {
    KeysSplit([x] + s, 0);
    assert Without([x] + s, 0) == s;
  }

  /** Every key that comes in or is there either stays or is reported, once. */
  lemma StepBalances<K, V>(capacity: int, s: seq<(K, V)>, op: Op<K, V>)
    ensures multiset(KeysOf(s)) + Added(s, op) == multiset(KeysOf(Next(capacity, s, op))) + Dropped(capacity, s, op)
  {
    if op.Clear? {
      assert KeysOf(Next(capacity, s, op)) == [];
    } else {
      var i := Find(s, op.k);
      if i < |s| {
        KeysSplit(s, i);
        if op.Put? {
          KeysPushed(Without(s, i), (op.k, op.v));
        } else {
          KeysPushed(Without(s, i), s[i]);
        }
      } else if op.Put? {
        KeysPushed(s, (op.k, op.v));
        var more := [(op.k, op.v)] + s;
        KeysSplit(more, |s|);
        assert Without(more, |s|) == more[..|s|];
      }
    }
  }

  lemma Regroup<K>(added: multiset<K>, more: multiset<K>, keys: multiset<K>,
                   dropped: multiset<K>, keys': multiset<K>, drop: multiset<K>)
    requires added == keys + dropped && keys + more == keys' + drop
    ensures added + more == keys' + (dropped + drop)
  {
    assert keys + dropped + more == (keys + more) + dropped;
    assert (keys' + drop) + dropped == keys' + (dropped + drop);
  }

  /** Over a run, onDelete gets exactly the keys that came in and did not stay, once for each time they came. */
  lemma {:induction false} RunBalances<K, V>(capacity: int, ops: seq<Op<K, V>>)
    ensures AllAdded(capacity, ops) == multiset(KeysOf(Run(capacity, ops))) + AllDropped(capacity, ops)
    decreases |ops|
  {
    if ops == [] {
      assert KeysOf(Run(capacity, ops)) == [];
    } else {
      var n := |ops| - 1;
      var s, op := Run(capacity, ops[..n]), ops[n];
      RunBalances(capacity, ops[..n]);
      StepBalances(capacity, s, op);
      Regroup(AllAdded(capacity, ops[..n]), Added(s, op), multiset(KeysOf(s)), AllDropped(capacity, ops[..n]),
              multiset(KeysOf(Next(capacity, s, op))), Dropped(capacity, s, op));
    }
  }

  // ---------- A map into the nodes of a list ----------

  /** The map leads from each key to the node that stands where the key's item stands. */
  ghost predicate Indexes<K, V, E>(cache: map<K, E>, nodes: seq<E>, items: seq<(K, V)>) {
    && |nodes| == |items| && Unique(items)
    && (forall i :: 0 <= i < |items| ==> items[i].0 in cache && cache[items[i].0] == nodes[i])
    && (forall k :: k in cache ==> Find(items, k) < |items|)
  }

  lemma FrontAt<T>(s: seq<T>, i: nat, x: T, j: nat)
    requires i < |s| && j < |s|
    ensures |Front(s, i, x)| == |s|
    ensures Front(s, i, x)[j] == if j == 0 then x else if j <= i then s[j - 1] else s[j]
  {
  }

  lemma WithoutAt<T>(s: seq<T>, i: nat, j: nat)
    requires i < |s| && j < |s| - 1
    ensures Without(s, i)[j] == s[if j < i then j else j + 1]
  {
  }

  lemma FrontFirst<T>(s: seq<T>)
    requires s != []
    ensures Front(s, 0, s[0]) == s
  {
  }

  lemma FrontSet<T>(s: seq<T>, i: nat, x: T, y: T)
    requires i < |s|
    ensures Front(s, i, x)[0 := y] == Front(s, i, y)
  {
  }

  lemma WithoutKeepsApart<T>(s: seq<T>, i: nat)
    requires NoRepeats(s) && i < |s|
    ensures NoRepeats(Without(s, i)) && s[i] !in Without(s, i)
  {
    assert forall j :: 0 <= j < |s| - 1 ==> Without(s, i)[j] == s[if j < i then j else j + 1];
  }

  lemma UniqueFront<K, V>(s: seq<(K, V)>, i: nat, x: (K, V))
    requires Unique(s) && i < |s| && x.0 == s[i].0
    ensures Unique(Front(s, i, x))
  {
    forall j, l | 0 <= j < l < |s|
      ensures Front(s, i, x)[j].0 != Front(s, i, x)[l].0
    {
      FrontAt(s, i, x, j);
      FrontAt(s, i, x, l);
    }
  }

  lemma IndexesFront<K, V, E>(cache: map<K, E>, nodes: seq<E>, items: seq<(K, V)>, i: nat, v: V,
                             nodes': seq<E>, items': seq<(K, V)>)
    requires Indexes(cache, nodes, items) && i < |items|
    requires nodes' == Front(nodes, i, nodes[i]) && items' == Front(items, i, (items[i].0, v))
    ensures Indexes(cache, nodes', items')
  {
    UniqueFront(items, i, (items[i].0, v));
    forall j | 0 <= j < |items|
      ensures items'[j].0 in cache && cache[items'[j].0] == nodes'[j]
    {
      FrontAt(items, i, (items[i].0, v), j);
      FrontAt(nodes, i, nodes[i], j);
    }
    forall k | k in cache
      ensures Find(items', k) < |items'|
    {
      var j := Find(items, k);
      var l := if j < i then j + 1 else if j == i then 0 else j;
      FrontAt(items, i, (items[i].0, v), l);
      assert items'[l].0 == k;
    }
  }

  lemma HasItem<K, V>(items: seq<(K, V)>, i: nat)
    requires i < |items|
    ensures Find(items, items[i].0) <= i
  {
  }

  lemma UniqueWithout<K, V>(items: seq<(K, V)>, i: nat)
    requires Unique(items) && i < |items|
    ensures Unique(Without(items, i))
  {
    forall j, l | 0 <= j < l < |items| - 1
      ensures Without(items, i)[j].0 != Without(items, i)[l].0
    {
      WithoutAt(items, i, j);
      WithoutAt(items, i, l);
    }
  }

  lemma LeadsWithout<K, V, E>(cache: map<K, E>, nodes: seq<E>, items: seq<(K, V)>, i: nat, j: nat)
    requires Indexes(cache, nodes, items) && i < |items| && j < |items| - 1
    ensures var x, rest := Without(items, i)[j], cache - {items[i].0};
      x.0 in rest && rest[x.0] == Without(nodes, i)[j]
  {
    WithoutAt(items, i, j);
    WithoutAt(nodes, i, j);
  }

  lemma FoundWithout<K, V>(items: seq<(K, V)>, i: nat, k: K)
    requires i < |items| && k != items[i].0 && Find(items, k) < |items|
    ensures Find(Without(items, i), k) < |Without(items, i)|
  {
    var j := Find(items, k);
    var l := if j < i then j else j - 1;
    WithoutAt(items, i, l);
    HasItem(Without(items, i), l);
  }

  lemma IndexesWithout<K, V, E>(cache: map<K, E>, nodes: seq<E>, items: seq<(K, V)>, i: nat)
    requires Indexes(cache, nodes, items) && i < |items|
    ensures Indexes(cache - {items[i].0}, Without(nodes, i), Without(items, i))
  {
    UniqueWithout(items, i);
    var nodes', items', rest := Without(nodes, i), Without(items, i), cache - {items[i].0};
    forall j | 0 <= j < |items'|
      ensures items'[j].0 in rest && rest[items'[j].0] == nodes'[j]
    {
      LeadsWithout(cache, nodes, items, i, j);
    }
    forall k | k in rest
      ensures Find(items', k) < |items'|
    {
      FoundWithout(items, i, k);
    }
  }

  lemma PushAt<T>(s: seq<T>, x: T, j: nat)
    requires j <= |s|
    ensures ([x] + s)[j] == if j == 0 then x else s[j - 1]
  {
  }

  lemma UniquePush<K, V>(items: seq<(K, V)>, x: (K, V))
    requires Unique(items) && Find(items, x.0) == |items|
    ensures Unique([x] + items)
  {
    forall j, l | 0 <= j < l <= |items|
      ensures ([x] + items)[j].0 != ([x] + items)[l].0
    {
      PushAt(items, x, j);
      PushAt(items, x, l);
    }
  }

  lemma LeadsPush<K, V, E>(cache: map<K, E>, nodes: seq<E>, items: seq<(K, V)>, x: (K, V), e: E, j: nat)
    requires Indexes(cache, nodes, items) && Find(items, x.0) == |items| && j <= |items|
    ensures var y, more := ([x] + items)[j], cache[x.0 := e];
      y.0 in more && more[y.0] == ([e] + nodes)[j]
  {
    PushAt(items, x, j);
    PushAt(nodes, e, j);
  }

  lemma FoundPush<K, V>(items: seq<(K, V)>, x: (K, V), k: K)
    requires k == x.0 || Find(items, k) < |items|
    ensures Find([x] + items, k) < |[x] + items|
  {
    var j := if k == x.0 then 0 else Find(items, k) + 1;
    PushAt(items, x, j);
    HasItem([x] + items, j);
  }

  lemma IndexesPush<K, V, E>(cache: map<K, E>, nodes: seq<E>, items: seq<(K, V)>, x: (K, V), e: E)
    requires Indexes(cache, nodes, items) && Find(items, x.0) == |items|
    ensures Indexes(cache[x.0 := e], [e] + nodes, [x] + items)
  {
    UniquePush(items, x);
    var nodes', items', more := [e] + nodes, [x] + items, cache[x.0 := e];
    forall j | 0 <= j < |items'|
      ensures items'[j].0 in more && more[items'[j].0] == nodes'[j]
    {
      LeadsPush(cache, nodes, items, x, e, j);
    }
    forall k | k in more
      ensures Find(items', k) < |items'|
    {
      FoundPush(items, x, k);
    }
  }

  lemma IndexesSame<K, V, E>(cache: map<K, E>, nodes: seq<E>, items: seq<(K, V)>, items': seq<(K, V)>)
    requires Indexes(cache, nodes, items) && |items'| == |items|
    requires forall j :: 0 <= j < |items| ==> items'[j].0 == items[j].0
    ensures Indexes(cache, nodes, items')
  {
    forall k | k in cache
      ensures Find(items', k) < |items'|
    {
      assert items'[Find(items, k)].0 == k;
    }
  }

  lemma IndexesAt<K, V, E>(cache: map<K, E>, nodes: seq<E>, items: seq<(K, V)>, k: K)
    requires Indexes(cache, nodes, items)
    ensures k in cache <==> Find(items, k) < |items|
    ensures k in cache ==> cache[k] == nodes[Find(items, k)]
  {
  }
}
