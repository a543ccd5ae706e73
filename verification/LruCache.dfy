/**
 The LRU cache: a map into the elements of a doubly linked list kept in order of last use. Ring and list are proved
 against the sequence of their nodes, the cache against the specification in Lru.
 */
module LruCache {
  import opened Distinct
  import opened Lru
  import opened Options

  /** An element of Go's container/list; the root of a list carries no value. */
  class Element<T> {
    var value: Option<T>
    var prev: Element?<T>
    var next: Element?<T>

    constructor (value: Option<T>)
      ensures this.value == value
    {
      this.value := value;
      prev, next := null, null;
    }
  }

  /** What stands at place i of the ring; the root stands before the first node and after the last. */
  ghost function Place<T>(root: Element<T>, nodes: seq<Element<T>>, i: int): Element<T> {
    if 0 <= i < |nodes| then nodes[i] else root
  }

  ghost predicate Linked<T>(a: Element<T>, b: Element<T>)
    reads a, b
  {
    a.next == b && b.prev == a
  }

  /** Each element of the ring is linked to the one before it and the one after it. */
  ghost predicate Ring<T>(root: Element<T>, nodes: seq<Element<T>>)
    reads root, nodes
  {
    forall i, j :: -1 <= i <= |nodes| && -1 <= j <= |nodes| && j == i + 1 ==>
      Linked(Place(root, nodes, i), Place(root, nodes, j))
  }

  lemma RingAt<T>(root: Element<T>, nodes: seq<Element<T>>, i: nat)
    requires Ring(root, nodes) && i < |nodes|
    ensures nodes[i].prev == Place(root, nodes, i - 1) && nodes[i].next == Place(root, nodes, i + 1)
  {
    assert nodes[i] == Place(root, nodes, i);
  }

  lemma RingEnds<T>(root: Element<T>, nodes: seq<Element<T>>)
    requires Ring(root, nodes)
    ensures root.next == Place(root, nodes, 0) && root.prev == Place(root, nodes, |nodes| - 1)
  {
    assert root == Place(root, nodes, -1) == Place(root, nodes, |nodes|);
  }

  lemma PlacesDiffer<T>(root: Element<T>, nodes: seq<Element<T>>)
    requires NoRepeats(nodes) && root !in nodes
    ensures forall i, j :: -1 <= i < j <= |nodes| && j - i <= |nodes| ==> Place(root, nodes, i) != Place(root, nodes, j)
  {
  }

  lemma PlaceWithout<T>(root: Element<T>, nodes: seq<Element<T>>, i: nat, j: int)
    requires i < |nodes| && -1 <= j < |nodes|
    ensures Place(root, Without(nodes, i), j) == Place(root, nodes, if j < i then j else j + 1)
  {
  }

  /** A ring but for node i, around which its neighbours are joined. */
  ghost predicate Bypassed<T>(root: Element<T>, nodes: seq<Element<T>>, i: nat)
    reads root, nodes
  {
    && Linked(Place(root, nodes, i - 1), Place(root, nodes, i + 1))
    && forall j, k :: -1 <= j <= |nodes| && -1 <= k <= |nodes| && k == j + 1 && j != i && k != i ==>
      Linked(Place(root, nodes, j), Place(root, nodes, k))
  }

  lemma RingWithout<T>(root: Element<T>, nodes: seq<Element<T>>, i: nat)
    requires i < |nodes| && Bypassed(root, nodes, i)
    ensures Ring(root, Without(nodes, i))
  {
    var rest := Without(nodes, i);
    forall j, k | -1 <= j <= |rest| && -1 <= k <= |rest| && k == j + 1
      ensures Linked(Place(root, rest, j), Place(root, rest, k))
    {
      PlaceWithout(root, nodes, i, j);
      PlaceWithout(root, nodes, i, k);
    }
  }

  /** A ring with e linked in before its first node. */
  ghost predicate Pushed<T>(root: Element<T>, nodes: seq<Element<T>>, e: Element<T>)
    reads root, nodes, e
  {
    && Linked(root, e) && Linked(e, Place(root, nodes, 0))
    && forall j, k :: 0 <= j <= |nodes| && 0 <= k <= |nodes| && k == j + 1 ==>
      Linked(Place(root, nodes, j), Place(root, nodes, k))
  }

  lemma PlacePush<T>(root: Element<T>, nodes: seq<Element<T>>, e: Element<T>, j: int)
    requires -1 <= j <= |nodes| + 1
    ensures Place(root, [e] + nodes, j) == if j == -1 then root else if j == 0 then e else Place(root, nodes, j - 1)
  {
  }

  lemma RingPush<T>(root: Element<T>, nodes: seq<Element<T>>, e: Element<T>)
    requires Pushed(root, nodes, e)
    ensures Ring(root, [e] + nodes)
  {
    var more := [e] + nodes;
    forall j, k | -1 <= j <= |more| && -1 <= k <= |more| && k == j + 1
      ensures Linked(Place(root, more, j), Place(root, more, k))
    {
      PlacePush(root, nodes, e, j);
      PlacePush(root, nodes, e, k);
    }
  }

  /** Go's container/list: a ring through the root; nodes are its other elements from front to back. */
  class List<T> {
    const root: Element<T>
    var len: int
    ghost var nodes: seq<Element<T>>
    ghost var values: seq<T>

    ghost predicate Valid()
      reads this, root, nodes
    {
      && len == |nodes| == |values| && root !in nodes && NoRepeats(nodes) && Ring(root, nodes)
      && forall i :: 0 <= i < |nodes| ==> nodes[i].value == Some(values[i])
    }

    constructor ()
      ensures Valid() && nodes == [] && fresh(root)
    {
      var r := new Element<T>(None);
      root := r;
      len := 0;
      nodes, values := [], [];
      new;
      root.next, root.prev := root, root;
    }

    /** Init: the ring forgets its elements. */
    method Init()
      modifies this, root
      ensures Valid() && nodes == []
    {
      root.next, root.prev := root, root;
      len := 0;
      nodes, values := [], [];
    }

    /** The values after the node at i has left. */
    lemma ValuesWithout(i: nat)
      requires |nodes| == |values| && i < |nodes|
      requires forall j :: 0 <= j < |nodes| ==> nodes[j].value == Some(values[j])
      ensures forall j :: 0 <= j < |nodes| - 1 ==> Without(nodes, i)[j].value == Some(Without(values, i)[j])
    {
      forall j | 0 <= j < |nodes| - 1
        ensures Without(nodes, i)[j].value == Some(Without(values, i)[j])
      {
        WithoutAt(nodes, i, j);
        WithoutAt(values, i, j);
      }
    }

    /** The neighbours of e are joined. */
    method Unlink(e: Element<T>, ghost i: nat)
      requires Valid() && i < |nodes| && nodes[i] == e
      modifies this, root, nodes
      ensures Valid() && nodes == Without(old(nodes), i) && values == Without(old(values), i)
      ensures e.value == old(e.value)
    {
      WithoutKeepsApart(nodes, i);
      ValuesWithout(i);
      RingAt(root, nodes, i);
      PlacesDiffer(root, nodes);
      e.prev.next := e.next;
      e.next.prev := e.prev;
      len := len - 1;
      assert Bypassed(root, nodes, i);
      RingWithout(root, nodes, i);
      nodes, values := Without(nodes, i), Without(values, i);
    }

    /** e becomes the first element. */
    method LinkFront(e: Element<T>)
      requires Valid() && e != root && e !in nodes && e.value.Some?
      modifies this, root, nodes, e
      ensures Valid() && nodes == [e] + old(nodes) && values == [old(e.value.value)] + old(values)
    {
      RingEnds(root, nodes);
      PlacesDiffer(root, nodes);
      e.prev := root;
      e.next := root.next;
      e.prev.next := e;
      e.next.prev := e;
      len := len + 1;
      assert Pushed(root, nodes, e);
      RingPush(root, nodes, e);
      nodes, values := [e] + nodes, [e.value.value] + values;
    }

    method Remove(e: Element<T>, ghost i: nat)
      requires Valid() && i < |nodes| && nodes[i] == e
      modifies this, root, nodes
      ensures Valid() && nodes == Without(old(nodes), i) && values == Without(old(values), i)
      ensures e.value == old(e.value) && e.next == null && e.prev == null
    {
      Unlink(e, i);
      e.next, e.prev := null, null;
    }

    method PushFront(value: T) returns (e: Element<T>)
      requires Valid()
      modifies this, root, nodes
      ensures Valid() && fresh(e) && nodes == [e] + old(nodes) && values == [value] + old(values)
    {
      e := new Element(Some(value));
      LinkFront(e);
    }

    method MoveToFront(e: Element<T>, ghost i: nat)
      requires Valid() && i < |nodes| && nodes[i] == e
      modifies this, root, nodes
      ensures Valid() && nodes == Front(old(nodes), i, e) && values == Front(old(values), i, old(values[i]))
    {
      RingEnds(root, nodes);
      if root.next == e {
        FrontFirst(nodes);
        FrontFirst(values);
        return;
      }
      WithoutKeepsApart(nodes, i);
      Unlink(e, i);
      LinkFront(e);
    }

    /** The first element gets another value. */
    method SetFirst(e: Element<T>, value: T)
      requires Valid() && nodes != [] && nodes[0] == e
      modifies this, e
      ensures Valid() && nodes == old(nodes) && values == old(values)[0 := value]
    {
      e.value := Some(value);
      values := values[0 := value];
    }

    method Back() returns (e: Element<T>)
      requires Valid() && len > 0
      ensures e == nodes[|nodes| - 1] && e.value == Some(values[|nodes| - 1])
    {
      RingEnds(root, nodes);
      e := root.prev;
    }
  }

  function Looked<K(==), V>(s: seq<(K, V)>, k: K): Option<V> {
    var i := Find(s, k);
    if i < |s| then Some(s[i].1) else None
  }

  lemma KeysPermute<K(!new), V, E>(cache: map<K, E>, nodes: seq<E>, items: seq<(K, V)>, keys: seq<K>)
    requires Indexes(cache, nodes, items) && NoRepeats(keys) && Elems(keys) == cache.Keys
    ensures multiset(keys) == multiset(KeysOf(items))
  {
    forall k
      ensures k in Elems(KeysOf(items)) <==> k in cache
    {
      IndexesAt(cache, nodes, items, k);
      if k in Elems(KeysOf(items)) {
        var j :| 0 <= j < |items| && KeysOf(items)[j] == k;
        assert items[j].0 == k;
      }
      if k in cache {
        assert KeysOf(items)[Find(items, k)] == k;
      }
    }
    assert Elems(KeysOf(items)) == Elems(keys);
    SameElemsPermute(keys, KeysOf(items));
  }

  /** The cache. Instead of calling onDelete, a method returns the keys it would call it with, in order. */
  class LRUCache<K(==,!new), V> {
    const capacity: int
    var cache: map<K, Element<(K, V)>>
    const ll: List<(K, V)>

    ghost predicate Consistent()
      reads this, ll, ll.root, ll.nodes
    {
      ll.Valid() && Indexes(cache, ll.nodes, ll.values)
    }

    ghost predicate Valid()
      reads this, ll, ll.root, ll.nodes
    {
      Consistent() && |Items()| <= Bound(capacity)
    }

    /** What the cache holds, most recently used first. */
    ghost function Items(): seq<(K, V)>
      reads this, ll
    {
      ll.values
    }

    constructor (capacity: int)
      ensures Valid() && Items() == [] && this.capacity == capacity && fresh(ll) && fresh(ll.root)
    {
      this.capacity := capacity;
      cache := map[];
      ll := new List();
    }

    // ---------- The steps of the operations ----------

    method SetCache(m: map<K, Element<(K, V)>>)
      requires ll.Valid() && Indexes(m, ll.nodes, ll.values)
      modifies this
      ensures Consistent()
    {
      cache := m;
    }

    method Touch(ent: Element<(K, V)>, ghost i: nat)
      requires Consistent() && i < |Items()| && ll.nodes[i] == ent
      modifies ll, ll.root, ll.nodes
      ensures Consistent() && Items() == Front(old(Items()), i, old(Items())[i])
      ensures ll.nodes == Front(old(ll.nodes), i, ent)
    {
      ll.MoveToFront(ent, i);
      IndexesFront(cache, old(ll.nodes), old(Items()), i, old(Items())[i].1, ll.nodes, ll.values);
    }

    method SetFront(ent: Element<(K, V)>, key: K, value: V)
      requires Consistent() && Items() != [] && ll.nodes[0] == ent && key == Items()[0].0
      modifies ll, ent
      ensures Consistent() && Items() == old(Items())[0 := (key, value)]
    {
      ll.SetFirst(ent, (key, value));
      IndexesSame(cache, ll.nodes, old(Items()), ll.values);
    }

    method Push(key: K, value: V) returns (ghost e: Element<(K, V)>)
      requires Consistent() && key !in cache
      modifies this, ll, ll.root, ll.nodes
      ensures Consistent() && Items() == [(key, value)] + old(Items())
      ensures fresh(e) && ll.nodes == [e] + old(ll.nodes)
    {
      IndexesAt(cache, ll.nodes, Items(), key);
      var ent := ll.PushFront((key, value));
      IndexesPush(cache, old(ll.nodes), old(Items()), (key, value), ent);
      SetCache(cache[key := ent]);
      e := ent;
    }

    /** The element leaves the list and its key the map. */
    method Drop(ent: Element<(K, V)>, key: K, ghost i: nat)
      requires Consistent() && i < |Items()| && ll.nodes[i] == ent && key == Items()[i].0
      modifies this, ll, ll.root, ll.nodes
      ensures Consistent() && Items() == Without(old(Items()), i)
    {
      ll.Remove(ent, i);
      IndexesWithout(cache, old(ll.nodes), old(Items()), i);
      SetCache(cache - {key});
    }

    method Evict() returns (key: K)
      requires Consistent() && Items() != []
      modifies this, ll, ll.root, ll.nodes
      ensures Consistent() && Items() == old(Items())[..|old(Items())| - 1] && key == old(Items())[|old(Items())| - 1].0
    {
      var last := ll.Back();
      key := last.value.value.0;
      Drop(last, key, |Items()| - 1);
    }

    /** Get of a key that is there. */
    method Hit(ent: Element<(K, V)>, key: K, ghost i: nat) returns (value: Option<V>)
      requires Valid() && i == Find(Items(), key) && i < |Items()| && ll.nodes[i] == ent
      modifies ll, ll.root, ll.nodes
      ensures Valid() && Items() == Next(capacity, old(Items()), Op.Get(key))
      ensures value == Looked(old(Items()), key)
    {
      value := Some(ent.value.value.1);
      Touch(ent, i);
    }

    /** Put of a key that is there. */
    method Update(ent: Element<(K, V)>, key: K, value: V, ghost i: nat)
      requires Valid() && i == Find(Items(), key) && i < |Items()| && ll.nodes[i] == ent
      modifies ll, ll.root, ll.nodes
      ensures Valid() && Items() == Next(capacity, old(Items()), Op.Put(key, value))
    {
      Touch(ent, i);
      SetFront(ent, key, value);
      FrontSet(old(Items()), i, old(Items())[i], (key, value));
    }

    /** Put of a new key. */
    method Insert(key: K, value: V) returns (deleted: seq<K>)
      requires Valid() && key !in cache
      modifies this, ll, ll.root, ll.nodes
      ensures Valid()
      ensures var more := [(key, value)] + old(Items());
        if |more| <= capacity then Items() == more && deleted == []
        else Items() == more[..|more| - 1] && deleted == [more[|more| - 1].0]
    {
      deleted := [];
      ghost var e := Push(key, value);
      if ll.len > capacity {
        var last := Evict();
        deleted := [last];
      }
    }

    // ---------- The operations ----------

    method Get(key: K) returns (value: Option<V>)
      requires Valid()
      modifies ll, ll.root, ll.nodes
      ensures Valid() && Items() == Next(capacity, old(Items()), Op.Get(key))
      ensures value == Looked(old(Items()), key)
    {
      IndexesAt(cache, ll.nodes, Items(), key);
      if key in cache {
        value := Hit(cache[key], key, Find(Items(), key));
        return;
      }
      return None;
    }

    method Put(key: K, value: V) returns (deleted: seq<K>)
      requires Valid()
      modifies this, ll, ll.root, ll.nodes
      ensures Valid() && Items() == Next(capacity, old(Items()), Op.Put(key, value))
      ensures multiset(deleted) == Dropped(capacity, old(Items()), Op.Put(key, value))
    {
      IndexesAt(cache, ll.nodes, Items(), key);
      deleted := [];
      if key in cache {
        var ent := cache[key];
        Update(ent, key, value, Find(Items(), key));
      } else {
        deleted := Insert(key, value);
        PutOfNewKey(capacity, old(Items()), key, value);
      }
    }

    method Delete(key: K) returns (deleted: seq<K>)
      requires Valid()
      modifies this, ll, ll.root, ll.nodes
      ensures Valid() && Items() == Next(capacity, old(Items()), Op.Delete(key))
      ensures multiset(deleted) == Dropped(capacity, old(Items()), Op.Delete(key))
    {
      IndexesAt(cache, ll.nodes, Items(), key);
      deleted := [];
      if key in cache {
        var ent := cache[key];
        Drop(ent, key, Find(Items(), key));
        deleted := [key];
      }
    }

    method Clear() returns (deleted: seq<K>)
      requires Valid()
      modifies this, ll, ll.root
      ensures Valid() && Items() == Next(capacity, old(Items()), Op.Clear)
      ensures multiset(deleted) == Dropped(capacity, old(Items()), Op.Clear)
    {
      deleted := Listed(cache.Keys);
      KeysPermute(cache, ll.nodes, Items(), deleted);
      cache := map[];
      ll.Init();
    }
  }
}
