/** GetOrFetch: the file system, the LRU and the object storage behind one call. */
module TestcaseCache {
  import opened Distinct
  import opened Lru
  import opened LruCache
  import opened TestcaseFetch

  class TestcaseCache<K(==,!new)> {
    const cache: LRUCache<K, bool>
    var disk: map<K, Bytes>

    ghost predicate Valid()
      reads this, cache, cache.ll, cache.ll.root, cache.ll.nodes
    {
      cache.Valid() && Agrees(cache.capacity, Here(), disk.Keys - HeldKeys(cache.Items()))
    }

    ghost function Here(): State<K>
      reads this, cache, cache.ll
    {
      State(disk, cache.Items())
    }

    /** A new process: an empty LRU over whatever files an earlier one has left. */
    constructor (capacity: int, files: map<K, Bytes>)
      ensures Valid() && Here() == TestcaseFetch.Run(capacity, files, []) && cache.capacity == capacity
      ensures fresh(cache) && fresh(cache.ll) && fresh(cache.ll.root)
    {
      cache := new LRUCache(capacity);
      disk := files;
      new;
      assert HeldKeys<K>([]) == {};
    }

    method GetOrFetch(c: Call<K>) returns (ok: bool)
      requires Valid()
      modifies this, cache, cache.ll, cache.ll.root, cache.ll.nodes
      ensures Valid() && Here() == After(cache.capacity, old(Here()), c) && ok == Succeeds(old(Here()), c)
    {
      StayValid(cache.capacity, Here(), disk.Keys - HeldKeys(cache.Items()), c);
      if c.key in disk {
        return true;
      }
      if c.key !in c.blob || !c.mkdirOk || !c.createOk {
        return false;
      }
      if c.written.OnlyFirst? {
        disk := disk[c.key := Prefix(c.blob[c.key], c.written.n)];
        return false;
      }
      var deleted := Store(c.key, c.blob[c.key], c.removeOk);
      DroppedIsPushedOut(cache.capacity, old(Here()), c, deleted);
      return true;
    }

    /** The file is complete: the LRU takes the key and may give up others. */
    method Store(key: K, data: Bytes, removeOk: bool) returns (deleted: seq<K>)
      requires cache.Valid()
      modifies this, cache, cache.ll, cache.ll.root, cache.ll.nodes
      ensures cache.Valid() && cache.Items() == Next(cache.capacity, old(cache.Items()), Op.Put(key, true))
      ensures multiset(deleted) == Dropped(cache.capacity, old(cache.Items()), Op.Put(key, true))
      ensures disk == if removeOk then old(disk)[key := data] - Elems(deleted) else old(disk)[key := data]
    {
      SetDisk(disk[key := data]);
      deleted := cache.Put(key, true);
      if removeOk {
        RemoveAll(deleted);
      }
    }

    method RemoveAll(keys: seq<K>)
      requires cache.Valid()
      modifies `disk
      ensures cache.Valid() && disk == old(disk) - Elems(keys)
    {
      var files := Removed(disk, keys);
      disk := files;
    }

    method SetDisk(files: map<K, Bytes>)
      requires cache.Valid()
      modifies `disk
      ensures cache.Valid() && disk == files
    {
      disk := files;
    }
  }

  /** The onDelete hook removes a file for each key the LRU reports. */
  method Removed<K>(files: map<K, Bytes>, keys: seq<K>) returns (rest: map<K, Bytes>)
    ensures rest == files - Elems(keys)
  {
    rest := files;
    for i := 0 to |keys|
      invariant rest == files - Elems(keys[..i])
    {
      ElemsSplit(keys[..i + 1]);
      assert keys[..i + 1][..i] == keys[..i];
      rest := rest - {keys[i]};
    }
    assert keys[..|keys|] == keys;
  }

  lemma DroppedIsPushedOut<K>(capacity: int, st: State<K>, c: Call<K>, deleted: seq<K>)
    requires Stores(st, c) && Agrees(capacity, st, st.disk.Keys - HeldKeys(st.items))
    requires multiset(deleted) == Dropped(capacity, st.items, Op.Put(c.key, true))
    ensures deleted == PushedOut(capacity, st.items, c.key)
    ensures var full := st.disk[c.key := c.blob[c.key]];
      After(capacity, st, c) == State(
        if c.removeOk then full - Elems(deleted) else full, Next(capacity, st.items, Op.Put(c.key, true)))
  {
    HeldIsIn(st.items, c.key);
    assert |multiset(deleted)| == |deleted|;
    if deleted != [] {
      assert deleted[0] in multiset(deleted);
    }
  }

  lemma StayValid<K>(capacity: int, st: State<K>, strays: set<K>, c: Call<K>)
    requires Agrees(capacity, st, strays)
    ensures var st' := After(capacity, st, c); Agrees(capacity, st', st'.disk.Keys - HeldKeys(st'.items))
  {
    var strays' := strays
      + (if Truncates(st, c) then {c.key} else {})
      + (if Stores(st, c) && !c.removeOk then Elems(PushedOut(capacity, st.items, c.key)) else {});
    StepAgrees(capacity, st, strays, c, strays');
    var st' := After(capacity, st, c);
    assert st'.disk.Keys - HeldKeys(st'.items) == strays';
  }
}
