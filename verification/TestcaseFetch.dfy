/** The testcase cache: files on disk, the LRU that is meant to bound them, and what fetching does to both. */
module TestcaseFetch {
  import opened Distinct
  import opened Lru

  type Bytes = seq<bv8>

  /** The files below the cache directory and what the LRU holds, most recent first. */
  datatype State<K> = State(disk: map<K, Bytes>, items: seq<(K, bool)>)

  /** One call: the objects stored at that time, and which of its system calls succeed. */
  datatype Call<K> = Call(key: K, blob: map<K, Bytes>, mkdirOk: bool, createOk: bool, written: Written, removeOk: bool)

  datatype Written = All | OnlyFirst(n: nat)

  /** Key k is in the LRU. */
  predicate Held<K(==)>(items: seq<(K, bool)>, k: K) {
    Find(items, k) < |items|
  }

  /** The key a new entry pushes out of the LRU. */
  function PushedOut<K>(capacity: int, items: seq<(K, bool)>, key: K): seq<K> {
    if |items| + 1 > capacity then [([(key, true)] + items)[|items|].0] else []
  }

  /** The call finds no file and stores one. */
  predicate Stores<K(==)>(st: State<K>, c: Call<K>) {
    c.key !in st.disk && c.key in c.blob && c.mkdirOk && c.createOk && c.written.All?
  }

  /** The call leaves a file with only the start of the object. */
  predicate Truncates<K(==)>(st: State<K>, c: Call<K>) {
    c.key !in st.disk && c.key in c.blob && c.mkdirOk && c.createOk && c.written.OnlyFirst?
  }

  predicate Succeeds<K(==)>(st: State<K>, c: Call<K>) {
    c.key in st.disk || Stores(st, c)
  }

  function Prefix(data: Bytes, n: nat): (p: Bytes)
    ensures p <= data && |p| == if n < |data| then n else |data|
  {
    if n < |data| then data[..n] else data
  }

  function After<K(==)>(capacity: int, st: State<K>, c: Call<K>): State<K> {
    if Stores(st, c) then
      var full := st.disk[c.key := c.blob[c.key]];
      State(if c.removeOk then full - Elems(PushedOut(capacity, st.items, c.key)) else full,
            Next(capacity, st.items, Op.Put(c.key, true)))
    else if Truncates(st, c) then
      State(st.disk[c.key := Prefix(c.blob[c.key], c.written.n)], st.items)
    else st
  }

  function Run<K(==)>(capacity: int, disk: map<K, Bytes>, calls: seq<Call<K>>): State<K> {
    if calls == [] then State(disk, [])
    else After(capacity, Run(capacity, disk, calls[..|calls| - 1]), calls[|calls| - 1])
  }

  // ---------- Which files are on disk ----------

  /** The files no LRU entry stands for: left from an earlier process, truncated, or not removed. */
  ghost function Strays<K>(capacity: int, disk: map<K, Bytes>, calls: seq<Call<K>>): set<K> {
    if calls == [] then disk.Keys
    else
      var before, c := calls[..|calls| - 1], calls[|calls| - 1];
      var st := Run(capacity, disk, before);
      Strays(capacity, disk, before)
      + (if Truncates(st, c) then {c.key} else {})
      + (if Stores(st, c) && !c.removeOk then Elems(PushedOut(capacity, st.items, c.key)) else {})
  }

  /** The position after the last call that stored the key's file, 0 when there is none. */
  function StoredAt<K(==)>(capacity: int, disk: map<K, Bytes>, calls: seq<Call<K>>, k: K): nat {
    if calls == [] then 0
    else
      var before, c := calls[..|calls| - 1], calls[|calls| - 1];
      if c.key == k && Stores(Run(capacity, disk, before), c) then |calls| else StoredAt(capacity, disk, before, k)
  }

  ghost function HeldKeys<K>(items: seq<(K, bool)>): set<K> {
    Elems(KeysOf(items))
  }

  /** The files are the strays and, disjointly, the keys of the LRU, which are within the capacity. */
  ghost predicate Agrees<K>(capacity: int, st: State<K>, strays: set<K>) {
    && Unique(st.items) && |st.items| <= Bound(capacity)
    && st.disk.Keys == HeldKeys(st.items) + strays && HeldKeys(st.items) !! strays
  }

  lemma KeysSplitLast<K>(items: seq<(K, bool)>)
    requires Unique(items) && items != []
    ensures var n := |items| - 1;
      && HeldKeys(items) == HeldKeys(items[..n]) + {items[n].0} && items[n].0 !in HeldKeys(items[..n])
      && Unique(items[..n])
  {
    var n := |items| - 1;
    ElemsSplit(KeysOf(items));
    assert KeysOf(items)[..n] == KeysOf(items[..n]);
  }

  lemma HeldIsIn<K>(items: seq<(K, bool)>, k: K)
    ensures k in HeldKeys(items) <==> Held(items, k)
  {
    if Held(items, k) {
      assert KeysOf(items)[Find(items, k)] == k;
    }
    if k in KeysOf(items) {
      var j :| 0 <= j < |items| && KeysOf(items)[j] == k;
      assert items[j].0 == k;
    }
  }

  lemma KeysPush<K>(items: seq<(K, bool)>, k: K)
    requires Unique(items) && k !in HeldKeys(items)
    ensures HeldKeys([(k, true)] + items) == HeldKeys(items) + {k} && Unique([(k, true)] + items)
  {
    assert KeysOf([(k, true)] + items) == [k] + KeysOf(items);
    assert forall i :: 0 <= i < |items| ==> items[i].0 == KeysOf(items)[i];
  }

  /** What storing a file does to the LRU: the new key comes in, the pushed out one leaves. */
  lemma StoreMovesKeys<K>(capacity: int, items: seq<(K, bool)>, k: K)
    requires Unique(items) && |items| <= Bound(capacity) && k !in HeldKeys(items)
    ensures var next := Next(capacity, items, Op.Put(k, true));
      && Unique(next) && |next| <= Bound(capacity)
      && HeldKeys(next) == HeldKeys(items) + {k} - Elems(PushedOut(capacity, items, k))
      && Elems(PushedOut(capacity, items, k)) <= HeldKeys(items) + {k}
  {
    HeldIsIn(items, k);
    KeysPush(items, k);
    PutOfNewKey(capacity, items, k, true);
    var more := [(k, true)] + items;
    if |more| > capacity {
      KeysSplitLast(more);
      assert PushedOut(capacity, items, k) == [more[|items|].0];
      assert Elems(PushedOut(capacity, items, k)) == {more[|items|].0};
    } else {
      assert PushedOut(capacity, items, k) == [];
    }
  }

  lemma StepAgrees<K>(capacity: int, st: State<K>, strays: set<K>, c: Call<K>, strays': set<K>)
    requires Agrees(capacity, st, strays)
    requires strays' == strays
      + (if Truncates(st, c) then {c.key} else {})
      + (if Stores(st, c) && !c.removeOk then Elems(PushedOut(capacity, st.items, c.key)) else {})
    ensures Agrees(capacity, After(capacity, st, c), strays')
  {
    if Stores(st, c) {
      StoreMovesKeys(capacity, st.items, c.key);
      var gone := Elems(PushedOut(capacity, st.items, c.key));
      assert (st.disk[c.key := c.blob[c.key]] - gone).Keys == st.disk.Keys + {c.key} - gone;
    }
  }

  /** Along every run, the files on disk are the strays and the LRU's keys. */
  lemma {:induction false} RunAgrees<K>(capacity: int, disk: map<K, Bytes>, calls: seq<Call<K>>)
    ensures Agrees(capacity, Run(capacity, disk, calls), Strays(capacity, disk, calls))
    decreases |calls|
  {
    if calls == [] {
      assert HeldKeys<K>([]) == {};
    } else {
      var n := |calls| - 1;
      RunAgrees(capacity, disk, calls[..n]);
      StepAgrees(capacity, Run(capacity, disk, calls[..n]), Strays(capacity, disk, calls[..n]), calls[n],
                 Strays(capacity, disk, calls));
    }
  }

  /** Beyond the strays, there are never more files than the capacity. */
  lemma FilesAreBounded<K>(capacity: int, disk: map<K, Bytes>, calls: seq<Call<K>>)
    ensures var files := Run(capacity, disk, calls).disk.Keys;
      |files - Strays(capacity, disk, calls)| <= Bound(capacity)
  {
    RunAgrees(capacity, disk, calls);
    var st := Run(capacity, disk, calls);
    NoRepeatsCounts(KeysOf(st.items));
    assert st.disk.Keys - Strays(capacity, disk, calls) == HeldKeys(st.items);
  }

  // ---------- Eviction in the order of storing ----------

  /** The LRU lists its keys from the file stored last to the one stored first; each file is what was stored then. */
  ghost predicate InStoringOrder<K>(capacity: int, disk: map<K, Bytes>, calls: seq<Call<K>>, st: State<K>) {
    && (forall i, j :: 0 <= i < j < |st.items| ==>
          StoredAt(capacity, disk, calls, st.items[i].0) > StoredAt(capacity, disk, calls, st.items[j].0))
    && (forall i :: 0 <= i < |st.items| ==> HoldsStored(capacity, disk, calls, st, st.items[i].0))
  }

  ghost predicate HoldsStored<K>(capacity: int, disk: map<K, Bytes>, calls: seq<Call<K>>, st: State<K>, k: K) {
    var p := StoredAt(capacity, disk, calls, k);
    0 < p <= |calls| && k in calls[p - 1].blob && k in st.disk && st.disk[k] == calls[p - 1].blob[k]
  }

  lemma {:induction false} RunStoresInOrder<K>(capacity: int, disk: map<K, Bytes>, calls: seq<Call<K>>)
    ensures InStoringOrder(capacity, disk, calls, Run(capacity, disk, calls))
    decreases |calls|
  {
    if calls != [] {
      var n := |calls| - 1;
      RunAgrees(capacity, disk, calls[..n]);
      RunStoresInOrder(capacity, disk, calls[..n]);
      StepStoresInOrder(capacity, disk, calls);
    }
  }

  lemma KeptFile<K>(capacity: int, disk: map<K, Bytes>, calls: seq<Call<K>>, k: K)
    requires calls != []
    requires HoldsStored(capacity, disk, calls[..|calls| - 1], Run(capacity, disk, calls[..|calls| - 1]), k)
    requires k in Run(capacity, disk, calls).disk
    ensures StoredAt(capacity, disk, calls, k) == StoredAt(capacity, disk, calls[..|calls| - 1], k) < |calls|
    ensures HoldsStored(capacity, disk, calls, Run(capacity, disk, calls), k)
  {
    AfterKeepsFile(capacity, Run(capacity, disk, calls[..|calls| - 1]), calls[|calls| - 1], k);
  }

  /** A call does not change the content of a file that stays. */
  lemma AfterKeepsFile<K>(capacity: int, st: State<K>, c: Call<K>, k: K)
    requires k in st.disk && k in After(capacity, st, c).disk
    ensures After(capacity, st, c).disk[k] == st.disk[k]
    ensures c.key == k ==> !Stores(st, c)
  {
  }

  lemma NewFile<K>(capacity: int, disk: map<K, Bytes>, calls: seq<Call<K>>, k: K)
    requires calls != [] && k == calls[|calls| - 1].key && k in Run(capacity, disk, calls).disk
    requires Stores(Run(capacity, disk, calls[..|calls| - 1]), calls[|calls| - 1])
    ensures StoredAt(capacity, disk, calls, k) == |calls|
    ensures HoldsStored(capacity, disk, calls, Run(capacity, disk, calls), k)
  {
  }

  lemma ItemsOnDisk<K>(capacity: int, st: State<K>, strays: set<K>, i: nat)
    requires Agrees(capacity, st, strays) && i < |st.items|
    ensures st.items[i].0 in st.disk
  {
    assert KeysOf(st.items)[i] in HeldKeys(st.items);
  }

  lemma StepStoresInOrder<K>(capacity: int, disk: map<K, Bytes>, calls: seq<Call<K>>)
    requires calls != []
    requires Agrees(capacity, Run(capacity, disk, calls[..|calls| - 1]), Strays(capacity, disk, calls[..|calls| - 1]))
    requires InStoringOrder(capacity, disk, calls[..|calls| - 1], Run(capacity, disk, calls[..|calls| - 1]))
    ensures InStoringOrder(capacity, disk, calls, Run(capacity, disk, calls))
  {
    RunAgrees(capacity, disk, calls);
    var st' := Run(capacity, disk, calls);
    forall j | 0 <= j < |st'.items|
      ensures HoldsStored(capacity, disk, calls, st', st'.items[j].0)
    {
      ItemStored(capacity, disk, calls, j);
    }
    forall j, l | 0 <= j < l < |st'.items|
      ensures StoredAt(capacity, disk, calls, st'.items[j].0) > StoredAt(capacity, disk, calls, st'.items[l].0)
    {
      ItemStored(capacity, disk, calls, j);
      ItemStored(capacity, disk, calls, l);
      TimesDecrease(capacity, disk, calls, j, l);
    }
  }

  lemma ItemStored<K>(capacity: int, disk: map<K, Bytes>, calls: seq<Call<K>>, j: nat)
    requires calls != []
    requires Agrees(capacity, Run(capacity, disk, calls[..|calls| - 1]), Strays(capacity, disk, calls[..|calls| - 1]))
    requires InStoringOrder(capacity, disk, calls[..|calls| - 1], Run(capacity, disk, calls[..|calls| - 1]))
    requires Agrees(capacity, Run(capacity, disk, calls), Strays(capacity, disk, calls))
    requires j < |Run(capacity, disk, calls).items|
    ensures var st' := Run(capacity, disk, calls);
      && StoredAt(capacity, disk, calls, st'.items[j].0) == TimeOf(capacity, disk, calls, j)
      && HoldsStored(capacity, disk, calls, st', st'.items[j].0)
    ensures FromBefore(capacity, disk, calls, j)
  {
    var before, c := calls[..|calls| - 1], calls[|calls| - 1];
    var st := Run(capacity, disk, before);
    ItemsOnDisk(capacity, Run(capacity, disk, calls), Strays(capacity, disk, calls), j);
    ItemSource(capacity, st, Strays(capacity, disk, before), c, j);
    if Stores(st, c) && j == 0 {
      NewFile(capacity, disk, calls, c.key);
    } else {
      KeptFile(capacity, disk, calls, st.items[if Stores(st, c) then j - 1 else j].0);
    }
  }

  lemma ItemSource<K>(capacity: int, st: State<K>, strays: set<K>, c: Call<K>, j: nat)
    requires Agrees(capacity, st, strays) && j < |After(capacity, st, c).items|
    ensures var i := if Stores(st, c) then j - 1 else j;
      i < |st.items| && After(capacity, st, c).items[j] == if i < 0 then (c.key, true) else st.items[i]
  {
    if Stores(st, c) {
      HeldIsIn(st.items, c.key);
      PutOfNewKey(capacity, st.items, c.key, true);
    }
  }

  lemma TimesDecrease<K>(capacity: int, disk: map<K, Bytes>, calls: seq<Call<K>>, j: nat, l: nat)
    requires calls != [] && j < l
    requires InStoringOrder(capacity, disk, calls[..|calls| - 1], Run(capacity, disk, calls[..|calls| - 1]))
    requires FromBefore(capacity, disk, calls, l)
    ensures TimeOf(capacity, disk, calls, j) > TimeOf(capacity, disk, calls, l)
  {
    var before, c := calls[..|calls| - 1], calls[|calls| - 1];
    var st := Run(capacity, disk, before);
    var i := if Stores(st, c) then l - 1 else l;
    assert HoldsStored(capacity, disk, before, st, st.items[i].0);
  }

  /** Item j, unless it is new, was already there. */
  predicate FromBefore<K(==)>(capacity: int, disk: map<K, Bytes>, calls: seq<Call<K>>, j: nat)
    requires calls != []
  {
    var st := Run(capacity, disk, calls[..|calls| - 1]);
    (if Stores(st, calls[|calls| - 1]) then j - 1 else j) < |st.items|
  }

  /** When the file of item j was stored, told from the state before the last call. */
  function TimeOf<K(==)>(capacity: int, disk: map<K, Bytes>, calls: seq<Call<K>>, j: nat): nat
    requires calls != []
  {
    var before, c := calls[..|calls| - 1], calls[|calls| - 1];
    var st := Run(capacity, disk, before);
    var i := if Stores(st, c) then j - 1 else j;
    if i < 0 then |calls| else if i < |st.items| then StoredAt(capacity, disk, before, st.items[i].0) else 0
  }

  lemma PushedOutIs<K>(capacity: int, items: seq<(K, bool)>, k: K)
    requires |items| <= Bound(capacity)
    ensures PushedOut(capacity, items, k)
       == if capacity <= 0 then [k] else if |items| == capacity then [items[|items| - 1].0] else []
  {
  }

  lemma LastStoredFirst<K>(capacity: int, disk: map<K, Bytes>, calls: seq<Call<K>>, st: State<K>, x: (K, bool))
    requires InStoringOrder(capacity, disk, calls, st) && x in st.items && x.0 != st.items[|st.items| - 1].0
    ensures StoredAt(capacity, disk, calls, st.items[|st.items| - 1].0) < StoredAt(capacity, disk, calls, x.0)
  {
    var i :| 0 <= i < |st.items| && st.items[i] == x;
    assert i < |st.items| - 1;
  }

  /** The key that goes is the one whose file was stored first: fetching a file again does not protect it. */
  lemma EvictsFirstStored<K>(capacity: int, disk: map<K, Bytes>, calls: seq<Call<K>>, k: K, gone: K)
    requires var st := Run(capacity, disk, calls); k !in st.disk && PushedOut(capacity, st.items, k) == [gone]
    ensures var st := Run(capacity, disk, calls);
      if capacity <= 0 then gone == k
      else Held(st.items, gone) && forall x :: x in st.items && x.0 != gone ==>
        StoredAt(capacity, disk, calls, gone) < StoredAt(capacity, disk, calls, x.0)
  {
    RunAgrees(capacity, disk, calls);
    RunStoresInOrder(capacity, disk, calls);
    var st := Run(capacity, disk, calls);
    HeldIsIn(st.items, k);
    PushedOutIs(capacity, st.items, k);
    if capacity > 0 {
      forall x | x in st.items && x.0 != gone
        ensures StoredAt(capacity, disk, calls, gone) < StoredAt(capacity, disk, calls, x.0)
      {
        LastStoredFirst(capacity, disk, calls, st, x);
      }
    }
  }

  // ---------- What a caller gets ----------

  /** After a successful call the file is there, unless it was just stored in a cache without capacity. */
  lemma FileIsThere<K>(capacity: int, disk: map<K, Bytes>, calls: seq<Call<K>>, c: Call<K>)
    ensures var st := Run(capacity, disk, calls);
      Succeeds(st, c) ==> (c.key in After(capacity, st, c).disk <==> c.key in st.disk || capacity > 0 || !c.removeOk)
  {
    var st := Run(capacity, disk, calls);
    RunAgrees(capacity, disk, calls);
    if Stores(st, c) {
      HeldIsIn(st.items, c.key);
      PutOfNewKey(capacity, st.items, c.key, true);
      EvictedKey(capacity, st.items, c.key);
    }
  }

  lemma EvictedKey<K>(capacity: int, items: seq<(K, bool)>, k: K)
    requires !Held(items, k) && |items| <= Bound(capacity)
    ensures k in Elems(PushedOut(capacity, items, k)) <==> capacity <= 0
    ensures forall g :: g in Elems(PushedOut(capacity, items, k)) && g != k <==>
      capacity > 0 && |items| == capacity && items[|items| - 1].0 == g
  {
    PushedOutIs(capacity, items, k);
  }

  /**
   A test needs two files, the input a and the output b. Once both were fetched, the input file is gone exactly
   when the output had to be stored while the LRU was full with a as its first stored key.
   */
  lemma FetchPair<K>(capacity: int, disk: map<K, Bytes>, calls: seq<Call<K>>, a: Call<K>, b: Call<K>)
    requires capacity > 0 && a.key != b.key && b.removeOk
    requires Succeeds(Run(capacity, disk, calls), a)
    requires Succeeds(After(capacity, Run(capacity, disk, calls), a), b)
    ensures var st := After(capacity, Run(capacity, disk, calls), a);
      a.key !in After(capacity, st, b).disk <==>
        b.key !in st.disk && |st.items| == capacity && st.items[capacity - 1].0 == a.key
  {
    var st := After(capacity, Run(capacity, disk, calls), a);
    var more := calls + [a];
    assert more[..|calls|] == calls;
    RunAgrees(capacity, disk, more);
    FileIsThere(capacity, disk, calls, a);
    if Stores(st, b) {
      HeldIsIn(st.items, b.key);
      EvictedKey(capacity, st.items, b.key);
    }
  }

  /** With room for one file, a test whose files are both new always loses its input file. */
  lemma ColdPairNeedsTwo<K>(capacity: int, disk: map<K, Bytes>, calls: seq<Call<K>>, a: Call<K>, b: Call<K>)
    requires capacity > 0 && a.key != b.key && b.removeOk
    requires Stores(Run(capacity, disk, calls), a)
    requires Stores(After(capacity, Run(capacity, disk, calls), a), b)
    ensures a.key in After(capacity, After(capacity, Run(capacity, disk, calls), a), b).disk <==> capacity > 1
  {
    RunAgrees(capacity, disk, calls);
    HeldIsIn(Run(capacity, disk, calls).items, a.key);
    PutOfNewKey(capacity, Run(capacity, disk, calls).items, a.key, true);
    FetchPair(capacity, disk, calls, a, b);
    var st := After(capacity, Run(capacity, disk, calls), a);
    assert st.items[0].0 == a.key;
    var more := calls + [a];
    assert more[..|calls|] == calls;
    RunAgrees(capacity, disk, more);
  }

  lemma {:induction false} StraysGrow<K>(capacity: int, disk: map<K, Bytes>, calls: seq<Call<K>>, more: seq<Call<K>>)
    ensures Strays(capacity, disk, calls) <= Strays(capacity, disk, calls + more)
    decreases |more|
  {
    if more == [] {
      assert calls + more == calls;
    } else {
      var n := |more| - 1;
      StraysGrow(capacity, disk, calls, more[..n]);
      assert (calls + more)[..|calls + more| - 1] == calls + more[..n];
    }
  }

  lemma StrayIsFile<K>(capacity: int, disk: map<K, Bytes>, calls: seq<Call<K>>, k: K)
    requires k in Strays(capacity, disk, calls)
    ensures k in Run(capacity, disk, calls).disk
  {
    RunAgrees(capacity, disk, calls);
  }

  lemma StrayKept<K>(capacity: int, disk: map<K, Bytes>, calls: seq<Call<K>>, c: Call<K>, k: K)
    requires k in Strays(capacity, disk, calls)
    ensures var before, after := Run(capacity, disk, calls).disk, Run(capacity, disk, calls + [c]).disk;
      k in before && k in after && after[k] == before[k]
  {
    StrayIsFile(capacity, disk, calls, k);
    StraysGrow(capacity, disk, calls, [c]);
    StrayIsFile(capacity, disk, calls + [c], k);
    assert (calls + [c])[..|calls|] == calls;
    AfterKeepsFile(capacity, Run(capacity, disk, calls), c, k);
  }

  /** The file of a stray keeps its content in every continuation: nothing removes or replaces it. */
  lemma {:induction false} StrayStays<K>(
      capacity: int, disk: map<K, Bytes>, calls: seq<Call<K>>, more: seq<Call<K>>, k: K)
    requires k in Strays(capacity, disk, calls)
    ensures var before, after := Run(capacity, disk, calls).disk, Run(capacity, disk, calls + more).disk;
      k in before && k in after && after[k] == before[k]
    decreases |more|
  {
    if more == [] {
      StrayIsFile(capacity, disk, calls, k);
      assert calls + more == calls;
    } else {
      var n := |more| - 1;
      StrayStays(capacity, disk, calls, more[..n], k);
      StraysGrow(capacity, disk, calls, more[..n]);
      StrayKept(capacity, disk, calls + more[..n], more[n], k);
      assert calls + more == calls + more[..n] + [more[n]];
    }
  }

  /**
   A file that was truncated by a failed write stays as it is, whatever calls follow, and is served as it is: each
   later call for it succeeds without a fetch. It is the object's content exactly when the write had got through all
   of its bytes.
   */
  lemma TruncatedFileIsServed<K>(
      capacity: int, disk: map<K, Bytes>, calls: seq<Call<K>>, c: Call<K>, more: seq<Call<K>>, later: Call<K>)
    requires Truncates(Run(capacity, disk, calls), c) && later.key == c.key
    ensures !Succeeds(Run(capacity, disk, calls), c)
    ensures var st := Run(capacity, disk, calls + [c] + more);
      && c.key in st.disk && st.disk[c.key] == Prefix(c.blob[c.key], c.written.n)
      && Succeeds(st, later) && After(capacity, st, later) == st
      && (st.disk[c.key] == c.blob[c.key] <==> c.written.n >= |c.blob[c.key]|)
  {
    assert (calls + [c])[..|calls|] == calls;
    StrayStays(capacity, disk, calls + [c], more, c.key);
  }
}
