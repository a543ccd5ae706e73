/** ProcessTestcasesFromZip: from an archive to groups of testcases and stored objects. */
module Ingest {
  import opened Archive
  import opened Distinct
  import opened Filename
  import opened Sorting

  datatype Test = Test(ordinal: nat, inKey: string, outKey: string, hash: string)

  datatype Group = Group(ordinal: nat, name: string, points: int, tests: seq<Test>)

  datatype Meta = Meta(ordinal: int, name: string, points: int)

  /** Entry j is the last one with the ordinal. */
  predicate IsLast(metas: seq<Meta>, ordinal: int, j: nat) {
    j < |metas| && metas[j].ordinal == ordinal && forall k :: j < k < |metas| ==> metas[k].ordinal != ordinal
  }

  predicate Absent(metas: seq<Meta>, ordinal: int) {
    forall k :: 0 <= k < |metas| ==> metas[k].ordinal != ordinal
  }

  /** The last group of the request with the ordinal gives name and points; without one they are empty. */
  ghost predicate Describes(metas: seq<Meta>, ordinal: int, name: string, points: int) {
    || (Absent(metas, ordinal) && name == "" && points == 0)
    || exists j: nat :: IsLast(metas, ordinal, j) && name == metas[j].name && points == metas[j].points
  }

  function MetaOf(metas: seq<Meta>, ordinal: int): Meta {
    if metas == [] then Meta(ordinal, "", 0)
    else if metas[|metas| - 1].ordinal == ordinal then metas[|metas| - 1]
    else MetaOf(metas[..|metas| - 1], ordinal)
  }

  lemma OneMoreMeta(metas: seq<Meta>, m: Meta, ordinal: int, name: string, points: int)
    requires m.ordinal != ordinal && Describes(metas, ordinal, name, points)
    ensures Describes(metas + [m], ordinal, name, points)
  {
    if j: nat :| IsLast(metas, ordinal, j) && name == metas[j].name && points == metas[j].points {
      assert IsLast(metas + [m], ordinal, j);
    }
  }

  lemma {:induction false} MetaDescribes(metas: seq<Meta>, ordinal: int)
    ensures Describes(metas, ordinal, MetaOf(metas, ordinal).name, MetaOf(metas, ordinal).points)
    decreases |metas|
  {
    if metas != [] {
      var n := |metas| - 1;
      if metas[n].ordinal == ordinal {
        assert IsLast(metas, ordinal, n);
      } else {
        MetaDescribes(metas[..n], ordinal);
        OneMoreMeta(metas[..n], metas[n], ordinal, MetaOf(metas, ordinal).name, MetaOf(metas, ordinal).points);
        assert metas == metas[..n] + [metas[n]];
      }
    }
  }

  /** There is only one such description. */
  lemma DescribedOnce(metas: seq<Meta>, ordinal: int, a: string, p: int, b: string, q: int)
    requires Describes(metas, ordinal, a, p) && Describes(metas, ordinal, b, q)
    ensures a == b && p == q
  {
    if !Absent(metas, ordinal) {
      var i: nat :| IsLast(metas, ordinal, i) && a == metas[i].name && p == metas[i].points;
      var j: nat :| IsLast(metas, ordinal, j) && b == metas[j].name && q == metas[j].points;
      assert i == j;
    } else {
      assert forall j: nat :: !IsLast(metas, ordinal, j);
    }
  }

  type Hash = (Bytes, Bytes) -> string

  // ---------- Which archives are accepted ----------

  /** There are sizes[i] > 0 tests in subtask i, each with both files, and nothing else. */
  ghost predicate HasShape(slots: seq<Slot>, sizes: seq<nat>) {
    && sizes != [] && (forall i :: 0 <= i < |sizes| ==> sizes[i] > 0)
    && (forall s: Slot :: s in slots <==> s.subtask < |sizes| && s.testcase < sizes[s.subtask])
  }

  ghost predicate Accepts(items: seq<Item>) {
    Usable(items) && NoRepeats(Slots(Files(items))) && exists sizes :: HasShape(Slots(Files(items)), sizes)
  }

  /** Sorted distinct numbers. */
  ghost predicate Increasing(q: seq<nat>) {
    forall i, j :: 0 <= i < j < |q| ==> q[i] < q[j]
  }

  lemma {:induction false} AtLeastIndex(q: seq<nat>, i: nat, j: nat)
    requires Increasing(q) && i <= j < |q|
    ensures q[j] >= q[i] + (j - i)
    decreases j
  {
    if i < j {
      AtLeastIndex(q, i, j - 1);
    }
  }

  /** The ordinals are consecutive from 0 when each is below their number. */
  method Consecutive(keys: set<nat>) returns (ok: bool)
    ensures ok <==> forall k :: k in keys ==> k < |keys|
  {
    var q := Listed(keys);
    NoRepeatsCounts(q);
    ghost var listed := q;
    q := Sort(q, (a: nat, b: nat) => a <= b);
    PermutationKeeps(listed, q);
    NoRepeatsCounts(q);
    SortedIncreases(q);
    for i := 0 to |q|
      invariant forall k :: 0 <= k < i ==> q[k] == k
    {
      if q[i] != i {
        AtLeastIndex(q, 0, i);
        AtLeastIndex(q, i, |q| - 1);
        assert q[|q| - 1] in Elems(q);
        return false;
      }
    }
    return true;
  }

  lemma SortedIncreases(q: seq<nat>)
    requires NoRepeats(q) && SortedBy(q, (a: nat, b: nat) => a <= b)
    ensures Increasing(q)
  {
    var before := (a: nat, b: nat) => a <= b;
    forall i, j | 0 <= i < j < |q|
      ensures q[i] < q[j]
    {
      assert before(q[i], q[j]);
    }
  }

  function Range(n: nat): (r: set<nat>)
    ensures |r| == n && forall k: nat :: k in r <==> k < n
  {
    if n == 0 then {} else Range(n - 1) + {n - 1}
  }

  lemma {:induction false} SameSize<T>(a: set<T>, b: set<T>)
    requires a <= b && |a| == |b|
    ensures a == b
    decreases |a|
  {
    if a != {} {
      var x :| x in a;
      SameSize(a - {x}, b - {x});
      assert a == (a - {x}) + {x} && b == (b - {x}) + {x};
    }
  }

  /** Consecutive keys are all numbers below their count, and the other way round. */
  lemma ConsecutiveIsRange(keys: set<nat>)
    ensures (forall k :: k in keys ==> k < |keys|) <==> keys == Range(|keys|)
  {
    if forall k :: k in keys ==> k < |keys| {
      SameSize(keys, Range(|keys|));
    }
  }

  /** Every pair has its input and its output. */
  predicate AllComplete(pairs: Pairs) {
    forall s :: s in pairs ==> forall t :: t in pairs[s] ==> pairs[s][t].input.Some? && pairs[s][t].output.Some?
  }

  ghost predicate Sized(pairs: Pairs, sizes: seq<nat>) {
    && sizes != [] && pairs.Keys == Range(|sizes|)
    && forall i :: 0 <= i < |sizes| ==> SizedAt(pairs, sizes, i)
  }

  ghost predicate SizedAt(pairs: Pairs, sizes: seq<nat>, i: nat)
    requires i < |sizes|
  {
    i in pairs && sizes[i] > 0 && pairs[i].Keys == Range(sizes[i])
  }

  lemma SizedHasShape(pairs: Pairs, files: seq<File>, sizes: seq<nat>)
    requires HoldsFiles(pairs, files) && AllComplete(pairs) && Sized(pairs, sizes)
    ensures HasShape(Slots(files), sizes)
  {
    forall s: Slot
      ensures s in Slots(files) <==> s.subtask < |sizes| && s.testcase < sizes[s.subtask]
    {
      HeldSlots(pairs, files, s);
      assert s.subtask in pairs.Keys <==> s.subtask in Range(|sizes|);
      if s.subtask < |sizes| {
        assert SizedAt(pairs, sizes, s.subtask);
        assert s.testcase in pairs[s.subtask].Keys <==> s.testcase in Range(sizes[s.subtask]);
      }
    }
    forall i | 0 <= i < |sizes|
      ensures sizes[i] > 0
    {
      assert SizedAt(pairs, sizes, i);
    }
  }

  /** A test of the pairs has data in some slot, and the data of a slot belongs to a test. */
  lemma PairsAndSlots(pairs: Pairs, s: nat, t: nat)
    requires NothingEmpty(pairs)
    ensures s in pairs && t in pairs[s] <==> Get(pairs, Slot(s, t, In)).Some? || Get(pairs, Slot(s, t, Out)).Some?
  {
  }

  lemma TestInShape(pairs: Pairs, files: seq<File>, sizes: seq<nat>, s: nat, t: nat)
    requires HoldsFiles(pairs, files) && HasShape(Slots(files), sizes)
    ensures s in pairs && t in pairs[s] <==> s < |sizes| && t < sizes[s]
    ensures s in pairs && t in pairs[s] ==> pairs[s][t].input.Some? && pairs[s][t].output.Some?
  {
    PairsAndSlots(pairs, s, t);
    HeldSlots(pairs, files, Slot(s, t, In));
    HeldSlots(pairs, files, Slot(s, t, Out));
  }

  lemma SubtaskInShape(pairs: Pairs, files: seq<File>, sizes: seq<nat>, s: nat)
    requires HoldsFiles(pairs, files) && HasShape(Slots(files), sizes)
    ensures s in pairs <==> s < |sizes|
    ensures s < |sizes| ==> SizedAt(pairs, sizes, s)
  {
    if s in pairs {
      var t :| t in pairs[s];
      TestInShape(pairs, files, sizes, s, t);
    }
    if s < |sizes| {
      TestInShape(pairs, files, sizes, s, 0);
      forall t: nat
        ensures t in pairs[s].Keys <==> t in Range(sizes[s])
      {
        TestInShape(pairs, files, sizes, s, t);
      }
    }
  }

  lemma ShapeIsSized(pairs: Pairs, files: seq<File>, sizes: seq<nat>)
    requires HoldsFiles(pairs, files) && HasShape(Slots(files), sizes)
    ensures AllComplete(pairs) && Sized(pairs, sizes)
  {
    forall s: nat, t: nat | s in pairs && t in pairs[s]
      ensures pairs[s][t].input.Some? && pairs[s][t].output.Some?
    {
      TestInShape(pairs, files, sizes, s, t);
    }
    forall s: nat
      ensures s in pairs.Keys <==> s in Range(|sizes|)
      ensures s < |sizes| ==> SizedAt(pairs, sizes, s)
    {
      SubtaskInShape(pairs, files, sizes, s);
    }
  }

  // ---------- Storing ----------

  type Objects = map<string, Bytes>

  function DataOf(pairs: Pairs, s: Slot): Bytes {
    match Get(pairs, s)
    case Some(data) => data
    case None => []
  }

  function PutAll<S, K(==), V>(m: map<K, V>, key: S -> K, data: S -> V, slots: seq<S>): map<K, V> {
    if slots == [] then m
    else
      var s := slots[|slots| - 1];
      PutAll(m, key, data, slots[..|slots| - 1])[key(s) := data(s)]
  }

  lemma PutMore<S, K, V>(m: map<K, V>, key: S -> K, data: S -> V, slots: seq<S>, s: S)
    ensures PutAll(m, key, data, slots + [s]) == PutAll(m, key, data, slots)[key(s) := data(s)]
  {
    assert (slots + [s])[..|slots|] == slots;
  }

  lemma {:induction false} PutAppend<S, K, V>(m: map<K, V>, key: S -> K, data: S -> V, a: seq<S>, b: seq<S>)
    ensures PutAll(PutAll(m, key, data, a), key, data, b) == PutAll(m, key, data, a + b)
    decreases |b|
  {
    if b == [] {
      assert a + b == a;
    } else {
      var n := |b| - 1;
      PutAppend(m, key, data, a, b[..n]);
      PutMore(m, key, data, a + b[..n], b[n]);
      assert a + b == (a + b[..n]) + [b[n]];
    }
  }

  lemma {:induction false} PutHas<S, K, V>(m: map<K, V>, key: S -> K, data: S -> V, slots: seq<S>, s: S)
    requires s in slots && forall x :: x in slots && key(x) == key(s) ==> x == s
    ensures var after := PutAll(m, key, data, slots); key(s) in after && after[key(s)] == data(s)
    decreases |slots|
  {
    var n := |slots| - 1;
    assert slots == slots[..n] + [slots[n]];
    if slots[n] != s {
      PutHas(m, key, data, slots[..n], s);
    }
  }

  lemma {:induction false} PutKeeps<S, K, V>(m: map<K, V>, key: S -> K, data: S -> V, slots: seq<S>, k: K)
    requires forall s :: s in slots ==> key(s) != k
    ensures k in PutAll(m, key, data, slots) <==> k in m
    ensures k in m ==> PutAll(m, key, data, slots)[k] == m[k]
    decreases |slots|
  {
    if slots != [] {
      PutKeeps(m, key, data, slots[..|slots| - 1], k);
    }
  }

  function KeyIn(problem: int): Slot -> string {
    (s: Slot) => StorageKey(problem, s)
  }

  function DataIn(pairs: Pairs): Slot -> Bytes {
    (s: Slot) => DataOf(pairs, s)
  }

  function StoreAll(objects: Objects, problem: int, pairs: Pairs, slots: seq<Slot>): Objects {
    PutAll(objects, KeyIn(problem), DataIn(pairs), slots)
  }

  /** Each slot's object holds its own data: no two are stored under the same name. */
  lemma StoredData(objects: Objects, problem: int, pairs: Pairs, slots: seq<Slot>, s: Slot)
    requires s in slots && forall x :: x in slots ==> Fits(x)
    ensures var after := StoreAll(objects, problem, pairs, slots);
      StorageKey(problem, s) in after && after[StorageKey(problem, s)] == DataOf(pairs, s)
  {
    forall x | x in slots && KeyIn(problem)(x) == KeyIn(problem)(s)
      ensures x == s
    {
      KeysDiffer(problem, s, x);
    }
    PutHas(objects, KeyIn(problem), DataIn(pairs), slots, s);
  }

  function TestOf(problem: int, pairs: Pairs, hash: Hash, i: nat, j: nat): Test {
    var a, b := Slot(i, j, In), Slot(i, j, Out);
    Test(j, StorageKey(problem, a), StorageKey(problem, b), hash(DataOf(pairs, a), DataOf(pairs, b)))
  }

  function TestsOf(problem: int, pairs: Pairs, hash: Hash, i: nat, n: nat): (tests: seq<Test>)
    ensures |tests| == n && forall j :: 0 <= j < n ==> tests[j] == TestOf(problem, pairs, hash, i, j)
  {
    if n == 0 then [] else TestsOf(problem, pairs, hash, i, n - 1) + [TestOf(problem, pairs, hash, i, n - 1)]
  }

  function GroupOf(problem: int, pairs: Pairs, metas: seq<Meta>, hash: Hash, i: nat, n: nat): Group {
    Group(i, MetaOf(metas, i).name, MetaOf(metas, i).points, TestsOf(problem, pairs, hash, i, n))
  }

  function GroupsOf(problem: int, pairs: Pairs, metas: seq<Meta>, hash: Hash, sizes: seq<nat>): (groups: seq<Group>)
    ensures |groups| == |sizes|
    ensures forall i :: 0 <= i < |sizes| ==> groups[i] == GroupOf(problem, pairs, metas, hash, i, sizes[i])
  {
    if sizes == [] then []
    else
      var n := |sizes| - 1;
      GroupsOf(problem, pairs, metas, hash, sizes[..n]) + [GroupOf(problem, pairs, metas, hash, n, sizes[n])]
  }

  /** The slots of the first n tests of subtask i, in the order of uploading. */
  function SlotsOfTests(i: nat, n: nat): seq<Slot> {
    if n == 0 then [] else SlotsOfTests(i, n - 1) + [Slot(i, n - 1, In), Slot(i, n - 1, Out)]
  }

  function SlotsOfGroups(sizes: seq<nat>): seq<Slot> {
    if sizes == [] then []
    else SlotsOfGroups(sizes[..|sizes| - 1]) + SlotsOfTests(|sizes| - 1, sizes[|sizes| - 1])
  }

  lemma {:induction false} InTests(i: nat, n: nat, s: Slot)
    ensures s in SlotsOfTests(i, n) <==> s.subtask == i && s.testcase < n
    decreases n
  {
    if n > 0 {
      InTests(i, n - 1, s);
      var two := [Slot(i, n - 1, In), Slot(i, n - 1, Out)];
      assert two[0] in two && two[1] in two;
      assert s.kind == In || s.kind == Out;
    }
  }

  lemma {:induction false} InGroups(sizes: seq<nat>, s: Slot)
    ensures s in SlotsOfGroups(sizes) <==> s.subtask < |sizes| && s.testcase < sizes[s.subtask]
    decreases |sizes|
  {
    if sizes != [] {
      var n := |sizes| - 1;
      InGroups(sizes[..n], s);
      InTests(n, sizes[n], s);
    }
  }

  /** Every slot of the list has data. */
  ghost predicate AllHeld(pairs: Pairs, slots: seq<Slot>) {
    forall s :: s in slots ==> Get(pairs, s).Some?
  }

  /** Pairs that are empty, incomplete or without sizes come from files without a shape. */
  lemma NotAccepted(pairs: Pairs, files: seq<File>)
    requires HoldsFiles(pairs, files)
    requires !AllComplete(pairs) || forall x :: !Sized(pairs, x)
    ensures forall sizes :: !HasShape(Slots(files), sizes)
  {
    forall sizes
      ensures !HasShape(Slots(files), sizes)
    {
      if HasShape(Slots(files), sizes) {
        ShapeIsSized(pairs, files, sizes);
      }
    }
  }

  /** The subtasks done so far have their sizes, their groups and their slots. */
  ghost predicate Progress(problem: int, pairs: Pairs, metas: seq<Meta>, hash: Hash,
                           sizes: seq<nat>, groups: seq<Group>, done: seq<Slot>) {
    && (forall k :: 0 <= k < |sizes| ==> SizedAt(pairs, sizes, k))
    && groups == GroupsOf(problem, pairs, metas, hash, sizes) && done == SlotsOfGroups(sizes)
  }

  lemma OneMoreGroup(problem: int, pairs: Pairs, metas: seq<Meta>, hash: Hash,
                     sizes: seq<nat>, groups: seq<Group>, done: seq<Slot>)
    requires Progress(problem, pairs, metas, hash, sizes, groups, done) && NothingEmpty(pairs)
    requires |groups| in pairs && pairs[|groups|].Keys == Range(|pairs[|groups|].Keys|)
    ensures var i, n := |groups|, |pairs[|groups|].Keys|;
      Progress(problem, pairs, metas, hash, sizes + [n],
               groups + [GroupOf(problem, pairs, metas, hash, i, n)], done + SlotsOfTests(i, n))
  {
    var n := |pairs[|groups|].Keys|;
    SlotsOfMore(sizes, n);
    GroupsOfMore(problem, pairs, metas, hash, sizes, n);
    OneMoreSize(pairs, sizes, n);
  }

  lemma OneMoreSize(pairs: Pairs, sizes: seq<nat>, n: nat)
    requires NothingEmpty(pairs) && |sizes| in pairs && pairs[|sizes|].Keys == Range(n)
    requires forall k :: 0 <= k < |sizes| ==> SizedAt(pairs, sizes, k)
    ensures forall k :: 0 <= k < |sizes + [n]| ==> SizedAt(pairs, sizes + [n], k)
  {
    assert pairs[|sizes|] != map[];
    forall k | 0 <= k < |sizes + [n]|
      ensures SizedAt(pairs, sizes + [n], k)
    {
      assert k < |sizes| ==> SizedAt(pairs, sizes, k);
    }
  }

  lemma SlotsOfMore(sizes: seq<nat>, n: nat)
    ensures SlotsOfGroups(sizes + [n]) == SlotsOfGroups(sizes) + SlotsOfTests(|sizes|, n)
  {
    assert (sizes + [n])[..|sizes|] == sizes;
  }

  lemma GroupsOfMore(problem: int, pairs: Pairs, metas: seq<Meta>, hash: Hash, sizes: seq<nat>, n: nat)
    ensures GroupsOf(problem, pairs, metas, hash, sizes + [n])
         == GroupsOf(problem, pairs, metas, hash, sizes) + [GroupOf(problem, pairs, metas, hash, |sizes|, n)]
  {
    assert (sizes + [n])[..|sizes|] == sizes;
  }

  lemma AllSized(problem: int, pairs: Pairs, metas: seq<Meta>, hash: Hash,
                   sizes: seq<nat>, groups: seq<Group>, done: seq<Slot>)
    requires Progress(problem, pairs, metas, hash, sizes, groups, done)
    requires pairs != map[] && pairs.Keys == Range(|pairs.Keys|) && |sizes| == |pairs.Keys|
    ensures Sized(pairs, sizes)
  {
  }

  lemma SizedKeys(pairs: Pairs, sizes: seq<nat>, i: nat)
    requires Sized(pairs, sizes) && i in pairs
    ensures pairs[i].Keys == Range(|pairs[i].Keys|)
  {
    assert i in Range(|sizes|);
    assert SizedAt(pairs, sizes, i);
  }

  lemma NotSized(pairs: Pairs, i: nat)
    requires i in pairs && pairs[i].Keys != Range(|pairs[i].Keys|)
    ensures forall x :: !Sized(pairs, x)
  {
    forall x
      ensures !Sized(pairs, x)
    {
      if Sized(pairs, x) {
        SizedKeys(pairs, x, i);
      }
    }
  }

  lemma TestsHeld(pairs: Pairs, i: nat, n: nat, slots: seq<Slot>)
    requires AllComplete(pairs) && i in pairs && pairs[i].Keys == Range(n) && slots <= SlotsOfTests(i, n)
    ensures AllHeld(pairs, slots)
  {
    forall s | s in slots
      ensures Get(pairs, s).Some?
    {
      assert s in SlotsOfTests(i, n);
      InTests(i, n, s);
      assert s.testcase in pairs[i].Keys;
    }
  }

  lemma HeldAreSlots(pairs: Pairs, files: seq<File>, done: seq<Slot>)
    requires HoldsFiles(pairs, files) && AllHeld(pairs, done)
    ensures forall s :: s in done ==> s in Slots(files)
  {
  }

  lemma {:induction false} TestsPrefix(i: nat, m: nat, n: nat)
    requires m <= n
    ensures SlotsOfTests(i, m) <= SlotsOfTests(i, n)
    decreases n
  {
    if m < n {
      TestsPrefix(i, m, n - 1);
    }
  }

  // ---------- What ingestion gives ----------

  function ContentOf(files: seq<File>, s: Slot): Bytes {
    if files == [] then []
    else if files[|files| - 1].slot == s then files[|files| - 1].data
    else ContentOf(files[..|files| - 1], s)
  }

  ghost predicate IsTestOf(problem: int, hash: Hash, files: seq<File>, i: nat, j: nat, t: Test) {
    var a, b := Slot(i, j, In), Slot(i, j, Out);
    && t.ordinal == j && t.inKey == StorageKey(problem, a) && t.outKey == StorageKey(problem, b)
    && t.hash == hash(ContentOf(files, a), ContentOf(files, b))
  }

  ghost predicate IsGroupOf(problem: int, metas: seq<Meta>, hash: Hash, files: seq<File>, i: nat, g: Group) {
    && g.ordinal == i && Describes(metas, i, g.name, g.points)
    && forall j :: 0 <= j < |g.tests| ==> IsTestOf(problem, hash, files, i, j, g.tests[j])
  }

  function Sizes(groups: seq<Group>): seq<nat> {
    seq(|groups|, i requires 0 <= i < |groups| => |groups[i].tests|)
  }

  ghost predicate SameAt(before: Objects, after: Objects, key: string) {
    (key in before <==> key in after) && (key in before ==> before[key] == after[key])
  }

  /** Objects under other names than those of the slots are as they were. */
  ghost predicate OnlySlots(problem: int, slots: seq<Slot>, before: Objects, after: Objects) {
    forall key :: (forall s :: s in slots ==> StorageKey(problem, s) != key) ==> SameAt(before, after, key)
  }

  /**
   Groups and tests are numbered from 0 without gaps; each slot of a test has exactly one file, each file its slot;
   names, hashes and stored objects are those of the file's own slot, and nothing else is touched.
   */
  ghost predicate Ingested(problem: int, metas: seq<Meta>, hash: Hash, files: seq<File>,
                           groups: seq<Group>, before: Objects, after: Objects) {
    && HasShape(Slots(files), Sizes(groups)) && NoRepeats(Slots(files))
    && (forall i :: 0 <= i < |groups| ==> IsGroupOf(problem, metas, hash, files, i, groups[i]))
    && (forall i :: 0 <= i < |files| ==>
          StorageKey(problem, files[i].slot) in after && after[StorageKey(problem, files[i].slot)] == files[i].data)
    && OnlySlots(problem, Slots(files), before, after)
  }

  lemma {:induction false} ContentIs(files: seq<File>, i: nat)
    requires NoRepeats(Slots(files)) && i < |files|
    ensures ContentOf(files, files[i].slot) == files[i].data
    decreases |files|
  {
    var n := |files| - 1;
    if i < n {
      assert Slots(files)[i] != Slots(files)[n];
      assert Slots(files[..n]) == Slots(files)[..n];
      PrefixRepeats(Slots(files[..n]), Slots(files));
      ContentIs(files[..n], i);
    }
  }

  lemma PairsContent(pairs: Pairs, files: seq<File>, s: Slot)
    requires HoldsFiles(pairs, files) && NoRepeats(Slots(files)) && s in Slots(files)
    ensures DataOf(pairs, s) == ContentOf(files, s)
  {
    var i :| 0 <= i < |files| && Slots(files)[i] == s;
    assert files[i].slot == s;
    ContentIs(files, i);
  }

  lemma GroupIsRight(problem: int, pairs: Pairs, metas: seq<Meta>, hash: Hash, files: seq<File>, i: nat, n: nat)
    requires HoldsFiles(pairs, files) && NoRepeats(Slots(files))
    requires forall j: nat, k: Kind :: j < n ==> Slot(i, j, k) in Slots(files)
    ensures IsGroupOf(problem, metas, hash, files, i, GroupOf(problem, pairs, metas, hash, i, n))
  {
    MetaDescribes(metas, i);
    forall j: nat | j < n
      ensures IsTestOf(problem, hash, files, i, j, TestOf(problem, pairs, hash, i, j))
    {
      PairsContent(pairs, files, Slot(i, j, In));
      PairsContent(pairs, files, Slot(i, j, Out));
    }
  }

  lemma GroupsAreRight(problem: int, pairs: Pairs, metas: seq<Meta>, hash: Hash, files: seq<File>, sizes: seq<nat>)
    requires HoldsFiles(pairs, files) && NoRepeats(Slots(files)) && HasShape(Slots(files), sizes)
    ensures var groups := GroupsOf(problem, pairs, metas, hash, sizes);
      Sizes(groups) == sizes && forall i :: 0 <= i < |groups| ==> IsGroupOf(problem, metas, hash, files, i, groups[i])
  {
    var groups := GroupsOf(problem, pairs, metas, hash, sizes);
    forall i | 0 <= i < |groups|
      ensures IsGroupOf(problem, metas, hash, files, i, groups[i])
    {
      GroupIsRight(problem, pairs, metas, hash, files, i, sizes[i]);
    }
    assert Sizes(groups) == sizes;
  }

  lemma ObjectsAreRight(problem: int, pairs: Pairs, files: seq<File>, sizes: seq<nat>, before: Objects)
    requires HoldsFiles(pairs, files) && HasShape(Slots(files), sizes) && forall s :: s in Slots(files) ==> Fits(s)
    ensures var after := StoreAll(before, problem, pairs, SlotsOfGroups(sizes));
      forall i :: 0 <= i < |files| ==>
        StorageKey(problem, files[i].slot) in after && after[StorageKey(problem, files[i].slot)] == files[i].data
  {
    forall s: Slot
      ensures s in SlotsOfGroups(sizes) <==> s in Slots(files)
    {
      InGroups(sizes, s);
    }
    forall i | 0 <= i < |files|
      ensures var after := StoreAll(before, problem, pairs, SlotsOfGroups(sizes));
        StorageKey(problem, files[i].slot) in after && after[StorageKey(problem, files[i].slot)] == files[i].data
    {
      assert Slots(files)[i] in Slots(files);
      StoredData(before, problem, pairs, SlotsOfGroups(sizes), files[i].slot);
    }
  }

  lemma OnlySlotsStored(problem: int, pairs: Pairs, slots: seq<Slot>, done: seq<Slot>, before: Objects)
    requires forall s :: s in done ==> s in slots
    ensures OnlySlots(problem, slots, before, StoreAll(before, problem, pairs, done))
  {
    forall key | forall s :: s in slots ==> StorageKey(problem, s) != key
      ensures SameAt(before, StoreAll(before, problem, pairs, done), key)
    {
      PutKeeps(before, KeyIn(problem), DataIn(pairs), done, key);
    }
  }

  lemma UploadedIsIngested(problem: int, pairs: Pairs, metas: seq<Meta>, hash: Hash,
                           files: seq<File>, sizes: seq<nat>, before: Objects)
    requires HoldsFiles(pairs, files) && NoRepeats(Slots(files)) && AllComplete(pairs) && Sized(pairs, sizes)
    requires forall s :: s in Slots(files) ==> Fits(s)
    ensures Ingested(problem, metas, hash, files, GroupsOf(problem, pairs, metas, hash, sizes), before,
                     StoreAll(before, problem, pairs, SlotsOfGroups(sizes)))
    ensures HasShape(Slots(files), sizes)
  {
    SizedHasShape(pairs, files, sizes);
    GroupsAreRight(problem, pairs, metas, hash, files, sizes);
    ObjectsAreRight(problem, pairs, files, sizes, before);
    forall s | s in SlotsOfGroups(sizes)
      ensures s in Slots(files)
    {
      InGroups(sizes, s);
    }
    OnlySlotsStored(problem, pairs, Slots(files), SlotsOfGroups(sizes), before);
  }

  lemma {:induction false} SlotsFit(entries: seq<Entry>)
    ensures forall s :: s in Slots(Files(Items(entries))) ==> Fits(s)
    decreases |entries|
  {
    if entries != [] {
      var n := |entries| - 1;
      SlotsFit(entries[..n]);
      var e := ItemOf(entries[n]);
      assert Items(entries) == Items(entries[..n]) + [e];
      FilesMore(Items(entries[..n]), e);
      if e.Testcase? {
        ParsedFits(BaseName(entries[n].path));
        SlotsMore(Files(Items(entries[..n])), e.file);
      } else {
        assert Files(Items(entries[..n])) + [] == Files(Items(entries[..n]));
      }
    }
  }

  // ---------- The upload ----------

  /** No upload of the slots fails. */
  ghost predicate Storable(slots: seq<Slot>, fails: Slot -> bool) {
    forall s :: s in slots ==> !fails(s)
  }

  lemma StorablePrefix(a: seq<Slot>, b: seq<Slot>, fails: Slot -> bool)
    requires a <= b
    ensures Storable(b, fails) ==> Storable(a, fails)
  {
    assert forall s :: s in a ==> s in b;
  }

  lemma StorablePair(done: seq<Slot>, a: Slot, b: Slot, fails: Slot -> bool)
    ensures Storable(done + [a, b], fails) <==> Storable(done, fails) && !fails(a) && !fails(b)
  {
    assert a in done + [a, b] && b in done + [a, b];
  }

  lemma AllStorable(files: seq<File>, sizes: seq<nat>, fails: Slot -> bool)
    requires HasShape(Slots(files), sizes) && Storable(SlotsOfGroups(sizes), fails)
    ensures Storable(Slots(files), fails)
  {
    forall s | s in Slots(files)
      ensures !fails(s)
    {
      InGroups(sizes, s);
    }
  }

  datatype Result = Ok(groups: seq<Group>) | BadId | BadArchive | StoreFailed

  class Problems {
    var objects: Objects

    method Put(key: string, data: Bytes, fails: bool) returns (ok: bool)
      modifies this
      ensures ok <==> !fails
      ensures objects == if ok then old(objects)[key := data] else old(objects)
    {
      ok := !fails;
      if ok {
        objects := objects[key := data];
      }
    }

    /** The tests of one subtask; done lists the slots whose objects were stored, also when a later one failed. */
    method UploadTests(problem: int, pairs: Pairs, hash: Hash, i: nat, n: nat, fails: Slot -> bool)
      returns (ok: bool, tests: seq<Test>, ghost done: seq<Slot>)
      modifies this
      ensures objects == StoreAll(old(objects), problem, pairs, done) && done <= SlotsOfTests(i, n)
      ensures ok ==> done == SlotsOfTests(i, n) && tests == TestsOf(problem, pairs, hash, i, n)
      ensures ok <==> Storable(SlotsOfTests(i, n), fails)
    {
      tests, done := [], [];
      for j := 0 to n
        invariant done == SlotsOfTests(i, j) && tests == TestsOf(problem, pairs, hash, i, j) && Storable(done, fails)
        invariant objects == StoreAll(old(objects), problem, pairs, done)
      {
        TestsPrefix(i, j + 1, n);
        StorablePrefix(SlotsOfTests(i, j + 1), SlotsOfTests(i, n), fails);
        ok, done := UploadTest(problem, pairs, i, j, fails, old(objects), done);
        if !ok {
          return;
        }
        tests := tests + [TestOf(problem, pairs, hash, i, j)];
      }
      ok := true;
    }

    method UploadTest(problem: int, pairs: Pairs, i: nat, j: nat, fails: Slot -> bool,
                      ghost before: Objects, ghost done: seq<Slot>)
      returns (ok: bool, ghost done': seq<Slot>)
      requires objects == StoreAll(before, problem, pairs, done) && Storable(done, fails)
      modifies this
      ensures objects == StoreAll(before, problem, pairs, done')
      ensures done' <= done + [Slot(i, j, In), Slot(i, j, Out)]
      ensures ok ==> done' == done + [Slot(i, j, In), Slot(i, j, Out)]
      ensures ok <==> Storable(done + [Slot(i, j, In), Slot(i, j, Out)], fails)
    {
      StorablePair(done, Slot(i, j, In), Slot(i, j, Out), fails);
      ok, done' := PutSlot(problem, pairs, Slot(i, j, In), fails, before, done);
      if ok {
        ok, done' := PutSlot(problem, pairs, Slot(i, j, Out), fails, before, done');
      }
    }

    method PutSlot(problem: int, pairs: Pairs, s: Slot, fails: Slot -> bool, ghost before: Objects,
                   ghost done: seq<Slot>)
      returns (ok: bool, ghost done': seq<Slot>)
      requires objects == StoreAll(before, problem, pairs, done)
      modifies this
      ensures objects == StoreAll(before, problem, pairs, done') && done' == if ok then done + [s] else done
      ensures ok <==> !fails(s)
    {
      PutMore(before, KeyIn(problem), DataIn(pairs), done, s);
      ok := Put(StorageKey(problem, s), DataOf(pairs, s), fails(s));
      done' := if ok then done + [s] else done;
    }

    /** The loop over the subtasks; sizes are the subtasks done. */
    method UploadGroups(problem: int, pairs: Pairs, metas: seq<Meta>, hash: Hash, fails: Slot -> bool)
      returns (r: Result, ghost sizes: seq<nat>, ghost done: seq<Slot>)
      requires AllComplete(pairs) && pairs.Keys == Range(|pairs.Keys|) && pairs != map[] && NothingEmpty(pairs)
      modifies this
      ensures objects == StoreAll(old(objects), problem, pairs, done) && AllHeld(pairs, done)
      ensures !r.BadId?
      ensures r.Ok? ==>
        Sized(pairs, sizes) && done == SlotsOfGroups(sizes) && r.groups == GroupsOf(problem, pairs, metas, hash, sizes)
      ensures r.BadArchive? ==> forall x :: !Sized(pairs, x)
      ensures r.Ok? ==> Storable(done, fails)
      ensures r.StoreFailed? ==> exists s :: Get(pairs, s).Some? && fails(s)
    {
      var groups: seq<Group> := [];
      sizes, done := [], [];
      for i := 0 to |pairs.Keys|
        invariant |sizes| == i && Progress(problem, pairs, metas, hash, sizes, groups, done) && AllHeld(pairs, done)
        invariant objects == StoreAll(old(objects), problem, pairs, done) && Storable(done, fails)
      {
        assert i in pairs.Keys;
        var ok := Consecutive(pairs[i].Keys);
        ConsecutiveIsRange(pairs[i].Keys);
        if !ok {
          NotSized(pairs, i);
          return BadArchive, sizes, done;
        }
        ok, groups, sizes, done := UploadGroup(problem, pairs, metas, hash, fails, old(objects), sizes, groups, done);
        if !ok {
          return StoreFailed, sizes, done;
        }
      }
      AllSized(problem, pairs, metas, hash, sizes, groups, done);
      r := Ok(groups);
    }

    /** The body of that loop, after the check of the testcase ordinals. */
    method UploadGroup(problem: int, pairs: Pairs, metas: seq<Meta>, hash: Hash, fails: Slot -> bool,
                       ghost before: Objects, ghost sizes: seq<nat>, groups: seq<Group>, ghost done: seq<Slot>)
      returns (ok: bool, groups': seq<Group>, ghost sizes': seq<nat>, ghost done': seq<Slot>)
      requires AllComplete(pairs) && NothingEmpty(pairs)
      requires |groups| in pairs && pairs[|groups|].Keys == Range(|pairs[|groups|].Keys|)
      requires Progress(problem, pairs, metas, hash, sizes, groups, done) && AllHeld(pairs, done)
      requires objects == StoreAll(before, problem, pairs, done) && Storable(done, fails)
      modifies this
      ensures objects == StoreAll(before, problem, pairs, done') && AllHeld(pairs, done')
      ensures if ok then Storable(done', fails) else exists s :: Get(pairs, s).Some? && fails(s)
      ensures ok ==> |sizes'| == |sizes| + 1 && Progress(problem, pairs, metas, hash, sizes', groups', done')
    {
      var i := |groups|;
      var n: nat := |pairs[i].Keys|;
      var tests;
      ghost var more;
      ok, tests, more := UploadTests(problem, pairs, hash, i, n, fails);
      TestsHeld(pairs, i, n, SlotsOfTests(i, n));
      PutAppend(before, KeyIn(problem), DataIn(pairs), done, more);
      TestsHeld(pairs, i, n, more);
      OneMoreGroup(problem, pairs, metas, hash, sizes, groups, done);
      sizes' := sizes + [n];
      done' := done + more;
      groups' := groups + [Group(i, MetaOf(metas, i).name, MetaOf(metas, i).points, tests)];
    }

    /** fails tells for which slots storage.Put returns an error. */
    method ProcessTestcasesFromZip(problem: int, entries: seq<Entry>, metas: seq<Meta>, hash: Hash,
                                   fails: Slot -> bool)
      returns (r: Result)
      modifies this
      ensures r.BadId? <==> problem < 1
      ensures r.BadArchive? ==> !Accepts(Items(entries))
      ensures r.StoreFailed? ==> !Storable(Slots(Files(Items(entries))), fails)
      ensures r.Ok? <==> problem >= 1 && Accepts(Items(entries)) && Storable(Slots(Files(Items(entries))), fails)
      ensures r.Ok? ==> Ingested(problem, metas, hash, Files(Items(entries)), r.groups, old(objects), objects)
      ensures OnlySlots(problem, Slots(Files(Items(entries))), old(objects), objects)
    {
      if problem < 1 {
        return BadId;
      }
      var read := ReadEntries(entries);
      if read.None? {
        return BadArchive;
      }
      var pairs := read.value;
      ghost var files := Files(Items(entries));
      if pairs == map[] || !AllComplete(pairs) {
        NotAccepted(pairs, files);
        return BadArchive;
      }
      var ok := Consecutive(pairs.Keys);
      ConsecutiveIsRange(pairs.Keys);
      if !ok {
        NotAccepted(pairs, files);
        return BadArchive;
      }
      ghost var sizes, done;
      r, sizes, done := UploadGroups(problem, pairs, metas, hash, fails);
      HeldAreSlots(pairs, files, done);
      OnlySlotsStored(problem, pairs, Slots(files), done, old(objects));
      SlotsFit(entries);
      if r.Ok? {
        UploadedIsIngested(problem, pairs, metas, hash, files, sizes, old(objects));
        AllStorable(files, sizes, fails);
      }
      if r.BadArchive? {
        NotAccepted(pairs, files);
      }
    }
  }

  // ---------- The order of the entries does not matter ----------

  function SlotBit(s: Slot): Item -> int {
    (e: Item) => if e.Testcase? && e.file.slot == s then 1 else 0
  }

  lemma {:induction false} SlotCount(items: seq<Item>, s: Slot)
    ensures multiset(Slots(Files(items)))[s] == SumSeq(items, SlotBit(s))
    decreases |items|
  {
    if items != [] {
      var n := |items| - 1;
      var e := items[n];
      SlotCount(items[..n], s);
      if e.Testcase? {
        SlotsMore(Files(items[..n]), e.file);
      } else {
        assert Files(items[..n]) + [] == Files(items[..n]);
      }
    }
  }

  lemma {:induction false} FilesAreTestcases(items: seq<Item>, f: File)
    ensures f in Files(items) <==> Testcase(f) in items
    decreases |items|
  {
    if items != [] {
      FilesAreTestcases(items[..|items| - 1], f);
      assert items == items[..|items| - 1] + [items[|items| - 1]];
    }
  }

  lemma SlotsPermute(a: seq<Item>, b: seq<Item>)
    requires multiset(a) == multiset(b)
    ensures Elems(Slots(Files(a))) == Elems(Slots(Files(b)))
    ensures NoRepeats(Slots(Files(a))) <==> NoRepeats(Slots(Files(b)))
  {
    forall s
      ensures multiset(Slots(Files(a)))[s] == multiset(Slots(Files(b)))[s]
    {
      SlotCount(a, s);
      SlotCount(b, s);
      SumPermutation(a, b, SlotBit(s));
    }
    assert multiset(Slots(Files(a))) == multiset(Slots(Files(b)));
    PermutationKeeps(Slots(Files(a)), Slots(Files(b)));
  }

  lemma SameShape(a: seq<Slot>, b: seq<Slot>, sizes: seq<nat>)
    requires Elems(a) == Elems(b) && HasShape(a, sizes)
    ensures HasShape(b, sizes)
  {
    forall s: Slot
      ensures s in b <==> s in a
    {
      assert s in Elems(a) <==> s in Elems(b);
    }
  }

  lemma ShapeIsUnique(slots: seq<Slot>, x: seq<nat>, y: seq<nat>)
    requires HasShape(slots, x) && HasShape(slots, y)
    ensures x == y
  {
    assert Slot(|x| - 1, 0, In) in slots && Slot(|y| - 1, 0, In) in slots;
    assert |x| == |y|;
    forall i | 0 <= i < |x|
      ensures x[i] == y[i]
    {
      assert Slot(i, x[i] - 1, In) in slots && Slot(i, y[i] - 1, In) in slots;
    }
  }

  lemma SameContent(a: seq<Item>, b: seq<Item>, s: Slot)
    requires multiset(a) == multiset(b) && NoRepeats(Slots(Files(a))) && s in Slots(Files(a))
    ensures ContentOf(Files(a), s) == ContentOf(Files(b), s)
  {
    SlotsPermute(a, b);
    var i :| 0 <= i < |Files(a)| && Slots(Files(a))[i] == s;
    var f := Files(a)[i];
    ContentIs(Files(a), i);
    FilesAreTestcases(a, f);
    FilesAreTestcases(b, f);
    assert Testcase(f) in multiset(a);
    var j :| 0 <= j < |Files(b)| && Files(b)[j] == f;
    ContentIs(Files(b), j);
  }

  /** Archives with the same entries in another order are accepted alike. */
  lemma OrderKeepsAcceptance(a: seq<Item>, b: seq<Item>)
    requires multiset(a) == multiset(b) && Accepts(a)
    ensures Accepts(b)
  {
    SlotsPermute(a, b);
    assert Unusable in b ==> Unusable in multiset(b);
    var sizes :| HasShape(Slots(Files(a)), sizes);
    SameShape(Slots(Files(a)), Slots(Files(b)), sizes);
  }

  /** And they give the same groups and the same objects. */
  lemma OrderKeepsGroups(problem: int, metas: seq<Meta>, hash: Hash, a: seq<Item>, b: seq<Item>,
                         ga: seq<Group>, gb: seq<Group>, before: Objects, afterA: Objects, afterB: Objects)
    requires multiset(a) == multiset(b)
    requires Ingested(problem, metas, hash, Files(a), ga, before, afterA)
    requires Ingested(problem, metas, hash, Files(b), gb, before, afterB)
    ensures ga == gb && afterA == afterB
  {
    SameGroups(problem, metas, hash, a, b, ga, gb, before, afterA, afterB);
    forall key
      ensures SameAt(afterA, afterB, key)
    {
      SameObject(problem, metas, hash, a, b, ga, gb, before, afterA, afterB, key);
    }
    SameMaps(afterA, afterB);
  }

  lemma SameMaps(a: Objects, b: Objects)
    requires forall key :: SameAt(a, b, key)
    ensures a == b
  {
    assert forall key :: key in a ==> SameAt(a, b, key);
    assert forall key :: key in b ==> SameAt(a, b, key);
  }

  lemma SameObject(problem: int, metas: seq<Meta>, hash: Hash, a: seq<Item>, b: seq<Item>,
                   ga: seq<Group>, gb: seq<Group>, before: Objects, afterA: Objects, afterB: Objects, key: string)
    requires multiset(a) == multiset(b)
    requires Ingested(problem, metas, hash, Files(a), ga, before, afterA)
    requires Ingested(problem, metas, hash, Files(b), gb, before, afterB)
    ensures SameAt(afterA, afterB, key)
  {
    SlotsPermute(a, b);
    if s :| s in Slots(Files(a)) && StorageKey(problem, s) == key {
      SameContent(a, b, s);
      assert s in Elems(Slots(Files(a))) && s in Slots(Files(b));
      ObjectOf(problem, Files(a), s, afterA);
      ObjectOf(problem, Files(b), s, afterB);
    } else {
      forall s | s in Slots(Files(b))
        ensures StorageKey(problem, s) != key
      {
        assert s in Elems(Slots(Files(a)));
      }
      assert SameAt(before, afterA, key) && SameAt(before, afterB, key);
    }
  }

  lemma ObjectOf(problem: int, files: seq<File>, s: Slot, after: Objects)
    requires NoRepeats(Slots(files)) && s in Slots(files)
    requires forall i :: 0 <= i < |files| ==>
      StorageKey(problem, files[i].slot) in after && after[StorageKey(problem, files[i].slot)] == files[i].data
    ensures StorageKey(problem, s) in after && after[StorageKey(problem, s)] == ContentOf(files, s)
  {
    var i :| 0 <= i < |files| && Slots(files)[i] == s;
    ContentIs(files, i);
    assert files[i].slot == s;
  }

  lemma SameGroups(problem: int, metas: seq<Meta>, hash: Hash, a: seq<Item>, b: seq<Item>,
                   ga: seq<Group>, gb: seq<Group>, before: Objects, afterA: Objects, afterB: Objects)
    requires multiset(a) == multiset(b)
    requires Ingested(problem, metas, hash, Files(a), ga, before, afterA)
    requires Ingested(problem, metas, hash, Files(b), gb, before, afterB)
    ensures ga == gb
  {
    SlotsPermute(a, b);
    SameShape(Slots(Files(a)), Slots(Files(b)), Sizes(ga));
    ShapeIsUnique(Slots(Files(b)), Sizes(ga), Sizes(gb));
    assert |ga| == |Sizes(ga)| == |Sizes(gb)| == |gb|;
    forall i | 0 <= i < |ga|
      ensures ga[i] == gb[i]
    {
      assert |ga[i].tests| == Sizes(ga)[i] == Sizes(gb)[i] == |gb[i].tests|;
      SameGroup(problem, metas, hash, a, b, i, ga[i], gb[i]);
    }
  }

  lemma SameGroup(problem: int, metas: seq<Meta>, hash: Hash, a: seq<Item>, b: seq<Item>, i: nat, g: Group, h: Group)
    requires multiset(a) == multiset(b) && NoRepeats(Slots(Files(a))) && |g.tests| == |h.tests|
    requires forall j: nat, k: Kind :: j < |g.tests| ==> Slot(i, j, k) in Slots(Files(a))
    requires IsGroupOf(problem, metas, hash, Files(a), i, g) && IsGroupOf(problem, metas, hash, Files(b), i, h)
    ensures g == h
  {
    DescribedOnce(metas, i, g.name, g.points, h.name, h.points);
    SameTests(problem, hash, a, b, i, g.tests, h.tests);
  }

  lemma SameTests(problem: int, hash: Hash, a: seq<Item>, b: seq<Item>, i: nat, ta: seq<Test>, tb: seq<Test>)
    requires multiset(a) == multiset(b) && NoRepeats(Slots(Files(a))) && |ta| == |tb|
    requires forall j: nat, k: Kind :: j < |ta| ==> Slot(i, j, k) in Slots(Files(a))
    requires forall j :: 0 <= j < |ta| ==>
      IsTestOf(problem, hash, Files(a), i, j, ta[j]) && IsTestOf(problem, hash, Files(b), i, j, tb[j])
    ensures ta == tb
  {
    forall j | 0 <= j < |ta|
      ensures ta[j] == tb[j]
    {
      SameContent(a, b, Slot(i, j, In));
      SameContent(a, b, Slot(i, j, Out));
      assert IsTestOf(problem, hash, Files(a), i, j, ta[j]) && IsTestOf(problem, hash, Files(b), i, j, tb[j]);
    }
  }
}
