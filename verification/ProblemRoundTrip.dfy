/** SaveTestcaseGroups and GetWithTestcases, and that the second undoes the first. */
module ProblemRoundTrip {
  import opened Distinct
  import opened MapSums
  import opened Options
  import opened ProblemStore
  import opened Sorting

  class Store {
    var db: Db

    constructor ()
      ensures Consistent(db) && Owned(db)
    {
      db := Db([], [], 0);
    }

    /**
     The transaction: any statement may fail, and then the tables are as before, whatever ids were used up. works tells
     which do not: statement 0 deletes, statement i + 1 inserts group i with its testcases, and the last one commits.
     */
    method SaveTestcaseGroups(problem: int, groups: seq<Group>, works: nat -> bool) returns (ok: bool)
      requires Consistent(db) && Owned(db)
      modifies this
      ensures Consistent(db) && Owned(db)
      ensures ok <==> forall i :: 0 <= i <= |groups| + 1 ==> works(i)
      ensures ok ==> db == Saved(old(db), problem, groups)
      ensures !ok ==> db.groups == old(db.groups) && db.cases == old(db.cases)
    {
      SavedConsistent(db, problem, groups);
      SavedIsOwned(db, problem, groups);
      var before := db;
      ok := works(0);
      if ok {
        db := Deleted(db, problem);
        ok := InsertGroups(problem, groups, works);
        if ok {
          ok := works(|groups| + 1);
        }
        if !ok {
          db := Db(before.groups, before.cases, db.nextId);
        }
      }
    }

    /** The INSERTs, up to the first one that fails. */
    method InsertGroups(problem: int, groups: seq<Group>, works: nat -> bool) returns (ok: bool)
      modifies this
      ensures ok <==> forall i :: 0 < i <= |groups| ==> works(i)
      ensures ok ==> db == InsertedAll(old(db), problem, groups)
      ensures db.nextId >= old(db).nextId
    {
      for i := 0 to |groups|
        invariant db == InsertedAll(old(db), problem, groups[..i]) && db.nextId >= old(db).nextId
        invariant forall j :: 0 < j <= i ==> works(j)
      {
        assert groups[..i + 1][..i] == groups[..i];
        if !works(i + 1) {
          return false;
        }
        db := ProblemStore.Inserted(db, problem, groups[i]);
      }
      assert groups[..|groups|] == groups;
      ok := true;
    }

    method GetWithTestcases(problem: int) returns (read: seq<Read>)
      requires Consistent(db)
      ensures ReadsOf(db, problem, read)
    {
      var rows := Sort(Join(db.groups, db.cases, problem), RowOrder());
      JoinOneGroup(db.groups, db.cases, problem, rows);
      ghost var byId;
      read, byId := Regroup(rows);
      RegroupedReads(db, problem, rows, read, byId);
    }
  }

  // ---------- Reading ----------

  function OrdinalOf(): Case -> int {
    (c: Case) => c.ordinal
  }

  /** g is group row with its testcases, sorted by ordinal. */
  ghost predicate IsReadOf(db: Db, row: GroupRow, g: Group) {
    HeaderOf(row, g) && multiset(g.cases) == multiset(CasesWith(db.cases, row.id)) && WeaklyBy(g.cases, OrdinalOf())
  }

  /** The groups of the problem, each once, by ordinal. */
  ghost predicate ReadsOf(db: Db, problem: int, read: seq<Read>) {
    && NoRepeats(Ids(read)) && Ascending(read)
    && (forall g :: g in db.groups && g.problem == problem ==> g.id in Ids(read))
    && (forall i :: 0 <= i < |read| ==> IsReadOfSome(db, problem, read[i]))
  }

  ghost predicate IsReadOfSome(db: Db, problem: int, r: Read) {
    exists g :: g in db.groups && g.problem == problem && g.id == r.id && IsReadOf(db, g, r.group)
  }

  lemma RowInJoin(groups: seq<GroupRow>, cases: seq<CaseRow>, problem: int, rows: seq<Row>, k: nat)
    requires multiset(rows) == multiset(Join(groups, cases, problem)) && k < |rows|
    ensures rows[k].group in groups && rows[k].group.problem == problem
  {
    assert rows[k] in multiset(rows);
    GroupsOfJoin(groups, cases, problem, rows[k].group);
  }

  lemma SameId(groups: seq<GroupRow>, a: GroupRow, b: GroupRow)
    requires DistinctIds(groups) && a in groups && b in groups && a.id == b.id
    ensures a == b
  {
    var i :| 0 <= i < |groups| && groups[i] == a;
    var j :| 0 <= j < |groups| && groups[j] == b;
    assert i == j;
  }

  lemma JoinOneGroup(groups: seq<GroupRow>, cases: seq<CaseRow>, problem: int, rows: seq<Row>)
    requires DistinctIds(groups) && multiset(rows) == multiset(Join(groups, cases, problem))
    ensures OneGroupPerId(rows)
  {
    forall k, l | 0 <= k < |rows| && 0 <= l < |rows| && rows[k].group.id == rows[l].group.id
      ensures rows[k].group == rows[l].group
    {
      RowInJoin(groups, cases, problem, rows, k);
      RowInJoin(groups, cases, problem, rows, l);
      SameId(groups, rows[k].group, rows[l].group);
    }
  }

  function TestBit(id: nat, c: Case): Row -> int {
    (r: Row) => if r.group.id == id && r.test == Some(c) then 1 else 0
  }

  lemma {:induction false} TestCount(rows: seq<Row>, id: nat, c: Case)
    ensures multiset(TestsOf(rows, id))[c] == SumSeq(rows, TestBit(id, c))
    decreases |rows|
  {
    if rows != [] {
      TestCount(rows[..|rows| - 1], id, c);
    }
  }

  lemma TestsPermute(a: seq<Row>, b: seq<Row>, id: nat)
    requires multiset(a) == multiset(b)
    ensures multiset(TestsOf(a, id)) == multiset(TestsOf(b, id))
  {
    forall c
      ensures multiset(TestsOf(a, id))[c] == multiset(TestsOf(b, id))[c]
    {
      TestCount(a, id, c);
      TestCount(b, id, c);
      SumPermutation(a, b, TestBit(id, c));
    }
  }

  lemma {:induction false} TestRow(rows: seq<Row>, id: nat, i: nat) returns (k: nat)
    requires i < |TestsOf(rows, id)|
    ensures k < |rows| && rows[k].group.id == id && rows[k].test == Some(TestsOf(rows, id)[i])
    decreases |rows|
  {
    var n := |rows| - 1;
    if i < |TestsOf(rows[..n], id)| {
      k := TestRow(rows[..n], id, i);
    } else {
      k := n;
    }
  }

  /** Rows in order give the tests of a group in order. */
  lemma {:induction false} TestsSorted(rows: seq<Row>, id: nat)
    requires SortedBy(rows, RowOrder()) && OneGroupPerId(rows)
    ensures WeaklyBy(TestsOf(rows, id), OrdinalOf())
    decreases |rows|
  {
    if rows != [] {
      var n := |rows| - 1;
      TestsSorted(rows[..n], id);
      var before := TestsOf(rows[..n], id);
      forall i | 0 <= i < |before| && rows[n].group.id == id && rows[n].test.Some?
        ensures before[i].ordinal <= rows[n].test.value.ordinal
      {
        var k := TestRow(rows[..n], id, i);
        assert rows[k].group == rows[n].group;
        assert RowOrder()(rows[k], rows[n]);
      }
    }
  }

  lemma RegroupedReads(db: Db, problem: int, rows: seq<Row>, read: seq<Read>, byId: map<nat, nat>)
    requires Consistent(db) && multiset(rows) == multiset(Join(db.groups, db.cases, problem))
    requires SortedBy(rows, RowOrder()) && OneGroupPerId(rows) && Regrouped(rows, read, byId) && Ascending(read)
    ensures ReadsOf(db, problem, read)
  {
    forall i | 0 <= i < |read|
      ensures IsReadOfSome(db, problem, read[i])
    {
      ReadIsRight(db, problem, rows, read[i]);
    }
    forall i, j | 0 <= i < j < |read|
      ensures Ids(read)[i] != Ids(read)[j]
    {
      assert byId[read[i].id] == i && byId[read[j].id] == j;
    }
    forall g | g in db.groups && g.problem == problem
      ensures g.id in Ids(read)
    {
      GroupsOfJoin(db.groups, db.cases, problem, g);
      var r :| r in Join(db.groups, db.cases, problem) && r.group == g;
      assert r in multiset(rows);
      var k :| 0 <= k < |rows| && rows[k] == r;
      assert Ids(read)[byId[g.id]] == g.id;
    }
  }

  lemma ReadIsRight(db: Db, problem: int, rows: seq<Row>, r: Read)
    requires Consistent(db) && multiset(rows) == multiset(Join(db.groups, db.cases, problem))
    requires SortedBy(rows, RowOrder()) && OneGroupPerId(rows) && FromRows(rows, r)
    ensures IsReadOfSome(db, problem, r)
  {
    var k :| 0 <= k < |rows| && rows[k].group.id == r.id && HeaderOf(rows[k].group, r.group);
    RowInJoin(db.groups, db.cases, problem, rows, k);
    var g := rows[k].group;
    var i :| 0 <= i < |db.groups| && db.groups[i] == g;
    assert Belongs(db.groups, g.id, problem);
    TestsPermute(rows, Join(db.groups, db.cases, problem), g.id);
    TestsOfJoin(db.groups, db.cases, problem, g.id);
    TestsSorted(rows, g.id);
    assert IsReadOf(db, g, r.group);
  }

  // ---------- No testcase without its group ----------

  ghost predicate HasGroup(groups: seq<GroupRow>, id: nat) {
    exists g :: g in groups && g.id == id
  }

  /** The foreign key: every testcase belongs to a stored group. */
  ghost predicate Owned(db: Db) {
    forall c :: c in db.cases ==> HasGroup(db.groups, c.group)
  }

  lemma DeletedIsOwned(db: Db, problem: int)
    requires Owned(db)
    ensures Owned(Deleted(db, problem))
  {
    forall c | c in Deleted(db, problem).cases
      ensures HasGroup(Deleted(db, problem).groups, c.group)
    {
      OthersAreCases(db.cases, db.groups, problem, c);
      var g :| g in db.groups && g.id == c.group;
      var i :| 0 <= i < |db.groups| && db.groups[i] == g;
      OthersAreRows(db.groups, problem, g);
    }
  }

  lemma {:induction false} InsertsAreOwned(db: Db, problem: int, groups: seq<Group>)
    requires Owned(db)
    ensures Owned(InsertedAll(db, problem, groups))
    decreases |groups|
  {
    if groups != [] {
      var n := |groups| - 1;
      InsertsAreOwned(db, problem, groups[..n]);
      InsertIsOwned(InsertedAll(db, problem, groups[..n]), problem, groups[n]);
    }
  }

  lemma InsertIsOwned(db: Db, problem: int, g: Group)
    requires Owned(db)
    ensures Owned(ProblemStore.Inserted(db, problem, g))
  {
    var after := ProblemStore.Inserted(db, problem, g);
    forall c | c in after.cases
      ensures HasGroup(after.groups, c.group)
    {
      assert after.groups[|db.groups|].id == db.nextId;
      if c in db.cases {
        var h :| h in db.groups && h.id == c.group;
        assert h in after.groups;
      }
    }
  }

  /** Saving leaves no testcase of an earlier group behind. */
  lemma SavedIsOwned(db: Db, problem: int, groups: seq<Group>)
    requires Owned(db)
    ensures Owned(Saved(db, problem, groups))
  {
    DeletedIsOwned(db, problem);
    InsertsAreOwned(Deleted(db, problem), problem, groups);
  }

  // ---------- Saving, then reading ----------

  lemma DeletedConsistent(db: Db, problem: int)
    requires Consistent(db)
    ensures Consistent(Deleted(db, problem))
  {
    OthersDistinct(db.groups, problem);
    var rest := Deleted(db, problem);
    forall i | 0 <= i < |rest.groups|
      ensures rest.groups[i].id < rest.nextId
    {
      OthersAreRows(db.groups, problem, rest.groups[i]);
      var j :| 0 <= j < |db.groups| && db.groups[j] == rest.groups[i];
    }
    forall c | c in rest.cases
      ensures c.group < rest.nextId
    {
      OthersAreCases(db.cases, db.groups, problem, c);
    }
  }

  lemma SavedConsistent(db: Db, problem: int, groups: seq<Group>)
    requires Consistent(db)
    ensures Consistent(Saved(db, problem, groups))
  {
    DeletedConsistent(db, problem);
    InsertsAdd(Deleted(db, problem), problem, groups);
  }

  /** Each group read is the saved group of its id, with the same testcases sorted by ordinal. */
  ghost predicate ReadsBack(groups: seq<Group>, base: nat, read: seq<Read>) {
    && |read| == |groups| && NoRepeats(Ids(read)) && Ascending(read)
    && forall i :: 0 <= i < |read| ==> IsSavedGroup(groups, base, read[i])
  }

  ghost predicate IsSavedGroup(groups: seq<Group>, base: nat, r: Read) {
    base <= r.id < base + |groups| && Resorted(groups[r.id - base], r.group)
  }

  ghost predicate Resorted(saved: Group, read: Group) {
    && read.ordinal == saved.ordinal && read.name == saved.name && read.points == saved.points
    && multiset(read.cases) == multiset(saved.cases) && WeaklyBy(read.cases, OrdinalOf())
  }

  /** Whatever was saved before, reading gives exactly the groups saved last, also those without testcases. */
  lemma SaveThenRead(db: Db, problem: int, groups: seq<Group>, read: seq<Read>)
    requires Consistent(db) && ReadsOf(Saved(db, problem, groups), problem, read)
    ensures ReadsBack(groups, db.nextId, read)
  {
    AllResorted(db, problem, groups, read);
    AllIdsRead(db, problem, groups, read);
  }

  lemma AllResorted(db: Db, problem: int, groups: seq<Group>, read: seq<Read>)
    requires Consistent(db)
    requires forall i :: 0 <= i < |read| ==> IsReadOfSome(Saved(db, problem, groups), problem, read[i])
    ensures forall i :: 0 <= i < |read| ==> IsSavedGroup(groups, db.nextId, read[i])
  {
    forall i | 0 <= i < |read|
      ensures IsSavedGroup(groups, db.nextId, read[i])
    {
      ReadOfSaved(db, problem, groups, read[i]);
    }
  }

  lemma ReadOfSaved(db: Db, problem: int, groups: seq<Group>, r: Read)
    requires Consistent(db) && IsReadOfSome(Saved(db, problem, groups), problem, r)
    ensures IsSavedGroup(groups, db.nextId, r)
  {
    var after := Saved(db, problem, groups);
    var g :| g in after.groups && g.problem == problem && g.id == r.id && IsReadOf(after, g, r.group);
    RowIsNew(db, problem, groups, g);
  }

  lemma RowIsNew(db: Db, problem: int, groups: seq<Group>, g: GroupRow)
    requires Consistent(db) && g in Saved(db, problem, groups).groups && g.problem == problem
    ensures db.nextId <= g.id < db.nextId + |groups|
    ensures g == NewRows(problem, groups, db.nextId)[g.id - db.nextId]
    ensures CasesWith(Saved(db, problem, groups).cases, g.id) == groups[g.id - db.nextId].cases
  {
    DeletedConsistent(db, problem);
    InsertsAdd(Deleted(db, problem), problem, groups);
    OthersAreRows(db.groups, problem, g);
    var k :| 0 <= k < |groups| && NewRows(problem, groups, db.nextId)[k] == g;
  }

  lemma NewRowIsThere(db: Db, problem: int, groups: seq<Group>, id: nat)
    requires Consistent(db) && db.nextId <= id < db.nextId + |groups|
    ensures exists g :: g in Saved(db, problem, groups).groups && g.problem == problem && g.id == id
  {
    DeletedConsistent(db, problem);
    InsertsAdd(Deleted(db, problem), problem, groups);
    var g := NewRows(problem, groups, db.nextId)[id - db.nextId];
    assert g in Saved(db, problem, groups).groups;
  }

  lemma AllIdsRead(db: Db, problem: int, groups: seq<Group>, read: seq<Read>)
    requires Consistent(db) && ReadsOf(Saved(db, problem, groups), problem, read)
    requires forall i :: 0 <= i < |read| ==> db.nextId <= read[i].id < db.nextId + |groups|
    ensures |read| == |groups|
  {
    forall id: nat | db.nextId <= id < db.nextId + |groups|
      ensures id in Ids(read)
    {
      NewRowIsThere(db, problem, groups, id);
    }
    CountOfRange(Ids(read), db.nextId, |groups|);
  }

  function RangeFrom(base: nat, n: nat): seq<nat> {
    seq(n, (k: int) requires k >= 0 => base + k)
  }

  lemma CountOfRange(ids: seq<nat>, base: nat, n: nat)
    requires NoRepeats(ids) && forall i :: 0 <= i < |ids| ==> base <= ids[i] < base + n
    requires forall id: nat :: base <= id < base + n ==> id in ids
    ensures |ids| == n
  {
    var all := RangeFrom(base, n);
    forall id: nat
      ensures id in Elems(all) <==> id in Elems(ids)
    {
      if id in ids {
        assert all[id - base] == id;
      }
    }
    SameElements(Elems(all), Elems(ids));
    NoRepeatsCounts(all);
    NoRepeatsCounts(ids);
  }

  // ---------- The exact round trip ----------

  /** Groups in the order of their ordinals, and testcases in that of theirs, without two of the same ordinal. */
  ghost predicate InOrder(groups: seq<Group>) {
    && (forall i, j :: 0 <= i < j < |groups| ==> groups[i].ordinal < groups[j].ordinal)
    && forall i :: 0 <= i < |groups| ==> StrictlyBy(groups[i].cases, OrdinalOf())
  }

  lemma {:induction false} AtLeast(ids: seq<nat>, base: nat, i: nat)
    requires (forall k, l :: 0 <= k < l < |ids| ==> ids[k] < ids[l]) && (forall k :: 0 <= k < |ids| ==> base <= ids[k])
    requires i < |ids|
    ensures ids[i] >= base + i
    decreases i
  {
    if i > 0 {
      AtLeast(ids, base, i - 1);
    }
  }

  lemma {:induction false} AtMost(ids: seq<nat>, bound: nat, i: nat)
    requires (forall k, l :: 0 <= k < l < |ids| ==> ids[k] < ids[l]) && (forall k :: 0 <= k < |ids| ==> ids[k] < bound)
    requires i < |ids|
    ensures ids[i] + |ids| <= bound + i
    decreases |ids| - i
  {
    if i < |ids| - 1 {
      AtMost(ids, bound, i + 1);
    }
  }

  /** Groups saved in order, as the archive ingestion gives them, read back as they are. */
  lemma ReadsBackExactly(groups: seq<Group>, base: nat, read: seq<Read>, i: nat)
    requires ReadsBack(groups, base, read) && InOrder(groups) && i < |read|
    ensures read[i] == Read(base + i, groups[i])
  {
    IdsIncrease(groups, base, read);
    AtLeast(Ids(read), base, i);
    AtMost(Ids(read), base + |groups|, i);
    assert Ids(read)[i] == read[i].id == base + i;
    assert IsSavedGroup(groups, base, read[i]);
    SortedIsStrict(read[i].group.cases, groups[i].cases, OrdinalOf());
  }

  lemma IdsIncrease(groups: seq<Group>, base: nat, read: seq<Read>)
    requires ReadsBack(groups, base, read) && InOrder(groups)
    ensures forall k, l :: 0 <= k < l < |read| ==> Ids(read)[k] < Ids(read)[l]
  {
    forall k, l | 0 <= k < l < |read|
      ensures Ids(read)[k] < Ids(read)[l]
    {
      assert Ids(read)[k] != Ids(read)[l];
      assert IsSavedGroup(groups, base, read[k]) && IsSavedGroup(groups, base, read[l]);
      if read[l].id < read[k].id {
        assert groups[read[l].id - base].ordinal < groups[read[k].id - base].ordinal;
      }
    }
  }

  // ---------- Other problems ----------

  /** Saving for one problem leaves what is read for another as it was. */
  lemma OthersUntouched(db: Db, problem: int, groups: seq<Group>, other: int)
    requires Consistent(db) && other != problem
    ensures var after := Saved(db, problem, groups);
      Join(after.groups, after.cases, other) == Join(db.groups, db.cases, other)
  {
    var middle, after := Deleted(db, problem), Saved(db, problem, groups);
    DeletedConsistent(db, problem);
    InsertsAdd(middle, problem, groups);
    NoneOfOther(problem, groups, db.nextId, other);
    JoinAppend(middle.groups, NewRows(problem, groups, db.nextId), after.cases, other);
    assert Join(middle.groups, after.cases, other) + [] == Join(middle.groups, after.cases, other);
    JoinOfOthers(db.groups, db, problem, after.cases, other);
  }

  lemma {:induction false} JoinAppend(a: seq<GroupRow>, b: seq<GroupRow>, cases: seq<CaseRow>, problem: int)
    requires forall g :: g in b ==> g.problem != problem
    ensures Join(a + b, cases, problem) == Join(a, cases, problem)
    decreases |b|
  {
    if b == [] {
      assert a + b == a;
    } else {
      var n := |b| - 1;
      assert (a + b)[..|a + b| - 1] == a + b[..n];
      JoinAppend(a, b[..n], cases, problem);
      assert b[n] in b;
      assert Join(a + b[..n], cases, problem) + [] == Join(a + b[..n], cases, problem);
    }
  }

  lemma NoneOfOther(problem: int, groups: seq<Group>, base: nat, other: int)
    requires other != problem
    ensures forall g :: g in NewRows(problem, groups, base) ==> g.problem != other
  {
  }

  lemma {:induction false} JoinOfOthers(groups: seq<GroupRow>, db: Db, problem: int, cases: seq<CaseRow>, other: int)
    requires Consistent(db) && other != problem && forall g :: g in groups ==> g in db.groups
    requires forall id: nat :: id < db.nextId ==> CasesWith(cases, id) == CasesWith(Deleted(db, problem).cases, id)
    ensures Join(GroupsOfOthers(groups, problem), cases, other) == Join(groups, db.cases, other)
    decreases |groups|
  {
    if groups != [] {
      var n := |groups| - 1;
      var g := groups[n];
      assert g in db.groups;
      JoinOfOthers(groups[..n], db, problem, cases, other);
      var rest := GroupsOfOthers(groups[..n], problem);
      if g.problem == other {
        KeptCases(db.cases, db, problem, g);
        assert (rest + [g])[..|rest|] == rest;
      } else {
        assert Join(groups[..n], db.cases, other) + [] == Join(groups[..n], db.cases, other);
        if g.problem != problem {
          JoinAppend(rest, [g], cases, other);
        } else {
          assert rest + [] == rest;
        }
      }
    }
  }

  lemma NotItsGroup(db: Db, problem: int, g: GroupRow, id: nat)
    requires Consistent(db) && g in db.groups && g.problem != problem && Belongs(db.groups, id, problem)
    ensures id != g.id
  {
    var i :| 0 <= i < |db.groups| && db.groups[i].id == id && db.groups[i].problem == problem;
    var row := db.groups[i];
    if id == g.id {
      SameId(db.groups, row, g);
    }
  }

  /** The testcases of a group of another problem survive the cascade. */
  lemma {:induction false} KeptCases(cases: seq<CaseRow>, db: Db, problem: int, g: GroupRow)
    requires Consistent(db) && g in db.groups && g.problem != problem
    ensures g.id < db.nextId && CasesWith(CasesOfOthers(cases, db.groups, problem), g.id) == CasesWith(cases, g.id)
    decreases |cases|
  {
    if cases != [] {
      var n := |cases| - 1;
      KeptCases(cases[..n], db, problem, g);
      var rest := CasesOfOthers(cases[..n], db.groups, problem);
      if Belongs(db.groups, cases[n].group, problem) {
        assert rest + [] == rest;
        NotItsGroup(db, problem, g, cases[n].group);
      } else {
        CasesMore(rest, cases[n], g.id);
      }
    }
  }
}
