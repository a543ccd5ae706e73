/**
 Saving the testcase groups of a problem and reading them back: what the statements leave in the tables, the rows
 of the left join, and the loop that regroups them.
 */
module ProblemStore {
  import opened Options
  import opened Sorting

  datatype Case = Case(
    ordinal: int, input: string, output: string, inKey: string, outKey: string, hash: string, isHidden: bool)

  datatype Group = Group(ordinal: int, name: string, points: int, cases: seq<Case>)

  /** Rows of testcase_groups and testcases. */
  datatype GroupRow = GroupRow(id: nat, problem: int, ordinal: int, name: string, points: int)

  datatype CaseRow = CaseRow(group: nat, case_: Case)

  datatype Db = Db(groups: seq<GroupRow>, cases: seq<CaseRow>, nextId: nat)

  // ---------- The statements of the transaction ----------

  function GroupsOfOthers(groups: seq<GroupRow>, problem: int): seq<GroupRow> {
    if groups == [] then []
    else
      var g := groups[|groups| - 1];
      GroupsOfOthers(groups[..|groups| - 1], problem) + if g.problem != problem then [g] else []
  }

  predicate Belongs(groups: seq<GroupRow>, id: nat, problem: int) {
    exists i :: 0 <= i < |groups| && groups[i].id == id && groups[i].problem == problem
  }

  function CasesOfOthers(cases: seq<CaseRow>, groups: seq<GroupRow>, problem: int): seq<CaseRow> {
    if cases == [] then []
    else
      var c := cases[|cases| - 1];
      CasesOfOthers(cases[..|cases| - 1], groups, problem) + if Belongs(groups, c.group, problem) then [] else [c]
  }

  /** DELETE, which cascades to the testcases. */
  function Deleted(db: Db, problem: int): Db {
    Db(GroupsOfOthers(db.groups, problem), CasesOfOthers(db.cases, db.groups, problem), db.nextId)
  }

  function RowsFor(id: nat, cases: seq<Case>): seq<CaseRow> {
    seq(|cases|, i requires 0 <= i < |cases| => CaseRow(id, cases[i]))
  }

  function Inserted(db: Db, problem: int, g: Group): Db {
    Db(db.groups + [GroupRow(db.nextId, problem, g.ordinal, g.name, g.points)],
       db.cases + RowsFor(db.nextId, g.cases), db.nextId + 1)
  }

  function InsertedAll(db: Db, problem: int, groups: seq<Group>): Db {
    if groups == [] then db
    else Inserted(InsertedAll(db, problem, groups[..|groups| - 1]), problem, groups[|groups| - 1])
  }

  function Saved(db: Db, problem: int, groups: seq<Group>): Db {
    InsertedAll(Deleted(db, problem), problem, groups)
  }

  // ---------- The query and the loop over its rows ----------

  /** A row of the left join; test is None for a group without testcases. */
  datatype Row = Row(group: GroupRow, test: Option<Case>)

  function CasesWith(cases: seq<CaseRow>, id: nat): seq<Case> {
    if cases == [] then []
    else CasesWith(cases[..|cases| - 1], id) + if cases[|cases| - 1].group == id then [cases[|cases| - 1].case_] else []
  }

  function RowsOf(g: GroupRow, cases: seq<Case>): seq<Row> {
    if cases == [] then [Row(g, None)] else seq(|cases|, i requires 0 <= i < |cases| => Row(g, Some(cases[i])))
  }

  function Join(groups: seq<GroupRow>, cases: seq<CaseRow>, problem: int): seq<Row> {
    if groups == [] then []
    else
      var g := groups[|groups| - 1];
      Join(groups[..|groups| - 1], cases, problem)
      + if g.problem == problem then RowsOf(g, CasesWith(cases, g.id)) else []
  }

  /** ORDER BY g.ordinal, t.ordinal */
  function RowOrder(): (Row, Row) -> bool {
    (a: Row, b: Row) =>
      a.group.ordinal < b.group.ordinal
      || (a.group.ordinal == b.group.ordinal && TestKey(a) <= TestKey(b))
  }

  /** NULL sorts after every ordinal, which are 32-bit integers. */
  function TestKey(r: Row): int {
    match r.test
    case Some(t) => t.ordinal
    case None => 0x8000_0000
  }

  /** A group as it is read, with the id it has in the database. */
  datatype Read = Read(id: nat, group: Group)

  /** The testcases of the rows of one group, in the order of the rows. */
  function TestsOf(rows: seq<Row>, id: nat): seq<Case> {
    if rows == [] then []
    else
      var r := rows[|rows| - 1];
      TestsOf(rows[..|rows| - 1], id) + if r.group.id == id && r.test.Some? then [r.test.value] else []
  }

  function Ids(read: seq<Read>): seq<nat> {
    seq(|read|, i requires 0 <= i < |read| => read[i].id)
  }

  ghost predicate FromRows(rows: seq<Row>, r: Read) {
    && (exists k :: 0 <= k < |rows| && rows[k].group.id == r.id && HeaderOf(rows[k].group, r.group))
    && r.group.cases == TestsOf(rows, r.id)
  }

  predicate HeaderOf(row: GroupRow, g: Group) {
    row.ordinal == g.ordinal && row.name == g.name && row.points == g.points
  }

  ghost predicate AllFromRows(rows: seq<Row>, read: seq<Read>) {
    forall i :: 0 <= i < |read| ==> FromRows(rows, read[i])
  }

  /** The map leads from the ids of the groups, and from nothing else, to their places. */
  ghost predicate Keyed(read: seq<Read>, byId: map<nat, nat>) {
    && (forall i :: 0 <= i < |read| ==> read[i].id in byId && byId[read[i].id] == i)
    && (forall id :: id in byId ==> byId[id] < |read| && read[byId[id]].id == id)
  }

  ghost predicate ListsIds(rows: seq<Row>, byId: map<nat, nat>) {
    forall k :: 0 <= k < |rows| ==> rows[k].group.id in byId
  }

  /** groupsByID leads to the groups read so far, one for each group id of the rows. */
  ghost predicate Regrouped(rows: seq<Row>, read: seq<Read>, byId: map<nat, nat>) {
    AllFromRows(rows, read) && Keyed(read, byId) && ListsIds(rows, byId)
  }

  ghost predicate Ascending(read: seq<Read>) {
    forall i, j :: 0 <= i < j < |read| ==> read[i].group.ordinal <= read[j].group.ordinal
  }

  lemma TestsMore(rows: seq<Row>, r: Row, id: nat)
    ensures TestsOf(rows + [r], id)
       == TestsOf(rows, id) + if r.group.id == id && r.test.Some? then [r.test.value] else []
  {
    assert (rows + [r])[..|rows|] == rows;
  }

  lemma {:induction false} NoTests(rows: seq<Row>, id: nat)
    requires forall k :: 0 <= k < |rows| ==> rows[k].group.id != id
    ensures TestsOf(rows, id) == []
    decreases |rows|
  {
    if rows != [] {
      NoTests(rows[..|rows| - 1], id);
    }
  }

  lemma OtherGroup(rows: seq<Row>, r: Row, x: Read)
    requires FromRows(rows, x) && r.group.id != x.id
    ensures FromRows(rows + [r], x)
  {
    TestsMore(rows, r, x.id);
    var k :| 0 <= k < |rows| && rows[k].group.id == x.id && HeaderOf(rows[k].group, x.group);
    assert (rows + [r])[k] == rows[k];
    assert x.group.cases + [] == x.group.cases;
  }

  function WithTest(g: Group, test: Option<Case>): Group {
    match test
    case Some(t) => g.(cases := g.cases + [t])
    case None => g
  }

  lemma SameGroup(rows: seq<Row>, r: Row, x: Read)
    requires r.group.id == x.id && HeaderOf(r.group, x.group) && x.group.cases == TestsOf(rows, x.id)
    ensures FromRows(rows + [r], x.(group := WithTest(x.group, r.test)))
  {
    TestsMore(rows, r, x.id);
    assert (rows + [r])[|rows|] == r;
    assert x.group.cases + [] == x.group.cases;
  }

  /** Rows with the same group id agree on the group. */
  ghost predicate OneGroupPerId(rows: seq<Row>) {
    forall k, l :: 0 <= k < |rows| && 0 <= l < |rows| && rows[k].group.id == rows[l].group.id ==>
      rows[k].group == rows[l].group
  }

  /** The group of a row that starts one. */
  function Opened(g: GroupRow): Read {
    Read(g.id, Group(g.ordinal, g.name, g.points, []))
  }

  /** No row belongs to a group behind the ordinal. */
  ghost predicate UpTo(rows: seq<Row>, ordinal: int) {
    forall k :: 0 <= k < |rows| ==> rows[k].group.ordinal <= ordinal
  }

  lemma ListsMore(rows: seq<Row>, r: Row, byId: map<nat, nat>, more: map<nat, nat>)
    requires ListsIds(rows, byId) && byId.Keys <= more.Keys && r.group.id in more
    ensures ListsIds(rows + [r], more)
  {
  }

  lemma KeyedMore(read: seq<Read>, byId: map<nat, nat>, x: Read)
    requires Keyed(read, byId) && x.id !in byId
    ensures Keyed(read + [x], byId[x.id := |read|])
  {
  }

  lemma KeyedSame(read: seq<Read>, byId: map<nat, nat>, i: nat, x: Read)
    requires Keyed(read, byId) && i < |read| && x.id == read[i].id
    ensures Keyed(read[i := x], byId)
  {
  }

  lemma AscendingMore(rows: seq<Row>, read: seq<Read>, x: Read)
    requires AllFromRows(rows, read) && Ascending(read)
    requires UpTo(rows, x.group.ordinal)
    ensures Ascending(read + [x])
  {
    forall i | 0 <= i < |read|
      ensures read[i].group.ordinal <= x.group.ordinal
    {
      assert FromRows(rows, read[i]);
    }
  }

  lemma AscendingSame(read: seq<Read>, i: nat, x: Read)
    requires Ascending(read) && i < |read| && x.group.ordinal == read[i].group.ordinal
    ensures Ascending(read[i := x])
  {
  }

  lemma OpenedFromRows(rows: seq<Row>, r: Row, read: seq<Read>, byId: map<nat, nat>, x: Read)
    requires Regrouped(rows, read, byId) && r.group.id !in byId && FromRows(rows + [r], x)
    ensures AllFromRows(rows + [r], read + [x])
  {
    forall i | 0 <= i < |read|
      ensures FromRows(rows + [r], read[i])
    {
      OtherGroup(rows, r, read[i]);
    }
  }

  lemma ExtendedFromRows(rows: seq<Row>, r: Row, read: seq<Read>, byId: map<nat, nat>, i: nat, x: Read)
    requires Regrouped(rows, read, byId) && i < |read| && r.group.id == read[i].id && FromRows(rows + [r], x)
    ensures AllFromRows(rows + [r], read[i := x])
  {
    forall j | 0 <= j < |read| && j != i
      ensures FromRows(rows + [r], read[j])
    {
      OtherGroup(rows, r, read[j]);
    }
  }

  lemma OpenGroup(rows: seq<Row>, r: Row, read: seq<Read>, byId: map<nat, nat>)
    requires Regrouped(rows, read, byId) && r.group.id !in byId
    requires Ascending(read) && UpTo(rows, r.group.ordinal)
    ensures var x := Opened(r.group).(group := WithTest(Opened(r.group).group, r.test));
      Regrouped(rows + [r], read + [x], byId[r.group.id := |read|]) && Ascending(read + [x])
  {
    var start := Opened(r.group);
    var x := start.(group := WithTest(start.group, r.test));
    NoTests(rows, r.group.id);
    SameGroup(rows, r, start);
    OpenedFromRows(rows, r, read, byId, x);
    KeyedMore(read, byId, x);
    ListsMore(rows, r, byId, byId[r.group.id := |read|]);
    AscendingMore(rows, read, x);
  }

  lemma HeaderStays(rows: seq<Row>, r: Row, x: Read)
    requires FromRows(rows, x) && OneGroupPerId(rows + [r]) && r.group.id == x.id
    ensures HeaderOf(r.group, x.group)
  {
    var k :| 0 <= k < |rows| && rows[k].group.id == x.id && HeaderOf(rows[k].group, x.group);
    assert (rows + [r])[k] == rows[k] && (rows + [r])[|rows|] == r;
  }

  lemma ExtendGroup(rows: seq<Row>, r: Row, read: seq<Read>, byId: map<nat, nat>)
    requires Regrouped(rows, read, byId) && r.group.id in byId && OneGroupPerId(rows + [r]) && Ascending(read)
    ensures var i := byId[r.group.id];
      var more := read[i := read[i].(group := WithTest(read[i].group, r.test))];
      Regrouped(rows + [r], more, byId) && Ascending(more)
  {
    var i := byId[r.group.id];
    var x := read[i].(group := WithTest(read[i].group, r.test));
    HeaderStays(rows, r, read[i]);
    SameGroup(rows, r, read[i]);
    ExtendedFromRows(rows, r, read, byId, i, x);
    KeyedSame(read, byId, i, x);
    ListsMore(rows, r, byId, byId);
    AscendingSame(read, i, x);
  }

  /** The body of the loop over the rows. */
  method Absorb(ghost before: seq<Row>, r: Row, read: seq<Read>, byId: map<nat, nat>)
    returns (read': seq<Read>, byId': map<nat, nat>)
    requires Regrouped(before, read, byId) && Ascending(read) && OneGroupPerId(before + [r])
    requires UpTo(before, r.group.ordinal)
    ensures Regrouped(before + [r], read', byId') && Ascending(read')
  {
    if r.group.id !in byId {
      OpenGroup(before, r, read, byId);
      byId' := byId[r.group.id := |read|];
      var start := Opened(r.group);
      read' := read + [start.(group := WithTest(start.group, r.test))];
    } else {
      ExtendGroup(before, r, read, byId);
      var i := byId[r.group.id];
      byId' := byId;
      read' := read[i := read[i].(group := WithTest(read[i].group, r.test))];
    }
  }

  /** What the order of the query says about row n and the rows before it. */
  lemma NextRow(rows: seq<Row>, n: nat)
    requires SortedBy(rows, RowOrder()) && OneGroupPerId(rows) && n < |rows|
    ensures rows[..n + 1] == rows[..n] + [rows[n]]
    ensures OneGroupPerId(rows[..n] + [rows[n]]) && UpTo(rows[..n], rows[n].group.ordinal)
  {
    assert rows[..n] + [rows[n]] == rows[..n + 1];
    forall k | 0 <= k < n
      ensures rows[k].group.ordinal <= rows[n].group.ordinal
    {
      assert RowOrder()(rows[k], rows[n]);
    }
  }

  /** The loop over the rows. */
  method Regroup(rows: seq<Row>) returns (read: seq<Read>, ghost byId: map<nat, nat>)
    requires SortedBy(rows, RowOrder()) && OneGroupPerId(rows)
    ensures Regrouped(rows, read, byId) && Ascending(read)
  {
    var groupsByID: map<nat, nat> := map[];
    read := [];
    for n := 0 to |rows|
      invariant Regrouped(rows[..n], read, groupsByID) && Ascending(read)
    {
      NextRow(rows, n);
      read, groupsByID := Absorb(rows[..n], rows[n], read, groupsByID);
    }
    assert rows[..|rows|] == rows;
    byId := groupsByID;
  }

  // ---------- What saving leaves in the tables ----------

  /** Group ids are distinct and below the next one, and every testcase belongs to a group. */
  ghost predicate Consistent(db: Db) {
    && (forall i :: 0 <= i < |db.groups| ==> db.groups[i].id < db.nextId)
    && DistinctIds(db.groups)
    && Below(db.cases, db.nextId)
  }

  lemma {:induction false} OthersAreRows(groups: seq<GroupRow>, problem: int, g: GroupRow)
    ensures g in GroupsOfOthers(groups, problem) <==> g in groups && g.problem != problem
    decreases |groups|
  {
    if groups != [] {
      var n := |groups| - 1;
      OthersAreRows(groups[..n], problem, g);
      assert groups == groups[..n] + [groups[n]];
    }
  }

  /** Ids of the rows, all different. */
  ghost predicate DistinctIds(groups: seq<GroupRow>) {
    forall i, j :: 0 <= i < j < |groups| ==> groups[i].id != groups[j].id
  }

  lemma {:induction false} OthersDistinct(groups: seq<GroupRow>, problem: int)
    requires DistinctIds(groups)
    ensures DistinctIds(GroupsOfOthers(groups, problem))
    decreases |groups|
  {
    if groups != [] {
      var n := |groups| - 1;
      OthersDistinct(groups[..n], problem);
      var rest := GroupsOfOthers(groups[..n], problem);
      forall i | 0 <= i < |rest|
        ensures rest[i].id != groups[n].id
      {
        OthersAreRows(groups[..n], problem, rest[i]);
      }
    }
  }

  /** Every testcase belongs to a group below the bound. */
  ghost predicate Below(cases: seq<CaseRow>, bound: nat) {
    forall c :: c in cases ==> c.group < bound
  }

  lemma {:induction false} OthersAreCases(cases: seq<CaseRow>, groups: seq<GroupRow>, problem: int, c: CaseRow)
    requires c in CasesOfOthers(cases, groups, problem)
    ensures c in cases && !Belongs(groups, c.group, problem)
    decreases |cases|
  {
    var n := |cases| - 1;
    if c in CasesOfOthers(cases[..n], groups, problem) {
      OthersAreCases(cases[..n], groups, problem, c);
    }
  }

  /** The rows of the first groups of the list, with the ids from base on. */
  function NewRows(problem: int, groups: seq<Group>, base: nat): seq<GroupRow> {
    seq(|groups|, i requires 0 <= i < |groups| =>
      GroupRow(base + i, problem, groups[i].ordinal, groups[i].name, groups[i].points))
  }

  /** After the inserts: the old rows, the new ones, and for each new group exactly its own testcases, in order. */
  ghost predicate Adds(db: Db, problem: int, groups: seq<Group>, after: Db) {
    && after.groups == db.groups + NewRows(problem, groups, db.nextId)
    && after.nextId == db.nextId + |groups| && Below(after.cases, after.nextId)
    && (forall id: nat :: id < after.nextId ==> CasesWith(after.cases, id) == ExpectedCases(db, groups, id))
  }

  function ExpectedCases(db: Db, groups: seq<Group>, id: nat): seq<Case>
    requires id < db.nextId + |groups|
  {
    if id < db.nextId then CasesWith(db.cases, id) else groups[id - db.nextId].cases
  }

  lemma {:induction false} InsertsAdd(db: Db, problem: int, groups: seq<Group>)
    requires Below(db.cases, db.nextId)
    ensures Adds(db, problem, groups, InsertedAll(db, problem, groups))
    decreases |groups|
  {
    if groups == [] {
      assert NewRows(problem, groups, db.nextId) == [];
    } else {
      var n := |groups| - 1;
      InsertsAdd(db, problem, groups[..n]);
      assert groups == groups[..n] + [groups[n]];
      InsertAdds(db, problem, groups[..n], groups[n], InsertedAll(db, problem, groups[..n]));
    }
  }

  lemma InsertAdds(db: Db, problem: int, groups: seq<Group>, g: Group, before: Db)
    requires Adds(db, problem, groups, before)
    ensures Adds(db, problem, groups + [g], Inserted(before, problem, g))
  {
    var more, after := groups + [g], Inserted(before, problem, g);
    assert NewRows(problem, more, db.nextId) == NewRows(problem, groups, db.nextId)
        + [GroupRow(before.nextId, problem, g.ordinal, g.name, g.points)];
    forall c | c in after.cases
      ensures c.group < after.nextId
    {
      if c !in before.cases {
        var k :| 0 <= k < |g.cases| && RowsFor(before.nextId, g.cases)[k] == c;
      }
    }
    forall id: nat | id < after.nextId
      ensures CasesWith(after.cases, id) == ExpectedCases(db, more, id)
    {
      CasesAppend(before.cases, before.nextId, g.cases, id);
      if id == before.nextId {
        NoCasesYet(before.cases, id);
        assert more[id - db.nextId] == g;
      } else {
        assert CasesWith(before.cases, id) + [] == CasesWith(before.cases, id);
        assert id >= db.nextId ==> more[id - db.nextId] == groups[id - db.nextId];
      }
    }
  }

  lemma CasesMore(cases: seq<CaseRow>, c: CaseRow, id: nat)
    ensures CasesWith(cases + [c], id) == CasesWith(cases, id) + if c.group == id then [c.case_] else []
  {
    assert (cases + [c])[..|cases|] == cases;
  }

  lemma {:induction false} CasesConcat(a: seq<CaseRow>, b: seq<CaseRow>, id: nat)
    ensures CasesWith(a + b, id) == CasesWith(a, id) + CasesWith(b, id)
    decreases |b|
  {
    if b == [] {
      assert a + b == a;
      Associate(CasesWith(a, id), [], []);
    } else {
      var n := |b| - 1;
      CasesConcat(a, b[..n], id);
      CasesMore(a + b[..n], b[n], id);
      assert a + b == (a + b[..n]) + [b[n]];
      Associate(CasesWith(a, id), CasesWith(b[..n], id), if b[n].group == id then [b[n].case_] else []);
    }
  }

  lemma {:induction false} CasesOfRows(group: nat, more: seq<Case>, id: nat)
    ensures CasesWith(RowsFor(group, more), id) == if id == group then more else []
    decreases |more|
  {
    if more != [] {
      var n := |more| - 1;
      CasesOfRows(group, more[..n], id);
      assert RowsFor(group, more)[..n] == RowsFor(group, more[..n]);
      assert more == more[..n] + [more[n]];
    }
  }

  lemma CasesAppend(cases: seq<CaseRow>, group: nat, more: seq<Case>, id: nat)
    ensures CasesWith(cases + RowsFor(group, more), id) == CasesWith(cases, id) + if id == group then more else []
  {
    CasesConcat(cases, RowsFor(group, more), id);
    CasesOfRows(group, more, id);
  }

  lemma Associate<T>(a: seq<T>, b: seq<T>, c: seq<T>)
    ensures (a + b) + c == a + (b + c) && a + [] == a
  {
  }

  lemma {:induction false} NoCasesYet(cases: seq<CaseRow>, id: nat)
    requires Below(cases, id)
    ensures CasesWith(cases, id) == []
    decreases |cases|
  {
    if cases != [] {
      NoCasesYet(cases[..|cases| - 1], id);
    }
  }

  // ---------- What reading gives ----------

  lemma {:induction false} TestsAppend(a: seq<Row>, b: seq<Row>, id: nat)
    ensures TestsOf(a + b, id) == TestsOf(a, id) + TestsOf(b, id)
    decreases |b|
  {
    if b == [] {
      assert a + b == a;
      Associate(TestsOf(a, id), [], []);
    } else {
      var n := |b| - 1;
      TestsAppend(a, b[..n], id);
      TestsMore(a + b[..n], b[n], id);
      assert a + b == (a + b[..n]) + [b[n]];
      Associate(TestsOf(a, id), TestsOf(b[..n], id),
                if b[n].group.id == id && b[n].test.Some? then [b[n].test.value] else []);
    }
  }

  lemma {:induction false} TestsOfRows(g: GroupRow, cases: seq<Case>, id: nat)
    ensures TestsOf(RowsOf(g, cases), id) == if g.id == id then cases else []
    decreases |cases|
  {
    var rows := RowsOf(g, cases);
    if |cases| <= 1 {
      assert rows[..0] == [];
      assert cases == [] || cases == [cases[0]];
    } else {
      var n := |cases| - 1;
      TestsOfRows(g, cases[..n], id);
      assert rows[..n] == RowsOf(g, cases[..n]);
      assert cases == cases[..n] + [cases[n]];
    }
  }

  /** The join holds, for each group of the problem, exactly its testcases. */
  lemma {:induction false} TestsOfJoin(groups: seq<GroupRow>, cases: seq<CaseRow>, problem: int, id: nat)
    requires DistinctIds(groups)
    ensures TestsOf(Join(groups, cases, problem), id)
       == if Belongs(groups, id, problem) then CasesWith(cases, id) else []
    decreases |groups|
  {
    if groups != [] {
      var n := |groups| - 1;
      var g := groups[n];
      TestsOfJoin(groups[..n], cases, problem, id);
      BelongsMore(groups, id, problem);
      if g.problem == problem {
        TestsAppend(Join(groups[..n], cases, problem), RowsOf(g, CasesWith(cases, g.id)), id);
        TestsOfRows(g, CasesWith(cases, g.id), id);
      } else {
        assert Join(groups[..n], cases, problem) + [] == Join(groups[..n], cases, problem);
      }
    }
  }

  lemma BelongsMore(groups: seq<GroupRow>, id: nat, problem: int)
    requires groups != [] && DistinctIds(groups)
    ensures var n := |groups| - 1;
      && (Belongs(groups, id, problem) <==>
          Belongs(groups[..n], id, problem) || (groups[n].id == id && groups[n].problem == problem))
      && !(Belongs(groups[..n], id, problem) && groups[n].id == id)
  {
    var n := |groups| - 1;
    if Belongs(groups[..n], id, problem) {
      var i :| 0 <= i < n && groups[..n][i].id == id && groups[..n][i].problem == problem;
      assert groups[i].id == id && groups[i].problem == problem;
    }
    if Belongs(groups, id, problem) && !(groups[n].id == id && groups[n].problem == problem) {
      var i :| 0 <= i < |groups| && groups[i].id == id && groups[i].problem == problem;
      assert groups[..n][i].id == id && groups[..n][i].problem == problem;
    }
  }

  /** The groups of the rows are those of the problem. */
  lemma {:induction false} GroupsOfJoin(groups: seq<GroupRow>, cases: seq<CaseRow>, problem: int, g: GroupRow)
    ensures (exists r :: r in Join(groups, cases, problem) && r.group == g) <==> g in groups && g.problem == problem
    decreases |groups|
  {
    if groups != [] {
      var n := |groups| - 1;
      GroupsOfJoin(groups[..n], cases, problem, g);
      var last := RowsOf(groups[n], CasesWith(cases, groups[n].id));
      assert last[0].group == groups[n] && last[0] in last;
      assert forall r :: r in last ==> r.group == groups[n];
      assert groups == groups[..n] + [groups[n]];
      if groups[n].problem == problem {
        assert Join(groups, cases, problem) == Join(groups[..n], cases, problem) + last;
        assert last[0] in Join(groups, cases, problem);
      } else {
        assert Join(groups, cases, problem) == Join(groups[..n], cases, problem);
      }
    }
  }
}
