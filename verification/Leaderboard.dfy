/** The leaderboard computation: grouping by user, totals, sort and tie-aware ranks. */
module Leaderboard {
  import opened Distinct
  import opened MapSums
  import opened Options
  import opened Sorting
  import opened Standings

  /** LeaderboardRow: one group of the SQL aggregate. */
  datatype Row = Row(
    user: int, username: string, problem: int, attempts: nat, bestScore: int, acceptSeconds: Option<real>)

  datatype ProblemResult = ProblemResult(score: int, accepted: bool, attempts: nat, penalty: int)

  datatype Entry = Entry(
    user: int, username: string, total: int, penalty: int, results: map<int, ProblemResult>, rank: int)

  type Names = int -> string

  function RowFor(names: Names, subs: seq<Sub>, u: int, p: int): Row
    requires p in Problems(subs, u)
  {
    BestScoreIsMaximum(subs, u, p);
    Row(u, names(u), p, Attempts(subs, u, p), BestScore(subs, u, p).value, FirstAccept(subs, u, p))
  }

  /** The result of the GROUP BY query, in any order: one row per user and attempted problem. */
  ghost predicate Aggregates(names: Names, subs: seq<Sub>, rows: seq<Row>) {
    && (forall r :: r in rows ==> r.problem in Problems(subs, r.user) && r == RowFor(names, subs, r.user, r.problem))
    && (forall u, p :: p in Problems(subs, u) ==> RowFor(names, subs, u, p) in rows)
  }

  function ResultFor(k: Scoring, names: Names, subs: seq<Sub>, u: int, p: int): ProblemResult
    requires p in Problems(subs, u)
  {
    var r := RowFor(names, subs, u, p);
    ProblemResult(r.bestScore, r.acceptSeconds.Some?, r.attempts, Penalty(k, subs, u)(p))
  }

  /** The results of user u on exactly the problems in done. */
  ghost predicate ResultsOn(k: Scoring, names: Names, subs: seq<Sub>, u: int,
                            results: map<int, ProblemResult>, done: set<int>) {
    && done <= Problems(subs, u) && results.Keys == done
    && forall p :: p in results ==> results[p] == ResultFor(k, names, subs, u, p)
  }

  /** The totals and results of the entry's user over the problems in done. */
  ghost predicate Summed(k: Scoring, names: Names, subs: seq<Sub>, e: Entry, done: set<int>) {
    && ResultsOn(k, names, subs, e.user, e.results, done)
    && e.total == Sum(done, Gain(k, subs, e.user)) && e.penalty == Sum(done, Penalty(k, subs, e.user))
  }

  /** The entry the specification gives its user, without the rank. */
  ghost predicate EntryFor(k: Scoring, names: Names, subs: seq<Sub>, e: Entry) {
    && e.user in Users(subs) && e.username == names(e.user)
    && ResultsOn(k, names, subs, e.user, e.results, Problems(subs, e.user))
    && e.total == Total(k, subs, e.user) && e.penalty == TotalPenalty(k, subs, e.user)
  }

  lemma OneMoreResult(k: Scoring, names: Names, subs: seq<Sub>, u: int,
                      results: map<int, ProblemResult>, done: set<int>, p: int)
    requires ResultsOn(k, names, subs, u, results, done) && p in Problems(subs, u)
    ensures ResultsOn(k, names, subs, u, results[p := ResultFor(k, names, subs, u, p)], done + {p})
  {
  }

  lemma OneMoreProblem(k: Scoring, names: Names, subs: seq<Sub>, e: Entry, done: set<int>, p: int, more: Entry)
    requires Summed(k, names, subs, e, done) && p !in done && p in Problems(subs, e.user) && more.user == e.user
    requires more.results == e.results[p := ResultFor(k, names, subs, e.user, p)]
    requires more.total == e.total + Gain(k, subs, e.user)(p) && more.penalty == e.penalty + Penalty(k, subs, e.user)(p)
    ensures Summed(k, names, subs, more, done + {p})
  {
    OneMoreResult(k, names, subs, e.user, e.results, done, p);
    SumInsert(done, Gain(k, subs, e.user), p);
    SumInsert(done, Penalty(k, subs, e.user), p);
  }

  /** The rows grouped by user, then by problem; the user name comes from the user's first row. */
  datatype PerUser = PerUser(username: string, problems: map<int, Row>)

  /** Row r is in its place among the groups. */
  ghost predicate Placed(users: map<int, PerUser>, r: Row) {
    r.user in users && r.problem in users[r.user].problems
  }

  /** What the group of user u holds: some rows of u, each under its problem, and the name from one of them. */
  ghost predicate GroupHolds(rows: seq<Row>, u: int, info: PerUser) {
    && (forall p :: p in info.problems ==>
          info.problems[p] in rows && info.problems[p].user == u && info.problems[p].problem == p)
    && info.problems != map[] && exists r :: r in rows && r.user == u && r.username == info.username
  }

  ghost predicate Grouped(rows: seq<Row>, users: map<int, PerUser>) {
    && (forall r :: r in rows ==> Placed(users, r))
    && (forall u :: u in users ==> GroupHolds(rows, u, users[u]))
  }

  function WithRow(users: map<int, PerUser>, row: Row): map<int, PerUser> {
    var u := if row.user in users then users[row.user] else PerUser(row.username, map[]);
    users[row.user := u.(problems := u.problems[row.problem := row])]
  }

  method GroupByUser(rows: seq<Row>) returns (users: map<int, PerUser>)
    ensures Grouped(rows, users)
  {
    users := map[];
    for i := 0 to |rows|
      invariant Grouped(rows[..i], users)
    {
      GroupOne(rows[..i], rows[i], users);
      assert rows[..i + 1] == rows[..i] + [rows[i]];
      var row := rows[i];
      if row.user !in users {
        users := users[row.user := PerUser(row.username, map[])];
      }
      var u := users[row.user];
      users := users[row.user := u.(problems := u.problems[row.problem := row])];
    }
    assert rows[..|rows|] == rows;
  }

  lemma GroupKept(rows: seq<Row>, row: Row, u: int, info: PerUser)
    requires GroupHolds(rows, u, info)
    ensures GroupHolds(rows + [row], u, info)
  {
    var r :| r in rows && r.user == u && r.username == info.username;
    assert r in rows + [row];
  }

  lemma GroupGrows(rows: seq<Row>, row: Row, info: PerUser)
    requires GroupHolds(rows, row.user, info) || info == PerUser(row.username, map[])
    ensures GroupHolds(rows + [row], row.user, info.(problems := info.problems[row.problem := row]))
  {
    var more := info.(problems := info.problems[row.problem := row]);
    assert row in rows + [row] && row.problem in more.problems;
    if info.problems != map[] {
      GroupKept(rows, row, row.user, info);
    }
  }

  lemma GroupOne(rows: seq<Row>, row: Row, users: map<int, PerUser>)
    requires Grouped(rows, users)
    ensures Grouped(rows + [row], WithRow(users, row))
  {
    GroupGrows(rows, row, if row.user in users then users[row.user] else PerUser(row.username, map[]));
    forall u | u in users
      ensures GroupHolds(rows + [row], u, users[u])
    {
      GroupKept(rows, row, u, users[u]);
    }
  }

  /** Grouping the aggregate gives every submitting user the rows of the problems they attempted. */
  ghost predicate InfoFor(names: Names, subs: seq<Sub>, u: int, info: PerUser) {
    && info.username == names(u) && info.problems.Keys == Problems(subs, u)
    && forall p :: p in info.problems ==> info.problems[p] == RowFor(names, subs, u, p)
  }

  lemma GroupsMatch(names: Names, subs: seq<Sub>, rows: seq<Row>, users: map<int, PerUser>)
    requires Aggregates(names, subs, rows) && Grouped(rows, users)
    ensures users.Keys == Users(subs)
    ensures forall u :: u in users ==> InfoFor(names, subs, u, users[u])
  {
    forall u | u in Users(subs)
      ensures u in users
    {
      var i :| 0 <= i < |subs| && subs[i].user == u;
      assert subs[i].problem in Problems(subs, u);
      assert RowFor(names, subs, u, subs[i].problem) in rows;
    }
    forall u | u in users
      ensures u in Users(subs) && InfoFor(names, subs, u, users[u])
    {
      InfoMatches(names, subs, rows, users, u);
    }
  }

  lemma InfoMatches(names: Names, subs: seq<Sub>, rows: seq<Row>, users: map<int, PerUser>, u: int)
    requires Aggregates(names, subs, rows) && Grouped(rows, users) && u in users
    ensures u in Users(subs) && InfoFor(names, subs, u, users[u])
  {
    var r :| r in rows && r.user == u && r.username == users[u].username;
    assert r.problem in Problems(subs, u);
    var i :| 0 <= i < |subs| && subs[i].user == u && subs[i].problem == r.problem;
    assert subs[i].user in Users(subs);
    forall p
      ensures p in users[u].problems.Keys <==> p in Problems(subs, u)
    {
      RowMatches(names, subs, rows, users, u, p);
    }
    SameElements(users[u].problems.Keys, Problems(subs, u));
    forall p | p in users[u].problems
      ensures users[u].problems[p] == RowFor(names, subs, u, p)
    {
      RowMatches(names, subs, rows, users, u, p);
    }
  }

  lemma RowMatches(names: Names, subs: seq<Sub>, rows: seq<Row>, users: map<int, PerUser>, u: int, p: int)
    requires Aggregates(names, subs, rows) && Grouped(rows, users) && u in users
    ensures p in users[u].problems <==> p in Problems(subs, u)
    ensures p in users[u].problems ==> users[u].problems[p] == RowFor(names, subs, u, p)
  {
    if p in Problems(subs, u) {
      assert RowFor(names, subs, u, p) in rows;
    }
    if p in users[u].problems {
      assert users[u].problems[p] in rows;
    }
  }

  lemma NothingSummed(k: Scoring, names: Names, subs: seq<Sub>, u: int, username: string)
    ensures Summed(k, names, subs, Entry(u, username, 0, 0, map[], 0), {})
  {
  }

  lemma AllSummed(k: Scoring, names: Names, subs: seq<Sub>, e: Entry, done: set<int>)
    requires e.user in Users(subs) && e.username == names(e.user)
    requires Summed(k, names, subs, e, done) && done == Problems(subs, e.user)
    ensures EntryFor(k, names, subs, e)
  {
  }

  /** The totals and results of one user, over the problems in whatever order the map gives them. */
  method BuildEntry(k: Scoring, ghost names: Names, ghost subs: seq<Sub>, u: int, info: PerUser) returns (e: Entry)
    requires u in Users(subs) && InfoFor(names, subs, u, info)
    ensures e.user == u && EntryFor(k, names, subs, e)
  {
    e := Entry(u, info.username, 0, 0, map[], 0);
    var todo := info.problems.Keys;
    ghost var done: set<int> := {};
    NothingSummed(k, names, subs, u, info.username);
    while todo != {}
      invariant todo !! done && todo + done == info.problems.Keys
      invariant e.user == u && e.username == names(u) && Summed(k, names, subs, e, done)
      decreases |todo|
    {
      var p := Pick(todo);
      Visit(info.problems.Keys, todo, done, p);
      e := AddProblem(k, names, subs, e, done, p, info.problems[p]);
      todo, done := todo - {p}, done + {p};
    }
    AllSummed(k, names, subs, e, done);
  }

  method AddProblem(k: Scoring, ghost names: Names, ghost subs: seq<Sub>,
                    e: Entry, ghost done: set<int>, p: int, row: Row)
    returns (more: Entry)
    requires Summed(k, names, subs, e, done) && p !in done && p in Problems(subs, e.user)
    requires row == RowFor(names, subs, e.user, p)
    ensures more.user == e.user && more.username == e.username && Summed(k, names, subs, more, done + {p})
  {
    var result := ProblemResult(row.bestScore, row.acceptSeconds.Some?, row.attempts, 0);
    more := e;
    if k.ICPC? {
      if row.acceptSeconds.Some? {
        var penalty := Truncated(row.acceptSeconds.value) + 20 * 60 * (row.attempts - 1);
        result := result.(penalty := penalty);
        more := more.(penalty := more.penalty + penalty);
      }
      if row.acceptSeconds.Some? {
        more := more.(total := more.total + 1);
      }
    } else if k.IOI? {
      more := more.(total := more.total + row.bestScore);
    }
    more := more.(results := more.results[p := result]);
    BestScoreIsMaximum(subs, e.user, p);
    OneMoreProblem(k, names, subs, e, done, p, more);
  }

  // ---------- Ranks ----------

  predicate Better(k: Scoring, a: Entry, b: Entry) {
    a.total > b.total || (k.ICPC? && a.total == b.total && a.penalty < b.penalty)
  }

  function BetterBit(k: Scoring, e: Entry): Entry -> int {
    (a: Entry) => if Better(k, a, e) then 1 else 0
  }

  function NotWorse(k: Scoring): (Entry, Entry) -> bool {
    (a: Entry, b: Entry) => !Better(k, b, a)
  }

  /** Exactly the first j entries are strictly better than e. */
  ghost predicate BetterFirst(k: Scoring, s: seq<Entry>, e: Entry, j: nat) {
    j <= |s| && forall n :: 0 <= n < |s| ==> (Better(k, s[n], e) <==> n < j)
  }

  lemma {:induction false} CountBetter(k: Scoring, s: seq<Entry>, e: Entry, j: nat)
    requires BetterFirst(k, s, e, j)
    ensures SumSeq(s, BetterBit(k, e)) == j
    decreases |s|
  {
    if s != [] {
      var n := |s| - 1;
      CountBetter(k, s[..n], e, if j <= n then j else n);
    }
  }

  /** Every entry of a sorted list gets 1 plus the number of entries strictly better than it. */
  method AssignRanks(k: Scoring, s: seq<Entry>) returns (r: seq<Entry>)
    requires SortedBy(s, NotWorse(k))
    ensures |r| == |s|
    ensures forall i :: 0 <= i < |s| ==> r[i] == s[i].(rank := 1 + SumSeq(s, BetterBit(k, s[i])))
  {
    r := s;
    for i := 0 to |s|
      invariant |r| == |s|
      invariant forall m :: i <= m < |s| ==> r[m] == s[m]
      invariant forall m :: 0 <= m < i ==>
        r[m].rank > 0 && r[m] == s[m].(rank := r[m].rank) && BetterFirst(k, s, s[m], r[m].rank - 1)
    {
      if i == 0 {
        r := r[0 := r[0].(rank := 1)];
      } else {
        var prev, cur := r[i - 1], r[i];
        assert NotWorse(k)(s[i - 1], s[i]);
        if cur.total == prev.total && (k.ICPC? ==> cur.penalty == prev.penalty) {
          r := r[i := cur.(rank := prev.rank)];
        } else {
          RankAfterDrop(k, s, i);
          r := r[i := cur.(rank := i + 1)];
        }
      }
    }
    forall i | 0 <= i < |s|
      ensures r[i] == s[i].(rank := 1 + SumSeq(s, BetterBit(k, s[i])))
    {
      CountBetter(k, s, s[i], r[i].rank - 1);
    }
  }

  lemma RankAfterDrop(k: Scoring, s: seq<Entry>, i: nat)
    requires 0 < i < |s| && SortedBy(s, NotWorse(k)) && Better(k, s[i - 1], s[i])
    ensures BetterFirst(k, s, s[i], i)
  {
    forall n | 0 <= n < |s|
      ensures Better(k, s[n], s[i]) <==> n < i
    {
      if n < i - 1 {
        assert NotWorse(k)(s[n], s[i - 1]);
      } else if i < n {
        assert NotWorse(k)(s[i], s[n]);
      }
    }
  }

  /** The rank depends on the entries only, not on the order an unstable sort leaves ties in. */
  lemma RankIgnoresOrder(k: Scoring, a: seq<Entry>, b: seq<Entry>, e: Entry)
    requires multiset(a) == multiset(b)
    ensures SumSeq(a, BetterBit(k, e)) == SumSeq(b, BetterBit(k, e))
  {
    SumPermutation(a, b, BetterBit(k, e));
  }

  function Ids(s: seq<Entry>): seq<int> {
    seq(|s|, i requires 0 <= i < |s| => s[i].user)
  }

  ghost function UsersAbove(k: Scoring, subs: seq<Sub>, u: int): set<int> {
    set v | v in Users(subs) && Above(k, subs, v, u)
  }

  ghost function AboveBit(k: Scoring, subs: seq<Sub>, u: int): int -> int {
    (v: int) => if Above(k, subs, v, u) then 1 else 0
  }

  ghost predicate AllRight(k: Scoring, names: Names, subs: seq<Sub>, s: seq<Entry>) {
    forall i :: 0 <= i < |s| ==> EntryFor(k, names, subs, s[i])
  }

  /** Right entries, one for each user in who. */
  ghost predicate Entries(k: Scoring, names: Names, subs: seq<Sub>, s: seq<Entry>, who: set<int>) {
    NoRepeats(Ids(s)) && Elems(Ids(s)) == who && AllRight(k, names, subs, s)
  }

  lemma OneMoreEntry(k: Scoring, names: Names, subs: seq<Sub>, s: seq<Entry>, who: set<int>, e: Entry)
    requires Entries(k, names, subs, s, who) && EntryFor(k, names, subs, e) && e.user !in who
    ensures Entries(k, names, subs, s + [e], who + {e.user})
  {
    assert Ids(s + [e]) == Ids(s) + [e.user];
    assert e.user in Ids(s) ==> e.user in Elems(Ids(s));
    ElemsAppend(Ids(s), e.user);
  }

  lemma BetterIsAbove(k: Scoring, names: Names, subs: seq<Sub>, a: Entry, b: Entry)
    requires EntryFor(k, names, subs, a) && EntryFor(k, names, subs, b)
    ensures Better(k, a, b) <==> Above(k, subs, a.user, b.user)
  {
  }

  /** Counting better entries is counting the users above. */
  lemma BetterEntriesAreUsersAbove(k: Scoring, names: Names, subs: seq<Sub>, s: seq<Entry>, e: Entry)
    requires Entries(k, names, subs, s, Users(subs)) && EntryFor(k, names, subs, e)
    ensures SumSeq(s, BetterBit(k, e)) == |UsersAbove(k, subs, e.user)|
  {
    forall i | 0 <= i < |s|
      ensures BetterBit(k, e)(s[i]) == AboveBit(k, subs, e.user)(Ids(s)[i])
    {
      BetterIsAbove(k, names, subs, s[i], e);
    }
    SumPointwise(s, Ids(s), BetterBit(k, e), AboveBit(k, subs, e.user));
    SumOfBits(Ids(s), AboveBit(k, subs, e.user), UsersAbove(k, subs, e.user));
  }

  /** The finished standings: one entry per submitting user, best first, each with its totals and its rank. */
  ghost predicate Standing(k: Scoring, names: Names, subs: seq<Sub>, entries: seq<Entry>) {
    && Entries(k, names, subs, entries, Users(subs))
    && (forall i :: 0 <= i < |entries| ==> entries[i].rank == 1 + |UsersAbove(k, subs, entries[i].user)|)
    && (forall i, j :: 0 <= i < j < |entries| ==> !Above(k, subs, entries[j].user, entries[i].user))
  }

  method GetLeaderboard(k: Scoring, ghost names: Names, ghost subs: seq<Sub>, rows: seq<Row>)
    returns (entries: seq<Entry>)
    requires Aggregates(names, subs, rows)
    ensures Standing(k, names, subs, entries)
  {
    var users := GroupByUser(rows);
    GroupsMatch(names, subs, rows, users);
    entries := BuildEntries(k, names, subs, users);
    entries := Arrange(k, names, subs, entries);
  }

  method Arrange(k: Scoring, ghost names: Names, ghost subs: seq<Sub>, entries: seq<Entry>) returns (ranked: seq<Entry>)
    requires Entries(k, names, subs, entries, Users(subs))
    ensures Standing(k, names, subs, ranked)
  {
    var sorted := Sort(entries, NotWorse(k));
    PermutedEntries(k, names, subs, entries, sorted, Users(subs));
    ranked := AssignRanks(k, sorted);
    Ranked(k, names, subs, sorted, ranked);
  }

  method BuildEntries(k: Scoring, ghost names: Names, ghost subs: seq<Sub>, users: map<int, PerUser>)
    returns (entries: seq<Entry>)
    requires users.Keys == Users(subs)
    requires forall u :: u in users ==> InfoFor(names, subs, u, users[u])
    ensures Entries(k, names, subs, entries, Users(subs))
  {
    entries := [];
    var todo := users.Keys;
    ghost var done: set<int> := {};
    while todo != {}
      invariant todo !! done && todo + done == users.Keys
      invariant Entries(k, names, subs, entries, done)
      decreases |todo|
    {
      var u := Pick(todo);
      Visit(users.Keys, todo, done, u);
      var e := BuildEntry(k, names, subs, u, users[u]);
      OneMoreEntry(k, names, subs, entries, done, e);
      entries := entries + [e];
      todo, done := todo - {u}, done + {u};
    }
  }

  lemma {:induction false} IdsPermute(a: seq<Entry>, b: seq<Entry>, v: int)
    requires multiset(a) == multiset(b)
    ensures multiset(Ids(a))[v] == multiset(Ids(b))[v]
  {
    var bit := (e: Entry) => if e.user == v then 1 else 0;
    SumPermutation(a, b, bit);
    IdCount(a, v, bit);
    IdCount(b, v, bit);
  }

  lemma {:induction false} IdCount(a: seq<Entry>, v: int, bit: Entry -> int)
    requires forall e: Entry :: bit(e) == if e.user == v then 1 else 0
    ensures multiset(Ids(a))[v] == SumSeq(a, bit)
    decreases |a|
  {
    if a != [] {
      var n := |a| - 1;
      IdCount(a[..n], v, bit);
      assert Ids(a) == Ids(a[..n]) + [a[n].user];
    }
  }

  lemma PermutedEntries(k: Scoring, names: Names, subs: seq<Sub>, a: seq<Entry>, b: seq<Entry>, who: set<int>)
    requires multiset(a) == multiset(b) && Entries(k, names, subs, a, who)
    ensures Entries(k, names, subs, b, who)
  {
    forall i | 0 <= i < |b|
      ensures EntryFor(k, names, subs, b[i])
    {
      assert b[i] in multiset(b);
      assert b[i] in a;
    }
    forall v
      ensures multiset(Ids(a))[v] == multiset(Ids(b))[v]
    {
      IdsPermute(a, b, v);
    }
    assert multiset(Ids(a)) == multiset(Ids(b));
    PermutationKeeps(Ids(a), Ids(b));
  }

  lemma RankKeepsEntry(k: Scoring, names: Names, subs: seq<Sub>, e: Entry, rank: int)
    requires EntryFor(k, names, subs, e)
    ensures EntryFor(k, names, subs, e.(rank := rank))
  {
  }

  lemma Ranked(k: Scoring, names: Names, subs: seq<Sub>, s: seq<Entry>, entries: seq<Entry>)
    requires Entries(k, names, subs, s, Users(subs))
    requires SortedBy(s, NotWorse(k))
    requires |entries| == |s|
    requires forall i :: 0 <= i < |s| ==> entries[i] == s[i].(rank := 1 + SumSeq(s, BetterBit(k, s[i])))
    ensures Standing(k, names, subs, entries)
  {
    assert Ids(entries) == Ids(s);
    forall i | 0 <= i < |s|
      ensures EntryFor(k, names, subs, entries[i])
      ensures entries[i].rank == 1 + |UsersAbove(k, subs, entries[i].user)|
    {
      RankKeepsEntry(k, names, subs, s[i], entries[i].rank);
      BetterEntriesAreUsersAbove(k, names, subs, s, s[i]);
    }
    forall i, j | 0 <= i < j < |s|
      ensures !Above(k, subs, entries[j].user, entries[i].user)
    {
      assert NotWorse(k)(s[i], s[j]);
      BetterIsAbove(k, names, subs, s[j], s[i]);
    }
  }
}
