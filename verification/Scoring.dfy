/** The worker's scoring loop. */
module Scoring {
  import opened Verdicts
  import opened LimeReport
  import opened Sorting

  // Two sorts, two nested loops and their accumulators, against a summary that only looks at which tests there
  // are. The outside world is a function from a test case to what happened to it.

  datatype Testcase = Testcase(id: int, ordinal: int, inKey: string, outKey: string, isHidden: bool)

  datatype Group = Group(ordinal: int, points: int, tests: seq<Testcase>)

  /** The limits of a problem: milliseconds and bytes, as int64. */
  datatype Limits = Limits(timeMs: int, memory: int)

  /** What the cache, the sandbox and the grading service did with one test case. */
  datatype Attempt =
    | Broken(message: string)   // a file could not be fetched or read, or the sandbox could not run
    | Ran(input: string, expected: string, resp: Response, graderFails: bool)

  type World = Testcase -> Attempt

  datatype TestResult = TestResult(
    testcaseId: int, verdict: Verdict, cpuMs: int, memory: int,
    input: string, expected: string, actual: string, error: string)

  function Truncate(s: string, max: nat): string {
    if |s| <= max then s else s[..max]
  }

  /** mapStatusToVerdict, with the answer of grading: token grading compares for equality (see Grader). */
  function StatusVerdict(r: Report, expected: string, graderFails: bool): Verdict {
    match r.status
    case TimeLimitExceeded => Verdict.TimeLimitExceeded
    case MemoryLimitExceeded => Verdict.MemoryLimitExceeded
    case RuntimeFailure => Verdict.RuntimeError
    case Ok => if graderFails then SystemError else if r.stdout == expected then Accepted else WrongAnswer
  }

  function TimeLimitUs(l: Limits): Uint64 {
    (ToUint64(l.timeMs) * 1000) % U64
  }

  /** The result line of one test that ran. */
  function ResultOf(w: World, l: Limits, t: Testcase): TestResult {
    match w(t)
    case Broken(_) => TestResult(t.id, SystemError, 0, 0, "", "", "", "")
    case Ran(input, expected, resp, graderFails) =>
      var report := ReportFromResponse(resp, TimeLimitUs(l), ToUint64(l.memory));
      var v := StatusVerdict(report, expected, graderFails);
      TestResult(t.id, v, ToInt64(report.cpuTime / 1000), ToInt64(report.memory),
                 if t.isHidden then "" else Truncate(input, 200),
                 if t.isHidden then "" else Truncate(expected, 200),
                 if t.isHidden then "" else Truncate(report.stdout, 200),
                 if v.RuntimeError? then Truncate(report.stderr, 200) else "")
  }

  predicate Passes(w: World, l: Limits, t: Testcase) {
    ResultOf(w, l, t).verdict.Accepted?
  }

  ghost predicate GroupPasses(w: World, l: Limits, g: Group) {
    forall t :: t in g.tests ==> Passes(w, l, t)
  }

  // ---------- The accumulators as functions of the tests executed so far ----------

  function PassBit(w: World, l: Limits): Testcase -> int {
    (t: Testcase) => if Passes(w, l, t) then 1 else 0
  }

  ghost function PointsOf(w: World, l: Limits): Group -> int {
    (g: Group) => if GroupPasses(w, l, g) then g.points else 0
  }

  function Results(w: World, l: Limits, ts: seq<Testcase>): (rs: seq<TestResult>)
    ensures |rs| == |ts| && forall i :: 0 <= i < |ts| ==> rs[i] == ResultOf(w, l, ts[i])
  {
    seq(|ts|, i requires 0 <= i < |ts| => ResultOf(w, l, ts[i]))
  }

  /** The verdict of the first test that did not pass, or Accepted. */
  function FirstBad(w: World, l: Limits, ts: seq<Testcase>): Verdict {
    if ts == [] then Accepted
    else if FirstBad(w, l, ts[..|ts| - 1]).Accepted? then ResultOf(w, l, ts[|ts| - 1]).verdict
    else FirstBad(w, l, ts[..|ts| - 1])
  }

  function Max(a: int, b: int): int {
    if b > a then b else a
  }

  function MaxCpu(w: World, l: Limits, ts: seq<Testcase>): int {
    if ts == [] then 0 else Max(MaxCpu(w, l, ts[..|ts| - 1]), ResultOf(w, l, ts[|ts| - 1]).cpuMs)
  }

  function MaxMemory(w: World, l: Limits, ts: seq<Testcase>): int {
    if ts == [] then 0 else Max(MaxMemory(w, l, ts[..|ts| - 1]), ResultOf(w, l, ts[|ts| - 1]).memory)
  }

  function Tests(gs: seq<Group>): seq<Testcase> {
    if gs == [] then [] else Tests(gs[..|gs| - 1]) + gs[|gs| - 1].tests
  }

  datatype Judged =
    | Infra(message: string)
    | Scored(verdict: Verdict, score: int, maxCpu: int, maxMemory: int,
             passed: int, total: int, results: seq<TestResult>)

  ghost function Summary(w: World, l: Limits, gs: seq<Group>): Judged {
    var ts := Tests(gs);
    Scored(FirstBad(w, l, ts), SumSeq(gs, PointsOf(w, l)), MaxCpu(w, l, ts), MaxMemory(w, l, ts),
           SumSeq(ts, PassBit(w, l)), |ts|, Results(w, l, ts))
  }

  // ---------- The order of execution ----------

  /** a is g with its tests brought into ordinal order. */
  ghost predicate Arranges(g: Group, a: Group) {
    && a.ordinal == g.ordinal && a.points == g.points
    && multiset(a.tests) == multiset(g.tests)
    && (forall i, j :: 0 <= i < j < |a.tests| ==> a.tests[i].ordinal <= a.tests[j].ordinal)
  }

  /** arr lists the groups, and the tests of each group, in ordinal order; sorted is the groups' order alone. */
  ghost predicate Arranged(groups: seq<Group>, sorted: seq<Group>, arr: seq<Group>) {
    && multiset(sorted) == multiset(groups)
    && |arr| == |sorted|
    && (forall i :: 0 <= i < |arr| ==> Arranges(sorted[i], arr[i]))
    && (forall i, j :: 0 <= i < j < |arr| ==> arr[i].ordinal <= arr[j].ordinal)
  }

  method SortGroups(groups: seq<Group>) returns (sorted: seq<Group>)
    ensures multiset(sorted) == multiset(groups)
    ensures forall i, j :: 0 <= i < j < |sorted| ==> sorted[i].ordinal <= sorted[j].ordinal
  {
    var before := (x: Group, y: Group) => x.ordinal <= y.ordinal;
    sorted := Sort(groups, before);
    assert forall i, j :: 0 <= i < j < |sorted| ==> before(sorted[i], sorted[j]);
  }

  method SortTests(g: Group) returns (tests: seq<Testcase>)
    ensures Arranges(g, g.(tests := tests))
  {
    var before := (x: Testcase, y: Testcase) => x.ordinal <= y.ordinal;
    tests := Sort(g.tests, before);
    assert forall i, j :: 0 <= i < j < |tests| ==> before(tests[i], tests[j]);
  }

  ghost predicate AllRan(w: World, groups: seq<Group>) {
    forall g, t :: g in groups && t in g.tests ==> w(t).Ran?
  }

  /** The accumulators that run through both loops. */
  datatype Tally = Tally(
    results: seq<TestResult>, maxCpu: int, maxMemory: int, passed: int, total: int, worst: Verdict)

  /** The accumulators agree with the tests executed so far. */
  ghost predicate Tallied(w: World, l: Limits, done: seq<Testcase>, a: Tally) {
    && a.results == Results(w, l, done) && a.total == |done| && a.passed == SumSeq(done, PassBit(w, l))
    && a.maxCpu == MaxCpu(w, l, done) && a.maxMemory == MaxMemory(w, l, done) && a.worst == FirstBad(w, l, done)
  }

  lemma TalliedOneMore(w: World, l: Limits, before: seq<Testcase>, tests: seq<Testcase>, m: nat, a: Tally)
    requires m < |tests| && Tallied(w, l, before + tests[..m], a)
    ensures var r := ResultOf(w, l, tests[m]);
      Tallied(w, l, before + tests[..m + 1],
        Tally(a.results + [r], Max(a.maxCpu, r.cpuMs), Max(a.maxMemory, r.memory),
              a.passed + (if r.verdict.Accepted? then 1 else 0), a.total + 1,
              if a.worst.Accepted? then r.verdict else a.worst))
  {
    var done, more := before + tests[..m], before + tests[..m + 1];
    assert more == done + [tests[m]] && more[..|more| - 1] == done;
    assert a.results + [ResultOf(w, l, tests[m])] == Results(w, l, more);
  }

  /** All tests pass exactly when the counters agree, and then no bad verdict was kept. */
  lemma {:induction false} CountsAndVerdict(w: World, l: Limits, ts: seq<Testcase>)
    ensures SumSeq(ts, PassBit(w, l)) <= |ts|
    ensures SumSeq(ts, PassBit(w, l)) == |ts| <==> FirstBad(w, l, ts).Accepted?
    ensures FirstBad(w, l, ts).Accepted? <==> forall t :: t in ts ==> Passes(w, l, t)
    decreases |ts|
  {
    if ts != [] {
      var n := |ts| - 1;
      CountsAndVerdict(w, l, ts[..n]);
      assert ts == ts[..n] + [ts[n]];
    }
  }

  lemma OneMoreGroup(w: World, l: Limits, arr: seq<Group>, g: Group, tests: seq<Testcase>)
    requires Arranges(g, g.(tests := tests))
    ensures var more := arr + [g.(tests := tests)];
      && Tests(more) == Tests(arr) + tests
      && SumSeq(more, PointsOf(w, l)) == SumSeq(arr, PointsOf(w, l))
           + (if (forall i :: 0 <= i < |tests| ==> Passes(w, l, tests[i])) then g.points else 0)
    ensures forall t :: t in g.tests <==> t in tests
  {
    var more := arr + [g.(tests := tests)];
    assert more[..|more| - 1] == arr;
    forall t
      ensures t in g.tests <==> t in tests
    {
      assert t in g.tests <==> t in multiset(g.tests);
      assert t in tests <==> t in multiset(tests);
    }
    assert GroupPasses(w, l, g.(tests := tests)) <==> forall i :: 0 <= i < |tests| ==> Passes(w, l, tests[i]);
  }

  lemma SameGroups(groups: seq<Group>, sorted: seq<Group>)
    requires multiset(sorted) == multiset(groups)
    ensures forall g :: g in groups <==> g in sorted
  {
    forall g
      ensures g in groups <==> g in sorted
    {
      assert g in groups <==> g in multiset(groups);
      assert g in sorted <==> g in multiset(sorted);
    }
  }

  /** One test's contribution to the accumulators. */
  method Record(start: Tally, r: TestResult) returns (a: Tally)
    ensures a == Tally(start.results + [r], Max(start.maxCpu, r.cpuMs), Max(start.maxMemory, r.memory),
                       start.passed + (if r.verdict.Accepted? then 1 else 0), start.total,
                       if start.worst.Accepted? then r.verdict else start.worst)
  {
    a := start;
    if r.cpuMs > a.maxCpu {
      a := a.(maxCpu := r.cpuMs);
    }
    if r.memory > a.maxMemory {
      a := a.(maxMemory := r.memory);
    }
    if r.verdict.Accepted? {
      a := a.(passed := a.passed + 1);
    } else if a.worst.Accepted? {
      a := a.(worst := r.verdict);
    }
    a := a.(results := a.results + [r]);
  }

  /** The inner loop: the tests of one group, in order, after the tests `before`. */
  method RunGroup(w: World, l: Limits, tests: seq<Testcase>, start: Tally, ghost before: seq<Testcase>)
    returns (broken: bool, m: nat, allPassed: bool, a: Tally)
    requires Tallied(w, l, before, start)
    ensures broken ==> m < |tests| && w(tests[m]).Broken?
    ensures !broken ==>
      && (forall i :: 0 <= i < |tests| ==> w(tests[i]).Ran?)
      && (allPassed <==> forall i :: 0 <= i < |tests| ==> Passes(w, l, tests[i]))
      && Tallied(w, l, before + tests, a)
  {
    broken, m, allPassed, a := false, 0, true, start;
    assert before + tests[..0] == before;
    while m < |tests|
      invariant m <= |tests| && !broken && forall i :: 0 <= i < m ==> w(tests[i]).Ran?
      invariant allPassed <==> forall i :: 0 <= i < m ==> Passes(w, l, tests[i])
      invariant Tallied(w, l, before + tests[..m], a)
    {
      TalliedOneMore(w, l, before, tests, m, a);
      var t := tests[m];
      a := a.(total := a.total + 1);
      if w(t).Broken? {
        broken := true;
        return;
      }
      var r := ResultOf(w, l, t);
      a := Record(a, r);
      if !r.verdict.Accepted? {
        allPassed := false;
      }
      m := m + 1;
    }
    assert before + tests[..|tests|] == before + tests;
  }

  /** The groups arr[..] are the first of gs, with sorted tests, and all their tests ran. */
  ghost predicate InOrder(w: World, gs: seq<Group>, arr: seq<Group>) {
    |arr| <= |gs| && forall i :: 0 <= i < |arr| ==> Arranges(gs[i], arr[i]) && GroupRan(w, arr[i])
  }

  ghost predicate GroupRan(w: World, g: Group) {
    forall t :: t in g.tests ==> w(t).Ran?
  }

  /** The state of the outer loop once the groups arr[..] have been executed. */
  ghost predicate GroupsDone(w: World, l: Limits, gs: seq<Group>, arr: seq<Group>, score: int, a: Tally) {
    && InOrder(w, gs, arr)
    && score == SumSeq(arr, PointsOf(w, l)) && Tallied(w, l, Tests(arr), a)
  }

  lemma NothingDone(w: World, l: Limits, gs: seq<Group>)
    ensures GroupsDone(w, l, gs, [], 0, Tally([], 0, 0, 0, 0, Accepted))
  {
  }

  lemma InOrderMore(w: World, gs: seq<Group>, arr: seq<Group>, g: Group)
    requires InOrder(w, gs, arr) && |arr| < |gs| && Arranges(gs[|arr|], g) && GroupRan(w, g)
    ensures InOrder(w, gs, arr + [g])
  {
  }

  lemma GroupDone(w: World, l: Limits, gs: seq<Group>, arr: seq<Group>, score: int, a: Tally,
                  tests: seq<Testcase>, allPassed: bool, b: Tally)
    requires GroupsDone(w, l, gs, arr, score, a) && |arr| < |gs|
    requires Arranges(gs[|arr|], gs[|arr|].(tests := tests))
    requires forall i :: 0 <= i < |tests| ==> w(tests[i]).Ran?
    requires allPassed <==> forall i :: 0 <= i < |tests| ==> Passes(w, l, tests[i])
    requires Tallied(w, l, Tests(arr) + tests, b)
    ensures GroupsDone(w, l, gs, arr + [gs[|arr|].(tests := tests)],
                       score + (if allPassed then gs[|arr|].points else 0), b)
  {
    var g := gs[|arr|].(tests := tests);
    OneMoreGroup(w, l, arr, gs[|arr|], tests);
    InOrderMore(w, gs, arr, g);
    assert Tallied(w, l, Tests(arr + [g]), b);
  }

  /** The outer loop, over the sorted groups. */
  method RunGroups(w: World, l: Limits, gs: seq<Group>)
    returns (broken: bool, n: nat, m: nat, tests: seq<Testcase>, score: int, a: Tally, ghost arr: seq<Group>)
    ensures broken ==> n < |gs| && Arranges(gs[n], gs[n].(tests := tests)) && m < |tests| && w(tests[m]).Broken?
    ensures !broken ==> |arr| == |gs| && GroupsDone(w, l, gs, arr, score, a)
  {
    broken, n, m, tests, score, a := false, 0, 0, [], 0, Tally([], 0, 0, 0, 0, Accepted);
    arr := [];
    NothingDone(w, l, gs);
    while n < |gs|
      invariant n <= |gs| && !broken && |arr| == n && GroupsDone(w, l, gs, arr, score, a)
    {
      tests := SortTests(gs[n]);
      var allPassed, b;
      broken, m, allPassed, b := RunGroup(w, l, tests, a, Tests(arr));
      if broken {
        return;
      }
      GroupDone(w, l, gs, arr, score, a, tests, allPassed, b);
      if allPassed {
        score := score + gs[n].points;
      }
      a, arr := b, arr + [gs[n].(tests := tests)];
      n := n + 1;
    }
  }

  lemma AllOfThemRan(w: World, l: Limits, groups: seq<Group>, sorted: seq<Group>, arr: seq<Group>)
    requires Arranged(groups, sorted, arr) && forall i :: 0 <= i < |arr| ==> GroupRan(w, arr[i])
    ensures AllRan(w, groups)
  {
    forall g, t | g in groups && t in g.tests
      ensures w(t).Ran?
    {
      var i := WhereIs(groups, sorted, arr, g);
      ArrangedGroup(w, l, g, arr[i]);
      assert GroupRan(w, arr[i]);
    }
  }

  /** The loops of processJobWithPublisher: an infrastructure failure ends them at once. */
  method RunTests(w: World, l: Limits, groups: seq<Group>)
    returns (j: Judged, ghost sorted: seq<Group>, ghost arr: seq<Group>)
    ensures j.Scored? <==> AllRan(w, groups)
    ensures j.Scored? ==> Arranged(groups, sorted, arr) && j == Summary(w, l, arr)
    ensures j.Infra? ==> exists g, t :: g in groups && t in g.tests && w(t) == Broken(j.message)
  {
    var gs := SortGroups(groups);
    SameGroups(groups, gs);
    sorted := gs;
    var broken, n, m, tests, score, a;
    broken, n, m, tests, score, a, arr := RunGroups(w, l, gs);
    if broken {
      ArrangedGroup(w, l, gs[n], gs[n].(tests := tests));
      assert gs[n] in groups && tests[m] in gs[n].tests;
      return Infra(w(tests[m]).message), sorted, arr;
    }
    var verdict := Accepted;
    if a.passed < a.total {
      verdict := a.worst;
    }
    CountsAndVerdict(w, l, Tests(arr));
    j := Scored(verdict, score, a.maxCpu, a.maxMemory, a.passed, a.total, a.results);
    AllOfThemRan(w, l, groups, sorted, arr);
  }

  // ---------- What the summary means, whatever the order of the input ----------

  function SizeOf(): Group -> int {
    (g: Group) => |g.tests|
  }

  function PassedIn(w: World, l: Limits): Group -> int {
    (g: Group) => SumSeq(g.tests, PassBit(w, l))
  }

  lemma {:induction false} TestTotals(w: World, l: Limits, gs: seq<Group>)
    ensures |Tests(gs)| == SumSeq(gs, SizeOf())
    ensures SumSeq(Tests(gs), PassBit(w, l)) == SumSeq(gs, PassedIn(w, l))
    decreases |gs|
  {
    if gs != [] {
      var n := |gs| - 1;
      TestTotals(w, l, gs[..n]);
      SumAppend(Tests(gs[..n]), gs[n].tests, PassBit(w, l));
    }
  }

  lemma {:induction false} TestMembers(gs: seq<Group>, t: Testcase)
    ensures t in Tests(gs) <==> exists g :: g in gs && t in g.tests
    decreases |gs|
  {
    if gs != [] {
      var n := |gs| - 1;
      TestMembers(gs[..n], t);
      assert gs == gs[..n] + [gs[n]];
    }
  }

  lemma {:induction false} FirstBadAppend(w: World, l: Limits, a: seq<Testcase>, b: seq<Testcase>)
    ensures FirstBad(w, l, a + b) == if FirstBad(w, l, a).Accepted? then FirstBad(w, l, b) else FirstBad(w, l, a)
    decreases |b|
  {
    if b == [] {
      assert a + b == a;
    } else {
      assert (a + b)[..|a + b| - 1] == a + b[..|b| - 1];
      FirstBadAppend(w, l, a, b[..|b| - 1]);
    }
  }

  lemma {:induction false} FirstBadTest(w: World, l: Limits, ts: seq<Testcase>) returns (m: nat)
    requires !FirstBad(w, l, ts).Accepted?
    ensures m < |ts| && ResultOf(w, l, ts[m]).verdict == FirstBad(w, l, ts)
    ensures forall i :: 0 <= i < m ==> Passes(w, l, ts[i])
    decreases |ts|
  {
    var n := |ts| - 1;
    if FirstBad(w, l, ts[..n]).Accepted? {
      CountsAndVerdict(w, l, ts[..n]);
      m := n;
      forall i | 0 <= i < m
        ensures Passes(w, l, ts[i])
      {
        assert ts[i] in ts[..n];
      }
    } else {
      m := FirstBadTest(w, l, ts[..n]);
    }
  }

  /**
   The verdict comes from the first group, in the order of execution, in which a test fails, and its first
   failing test.
   */
  lemma {:induction false} FirstBadGroup(w: World, l: Limits, gs: seq<Group>) returns (n: nat, m: nat)
    requires !FirstBad(w, l, Tests(gs)).Accepted?
    ensures n < |gs| && m < |gs[n].tests| && ResultOf(w, l, gs[n].tests[m]).verdict == FirstBad(w, l, Tests(gs))
    ensures forall i :: 0 <= i < n ==> GroupPasses(w, l, gs[i])
    ensures forall i :: 0 <= i < m ==> Passes(w, l, gs[n].tests[i])
    decreases |gs|
  {
    var k := |gs| - 1;
    FirstBadAppend(w, l, Tests(gs[..k]), gs[k].tests);
    if FirstBad(w, l, Tests(gs[..k])).Accepted? {
      CountsAndVerdict(w, l, Tests(gs[..k]));
      n := k;
      m := FirstBadTest(w, l, gs[k].tests);
      forall i | 0 <= i < n
        ensures GroupPasses(w, l, gs[i])
      {
        forall t | t in gs[i].tests
          ensures Passes(w, l, t)
        {
          assert gs[i] in gs[..k];
          TestMembers(gs[..k], t);
        }
      }
    } else {
      n, m := FirstBadGroup(w, l, gs[..k]);
    }
  }

  /**
   v is the verdict of a failing test whose group is first among those with a failure, and which is first in its
   group.
   */
  ghost predicate EarliestFailure(w: World, l: Limits, groups: seq<Group>, v: Verdict) {
    exists g, t :: g in groups && t in g.tests && !Passes(w, l, t) && v == ResultOf(w, l, t).verdict
      && (forall h :: h in groups && !GroupPasses(w, l, h) ==> g.ordinal <= h.ordinal)
      && (forall u :: u in g.tests && !Passes(w, l, u) ==> t.ordinal <= u.ordinal)
  }

  lemma ArrangedGroup(w: World, l: Limits, g: Group, a: Group)
    requires Arranges(g, a)
    ensures forall t :: t in g.tests <==> t in a.tests
    ensures GroupPasses(w, l, g) <==> GroupPasses(w, l, a)
    ensures |g.tests| == |a.tests| && PassedIn(w, l)(g) == PassedIn(w, l)(a) && PointsOf(w, l)(g) == PointsOf(w, l)(a)
  {
    forall t
      ensures t in g.tests <==> t in a.tests
    {
      assert t in g.tests <==> t in multiset(g.tests);
      assert t in a.tests <==> t in multiset(a.tests);
    }
    SameLength(g.tests, a.tests);
    SumPermutation(g.tests, a.tests, PassBit(w, l));
  }

  /** Score and counts are sums over the groups as given. */
  lemma SummaryCounts(w: World, l: Limits, groups: seq<Group>, sorted: seq<Group>, arr: seq<Group>)
    requires Arranged(groups, sorted, arr)
    ensures var s := Summary(w, l, arr);
      && s.score == SumSeq(groups, PointsOf(w, l))
      && s.passed == SumSeq(groups, PassedIn(w, l))
      && s.total == SumSeq(groups, SizeOf())
  {
    forall i | 0 <= i < |arr|
      ensures PointsOf(w, l)(sorted[i]) == PointsOf(w, l)(arr[i])
      ensures PassedIn(w, l)(sorted[i]) == PassedIn(w, l)(arr[i])
      ensures SizeOf()(sorted[i]) == SizeOf()(arr[i])
    {
      ArrangedGroup(w, l, sorted[i], arr[i]);
    }
    TestTotals(w, l, arr);
    SumPointwise(arr, sorted, PointsOf(w, l), PointsOf(w, l));
    SumPointwise(arr, sorted, PassedIn(w, l), PassedIn(w, l));
    SumPointwise(arr, sorted, SizeOf(), SizeOf());
    SumPermutation(sorted, groups, PointsOf(w, l));
    SumPermutation(sorted, groups, PassedIn(w, l));
    SumPermutation(sorted, groups, SizeOf());
  }

  lemma WhereIs(groups: seq<Group>, sorted: seq<Group>, arr: seq<Group>, g: Group) returns (i: nat)
    requires Arranged(groups, sorted, arr) && g in groups
    ensures i < |arr| && sorted[i] == g && Arranges(g, arr[i])
  {
    SameGroups(groups, sorted);
    i :| 0 <= i < |sorted| && sorted[i] == g;
  }

  lemma VerdictAccepted(w: World, l: Limits, groups: seq<Group>, sorted: seq<Group>, arr: seq<Group>)
    requires Arranged(groups, sorted, arr)
    ensures Summary(w, l, arr).verdict.Accepted? <==> forall g :: g in groups ==> GroupPasses(w, l, g)
  {
    CountsAndVerdict(w, l, Tests(arr));
    if FirstBad(w, l, Tests(arr)).Accepted? {
      forall g, t | g in groups && t in g.tests
        ensures Passes(w, l, t)
      {
        var i := WhereIs(groups, sorted, arr, g);
        ArrangedGroup(w, l, g, arr[i]);
        TestMembers(arr, t);
      }
    }
    if forall g :: g in groups ==> GroupPasses(w, l, g) {
      forall t | t in Tests(arr)
        ensures Passes(w, l, t)
      {
        TestMembers(arr, t);
        var i :| 0 <= i < |arr| && t in arr[i].tests;
        SameGroups(groups, sorted);
        ArrangedGroup(w, l, sorted[i], arr[i]);
        assert sorted[i] in groups;
      }
    }
  }

  lemma VerdictOfFailure(w: World, l: Limits, groups: seq<Group>, sorted: seq<Group>, arr: seq<Group>, n: nat, m: nat)
    requires Arranged(groups, sorted, arr) && n < |arr| && m < |arr[n].tests|
    requires forall i :: 0 <= i < n ==> GroupPasses(w, l, arr[i])
    requires forall i :: 0 <= i < m ==> Passes(w, l, arr[n].tests[i])
    requires !Passes(w, l, arr[n].tests[m])
    ensures EarliestFailure(w, l, groups, ResultOf(w, l, arr[n].tests[m]).verdict)
  {
    SameGroups(groups, sorted);
    var g, t := sorted[n], arr[n].tests[m];
    ArrangedGroup(w, l, g, arr[n]);
    forall h | h in groups && !GroupPasses(w, l, h)
      ensures g.ordinal <= h.ordinal
    {
      var i := WhereIs(groups, sorted, arr, h);
      ArrangedGroup(w, l, h, arr[i]);
      assert n <= i;
    }
    EarliestInGroup(w, l, g, arr[n], m);
    assert g in groups && t in g.tests;
  }

  lemma EarliestInGroup(w: World, l: Limits, g: Group, a: Group, m: nat)
    requires Arranges(g, a) && m < |a.tests| && forall i :: 0 <= i < m ==> Passes(w, l, a.tests[i])
    ensures forall u :: u in g.tests && !Passes(w, l, u) ==> a.tests[m].ordinal <= u.ordinal
  {
    ArrangedGroup(w, l, g, a);
  }

  /**
   The verdict: Accepted iff every test of every group passes, and otherwise the earliest failure in ordinal
   order.
   */
  lemma SummaryVerdict(w: World, l: Limits, groups: seq<Group>, sorted: seq<Group>, arr: seq<Group>)
    requires Arranged(groups, sorted, arr)
    ensures var v := Summary(w, l, arr).verdict;
      && (v.Accepted? <==> forall g :: g in groups ==> GroupPasses(w, l, g))
      && (!v.Accepted? ==> EarliestFailure(w, l, groups, v))
  {
    VerdictAccepted(w, l, groups, sorted, arr);
    if !FirstBad(w, l, Tests(arr)).Accepted? {
      var n, m := FirstBadGroup(w, l, arr);
      VerdictOfFailure(w, l, groups, sorted, arr, n, m);
    }
  }

  lemma {:induction false} MaximaOf(w: World, l: Limits, ts: seq<Testcase>)
    ensures forall t :: t in ts ==>
      ResultOf(w, l, t).cpuMs <= MaxCpu(w, l, ts) && ResultOf(w, l, t).memory <= MaxMemory(w, l, ts)
    ensures MaxCpu(w, l, ts) == 0 || exists t :: t in ts && ResultOf(w, l, t).cpuMs == MaxCpu(w, l, ts)
    ensures MaxMemory(w, l, ts) == 0 || exists t :: t in ts && ResultOf(w, l, t).memory == MaxMemory(w, l, ts)
    ensures MaxCpu(w, l, ts) >= 0 && MaxMemory(w, l, ts) >= 0
    decreases |ts|
  {
    if ts != [] {
      var n := |ts| - 1;
      MaximaOf(w, l, ts[..n]);
      assert ts == ts[..n] + [ts[n]];
    }
  }

  /** The tests that are executed are those of the groups. */
  lemma ExecutedTests(w: World, l: Limits, groups: seq<Group>, sorted: seq<Group>, arr: seq<Group>, t: Testcase)
    requires Arranged(groups, sorted, arr)
    ensures t in Tests(arr) <==> exists g :: g in groups && t in g.tests
  {
    TestMembers(arr, t);
    if g :| g in groups && t in g.tests {
      var i := WhereIs(groups, sorted, arr, g);
      ArrangedGroup(w, l, g, arr[i]);
    }
    if t in Tests(arr) {
      var i :| 0 <= i < |arr| && t in arr[i].tests;
      SameGroups(groups, sorted);
      ArrangedGroup(w, l, sorted[i], arr[i]);
      assert sorted[i] in groups;
    }
  }

  /** cpu and memory are the largest values of any test of the groups, or 0. */
  ghost predicate Largest(w: World, l: Limits, groups: seq<Group>, cpu: int, memory: int) {
    && (forall g, t :: g in groups && t in g.tests ==>
          ResultOf(w, l, t).cpuMs <= cpu && ResultOf(w, l, t).memory <= memory)
    && (cpu == 0 || exists g, t :: g in groups && t in g.tests && ResultOf(w, l, t).cpuMs == cpu)
    && (memory == 0 || exists g, t :: g in groups && t in g.tests && ResultOf(w, l, t).memory == memory)
  }

  lemma SummaryMaxima(w: World, l: Limits, groups: seq<Group>, sorted: seq<Group>, arr: seq<Group>)
    requires Arranged(groups, sorted, arr)
    ensures Largest(w, l, groups, Summary(w, l, arr).maxCpu, Summary(w, l, arr).maxMemory)
  {
    var ts := Tests(arr);
    MaximaOf(w, l, ts);
    forall t
      ensures t in ts <==> exists g :: g in groups && t in g.tests
    {
      ExecutedTests(w, l, groups, sorted, arr, t);
    }
  }

  /** The results are those of the tests of the groups, one for each that is executed. */
  ghost predicate ResultsOf(w: World, l: Limits, groups: seq<Group>, results: seq<TestResult>) {
    && |results| == SumSeq(groups, SizeOf())
    && (forall r :: r in results ==> exists g, t :: g in groups && t in g.tests && r == ResultOf(w, l, t))
    && (forall g, t :: g in groups && t in g.tests ==> ResultOf(w, l, t) in results)
  }

  lemma SummaryResults(w: World, l: Limits, groups: seq<Group>, sorted: seq<Group>, arr: seq<Group>)
    requires Arranged(groups, sorted, arr)
    ensures ResultsOf(w, l, groups, Summary(w, l, arr).results)
  {
    var ts, rs := Tests(arr), Summary(w, l, arr).results;
    SummaryCounts(w, l, groups, sorted, arr);
    forall r | r in rs
      ensures exists g, t :: g in groups && t in g.tests && r == ResultOf(w, l, t)
    {
      var i :| 0 <= i < |rs| && rs[i] == r;
      ExecutedTests(w, l, groups, sorted, arr, ts[i]);
    }
    forall g, t | g in groups && t in g.tests
      ensures ResultOf(w, l, t) in rs
    {
      ExecutedTests(w, l, groups, sorted, arr, t);
      var i :| 0 <= i < |ts| && ts[i] == t;
      assert rs[i] == ResultOf(w, l, t);
    }
  }

  /** When a test passes, in terms of what the sandbox and the grading said. */
  lemma PassesMeans(w: World, l: Limits, t: Testcase)
    ensures Passes(w, l, t) <==>
      && w(t).Ran? && !w(t).graderFails && w(t).resp.stdout == w(t).expected
      && w(t).resp.exitCode == 0 && w(t).resp.termSignal == 0
      && (TimeLimitUs(l) > 0 ==> w(t).resp.cpuTimeUs <= TimeLimitUs(l) && w(t).resp.wallTimeUs <= TimeLimitUs(l))
      && (ToUint64(l.memory) > 0 ==> w(t).resp.memoryBytes <= ToUint64(l.memory))
  {
  }

  /** The limits of problems whose milliseconds and bytes fit the sandbox's fields; a limit of 0 is none. */
  predicate Ordinary(l: Limits) {
    0 <= l.timeMs < U64 / 1000 && 0 <= l.memory < U64 / 2
  }

  predicate OverTime(l: Limits, r: Response) {
    l.timeMs > 0 && (r.cpuTimeUs > 1000 * l.timeMs || r.wallTimeUs > 1000 * l.timeMs)
  }

  predicate OverMemory(l: Limits, r: Response) {
    l.memory > 0 && r.memoryBytes > l.memory
  }

  predicate Crashed(r: Response) {
    r.exitCode != 0 || r.termSignal != 0
  }

  /** The microseconds are 1000 times the milliseconds, up to where the product wraps. */
  lemma OrdinaryLimits(l: Limits)
    requires Ordinary(l)
    ensures TimeLimitUs(l) == 1000 * l.timeMs && ToUint64(l.memory) == l.memory
  {
    assert ToUint64(l.timeMs) == l.timeMs;
  }

  /** Which verdict a test that ran gets, from the problem's limits, the sandbox's response and the expected output. */
  lemma VerdictMeans(w: World, l: Limits, t: Testcase)
    requires Ordinary(l) && w(t).Ran?
    ensures var v, r := ResultOf(w, l, t).verdict, w(t).resp;
      && (v.TimeLimitExceeded? <==> OverTime(l, r))
      && (v.MemoryLimitExceeded? <==> !OverTime(l, r) && OverMemory(l, r))
      && (v.RuntimeError? <==> !OverTime(l, r) && !OverMemory(l, r) && Crashed(r))
      && (!OverTime(l, r) && !OverMemory(l, r) && !Crashed(r) ==>
            v == if w(t).graderFails then SystemError else if r.stdout == w(t).expected then Accepted else WrongAnswer)
  {
    OrdinaryLimits(l);
  }

  /** When a test passes, in terms of the problem's limits. */
  lemma PassesWithin(w: World, l: Limits, t: Testcase)
    requires Ordinary(l)
    ensures Passes(w, l, t) <==>
      && w(t).Ran? && !w(t).graderFails && w(t).resp.stdout == w(t).expected
      && w(t).resp.exitCode == 0 && w(t).resp.termSignal == 0
      && (l.timeMs > 0 ==> w(t).resp.cpuTimeUs <= 1000 * l.timeMs && w(t).resp.wallTimeUs <= 1000 * l.timeMs)
      && (l.memory > 0 ==> w(t).resp.memoryBytes <= l.memory)
  {
    OrdinaryLimits(l);
    PassesMeans(w, l, t);
  }

  /** The start of a text, of at most 200 characters, or nothing of it when it is hidden. */
  predicate Shown(hidden: bool, text: string, shown: string) {
    if hidden then shown == "" else shown <= text && (|shown| == 200 || shown == text) && |shown| <= 200
  }

  /** Which number and which text goes into which field of a result. */
  lemma ResultFields(w: World, l: Limits, t: Testcase)
    requires w(t).Ran?
    ensures var r, resp := ResultOf(w, l, t), w(t).resp;
      && r.testcaseId == t.id
      && 1000 * r.cpuMs <= resp.cpuTimeUs < 1000 * (r.cpuMs + 1)
      && (resp.memoryBytes < U64 / 2 ==> r.memory == resp.memoryBytes)
      && Shown(t.isHidden, w(t).input, r.input) && Shown(t.isHidden, w(t).expected, r.expected)
      && Shown(t.isHidden, resp.stdout, r.actual) && Shown(!r.verdict.RuntimeError?, resp.stderr, r.error)
  {
  }

  /** An accepted submission stayed within its limits, even where the microsecond limit wraps around. */
  lemma AcceptedWithinLimits(w: World, l: Limits, ts: seq<Testcase>)
    requires 0 < l.timeMs < U64 / 2 && 0 < l.memory < U64 / 2
    requires FirstBad(w, l, ts).Accepted?
    ensures MaxCpu(w, l, ts) <= l.timeMs && MaxMemory(w, l, ts) <= l.memory
  {
    CountsAndVerdict(w, l, ts);
    MaximaOf(w, l, ts);
    forall t | t in ts
      ensures ResultOf(w, l, t).cpuMs <= l.timeMs && ResultOf(w, l, t).memory <= l.memory
    {
      PassesMeans(w, l, t);
      WithinLimits(l, w(t).resp);
    }
  }

  lemma WithinLimits(l: Limits, r: Response)
    requires 0 < l.timeMs < U64 / 2 && 0 < l.memory < U64 / 2
    requires TimeLimitUs(l) > 0 ==> r.cpuTimeUs <= TimeLimitUs(l)
    requires r.memoryBytes <= ToUint64(l.memory)
    ensures ToInt64(r.cpuTimeUs / 1000) <= l.timeMs && ToInt64(r.memoryBytes) <= l.memory
  {
    assert ToUint64(l.timeMs) == l.timeMs && ToUint64(l.memory) == l.memory;
    if l.timeMs * 1000 < U64 {
      assert TimeLimitUs(l) == l.timeMs * 1000;
    } else {
      assert r.cpuTimeUs / 1000 < U64 / 1000 + 1;
    }
  }

  /** A scored outcome is final, and it is never a compile error. */
  lemma {:induction false} FirstBadIsFinal(w: World, l: Limits, ts: seq<Testcase>)
    ensures Terminal(FirstBad(w, l, ts)) && !FirstBad(w, l, ts).CompilationError?
    decreases |ts|
  {
    if ts != [] {
      FirstBadIsFinal(w, l, ts[..|ts| - 1]);
    }
  }

  // ---------- Independence of the input order ----------

  ghost predicate DistinctOrdinals(groups: seq<Group>) {
    && (forall i, j :: 0 <= i < j < |groups| ==> groups[i].ordinal != groups[j].ordinal)
    && (forall g :: g in groups ==> forall i, j :: 0 <= i < j < |g.tests| ==> g.tests[i].ordinal != g.tests[j].ordinal)
  }

  /** A group as a multiset of tests. */
  datatype Content = Content(ordinal: int, points: int, tests: multiset<Testcase>)

  ghost function ContentOf(g: Group): Content {
    Content(g.ordinal, g.points, multiset(g.tests))
  }

  ghost function Contents(gs: seq<Group>): (cs: seq<Content>)
    ensures |cs| == |gs| && forall i :: 0 <= i < |gs| ==> cs[i] == ContentOf(gs[i])
  {
    seq(|gs|, i requires 0 <= i < |gs| => ContentOf(gs[i]))
  }

  lemma ContentsArranged(groups: seq<Group>, sorted: seq<Group>, arr: seq<Group>)
    requires Arranged(groups, sorted, arr)
    ensures multiset(Contents(arr)) == multiset(Contents(groups))
  {
    assert Contents(arr) == Contents(sorted);
    ContentsPermute(sorted, groups);
  }

  lemma ContentsAppend(a: seq<Group>, b: seq<Group>)
    ensures Contents(a + b) == Contents(a) + Contents(b)
  {
  }

  lemma {:induction false} ContentsPermute(a: seq<Group>, b: seq<Group>)
    requires multiset(a) == multiset(b)
    ensures multiset(Contents(a)) == multiset(Contents(b))
    decreases |a|
  {
    SameLength(a, b);
    if a != [] {
      var front, x := a[..|a| - 1], a[|a| - 1];
      WithoutLast(a);
      assert x in multiset(b);
      var k :| 0 <= k < |b| && b[k] == x;
      var left, right := b[..k], b[k + 1..];
      assert b == left + [x] + right;
      assert multiset(left + right) == multiset(front);
      ContentsPermute(front, left + right);
      ContentsAppend(front, [x]);
      ContentsAppend(left + [x], right);
      ContentsAppend(left, [x]);
      ContentsAppend(left, right);
    }
  }

  lemma {:induction false} DistinctContents(groups: seq<Group>, sorted: seq<Group>, arr: seq<Group>)
    requires Arranged(groups, sorted, arr) && DistinctOrdinals(groups)
    ensures forall i, j :: 0 <= i < j < |arr| ==> arr[i].ordinal < arr[j].ordinal
    ensures forall n :: 0 <= n < |arr| ==> StrictlyBy(arr[n].tests, (t: Testcase) => t.ordinal)
  {
    var ord := (g: Group) => g.ordinal;
    var tord := (t: Testcase) => t.ordinal;
    DistinctKept(groups, sorted, ord);
    SameGroups(groups, sorted);
    forall i, j | 0 <= i < j < |arr|
      ensures arr[i].ordinal < arr[j].ordinal
    {
      assert ord(sorted[i]) != ord(sorted[j]);
    }
    forall n | 0 <= n < |arr|
      ensures StrictlyBy(arr[n].tests, (t: Testcase) => t.ordinal)
    {
      assert sorted[n] in groups;
      DistinctKept(sorted[n].tests, arr[n].tests, tord);
      forall i, j | 0 <= i < j < |arr[n].tests|
        ensures arr[n].tests[i].ordinal < arr[n].tests[j].ordinal
      {
        assert tord(arr[n].tests[i]) != tord(arr[n].tests[j]);
      }
    }
  }

  /** A permutation of a sequence with distinct keys has distinct keys. */
  lemma DistinctKept<T>(a: seq<T>, b: seq<T>, key: T -> int)
    requires multiset(a) == multiset(b)
    requires forall i, j :: 0 <= i < j < |a| ==> key(a[i]) != key(a[j])
    ensures forall i, j :: 0 <= i < j < |b| ==> key(b[i]) != key(b[j])
  {
    forall i, j | 0 <= i < j < |b|
      ensures key(b[i]) != key(b[j])
    {
      var x, y := b[i], b[j];
      assert b == b[..i] + [x] + b[i + 1..j] + [y] + b[j + 1..];
      assert x in multiset(a) && y in multiset(a);
      if x == y {
        assert multiset(b)[x] >= 2;
        TwiceMeansTwo(a, x);
      }
    }
  }

  lemma {:induction false} TwiceMeansTwo<T>(a: seq<T>, x: T)
    requires multiset(a)[x] >= 2
    ensures exists i, j :: 0 <= i < j < |a| && a[i] == x && a[j] == x
    decreases |a|
  {
    var n := |a| - 1;
    assert a == a[..n] + [a[n]];
    if a[n] == x {
      assert x in multiset(a[..n]);
      var i :| 0 <= i < n && a[i] == x;
    } else {
      TwiceMeansTwo(a[..n], x);
      var i, j :| 0 <= i < j < n && a[..n][i] == x && a[..n][j] == x;
    }
  }

  /**
   With distinct ordinals the whole outcome, down to the order of the result lines, is the same for two
   problems with the same groups and tests, whatever order they are listed in and whatever sort is used.
   */
  lemma OutcomeIgnoresOrder(w: World, l: Limits, g1: seq<Group>, s1: seq<Group>, a1: seq<Group>,
                            g2: seq<Group>, s2: seq<Group>, a2: seq<Group>)
    requires Arranged(g1, s1, a1) && Arranged(g2, s2, a2)
    requires DistinctOrdinals(g1) && DistinctOrdinals(g2)
    requires multiset(Contents(g1)) == multiset(Contents(g2))
    ensures Summary(w, l, a1) == Summary(w, l, a2)
  {
    ContentsArranged(g1, s1, a1);
    ContentsArranged(g2, s2, a2);
    DistinctContents(g1, s1, a1);
    DistinctContents(g2, s2, a2);
    SortedIsStrict(Contents(a1), Contents(a2), (c: Content) => c.ordinal);
    forall i | 0 <= i < |a1|
      ensures a1[i] == a2[i]
    {
      assert Contents(a1)[i] == Contents(a2)[i];
      SortedIsStrict(a1[i].tests, a2[i].tests, (t: Testcase) => t.ordinal);
    }
    assert a1 == a2;
  }
}
