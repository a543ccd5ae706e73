/** processJobWithPublisher: what a worker publishes about one job, and when its handler reports an error. */
module Worker {
  import opened Verdicts
  import opened LimeReport
  import opened Scoring
  import opened Sorting

  datatype Submission = Submission(
    id: int, language: string, verdict: Verdict, score: int, cpuTime: int, memory: int,
    message: string, testsPassed: int, testsTotal: int, results: seq<TestResult>)

  /** The results queue as the worker sees it: a publish either appends or fails without effect. */
  class Outbox {
    var sent: seq<Submission>

    constructor ()
      ensures sent == []
    {
      sent := [];
    }

    method Publish(s: Submission, ok: bool)
      modifies this
      ensures sent == if ok then old(sent) + [s] else old(sent)
    {
      if ok {
        sent := sent + [s];
      }
    }
  }

  /** What happens before the first test: the work directory, the source file and the compiler's run. */
  datatype Setup = Setup(dirMade: bool, sourceWritten: bool, compiler: Compiler)

  datatype Compiler = CannotRun | Finished(resp: Response)

  predicate KnownLanguage(language: string) {
    language == "cpp" || language == "python"
  }

  predicate NeedsCompiler(language: string) {
    language == "cpp"
  }

  const COMPILE_TIME_US: Uint64 := 30_000_000
  const COMPILE_MEMORY: Uint64 := 512 * 1024 * 1024

  /** The compiler ran within its limits and exited cleanly. */
  predicate Compiles(c: Compiler) {
    c.Finished? && ReportFromResponse(c.resp, COMPILE_TIME_US, COMPILE_MEMORY).status.Ok? && c.resp.exitCode == 0
  }

  /** What counts as a clean run of the compiler, in numbers. */
  lemma CompilesMeans(c: Compiler)
    ensures Compiles(c) <==>
      && c.Finished? && c.resp.exitCode == 0 && c.resp.termSignal == 0
      && c.resp.cpuTimeUs <= 30_000_000 && c.resp.wallTimeUs <= 30_000_000 && c.resp.memoryBytes <= 536_870_912
  {
  }

  predicate SetupFails(language: string, setup: Setup) {
    || !setup.dirMade || !KnownLanguage(language) || !setup.sourceWritten
    || (NeedsCompiler(language) && setup.compiler.CannotRun?)
  }

  predicate CompileFails(language: string, setup: Setup) {
    !SetupFails(language, setup) && NeedsCompiler(language) && !Compiles(setup.compiler)
  }

  /** When a submission is not executed: only C++ is compiled, and only C++ and Python are known. */
  lemma SetupMeans(language: string, setup: Setup)
    ensures SetupFails(language, setup) <==>
      || !setup.dirMade || !setup.sourceWritten || (language != "cpp" && language != "python")
      || (language == "cpp" && setup.compiler.CannotRun?)
    ensures CompileFails(language, setup) <==>
      && setup.dirMade && setup.sourceWritten && language == "cpp" && setup.compiler.Finished?
      && !Compiles(setup.compiler)
  {
  }

  function Filled(s: Submission, j: Judged): Submission
    requires j.Scored?
  {
    s.(verdict := j.verdict, score := j.score, cpuTime := j.maxCpu, memory := j.maxMemory,
       testsPassed := j.passed, testsTotal := j.total, results := j.results)
  }

  /** The one terminal message the worker tries to publish. */
  ghost predicate FinalMessage(s: Submission, setup: Setup, l: Limits, w: World, groups: seq<Group>, f: Submission) {
    if SetupFails(s.language, setup) then
      f == s.(verdict := SystemError, message := f.message)
    else if CompileFails(s.language, setup) then
      f == s.(verdict := CompilationError, message := setup.compiler.resp.stderr)
    else if AllRan(w, groups) then
      exists sorted, arr :: Arranged(groups, sorted, arr) && f == Filled(s, Summary(w, l, arr))
    else
      f == s.(verdict := SystemError, message := f.message)
  }

  /** Every message but the first is final: no branch ends with PENDING or JUDGING. */
  lemma FinalMessageIsTerminal(s: Submission, setup: Setup, l: Limits, w: World, groups: seq<Group>, f: Submission)
    requires FinalMessage(s, setup, l, w, groups, f)
    ensures Terminal(f.verdict) && f.id == s.id
    ensures f.verdict.CompilationError? <==> CompileFails(s.language, setup)
    ensures f.verdict.Accepted? ==> !SetupFails(s.language, setup) && forall g :: g in groups ==> GroupPasses(w, l, g)
  {
    if !SetupFails(s.language, setup) && !CompileFails(s.language, setup) && AllRan(w, groups) {
      var sorted, arr :| Arranged(groups, sorted, arr) && f == Filled(s, Summary(w, l, arr));
      FilledIsTerminal(s, l, w, groups, sorted, arr);
    }
  }

  /** Which number goes into which field of the message about a submission all of whose tests ran. */
  lemma ScoredMessage(s: Submission, setup: Setup, l: Limits, w: World, groups: seq<Group>, f: Submission)
    requires FinalMessage(s, setup, l, w, groups, f)
    requires !SetupFails(s.language, setup) && !CompileFails(s.language, setup) && AllRan(w, groups)
    ensures f.id == s.id && f.language == s.language && f.message == s.message
    ensures f.score == SumSeq(groups, PointsOf(w, l))
    ensures f.testsPassed == SumSeq(groups, PassedIn(w, l)) && f.testsTotal == SumSeq(groups, SizeOf())
    ensures f.verdict.Accepted? <==> forall g :: g in groups ==> GroupPasses(w, l, g)
    ensures !f.verdict.Accepted? ==> EarliestFailure(w, l, groups, f.verdict)
    ensures Largest(w, l, groups, f.cpuTime, f.memory) && ResultsOf(w, l, groups, f.results)
  {
    var sorted, arr :| Arranged(groups, sorted, arr) && f == Filled(s, Summary(w, l, arr));
    SummaryCounts(w, l, groups, sorted, arr);
    SummaryVerdict(w, l, groups, sorted, arr);
    SummaryMaxima(w, l, groups, sorted, arr);
    SummaryResults(w, l, groups, sorted, arr);
  }

  lemma FilledIsTerminal(s: Submission, l: Limits, w: World, groups: seq<Group>, sorted: seq<Group>, arr: seq<Group>)
    requires Arranged(groups, sorted, arr)
    ensures var v := Filled(s, Summary(w, l, arr)).verdict;
      && Terminal(v) && !v.CompilationError?
      && (v.Accepted? ==> forall g :: g in groups ==> GroupPasses(w, l, g))
  {
    VerdictAccepted(w, l, groups, sorted, arr);
    FirstBadIsFinal(w, l, Tests(arr));
  }

  /**
   processJobWithPublisher, where said and published tell how the two publishes turn out. Whatever happens, the job
   leads to at most one JUDGING message and then at most one final one, in that order; the handler fails exactly when
   the final message could not be published, except that a compile error is never a failure.
   */
  method ProcessJob(outbox: Outbox, s: Submission, setup: Setup, l: Limits, w: World, groups: seq<Group>,
                    said: bool, published: bool)
    returns (failed: bool, ghost f: Submission)
    modifies outbox
    ensures outbox.sent
       == old(outbox.sent) + (if said then [s.(verdict := Judging)] else []) + (if published then [f] else [])
    ensures FinalMessage(s, setup, l, w, groups, f)
    ensures failed <==> !published && !CompileFails(s.language, setup)
  {
    outbox.Publish(s.(verdict := Judging), said);
    if SetupFails(s.language, setup) {
      f := s.(verdict := SystemError, message := "cannot set up the run");
      outbox.Publish(s.(verdict := SystemError, message := "cannot set up the run"), published);
      return !published, f;
    }
    if NeedsCompiler(s.language) && !Compiles(setup.compiler) {
      f := s.(verdict := CompilationError, message := setup.compiler.resp.stderr);
      outbox.Publish(s.(verdict := CompilationError, message := setup.compiler.resp.stderr), published);
      return false, f;
    }
    var j;
    ghost var sorted, arr;
    j, sorted, arr := RunTests(w, l, groups);
    var last := if j.Scored? then Filled(s, j) else s.(verdict := SystemError, message := j.message);
    f := last;
    outbox.Publish(last, published);
    failed := !published;
  }
}
