# JJudge: verified model of the judge's core

JJudge is an online judge. An API server stores submissions and queues them as jobs, workers run each job in the `lime`
sandbox and score it, and results travel back through a second queue to the database and the contest standings. This
project models those parts and proves what they keep.

| area | files |
|---|---|
| judging pipeline: create, rejudge, queues, workers, result consumer | `Pipeline.dfy`, `Services.dfy`, `Worker.dfy`, `Delivery.dfy`, `Verdicts.dfy` |
| scoring loop and report | `Scoring.dfy`, `LimeReport.dfy`, `Grader.dfy` |
| sandbox: bootstrap handshake, I/O threads, timeout, system call filter | `Handshake.dfy`, `PipeIO.dfy`, `PipeThreads.dfy`, `Timeout.dfy`, `Seccomp.dfy` |
| contest standings | `Standings.dfy`, `Leaderboard.dfy` |
| testcase cache | `Lru.dfy`, `LruCache.dfy`, `TestcaseFetch.dfy`, `TestcaseCache.dfy` |
| sandbox slots | `CpuSet.dfy`, `SlotPool.dfy` |
| testcase archives and their storage | `Filename.dfy`, `Archive.dfy`, `Ingest.dfy`, `ProblemStore.dfy`, `ProblemRoundTrip.dfy` |
| blog slugs | `Slugs.dfy` |
| shared | `Options.dfy`, `Text.dfy`, `Sorting.dfy`, `Distinct.dfy`, `MapSums.dfy` |

`dafny verify dfyconfig.toml` checks everything.

## How it is modelled

Code that changes state is imperative Dafny: a class with the fields of the original, or a method with its loops, proved
against a function or a predicate about which the lemmas speak. Concurrency (the pipeline, the handshake, the I/O
threads, the slot pool) is a state machine whose events are the atomic steps; the lemmas hold for every sequence of
events. The outside world is a parameter: a test's execution, the results of system calls, the polls of a wait, the
bytes a read returns, which steps of a call fail; contracts say for every choice of these when the call succeeds. Go's
integer conversions are written out where they can wrap.

`Services.dfy` ties the two views of the pipeline together: each method of `Platform` is a run of the transition system
of `Pipeline.dfy`, which it records. The contracts of `Platform` describe a call that runs alone; what happens when the
steps of several calls are interleaved is proved in `Pipeline.dfy` for every run. `Delivery.dfy` does the same for a
worker's handler: what `ProcessJob` in `Worker.dfy` does with a submission is a run of that system.

## What the proofs found

Where a property does not hold of the code, the exact condition under which it does is proved instead.

* A row stays PENDING or JUDGING at quiescence exactly when one of four events lost it, and nothing rescued it since
  (`Pipeline.StuckIffLost`): a compile-error result whose publish error is ignored, a rejudge whose publish fails after
  the reset, a create whose compensating delete of the row fails with the error dropped, and a JUDGING result that is
  requeued behind the terminal one. A run for each shows that it happens. A rescue can also be a worker that dies after
  reporting and before its acknowledgement, because the job is then delivered again.
* A row ends with what the latest step that decided about it said (`Pipeline.ShowsLatestVerdict`). A rejudge's reset is
  no such step while a result of the earlier judging is still on its way: that result overwrites it.
* A rejudge can leave a queued job without its row or its artifact in two ways: when it runs during a create that then
  fails (`Pipeline.RejudgeRacesCreate`), and at any time after a create whose artifact was not stored or was removed
  again and whose compensating delete of the row failed (`Pipeline.RejudgeAfterFailedUndo`,
  `Pipeline.RejudgeAfterRemovedArtifact`). Requeueing a row is safe exactly when the row and its artifact are stored and
  no create of the row is still running (`Pipeline.RequeueIsSafeIffSettled`).
* In `io_start`, when the stderr reader cannot be started the parent and the child wait for each other for good, unless
  the stdout reader that is joined has given up by itself and the stdin thread can end; when the stdout reader cannot be
  started they do exactly if the input is larger than the pipe and the stdin thread has not given up. The parent also
  waits for good when the child dies without a word before 'B', because it keeps the child's end of the socket open. A
  run from the start shows each of the three hangs (`Handshake.SilentDeathHappens`, `StdoutHangHappens`,
  `StderrHangHappens`).
* A failed `execve` does not make `handle_run` fail (`Handshake.FailedExecRun`): the child ends with code 1, and the
  parent takes that for the end of the program.
* A submission as it is inserted lowers no total, but one to a problem solved before costs its user 20 minutes of ICPC
  penalty at once (`Standings.NewRowLowersNothing`). Its verdict lowers the IOI total exactly when its score and the
  scores of all the user's other submissions to the problem are negative (`Standings.WhenJudgingLowers`). A rejudge
  takes a problem off the solved count until the new verdict arrives exactly when the reset row is the only accepted
  one (`Standings.WhenResetUnsolves`).
* A timeout kill can come early exactly when the limit exceeds 2147483647 ms.
* Hits of the testcase cache do not count as uses. With room for one file, a test with two new files always loses its
  input; a hit can also be lost when the output file is new (`TestcaseFetch.FetchPair`). A file truncated by a failed
  write is served as it is by all later calls, and nothing ever removes it (`TestcaseFetch.TruncatedFileIsServed`).
* Output with a zero byte reaches the response only up to that byte.
* `uniqueSlug` gives a proper slug exactly when the input or the title has a word; otherwise the empty text or a text
  starting with a dash is stored (`Slugs.FoundIsSlug`, `Slugs.WordlessTitle`).
* A comment in `lime/src/io.c` (line 57) says that a write of 0 bytes is treated as done; the loop tries again, and the
  model follows the loop.
* An accepted submission is within its limits even where the conversion of milliseconds to microseconds wraps.
* The "token" grader accepts exactly what the "string" grader accepts.

## Model

| member | source | states |
|---|---|---|
| Pipeline.ConsumeKeepsUpcoming | apiserver/internal/server/server.go:131-153 | consuming the oldest result changes no row's upcoming verdict, the one it shows after all results: the last write wins |
| Pipeline.NackChangesUpcoming | apiserver/internal/mq/rabbitmq.go:113-131 | requeueing the oldest result behind k others changes the upcoming verdict of its row exactly when it becomes the last one about that row |
| Pipeline.StuckStep | worker/internal/worker/processor.go:237-263 | for every step: a row becomes stuck (not terminal, nobody owes it a result) iff the step is one of the four losing ones, and stops being stuck iff the step rescues it |
| Pipeline.StuckIffLost | apiserver/internal/services/contest.go:239-271 | over whole runs: a row is stuck iff some earlier step lost it and none rescued it since |
| Pipeline.EveryRowIsJudged | worker/internal/worker/worker.go:46-82 | at quiescence a stored row shows a terminal verdict iff no step lost it without a later rescue |
| Pipeline.VerdictsArePublished | worker/internal/worker/processor.go:234-263 | along every run, each final verdict a row shows or a message carries was published by an earlier step about that row |
| Pipeline.UpcomingStep | apiserver/internal/server/server.go:131-153 | how exactly each step changes what a row will show: by a published message about it, a message requeued behind all others about it, or a reset while no message about it is on its way |
| Pipeline.UpcomingIsLatest | apiserver/internal/server/server.go:131-153 | along every run, what a row will show is what the latest such step said, PENDING if there was none |
| Pipeline.ShowsLatestVerdict | apiserver/internal/server/server.go:131-153 | at quiescence every row shows what the latest such step said, and a final verdict was published about it |
| Pipeline.SomeStepProgresses | worker/internal/mq/rabbitmq.go:105-124 | while anything is queued, delivered, undelivered or running, some step of the normal course is possible |
| Pipeline.ProgressUsesWork | worker/internal/mq/rabbitmq.go:105-124 | each such step uses up work, so the pipeline cannot run forever without new calls or failures |
| Pipeline.Drains | apiserver/internal/server/server.go:131-153 | from every state some run of the normal course leads to quiescence without losing a row |
| Pipeline.OrderlyStep | apiserver/internal/services/submission.go:64-97 | every step keeps: queued and delivered jobs refer to a stored row with its artifact, given requeues of settled rows only |
| Pipeline.JobsAlwaysBacked | apiserver/internal/services/submission.go:64-97 | over every run from an orderly state in which rejudges requeue settled rows only, every queued or delivered job has its row and its artifact |
| Pipeline.JobsBackedFromStart | apiserver/internal/services/contest.go:195-228 | so they do along every such run from the start |
| Pipeline.RequeueIsSafeIffSettled | apiserver/internal/services/contest.go:239-271 | a rejudge may requeue a row without a job ever lacking its row or artifact iff the row and its artifact are stored and no create of the row is still running |
| Pipeline.RejudgeRacesCreate | apiserver/internal/services/contest.go:195-271 | a run in which a rejudge during a failing create leaves a job without row and artifact |
| Pipeline.RejudgeAfterFailedUndo | apiserver/internal/services/contest.go:205-271 | a run in which the row of a create that stored no artifact outlives its compensating delete, and a later rejudge queues a job without an artifact |
| Pipeline.RejudgeAfterRemovedArtifact | apiserver/internal/services/contest.go:223-271 | the same with an artifact that was stored and removed again by the compensation |
| Pipeline.CompileErrorIsLost | worker/internal/worker/processor.go:256-261 | a run in which the ignored publish error of a compile error leaves a row JUDGING |
| Pipeline.RejudgeIsLost | apiserver/internal/services/contest.go:255-271 | a run in which a rejudge whose publish fails leaves a row PENDING |
| Pipeline.FailedUndoIsLost | apiserver/internal/services/submission.go:70-97 | a run in which the dropped error of the compensating delete leaves a row PENDING |
| Pipeline.OvertakenResultIsLost | apiserver/internal/server/server.go:143-146 | a run in which a requeued JUDGING result overwrites the terminal verdict |
| Services.Platform.CreateAndEnqueue | apiserver/internal/services/submission.go:51-100 | it succeeds iff the row, the artifact and the job can all be stored; row, artifact and job are then all there, else all undone as far as the compensating deletes succeed; it is a run of the transition system |
| Services.Platform.Undo | apiserver/internal/services/contest.go:205-224 | compensation: the artifact, then the row; exactly those whose delete fails are left |
| Services.Platform.RejudgeProblem | apiserver/internal/services/contest.go:233-274 | it succeeds iff every reset and every publish works; the rows handled so far are PENDING with one more job each, and on an error at most one row is reset without a job |
| Services.Platform.HandleJob | worker/internal/worker/processor.go:78-245 | one delivery: JUDGING message, final message, and acknowledgement iff the final one is published or compiling fails, as the recorded turn |
| Services.Platform.ConsumeResult | apiserver/internal/server/server.go:134-148 | a stored row takes the verdict iff the database answers, a missing one is dropped, a database error requeues the message and changes no row |
| Worker.ProcessJob | worker/internal/worker/processor.go:78-245 | at most one JUDGING message, then at most one final one; the handler fails iff the final one is not published, except for compile errors |
| Worker.FinalMessageIsTerminal | worker/internal/worker/processor.go:248-303 | the final message is terminal, a compile error iff compiling fails, and accepted only if every test of every group passes |
| Worker.CompilesMeans | worker/internal/worker/processor.go:248-263 | a compiler run counts as clean iff it ran, exited with 0 and no signal, and kept its limits |
| Worker.SetupMeans | worker/internal/worker/processor.go:84-116 | a submission fails in the setup iff the directory or the source cannot be written, the language is neither C++ nor Python, or the compiler cannot run; it is a compile error iff it is C++, the rest of the setup works, and the compiler run is not clean |
| Worker.ScoredMessage | worker/internal/worker/processor.go:232-245 | the final message of a scored submission carries verdict, score, counts, maxima and results of its summary |
| Delivery.ProcessJobIsTurn | worker/internal/worker/processor.go:78-245 | what the handler does with a job is one turn of the pipeline's worker: the results queue gets exactly the messages it sends, and the job is requeued iff it fails |
| Delivery.TurnRuns | worker/internal/mq/rabbitmq.go:105-124 | a turn is possible whenever the job is queued and the worker free, and ends with the job gone or requeued and the published messages at the end of the results queue |
| Scoring.RunTests | worker/internal/worker/processor.go:119-230 | the nested loops equal the summary of the groups and tests in ordinal order when every test ran, and otherwise report an infrastructure error |
| Scoring.RunGroup | worker/internal/worker/processor.go:151-224 | the inner loop keeps the accumulators in step with the tests executed, and tells whether the whole group passed |
| Scoring.Record | worker/internal/worker/processor.go:184-221 | one result updates counters, maxima, the kept verdict and the list of results |
| Scoring.SummaryCounts | worker/internal/worker/processor.go:132-230 | score is the sum of the points of groups all of whose tests pass, counts are sums over the groups as given, in any order |
| Scoring.SummaryVerdict | worker/internal/worker/processor.go:195-236 | accepted iff all tests of all groups pass, otherwise the verdict of the earliest failure in ordinal order |
| Scoring.CountsAndVerdict | worker/internal/worker/processor.go:232-236 | the counters are equal iff no bad verdict was kept iff all tests pass |
| Scoring.MaximaOf | worker/internal/worker/processor.go:186-193 | the maxima bound all tests and are attained, or 0 |
| Scoring.PassesMeans | worker/internal/worker/processor.go:266-289 | a test passes iff it ran within both limits, exited normally and its output is the expected one, also for limits that wrap |
| Scoring.PassesWithin | worker/internal/worker/processor.go:172-289 | in the milliseconds of the limit: while 1000 times it fits, a test passes iff it ran, exited with 0 and no signal, its CPU and wall time are at most 1000 microseconds per millisecond, its memory is at most the limit, and its output is the expected one; a limit of 0 is none |
| Scoring.VerdictMeans | worker/internal/worker/processor.go:266-289 | which of the failing verdicts a test gets: over the time, over the memory, a crash, or a wrong answer, in that order |
| Scoring.ResultFields | worker/internal/worker/processor.go:202-217 | which number and text goes into which field of a result: id, whole milliseconds, bytes, and the first 200 characters of the texts that are shown |
| Scoring.SummaryMaxima | worker/internal/worker/processor.go:186-193 | the maxima of a submission are the largest CPU time and memory among the tests executed, attained by one of them, or 0 |
| Scoring.SummaryResults | worker/internal/worker/processor.go:202-217 | the list of results has one for each test of the groups |
| Scoring.AcceptedWithinLimits | worker/internal/worker/processor.go:172-193 | an accepted submission has CPU time and memory within its positive limits, also where the limit in microseconds wraps |
| Scoring.OutcomeIgnoresOrder | worker/internal/worker/processor.go:119-148 | with distinct ordinals the whole outcome is the same for any listing of groups and tests and any sort |
| LimeReport.ReportFromResponse | worker/internal/lime/report.go:27-47 | exactly which response gets which status, a limit of 0 being none; times, memory and outputs are passed on |
| LimeReport.WrapsBack | worker/internal/worker/processor.go:175-193 | converting an int64 to uint64 and back gives it again, and a non-negative one does not change on the way |
| LimeReport.WallKillIsTimeLimit | worker/internal/lime/lime.go:85-122 | a program that used up its wall time of twice the limit is always over the time limit, iff there is a limit and doubling it does not wrap |
| Grader.GradeTokenMatching | grader/main.go:22-37 | accepts exactly the equal strings, as the string grader does |
| Grader.Grade | grader/main.go:39-52 | both known graders accept exactly the equal strings; other names are errors |
| Text.JoinSplit | grader/main.go:23-24 | joining the pieces of a split gives the text back |
| Text.SplitJoin | worker/internal/lime/allocator.go:130 | splitting joined pieces without the separator gives the pieces back |
| Handshake.BootstrapIsSafe | lime/src/run.c:191-291 | in every interleaving: setresuid only after 'A', execve only after uid maps, cgroup and I/O threads, the parent never finishes before the child is dead or has been killed |
| Handshake.InvStep | lime/src/run.c:908-1117 | every step of either process, successful or not, keeps the invariant on modes, steps and bytes in flight |
| Handshake.StalledExactly | lime/src/run.c:1452-1469 | both processes are blocked for good iff the child died silently before 'B', or io_start joins a thread that waits for the child and has not given up |
| Handshake.SilentDeathHappens | lime/src/run.c:175-222 | a run from the start in which the child is killed before it speaks and the parent reads for good |
| Handshake.LostXHappens | lime/src/run.c:175-222 | the same when the child's first step fails and its 'X' is lost |
| Handshake.NeverStalls | lime/src/run.c:175-291 | without an outside kill, a lost 'X' or a thread that cannot be started while a started one cannot end, no reachable unfinished state is blocked |
| Handshake.ResultMeans | lime/src/run.c:293-365 | over every run: handle_run succeeds iff its wait for the child ended, by an exit or by the timeout; the child had bootstrapped by then |
| Handshake.UndisturbedRun | lime/src/run.c:191-365 | a run from the start in which nothing fails, and it ends in success |
| Handshake.OverdueRun | lime/src/run.c:300-320 | the same up to execve, then the timeout: the program is killed, and that is a success |
| Handshake.InputIsRead | lime/src/io.c:38-64 | a run in which the program reads an input of any length through a pipe of any capacity |
| Handshake.FailedBootRun | lime/src/run.c:212-225 | for each step of the child's bootstrap after 'A', a run in which only it fails: the parent reads the 'X', kills the child and fails |
| Handshake.FailedExecRun | lime/src/run.c:1111-1114 | a run in which only execve fails: the child ends without an 'X', and handle_run succeeds |
| Handshake.SaysXBeforeExec | lime/src/run.c:1040-1107 | over every run: the child reports a failure with 'X' only before execve, and one of the filter only if there is a filter |
| Handshake.ThreadsAreJoined | lime/src/io.c:89-145 | over every run: when the parent returns it has joined exactly the I/O threads it had started |
| Handshake.StepsAreBounded | lime/src/run.c:191-320 | every event brings the bootstrap closer to its end |
| Handshake.RunsAreBounded | lime/src/run.c:191-320 | no run is longer than that distance |
| Handshake.StdoutThreadFailure | lime/src/io.c:103-112 | when the stdout reader cannot be started the sandbox gets out by itself iff the input fits the pipe or the stdin thread has given up |
| Handshake.StderrThreadFailure | lime/src/io.c:115-124 | when the stderr reader cannot be started it does iff, besides, the stdout reader has given up |
| Handshake.HungForever | lime/src/io.c:103-124 | otherwise the hang persists in every run in which neither a kill nor a failure of the child or of a thread intervenes |
| Handshake.JoinFinishes | lime/src/io.c:106-112 | when the joined threads can end, the writer fills the pipe or stops and the parent gets to kill the child |
| Handshake.StdoutHangHappens | lime/src/io.c:103-112 | for each input larger than the pipe, a run from the start in which only the stdout reader cannot be started, and both processes hang |
| Handshake.StderrHangHappens | lime/src/io.c:115-124 | a run from the start in which only the stderr reader cannot be started, and both processes hang |
| PipeIO.ReadAllFromFd | lime/src/utils.c:73-102 | the buffer is given iff no read failed and no request for memory was refused; for any chunking it holds exactly all bytes and a zero, in at most max(4096, 2(n+1)) bytes; each request is for at least 1 byte, as the reads demand |
| PipeIO.ZeroBytesCutOff | lime/src/utils.c:100-101 | the caller sees what is before the first zero byte, hence the whole output iff there is none |
| PipeIO.StdinWriter | lime/src/io.c:38-64 | for any short writes and interruptions a prefix is sent, all of it iff there is no error; the error is the one a write reported, and the descriptor is closed |
| PipeThreads.RunConserves | lime/src/io.c:38-75 | in every interleaving no byte of the three streams is lost, doubled or reordered, and no pipe exceeds its capacity |
| PipeThreads.SomeThreadMoves | lime/src/run.c:258-277 | while the child reads an empty pipe or has a write that does not fit whole into its pipe, or is gone and the threads are not, some thread can move |
| PipeThreads.ThreadsTakeWork | lime/src/io.c:130-145 | every step of a thread uses up work, so io_wait ends |
| PipeThreads.AllIsCollected | lime/src/io.c:130-165 | after io_wait each stream holds all that was written to it unless its reader failed |
| PipeThreads.UndisturbedRun | lime/src/io.c:38-145 | for every pipe, input and output texts, a run in which the child reads all its input, all it writes arrives, and the threads end |
| Timeout.TimeoutMsIsCeiling | lime/src/run.c:805-807 | timeout_ms fits an int, nothing overflows, and up to the clamp it is the exact ceiling |
| Timeout.WaitpidWithTimeout | lime/src/run.c:761-874 | when it kills; without a kill it succeeds iff the child was reaped with an exit or a signal, which is then the status; after a kill status and timeout are those of the wait, also when the wait fails; and the wall time |
| Timeout.NeverKilledEarly | lime/src/run.c:809-822 | up to the clamp the child is never killed before its time is over |
| Timeout.CanBeKilledEarly | lime/src/run.c:805-822 | an early kill is possible iff the limit is above the clamp |
| Timeout.KilledInTime | lime/src/run.c:809-822 | although interruptions restart the poll, the kill comes before 2 timeout + 1000 us + 2 slack |
| Timeout.KilledHasUsedItsTime | lime/src/run.c:809-874 | up to the clamp, a run that was killed reports at least its timeout as wall time |
| Seccomp.FilterIsExact | lime/src/seccomp.c:14-233 | for every list: allowed iff the architecture is x86-64 and the number is in the list, else killed |
| Seccomp.FilterIsWellFormed | lime/src/seccomp.c:22-233 | the program has 2n + 5 instructions and passes the kernel check (loads of whole words of the data, jumps inside, a return last, at most 4096 instructions) iff the list has at most 2045 calls |
| Seccomp.WellFormedDecides | lime/src/seccomp.c:14 | a well-formed program always ends with an action: the program counter only grows |
| Seccomp.ChainDecides | lime/src/seccomp.c:14 | from entry i on, the pairs of instructions allow exactly the rest of the list |
| Seccomp.OrderIsIrrelevant | lime/src/seccomp.c:200-217 | order and repetitions in the list do not matter |
| Standings.BestScoreIsMaximum | apiserver/internal/store/contest.go:592 | the best score is the maximum over the user's submissions to the problem |
| Standings.FirstAcceptIsMinimum | apiserver/internal/store/contest.go:593-595 | the earliest accepted submission is the minimum, and there is one iff some submission is accepted |
| Standings.AttemptsAreCounted | apiserver/internal/store/contest.go:591 | attempts counts the user's submissions to the problem |
| Standings.PenaltyOfSolved | apiserver/internal/services/contest.go:318-324 | the penalty of a solved problem is the whole seconds up to the earliest accepted submission, and 20 minutes for each of the user's submissions to it but one |
| Standings.IcpcTotalIsSolvedCount | apiserver/internal/services/contest.go:325-327 | the ICPC total is the number of solved problems |
| Standings.OthersUnchanged | apiserver/internal/store/contest.go:588-600 | a submission leaves the totals and penalties of other users as they were |
| Standings.OwnerTotalIoi | apiserver/internal/services/contest.go:328-329 | how exactly a submission changes its user's IOI total |
| Standings.OwnerTotalIcpc | apiserver/internal/services/contest.go:325-327 | how exactly it changes the solved count |
| Standings.OwnerPenalty | apiserver/internal/services/contest.go:318-324 | how exactly it changes the penalty, including 20 minutes for each submission after the first accepted one |
| Standings.WhenTotalsDrop | apiserver/internal/services/contest.go:316-330 | an added row of any verdict and score never lowers the solved count, and would lower the IOI total only with a negative score, which no inserted row has |
| Standings.NewRowLowersNothing | apiserver/internal/handlers/contest.go:650-657 | a row as it is inserted, PENDING with score 0, lowers nobody's totals and solves nothing; it raises the IOI total iff all the user's scores for the problem are negative, and costs 20 minutes at once iff the problem is solved |
| Standings.WhenUpdateLowers | apiserver/internal/store/contest.go:483-511 | an update lowers the IOI total iff the row alone had the best score and gets a smaller one, and the solved count iff the row was the only accepted one and is not any more |
| Standings.WhenJudgingLowers | apiserver/internal/store/contest.go:483-511 | the verdict on a row with score 0 lowers the IOI total iff its score and those of all the user's other rows for the problem are negative; on a new row it never lowers the solved count |
| Standings.UpdateLeavesOthers | apiserver/internal/store/contest.go:483-511 | a new verdict and score of a stored row leave the totals and penalties of other users as they were |
| Standings.UpdateMovesOwner | apiserver/internal/store/contest.go:483-511 | they move the totals of the row's user by the change of the summand of the row's problem |
| Standings.UpdatedTotals | apiserver/internal/store/contest.go:483-511 | how exactly they change the IOI total and the solved count, from the user's other rows for the problem |
| Standings.UpdatedPenalty | apiserver/internal/store/contest.go:483-511 | how exactly they change the penalty: the attempts count as before, the first accepted submission may move |
| Standings.WhenResetUnsolves | apiserver/internal/services/contest.go:239-255 | the reset of a rejudge takes the problem off the solved count iff the row is the only accepted one, and never adds one |
| Standings.WhenResetMovesPoints | apiserver/internal/services/contest.go:239-255 | it lowers the IOI total iff the row alone has the best score and that is positive, and raises it iff all scores for the problem are negative |
| Leaderboard.GetLeaderboard | apiserver/internal/services/contest.go:279-374 | whatever the order of rows, maps and ties: one entry per submitting user, the specified totals, penalties and results, and rank 1 + the number of users strictly above |
| Leaderboard.GroupByUser | apiserver/internal/services/contest.go:285-304 | the rows grouped by user and problem, none lost |
| Leaderboard.GroupsMatch | apiserver/internal/services/contest.go:285-304 | grouping the aggregate gives each submitting user exactly the problems attempted |
| Leaderboard.BuildEntry | apiserver/internal/services/contest.go:307-336 | totals and results of a user are sums over the problems, in any order of visiting |
| Leaderboard.AddProblem | apiserver/internal/services/contest.go:314-334 | one problem adds its gain, its penalty and its result |
| Leaderboard.AssignRanks | apiserver/internal/services/contest.go:354-371 | on a sorted list each rank is 1 + the number of entries strictly better, so equal entries share a rank |
| Leaderboard.BetterEntriesAreUsersAbove | apiserver/internal/services/contest.go:340-371 | counting better entries is counting users above by the specification |
| Leaderboard.RankIgnoresOrder | apiserver/internal/services/contest.go:340-352 | the rank does not depend on how an unstable sort arranges ties |
| LruCache.List.Unlink | worker/internal/tccache/lru.go:55-63 | a node leaves the ring, the others keep their order |
| LruCache.List.LinkFront | worker/internal/tccache/lru.go:43-44 | a node becomes the first of the ring |
| LruCache.List.MoveToFront | worker/internal/tccache/lru.go:27-33 | a node becomes the first, the others keep their order |
| LruCache.LRUCache.constructor | worker/internal/tccache/lru.go:18-25 | an empty cache |
| LruCache.LRUCache.Get | worker/internal/tccache/lru.go:27-33 | the value of the key, which becomes the most recently used one; a miss changes nothing |
| LruCache.LRUCache.Put | worker/internal/tccache/lru.go:35-53 | the contents and the keys reported are those of the specification: update and use, or insert and evict the last |
| LruCache.LRUCache.Delete | worker/internal/tccache/lru.go:55-63 | the key leaves and is reported, if it was there |
| LruCache.LRUCache.Clear | worker/internal/tccache/lru.go:65-73 | all keys leave, each reported once |
| Lru.RunIsByLastUse | worker/internal/tccache/lru.go:27-73 | over every run: distinct keys ordered by last Get or Put, each with the value of its last Put, within max(capacity, 0) |
| Lru.EvictsLeastRecent | worker/internal/tccache/lru.go:46-52 | the evicted key is the one whose last use is oldest; without capacity it is the new one |
| Lru.StepBalances | worker/internal/tccache/lru.go:35-73 | each operation: keys before and the one added are the keys after and those reported |
| Lru.RunBalances | worker/internal/tccache/lru.go:27-73 | over every run onDelete gets each key exactly as often as it came in and did not stay |
| TestcaseCache.TestcaseCache.GetOrFetch | worker/internal/tccache/tccache.go:51-79 | files, LRU and success are those of the specification, for every failure on the way |
| TestcaseFetch.RunAgrees | worker/internal/tccache/tccache.go:25-79 | along every run, the files are the strays and, disjointly, the LRU's keys |
| TestcaseFetch.FilesAreBounded | worker/internal/tccache/tccache.go:25-79 | there are never more other files than the capacity |
| TestcaseFetch.RunStoresInOrder | worker/internal/tccache/tccache.go:51-79 | the LRU lists its keys by the time of storing, and each file holds the object as it was then |
| TestcaseFetch.EvictsFirstStored | worker/internal/tccache/tccache.go:53-55 | eviction is in the order of storing, since hits are answered by the file system |
| TestcaseFetch.StrayStays | worker/internal/tccache/tccache.go:25-79 | over every run: a file no LRU entry stands for is never removed or replaced |
| TestcaseFetch.FileIsThere | worker/internal/tccache/tccache.go:77-78 | after a successful call the file is there unless it was just stored without capacity |
| TestcaseFetch.FetchPair | worker/internal/worker/processor.go:156-172 | after fetching a and then b, a's file is gone iff b had to be stored while the LRU was full with a as the oldest |
| TestcaseFetch.ColdPairNeedsTwo | worker/internal/worker/processor.go:156-172 | when both are new, the input survives iff the capacity is above 1 |
| TestcaseFetch.TruncatedFileIsServed | worker/internal/tccache/tccache.go:53-75 | over every run: a file cut short by a failed write stays as it is whatever calls follow, and every later call for it succeeds without a fetch; it is the object iff the write had got through |
| CpuSet.ParseCPUSet | worker/internal/lime/allocator.go:124-170 | the parser equals its specification: all CPUs in order, or none when a part is malformed |
| CpuSet.MalformedPart | worker/internal/lime/allocator.go:137-162 | one malformed part spoils the set |
| CpuSet.ParsePrint | worker/internal/lime/allocator.go:124-170 | a printed set of CPUs and of ranges that end below the largest integer parses to exactly its CPUs |
| SlotPool.Pool.constructor | worker/internal/lime/allocator.go:26-37 | the options in order, and a default CPU set when none made the channel |
| SlotPool.Pool.FillChannel | worker/internal/lime/allocator.go:51-83 | the channel holds one slot per CPU: slot i has the i-th CPU, the memory nodes in turn, and the i-th UID after the base, or 0 without one |
| SlotPool.SlotsFill | worker/internal/lime/allocator.go:51-83 | slot i has the i-th CPU, the memory nodes in turn, and the i-th UID after the base, or 0 without one |
| SlotPool.UidsAreDistinct | worker/internal/lime/allocator.go:70-79 | as many slots as CPUCount says, with distinct UIDs iff a base is set or there is at most one |
| SlotPool.OrderOfOptions | worker/internal/lime/allocator.go:26-45 | for every list of options: the slots are those of the last CPU set, with the last UID base set before it, or 0 |
| SlotPool.NoChannelYet | worker/internal/lime/allocator.go:26-37 | the options leave the default CPU set to the constructor iff none of them sets the CPUs |
| SlotPool.StepConserves | worker/internal/lime/allocator.go:101-122 | each atomic step of Allocate and Release keeps free and taken slots in balance |
| SlotPool.RunConserves | worker/internal/lime/allocator.go:101-122 | in every interleaving, free slots and slots out are exactly the initial ones |
| SlotPool.SendNeverBlocks | worker/internal/lime/allocator.go:121 | the send in Release always finds room |
| SlotPool.WaitsWhileAllAreOut | worker/internal/lime/allocator.go:101-108 | Allocate waits iff as many allocations are out as there are slots |
| SlotPool.AllReturned | worker/internal/lime/lime.go:62-66 | the pool is as it was iff every allocation was released |
| SlotPool.NoSlotIsShared | worker/internal/lime/allocator.go:101-122 | different initial slots are never out twice, or out and free |
| SlotPool.LiveUidsDiffer | worker/internal/lime/allocator.go:70-79 | with a base, programs running at the same time have different UIDs |
| SlotPool.ReturnedForGood | worker/internal/lime/allocator.go:114-122 | a second release changes nothing |
| SlotPool.TakeThenRelease | worker/internal/lime/allocator.go:101-122 | Allocate takes the slot at the head of the channel, and Release puts it at the end |
| SlotPool.TakesInTurn | worker/internal/lime/allocator.go:101-122 | a run of n programs one after the other: they get the initial slots in order, and then each the slot longest unused |
| Filename.ParsePrint | apiserver/internal/services/testcase_bundle.go:339-359 | the filename parser inverts printing |
| Filename.ParseNameMeans | apiserver/internal/services/testcase_bundle.go:339-359 | which names are accepted, and what for: a number, the first underscore, a number, the last dot, and in or out in any case of letters |
| Filename.KeysDiffer | apiserver/internal/services/testcase_bundle.go:164-165 | different files of a problem have different storage keys |
| Filename.KeyOfOutput | apiserver/internal/services/testcase_bundle.go:164-165 | an example of a storage key |
| Text.AtoiItoa | apiserver/internal/services/testcase_bundle.go:353-354 | a printed number reads back |
| Text.AtoiMeans | apiserver/internal/services/testcase_bundle.go:353-354 | which texts are numbers: digits behind at most one sign with a value that fits; and the value |
| Text.LeadingZero | apiserver/internal/services/testcase_bundle.go:353-354 | leading zeros do not change a value |
| Text.TrimSpaceMeans | worker/internal/lime/allocator.go:125-146 | what is dropped at both ends is white space, and none is left there |
| Text.TrimsAround | worker/internal/lime/allocator.go:125-146 | blanks, tabs and line ends around a text are dropped, and no printing character is |
| Archive.ReadEntries | apiserver/internal/services/testcase_bundle.go:271-335 | the pairs hold exactly the files; it fails iff an entry is unusable or two are for the same file |
| Archive.Duplicate | apiserver/internal/services/testcase_bundle.go:305-315 | a second file for a slot makes the archive unacceptable |
| Archive.BaseNameMeans | apiserver/internal/services/testcase_bundle.go:284 | directories before a file name and a slash behind it are dropped |
| Archive.NoBaseName | apiserver/internal/services/testcase_bundle.go:284 | the base name of the empty path and of a path of slashes |
| Archive.ItemMeans | apiserver/internal/services/testcase_bundle.go:279-300 | directories are skipped; a readable entry named like a testcase file, in any directory, is that file; any other entry is unusable |
| Ingest.Consecutive | apiserver/internal/services/testcase_bundle.go:125-133 | sorting and comparing with the index tells whether the ordinals are 0..n-1 |
| Ingest.Problems.ProcessTestcasesFromZip | apiserver/internal/services/testcase_bundle.go:110-189 | it succeeds iff the archive and the ordinals are as required and every upload works; then groups and tests are numbered 0..n-1 and 0..m-1, names and points are those of the last meta with the ordinal, every file is used once and stored under its own key; nothing else in storage changes |
| Ingest.MetaDescribes | apiserver/internal/services/testcase_bundle.go:135-160 | name and points of a group are those of the last meta with its ordinal, empty and 0 if there is none |
| Ingest.Problems.UploadTests | apiserver/internal/services/testcase_bundle.go:160-182 | the tests of a subtask and their objects, in order; a failure leaves a prefix stored |
| Ingest.StoredData | apiserver/internal/services/testcase_bundle.go:164-172 | each stored object holds its own file |
| Ingest.OrderKeepsAcceptance | apiserver/internal/services/testcase_bundle.go:271-335 | reordering the entries does not change whether the archive is accepted |
| Ingest.OrderKeepsGroups | apiserver/internal/services/testcase_bundle.go:118-189 | nor the groups and the stored objects |
| ProblemStore.Regroup | apiserver/internal/store/problem.go:273-338 | the loop over the join rows: one group per id with exactly its tests in row order, by ordinal |
| ProblemStore.InsertsAdd | apiserver/internal/store/problem.go:530-562 | after the inserts each new group has exactly its own testcases, in order |
| ProblemStore.TestsOfJoin | apiserver/internal/store/problem.go:264-270 | the left join holds for each group of the problem exactly its testcases |
| ProblemRoundTrip.Store.SaveTestcaseGroups | apiserver/internal/store/problem.go:515-574 | it succeeds iff every statement works; the tables are then those after the transaction, else the old ones |
| ProblemRoundTrip.Store.GetWithTestcases | apiserver/internal/store/problem.go:257-345 | each group of the problem once, by ordinal, with its testcases by ordinal |
| ProblemRoundTrip.SaveThenRead | apiserver/internal/store/problem.go:515-574 | reading after saving gives exactly the groups saved, also empty ones, and nothing of earlier groups |
| ProblemRoundTrip.ReadsBackExactly | apiserver/internal/store/problem.go:257-345 | groups saved in order of distinct ordinals read back as they are |
| ProblemRoundTrip.OthersUntouched | apiserver/internal/store/problem.go:525-528 | saving for one problem leaves the rows of others as they were |
| ProblemRoundTrip.SavedIsOwned | apiserver/internal/store/problem.go:525-562 | saving leaves no testcase without its group: those of earlier groups go with them |
| Slugs.SlugIsItsWords | apiserver/internal/handlers/blog.go:262-268 | a slug is the words of the text in lower case joined by single dashes, hence well formed |
| Slugs.SlugChars | apiserver/internal/handlers/blog.go:262-268 | a slug has only lower-case letters, digits and dashes |
| Slugs.WordIsLowered | apiserver/internal/handlers/blog.go:262-268 | a single word of letters and digits becomes that word in lower case |
| Slugs.SlugIsFixed | apiserver/internal/handlers/blog.go:262-268 | a well-formed slug is its own slug |
| Slugs.UniqueSlug | apiserver/internal/handlers/blog.go:278-295 | the first free candidate when the store answers up to its round, a store error in the first round without an answer, or all 99 candidates taken |
| Slugs.FoundOnce | apiserver/internal/handlers/blog.go:278-295 | what the search promises leaves exactly one result for each base, set of slugs taken and failure |
| Slugs.CandidatesDiffer | apiserver/internal/handlers/blog.go:283-293 | the candidates are pairwise distinct |
| Slugs.ExhaustedNeeds99Posts | apiserver/internal/handlers/blog.go:283-294 | the search runs out only when at least 99 other posts exist |
| Slugs.SlugIsFound | apiserver/internal/handlers/blog.go:278-295 | with fewer than 99 other posts and a store that answers, a free slug is found |
| Slugs.CandidateIsSlug | apiserver/internal/handlers/blog.go:278-293 | all candidates of a base are proper slugs iff the base is not empty; those of the empty base never are |
| Slugs.FoundIsSlug | apiserver/internal/handlers/blog.go:262-295 | the slug found is a proper one iff the input or the title has a word |
| Slugs.WordlessTitle | apiserver/internal/handlers/blog.go:278-295 | a title of punctuation gives the empty slug to the first such post, and "-2" to the second |

## Left out

- AMQP, Postgres, object storage, JSON, gRPC and HTTP: publishing, updating and storing are atomic steps that may fail; connection handling, prefetch and message headers are not modelled.
- Malformed messages, which all handlers acknowledge and drop, and errors of JSON encoding.
- A crash of the API server between two steps of a create or a rejudge, and rows deleted by other handlers.
- The copying between `Submission` and `ContestSubmission` in `processContestJob`: the pipeline is one for both kinds.
- Who may call what, pagination, the web frontend, configuration and start-up.
- The text of system-error messages and logging.
- Real system calls (mounts, cgroup files, resource limits, capabilities): only their order and whether they succeed. The fifteen steps that prepare the child's root file system are one stretch of the handshake.
- Failures of `handle_run` after its wait, in reading the cgroup statistics and in building and printing the response.
- The time between SIGKILL and the child's end: the failure paths of `handle_run` send the signal and return without waiting, and the model counts the child as dead from then on.
- Descendants of the sandboxed program that keep its pipes open, and the program closing its own descriptors early.
- Early wake-ups of `poll`: it is assumed not to time out before its timeout.
- Wall clocks: time is an arbitrary sequence of delays. The clock difference in `waitpid_with_timeout` is taken not to wrap.
- Concurrent calls of the testcase cache and the LRU, which have no lock, and calls of the cache from `onDelete`. `LRUCache` methods return the keys they call `onDelete` with; the case without a hook is the same with nothing called.
- Path cleaning: cache keys are taken to name different files. `path.Base` is modelled without the special case of volume names.
- Hashing: an arbitrary function of the two files. Reading of the zip and tar formats: an archive is a list of entries, each readable or not.
- `ProcessTestcaseFiles` and `readAndValidateTestcases`, the older upload with explicit keys, whose checks add only easier members of the same kind.
- Letters outside ASCII that Unicode maps to ASCII lower case, in file extensions. `slugify` takes any mapping to lower case.
- White space beyond U+00FF in CPU sets, and a CPU range that ends at the largest integer, on which the source's loop does not end.
- Floating point: the seconds to an accepted submission are a real number, truncated as Go does.
- The error path of the leaderboard query.
- `read_all_from_stdin`, which is `read_all_from_fd` on descriptor 0.
- The prctl calls around the filter, and the preprocessor conditions on its list: the theorem is about every list.
- Ids of testcases, and time stamps, in the problem tables.
