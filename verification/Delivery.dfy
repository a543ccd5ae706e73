/** A handled job, in both views. */
module Delivery {
  import opened Verdicts
  import opened Pipeline
  import opened Services
  import Scoring
  import Worker

  // What ProcessJob sends about one job is a turn of the pipeline's worker: Worker looks at one submission and its
  // tests, Services and Pipeline at the queues.

  /** How judging ended, read off the final message. */
  function JudgementOf(s: Worker.Submission, setup: Worker.Setup, f: Worker.Submission): Judgement {
    if Worker.CompileFails(s.language, setup) then CompileFailed else Judgement.Verdict(f.verdict)
  }

  /** What the result queue carries of the messages a worker sends. */
  function Messages(sent: seq<Worker.Submission>): seq<Result> {
    seq(|sent|, i requires 0 <= i < |sent| => Result(sent[i].id, sent[i].verdict))
  }

  /** The messages ProcessJob sends: JUDGING and the final one, as far as they can be published. */
  function Sent(s: Worker.Submission, said: bool, published: bool, f: Worker.Submission): seq<Worker.Submission> {
    (if said then [s.(verdict := Judging)] else []) + if published then [f] else []
  }

  /** The worker has published what it could and holds the job, in phase `phase`, among the other tasks. */
  function Holding(s: State, tasks: map<nat, Task>, w: nat, id: Id, phase: Phase, more: seq<Result>): State {
    s.(results := s.results + more, tasks := tasks[w := Task(id, phase)])
  }

  function Ended(s: State, tasks: map<nat, Task>, ready: multiset<Id>, more: seq<Result>): State {
    s.(ready := ready, results := s.results + more, tasks := tasks)
  }

  lemma PublishedEnds(s: State, tasks: map<nat, Task>, w: nat, id: Id, e: Event, more: seq<Result>)
    requires w !in tasks && s.tasks == tasks[w := Task(id, JudgingSent)] && Enabled(s, e)
    requires Apply(s, e) == Holding(s, tasks, w, id, Reported, more)
    ensures Valid(s, [e, Ack(w)]) && Final(s, [e, Ack(w)]) == Ended(s, tasks, s.ready, more)
  {
    var reported, done := Holding(s, tasks, w, id, Reported, more), Ended(s, tasks, s.ready, more);
    assert reported.tasks - {w} == tasks;
    var es := Step(reported, Ack(w), done, []);
    es := FinalCons(s, e, es);
    assert es == [e, Ack(w)];
  }

  lemma ReportedAs(s: State, tasks: map<nat, Task>, w: nat, id: Id, e: Event, j: Judgement, published: bool)
    requires w !in tasks && s.tasks == tasks[w := Task(id, JudgingSent)] && (j.Verdict? ==> Terminal(j.v))
    requires (j.CompileFailed? && e == ReportCE(w, published)) || (j.Verdict? && published && e == Report(w, j.v, true))
    ensures Enabled(s, e) && Apply(s, e) == Holding(s, tasks, w, id, Reported, Outcome(id, j, published))
  {
    assert s.tasks[w := Task(id, Reported)] == tasks[w := Task(id, Reported)];
  }

  lemma RefusedEnds(s: State, tasks: map<nat, Task>, w: nat, id: Id, v: Verdict)
    requires w !in tasks && s.tasks == tasks[w := Task(id, JudgingSent)] && Terminal(v)
    ensures Valid(s, [Report(w, v, false)])
    ensures Final(s, [Report(w, v, false)]) == Ended(s, tasks, s.ready + multiset{id}, [])
  {
    assert s.tasks - {w} == tasks && s.results + [] == s.results;
    var es := FinalCons(s, Report(w, v, false), []);
    assert es == [Report(w, v, false)];
  }

  lemma EndingRuns(s: State, tasks: map<nat, Task>, w: nat, id: Id, j: Judgement, published: bool)
    requires w !in tasks && s.tasks == tasks[w := Task(id, JudgingSent)] && (j.Verdict? ==> Terminal(j.v))
    ensures Valid(s, Ending(w, j, published))
    ensures var ready := if j.CompileFailed? || published then s.ready else s.ready + multiset{id};
      Final(s, Ending(w, j, published)) == Ended(s, tasks, ready, Outcome(id, j, published))
  {
    if j.CompileFailed? || published {
      var e := Ending(w, j, published)[0];
      ReportedAs(s, tasks, w, id, e, j, published);
      PublishedEnds(s, tasks, w, id, e, Outcome(id, j, published));
    } else {
      RefusedEnds(s, tasks, w, id, j.v);
    }
  }

  lemma OpeningRuns(st: State, w: nat, id: Id, said: bool, es: seq<Event>) returns (fs: seq<Event>)
    requires w !in st.tasks && id in st.ready
    requires var s := Holding(st.(ready := st.ready - multiset{id}), st.tasks, w, id, JudgingSent, Opening(id, said));
      Valid(s, es)
    ensures fs == [Deliver(w, id), SayJudging(w, said)] + es && Valid(st, fs)
    ensures var s := Holding(st.(ready := st.ready - multiset{id}), st.tasks, w, id, JudgingSent, Opening(id, said));
      Final(st, fs) == Final(s, es)
  {
    var before := st.(ready := st.ready - multiset{id});
    var taken := before.(tasks := st.tasks[w := Task(id, Started)]);
    assert taken.tasks[w := Task(id, JudgingSent)] == st.tasks[w := Task(id, JudgingSent)];
    assert st.results + [] == st.results;
    fs := Step(taken, SayJudging(w, said), Holding(before, st.tasks, w, id, JudgingSent, Opening(id, said)), es);
    fs := Step(st, Deliver(w, id), taken, fs);
  }

  /** A turn is possible whenever the job is queued and the worker is free, and this is all it does. */
  lemma TurnRuns(st: State, w: nat, id: Id, j: Judgement, said: bool, published: bool)
    requires w !in st.tasks && id in st.ready && (j.Verdict? ==> Terminal(j.v))
    ensures Valid(st, Turn(w, id, j, said, published))
    ensures Final(st, Turn(w, id, j, said, published)) == st.(
      ready := if j.CompileFailed? || published then st.ready - multiset{id} else st.ready,
      results := st.results + Opening(id, said) + Outcome(id, j, published))
  {
    var s := Holding(st.(ready := st.ready - multiset{id}), st.tasks, w, id, JudgingSent, Opening(id, said));
    EndingRuns(s, st.tasks, w, id, j, published);
    var es := OpeningRuns(st, w, id, said, Ending(w, j, published));
    assert st.ready - multiset{id} + multiset{id} == st.ready;
  }

  lemma SentAre(s: Worker.Submission, setup: Worker.Setup, said: bool, published: bool, f: Worker.Submission)
    requires f.id == s.id && (f.verdict.CompilationError? <==> Worker.CompileFails(s.language, setup))
    ensures Messages(Sent(s, said, published, f))
         == Opening(s.id, said) + Outcome(s.id, JudgementOf(s, setup, f), published)
  {
  }

  /**
   Whatever ProcessJob does with a job is one turn of the pipeline's worker on it: the judgement is one HandleJob
   accepts, the results queue gets exactly the messages sent, in order, and the job goes back to its queue exactly
   when the handler fails.
   */
  lemma ProcessJobIsTurn(st: State, w: nat, s: Worker.Submission, setup: Worker.Setup, l: Scoring.Limits,
                         world: Scoring.World, groups: seq<Scoring.Group>, failed: bool, said: bool, published: bool,
                         f: Worker.Submission)
    requires w !in st.tasks && s.id in st.ready
    requires Worker.FinalMessage(s, setup, l, world, groups, f)
    requires failed <==> !published && !Worker.CompileFails(s.language, setup)
    ensures var j := JudgementOf(s, setup, f);
      && (j.Verdict? ==> Terminal(j.v))
      && Valid(st, Turn(w, s.id, j, said, published))
      && Final(st, Turn(w, s.id, j, said, published)) == st.(
           ready := if failed then st.ready else st.ready - multiset{s.id},
           results := st.results + Messages(Sent(s, said, published, f)))
  {
    Worker.FinalMessageIsTerminal(s, setup, l, world, groups, f);
    var j := JudgementOf(s, setup, f);
    TurnRuns(st, w, s.id, j, said, published);
    SentAre(s, setup, said, published, f);
  }
}
