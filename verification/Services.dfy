/** The code behind the pipeline's steps. */
module Services {
  import opened Verdicts
  import opened Pipeline

  // The create and rejudge calls of the API server, one turn of a worker's delivery loop, and one turn of the
  // result consumer. Each method performs its steps on the shared state in the code's order and records them, so
  // that its effect is a run of the Pipeline.

  /**
   How the steps of a create call turn out: the checks before the INSERT (storage and queue configured, code not blank,
   and for a contest the registration and the contest window), the INSERT, the upload, the publish and the two
   compensating deletes.
   */
  datatype Outcomes = Outcomes(
    accepted: bool, inserted: bool, uploaded: bool, published: bool, objectDropped: bool, rowDropped: bool)

  /** done is the first of the n rows with a failure, or n when there is none. */
  ghost predicate StopsAt(resets: nat -> bool, publishes: nat -> bool, n: nat, done: nat) {
    && done <= n && (forall i: nat :: i < done ==> resets(i) && publishes(i))
    && (done < n ==> !resets(done) || !publishes(done))
  }

  /** How judging ended, seen from the message loop (see Scoring for the verdict itself). */
  datatype Judgement = Verdict(v: Verdict) | CompileFailed

  /** The result messages a handled job adds after the optional JUDGING one. */
  function Outcome(id: Id, j: Judgement, published: bool): seq<Result> {
    if !published then []
    else match j
      case CompileFailed => [Result(id, CompilationError)]
      case Verdict(v) => [Result(id, v)]
  }

  /** The JUDGING message of a handled job. */
  function Opening(id: Id, said: bool): seq<Result> {
    if said then [Result(id, Judging)] else []
  }

  /** The steps that end a delivery: the final publish, and the acknowledgement unless the handler fails. */
  function Ending(w: nat, j: Judgement, published: bool): seq<Event> {
    match j
    case CompileFailed => [ReportCE(w, published), Ack(w)]
    case Verdict(v) => if published then [Report(w, v, true), Ack(w)] else [Report(w, v, false)]
  }

  /** All steps of a delivery. */
  function Turn(w: nat, id: Id, j: Judgement, said: bool, published: bool): seq<Event> {
    [Deliver(w, id), SayJudging(w, said)] + Ending(w, j, published)
  }

  class Platform {
    var st: State
    ghost const origin: State
    ghost var trace: seq<Event>

    ghost predicate Consistent()
      reads this
    {
      Valid(origin, trace) && st == Final(origin, trace)
    }

    constructor ()
      ensures Consistent() && st == INIT && trace == []
    {
      st, origin, trace := INIT, INIT, [];
    }

    /** Performs one atomic step. */
    method Do(e: Event)
      requires Consistent() && Enabled(st, e)
      modifies this
      ensures Consistent() && st == Apply(old(st), e) && trace == old(trace) + [e]
    {
      FinalSnoc(origin, trace, e);
      st, trace := Apply(st, e), trace + [e];
    }

    /** repo.Create: a failed INSERT changes nothing. */
    method Insert(c: nat, ok: bool)
      requires Consistent() && c !in st.calls
      modifies this
      ensures Consistent()
      ensures !ok ==> st == old(st)
      ensures ok ==> st == old(st).(nextId := old(st).nextId + 1, rows := old(st).rows[old(st).nextId := Pending],
                                    calls := old(st).calls[c := Creating(old(st).nextId, Inserted)])
    {
      if ok {
        Do(InsertRow(c));
      }
    }

    /** uploadSource. */
    method UploadSource(c: nat, ok: bool)
      requires Consistent() && c in st.calls && st.calls[c].Creating? && st.calls[c].stage.Inserted?
      modifies this
      ensures Consistent()
      ensures var id := old(st).calls[c].id;
        st == old(st).(objects := if ok then old(st).objects + {id} else old(st).objects,
                       calls := old(st).calls[c := Creating(id, if ok then Uploaded else UndoingRow)])
    {
      Do(Upload(c, ok));
    }

    /** mq.Publish of a new row's job; a payload that cannot be marshalled takes the same path. */
    method PublishJob(c: nat, ok: bool)
      requires Consistent() && c in st.calls && st.calls[c].Creating? && st.calls[c].stage.Uploaded?
      modifies this
      ensures Consistent()
      ensures var id := old(st).calls[c].id;
        st == if ok then old(st).(ready := old(st).ready + multiset{id}, calls := old(st).calls - {c})
              else old(st).(calls := old(st).calls[c := Creating(id, UndoingObject)])
    {
      Do(Enqueue(c, ok));
    }

    /** The compensating deletes, whose errors are dropped. */
    method Undo(c: nat, objectDropped: bool, rowDropped: bool)
      requires Consistent() && c in st.calls && st.calls[c].Creating?
      requires st.calls[c].stage.UndoingObject? || st.calls[c].stage.UndoingRow?
      modifies this
      ensures Consistent()
      ensures var call := old(st).calls[c];
        st == old(st).(
          rows := if rowDropped then old(st).rows - {call.id} else old(st).rows,
          objects := if call.stage.UndoingObject? && objectDropped then old(st).objects - {call.id}
                     else old(st).objects,
          calls := old(st).calls - {c})
    {
      ghost var calls := st.calls;
      if st.calls[c].stage.UndoingObject? {
        Do(DropObject(c, objectDropped));
      }
      Do(DropRow(c, rowDropped));
      assert st.calls == calls - {c};
    }

    /** What follows a successful INSERT: the upload, the publish, and the compensation when one of them fails. */
    method Launch(c: nat, o: Outcomes) returns (created: bool)
      requires Consistent() && c in st.calls && st.calls[c].Creating? && st.calls[c].stage.Inserted?
      requires st.calls[c].id !in st.objects
      modifies this
      ensures Consistent() && (created <==> o.uploaded && o.published)
      ensures var id := old(st).calls[c].id;
        st == old(st).(
          rows := if created || !o.rowDropped then old(st).rows else old(st).rows - {id},
          objects := if created || (o.uploaded && !o.objectDropped) then old(st).objects + {id} else old(st).objects,
          ready := if created then old(st).ready + multiset{id} else old(st).ready,
          calls := old(st).calls - {c})
    {
      ghost var calls, objects, id := st.calls, st.objects, st.calls[c].id;
      created := o.uploaded && o.published;
      UploadSource(c, o.uploaded);
      if o.uploaded {
        PublishJob(c, o.published);
      }
      if !created {
        Undo(c, o.objectDropped, o.rowDropped);
        assert objects + {id} - {id} == objects;
      }
      assert st.calls == calls - {c};
    }

    /**
     CreateAndEnqueue and CreateAndEnqueueContestSubmission as call c, running alone. The call either adds
     exactly one PENDING row with its artifact and its job, or fails without a job; a failed call leaves the
     row or the artifact behind only if the matching compensating delete failed.
     */
    method CreateAndEnqueue(c: nat, o: Outcomes) returns (created: bool)
      requires Consistent() && c !in st.calls && st.nextId !in st.rows && st.nextId !in st.objects
      modifies this
      ensures Consistent() && (created <==> o.accepted && o.inserted && o.uploaded && o.published)
      ensures !o.accepted || !o.inserted ==> st == old(st)
      ensures o.accepted && o.inserted ==>
        var id := old(st).nextId;
        st == old(st).(
          nextId := id + 1,
          rows := if created || !o.rowDropped then old(st).rows[id := Pending] else old(st).rows,
          objects := if created || (o.uploaded && !o.objectDropped) then old(st).objects + {id} else old(st).objects,
          ready := if created then old(st).ready + multiset{id} else old(st).ready)
    {
      created := false;
      ghost var calls, rows, id := st.calls, st.rows, st.nextId;
      if o.accepted {
        Insert(c, o.inserted);
        if o.inserted {
          assert calls[c := Creating(id, Inserted)] - {c} == calls;
          assert rows[id := Pending] - {id} == rows;
          created := Launch(c, o);
        }
      }
    }

    /** ListSubmissionsForContestProblem. */
    method List(c: nat, ids: seq<Id>)
      requires Consistent() && c !in st.calls && forall i :: 0 <= i < |ids| ==> ids[i] in st.rows
      modifies this
      ensures Consistent() && st == old(st).(calls := old(st).calls[c := Rejudging(ids, false)])
    {
      Do(ListRows(c, ids));
    }

    /** The rejudge call returns. */
    method Finish(c: nat, ghost before: State, ghost ids: seq<Id>)
      requires MidRejudge(c, before, ids, |ids|)
      modifies this
      ensures Consistent() && Rejudged(before, st, ids[..|ids|], ids[..|ids|])
    {
      Do(EndRejudge(c));
      assert st.calls == before.calls;
    }

    /** Between two turns of the rejudge loop of call c, started in `before` on the rows ids. */
    ghost predicate MidRejudge(c: nat, before: State, ids: seq<Id>, done: nat)
      reads this
    {
      Consistent() && Halfway(c, before, st, ids, done)
    }

    /** The rejudge loop has ended with a failure on row `done` of ids, which was reset or not. */
    ghost predicate RejudgeStopped(before: State, ids: seq<Id>, done: nat, reset: bool)
      requires done < |ids|
      reads this
    {
      Consistent() && Rejudged(before, st, if reset then ids[..done + 1] else ids[..done], ids[..done])
    }

    /** The UPDATE that sets the first listed row to PENDING; an error ends the call. */
    method Reset(c: nat, ok: bool)
      requires Consistent() && c in st.calls && st.calls[c].Rejudging? && !st.calls[c].wasReset
      requires st.calls[c].todo != [] && st.calls[c].todo[0] in st.rows
      modifies this
      ensures Consistent()
      ensures var todo := old(st).calls[c].todo;
        st == if ok then
                old(st).(rows := old(st).rows[todo[0] := Pending], calls := old(st).calls[c := Rejudging(todo, true)])
              else old(st).(calls := old(st).calls - {c})
    {
      Do(ResetRow(c, ok));
    }

    /** The publish of the reset row's new job; an error ends the call. */
    method Reenqueue(c: nat, ok: bool)
      requires Consistent() && c in st.calls && st.calls[c].Rejudging? && st.calls[c].wasReset && st.calls[c].todo != []
      modifies this
      ensures Consistent()
      ensures var todo := old(st).calls[c].todo;
        st == if ok then
                old(st).(ready := old(st).ready + multiset{todo[0]},
                         calls := old(st).calls[c := Rejudging(todo[1..], false)])
              else old(st).(calls := old(st).calls - {c})
    {
      Do(Requeue(c, ok));
    }

    /** One turn of the rejudge loop: reset the first listed row, then re-enqueue it; an error ends the call. */
    method RejudgeOne(c: nat, reset: bool, published: bool, ghost before: State, ghost ids: seq<Id>, ghost done: nat)
      requires MidRejudge(c, before, ids, done) && done < |ids|
      modifies this
      ensures reset && published ==> Consistent() && Halfway(c, before, st, ids, done + 1)
      ensures !reset || !published ==> RejudgeStopped(before, ids, done, reset)
    {
      RejudgeOneMore(c, before, st, ids, done);
      Reset(c, reset);
      if reset {
        Reenqueue(c, published);
      }
    }

    /** The rejudge loop, up to the first row with a failure. */
    method RejudgeRows(c: nat, n: nat, resets: nat -> bool, publishes: nat -> bool,
                       ghost before: State, ghost ids: seq<Id>)
      returns (done: nat)
      requires n == |ids| && MidRejudge(c, before, ids, 0)
      modifies this
      ensures StopsAt(resets, publishes, n, done)
      ensures if done == n then MidRejudge(c, before, ids, n) else RejudgeStopped(before, ids, done, resets(done))
    {
      done := 0;
      while done < n
        invariant Consistent() && Halfway(c, before, st, ids, done)
        invariant forall i: nat :: i < done ==> resets(i) && publishes(i)
      {
        RejudgeOne(c, resets(done), publishes(done), before, ids, done);
        if !resets(done) || !publishes(done) {
          return;
        }
        done := done + 1;
      }
    }

    /**
     RejudgeContestProblem as call c, running alone, where resets and publishes tell how the two steps on each listed
     row turn out: the first `done` rows are PENDING and each has one more job. That is all of them exactly when no
     step fails; otherwise the loop stops at the first row with a failure, which is reset without a job exactly when
     its reset was no failure.
     */
    method RejudgeProblem(c: nat, ids: seq<Id>, resets: nat -> bool, publishes: nat -> bool)
      returns (ok: bool, done: nat)
      requires Consistent() && c !in st.calls && forall i :: 0 <= i < |ids| ==> ids[i] in st.rows
      modifies this
      ensures Consistent() && StopsAt(resets, publishes, |ids|, done) && (ok <==> done == |ids|)
      ensures Rejudged(old(st), st, if !ok && resets(done) then ids[..done + 1] else ids[..done], ids[..done])
    {
      ghost var before := st;
      List(c, ids);
      assert ids[..0] == [] && ids[0..] == ids;
      done := RejudgeRows(c, |ids|, resets, publishes, before, ids);
      ok := done == |ids|;
      if ok {
        Finish(c, before, ids);
      }
    }

    /** The delivery of a job and the handler's JUDGING message, whose failure is only logged. */
    method TakeJob(w: nat, id: Id, said: bool)
      requires Consistent() && w !in st.tasks && id in st.ready
      modifies this
      ensures Consistent() && trace == old(trace) + [Deliver(w, id), SayJudging(w, said)]
      ensures st == old(st).(ready := old(st).ready - multiset{id}, results := old(st).results + Opening(id, said),
                             tasks := old(st).tasks[w := Task(id, JudgingSent)])
    {
      Do(Deliver(w, id));
      Do(SayJudging(w, said));
    }

    /**
     One turn of the worker's loop on a delivered job: Subscribe, the handler of Start, and the publishes of
     processJobWithPublisher. A verdict that cannot be published sends the job back to the queue; otherwise
     the job is gone, and the verdict is the newest result message unless it was a compile error that could
     not be published.
     */
    method HandleJob(w: nat, id: Id, j: Judgement, said: bool, published: bool) returns (acked: bool)
      requires Consistent() && w !in st.tasks && id in st.ready && (j.Verdict? ==> Terminal(j.v))
      modifies this
      ensures Consistent() && trace == old(trace) + Turn(w, id, j, said, published)
      ensures acked <==> j.CompileFailed? || published
      ensures st == old(st).(ready := if acked then old(st).ready - multiset{id} else old(st).ready,
                             results := old(st).results + Opening(id, said) + Outcome(id, j, published))
    {
      ghost var tasks, ready := st.tasks, st.ready;
      TakeJob(w, id, said);
      acked := FinishJob(w, id, j, published);
      assert st.tasks == tasks;
      assert ready - multiset{id} + multiset{id} == ready;
    }

    /** The handler's final publish, then the acknowledgement or the requeue. */
    method FinishJob(w: nat, id: Id, j: Judgement, published: bool) returns (acked: bool)
      requires Consistent() && w in st.tasks && st.tasks[w] == Task(id, JudgingSent) && (j.Verdict? ==> Terminal(j.v))
      modifies this
      ensures Consistent() && trace == old(trace) + Ending(w, j, published)
      ensures acked <==> j.CompileFailed? || published
      ensures st == old(st).(ready := if acked then old(st).ready else old(st).ready + multiset{id},
                             results := old(st).results + Outcome(id, j, published), tasks := old(st).tasks - {w})
    {
      acked := true;
      match j {
        case CompileFailed =>
          Do(ReportCE(w, published));
        case Verdict(v) =>
          Do(Report(w, v, published));
          acked := published;
      }
      if acked {
        Do(Ack(w));
      }
    }

    /**
     One turn of the result consumer. A stored row takes the message's verdict and no other row changes; a
     message about a missing row is dropped; when the database does not answer, the message is requeued and no row
     changes.
     */
    method ConsumeResult(answers: bool, requeueBehind: nat) returns (acked: bool)
      requires Consistent() && requeueBehind < |st.results|
      modifies this
      ensures Consistent() && (acked <==> answers)
      ensures acked ==>
        var r := old(st).results[0];
        st == old(st).(rows := if r.id in old(st).rows then old(st).rows[r.id := r.verdict] else old(st).rows,
                       results := old(st).results[1..])
      ensures !acked ==> st == old(st).(results := st.results) && multiset(st.results) == multiset(old(st).results)
    {
      acked := answers;
      if acked {
        Do(Consume);
      } else {
        NackKeepsMessages(st, requeueBehind);
        Do(NackResult(requeueBehind));
      }
    }
  }

  lemma NackKeepsMessages(s: State, k: nat)
    requires k < |s.results|
    ensures var t := Apply(s, NackResult(k));
      t == s.(results := t.results) && multiset(t.results) == multiset(s.results)
  {
    MovedBehind(s.results, k);
  }

  lemma MovedBehind(rs: seq<Result>, k: nat)
    requires k < |rs|
    ensures multiset(rs[1..k + 1] + [rs[0]] + rs[k + 1..]) == multiset(rs)
  {
    assert rs == [rs[0]] + rs[1..k + 1] + rs[k + 1..];
  }

  /**
   From s to t, the rows `reset` were set to PENDING, the rows `queued` got one more job, and nothing else
   changed.
   */
  ghost predicate Rejudged(s: State, t: State, reset: seq<Id>, queued: seq<Id>) {
    && t == s.(rows := t.rows, ready := s.ready + multiset(queued))
    && t.rows.Keys == s.rows.Keys
    && forall id :: id in s.rows ==> t.rows[id] == if id in reset then Pending else s.rows[id]
  }

  /** s is between two turns of the rejudge loop of call c, started in before on the rows ids. */
  ghost predicate Halfway(c: nat, before: State, s: State, ids: seq<Id>, done: nat) {
    && done <= |ids| && c !in before.calls
    && (forall i :: 0 <= i < |ids| ==> ids[i] in before.rows)
    && Rejudged(before, s.(calls := before.calls), ids[..done], ids[..done])
    && s.calls == before.calls[c := Rejudging(ids[done..], false)]
  }

  /** One more turn: the call ends before or after the reset, or goes on with the row requeued. */
  lemma RejudgeOneMore(c: nat, before: State, s: State, ids: seq<Id>, done: nat)
    requires Halfway(c, before, s, ids, done) && done < |ids|
    ensures c in s.calls && s.calls[c] == Rejudging(ids[done..], false)
    ensures ids[done..][0] == ids[done] && ids[done] in s.rows
    ensures Rejudged(before, s.(calls := s.calls - {c}), ids[..done], ids[..done])
    ensures var reset := s.(rows := s.rows[ids[done] := Pending], calls := s.calls[c := Rejudging(ids[done..], true)]);
      && Rejudged(before, reset.(calls := reset.calls - {c}), ids[..done + 1], ids[..done])
      && Halfway(c, before, reset.(ready := s.ready + multiset{ids[done]},
                                   calls := reset.calls[c := Rejudging(ids[done..][1..], false)]), ids, done + 1)
  {
    ResetOneMore(before, s, ids, done);
    var reset := s.calls[c := Rejudging(ids[done..], true)];
    assert s.calls - {c} == before.calls && reset - {c} == before.calls;
    assert reset[c := Rejudging(ids[done + 1..], false)] == before.calls[c := Rejudging(ids[done + 1..], false)];
  }

  lemma ResetOneMore(s: State, t: State, ids: seq<Id>, n: nat)
    requires n < |ids| && ids[n] in s.rows
    requires Rejudged(s, t.(calls := s.calls), ids[..n], ids[..n])
    ensures var u := t.(calls := s.calls, rows := t.rows[ids[n] := Pending]);
      && Rejudged(s, u, ids[..n + 1], ids[..n])
      && Rejudged(s, u.(ready := t.ready + multiset{ids[n]}), ids[..n + 1], ids[..n + 1])
    ensures ids[n] in t.rows && ids[n..][1..] == ids[n + 1..]
  {
    assert ids[..n + 1] == ids[..n] + [ids[n]];
  }

  lemma {:induction false} FinalSnoc(s: State, es: seq<Event>, e: Event)
    requires Valid(s, es) && Enabled(Final(s, es), e)
    ensures Valid(s, es + [e]) && Final(s, es + [e]) == Apply(Final(s, es), e)
    decreases es
  {
    if es == [] {
      assert (es + [e])[1..] == [];
    } else {
      assert (es + [e])[1..] == es[1..] + [e];
      FinalSnoc(Apply(s, es[0]), es[1..], e);
    }
  }
}
