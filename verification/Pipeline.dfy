/** The judging pipeline. */
module Pipeline {
  import opened Verdicts
  import opened MapSums

  // One transition system: API calls (create, rejudge), any number of workers and the result consumer run
  // interleaved; every publish, upload, insert, update and delete is one atomic step that may fail. Jobs are
  // delivered at least once and in any order; the results queue is first-in first-out except for a requeued
  // message. Regular submissions follow the same steps as contest submissions, without the rejudge call.

  type Id = int

  /** How far a create call got after its INSERT (CreateAndEnqueue, CreateAndEnqueueContestSubmission). */
  datatype Stage = Inserted | Uploaded | UndoingObject | UndoingRow

  datatype Call =
    | Creating(id: Id, stage: Stage)
    | Rejudging(todo: seq<Id>, wasReset: bool)   // wasReset: todo[0] was set to PENDING, not yet re-enqueued

  /** How far a worker's handler got with the job it holds unacknowledged. */
  datatype Phase = Started | JudgingSent | Reported

  datatype Task = Task(id: Id, phase: Phase)

  datatype Result = Result(id: Id, verdict: Verdict)

  datatype State = State(
    nextId: nat,
    rows: map<Id, Verdict>,
    objects: set<Id>,            // rows whose source artifact is in object storage
    ready: multiset<Id>,         // jobs waiting in the submission queue
    tasks: map<nat, Task>,       // unacknowledged deliveries
    results: seq<Result>,        // undelivered result messages, oldest first
    calls: map<nat, Call>)

  const INIT := State(0, map[], {}, multiset{}, map[], [], map[])

  datatype Event =
    // create
    | InsertRow(c: nat)
    | Upload(c: nat, ok: bool)
    | Enqueue(c: nat, ok: bool)
    | DropObject(c: nat, ok: bool)     // the error of storage.Delete is ignored
    | DropRow(c: nat, ok: bool)        // the error of repo.Delete is ignored
    // rejudge
    | ListRows(c: nat, ids: seq<Id>)
    | ResetRow(c: nat, ok: bool)
    | Requeue(c: nat, ok: bool)
    | EndRejudge(c: nat)
    // workers
    | Deliver(w: nat, id: Id)
    | SayJudging(w: nat, ok: bool)     // a failed publish is only logged
    | Report(w: nat, v: Verdict, ok: bool)   // a failed publish makes the handler fail: nack and requeue
    | ReportCE(w: nat, ok: bool)       // a failed publish is ignored and the job is acknowledged
    | Ack(w: nat)
    | Crash(w: nat)                    // the connection is lost: the job is redelivered
    // result consumer
    | Consume
    | NackResult(k: nat)               // requeued behind the next k messages

  predicate Enabled(s: State, e: Event) {
    match e
    case InsertRow(c) => c !in s.calls
    case Upload(c, _) => c in s.calls && s.calls[c].Creating? && s.calls[c].stage.Inserted?
    case Enqueue(c, _) => c in s.calls && s.calls[c].Creating? && s.calls[c].stage.Uploaded?
    case DropObject(c, _) => c in s.calls && s.calls[c].Creating? && s.calls[c].stage.UndoingObject?
    case DropRow(c, _) => c in s.calls && s.calls[c].Creating? && s.calls[c].stage.UndoingRow?
    case ListRows(c, ids) => c !in s.calls && forall i :: 0 <= i < |ids| ==> ids[i] in s.rows
    case ResetRow(c, ok) =>
      && c in s.calls && s.calls[c].Rejudging? && !s.calls[c].wasReset && s.calls[c].todo != []
      && (ok ==> s.calls[c].todo[0] in s.rows)   // a row that is gone is an error as well
    case Requeue(c, _) => c in s.calls && s.calls[c].Rejudging? && s.calls[c].wasReset && s.calls[c].todo != []
    case EndRejudge(c) => c in s.calls && s.calls[c].Rejudging? && s.calls[c].todo == []
    case Deliver(w, id) => w !in s.tasks && id in s.ready
    case SayJudging(w, _) => w in s.tasks && s.tasks[w].phase.Started?
    case Report(w, v, _) => w in s.tasks && s.tasks[w].phase.JudgingSent? && Terminal(v)
    case ReportCE(w, _) => w in s.tasks && s.tasks[w].phase.JudgingSent?
    case Ack(w) => w in s.tasks && s.tasks[w].phase.Reported?
    case Crash(w) => w in s.tasks
    case Consume => s.results != []
    case NackResult(k) => k < |s.results|
  }

  function Apply(s: State, e: Event): State
    requires Enabled(s, e)
  {
    match e
    case InsertRow(c) =>
      s.(nextId := s.nextId + 1, rows := s.rows[s.nextId := Pending],
         calls := s.calls[c := Creating(s.nextId, Inserted)])
    case Upload(c, ok) =>
      var id := s.calls[c].id;
      if ok then s.(objects := s.objects + {id}, calls := s.calls[c := Creating(id, Uploaded)])
      else s.(calls := s.calls[c := Creating(id, UndoingRow)])
    case Enqueue(c, ok) =>
      var id := s.calls[c].id;
      if ok then s.(ready := s.ready + multiset{id}, calls := s.calls - {c})
      else s.(calls := s.calls[c := Creating(id, UndoingObject)])
    case DropObject(c, ok) =>
      var id := s.calls[c].id;
      s.(objects := if ok then s.objects - {id} else s.objects, calls := s.calls[c := Creating(id, UndoingRow)])
    case DropRow(c, ok) =>
      s.(rows := if ok then s.rows - {s.calls[c].id} else s.rows, calls := s.calls - {c})
    case ListRows(c, ids) =>
      s.(calls := s.calls[c := Rejudging(ids, false)])
    case ResetRow(c, ok) =>
      var todo := s.calls[c].todo;
      if ok then s.(rows := s.rows[todo[0] := Pending], calls := s.calls[c := Rejudging(todo, true)])
      else s.(calls := s.calls - {c})
    case Requeue(c, ok) =>
      var todo := s.calls[c].todo;
      if ok then s.(ready := s.ready + multiset{todo[0]}, calls := s.calls[c := Rejudging(todo[1..], false)])
      else s.(calls := s.calls - {c})
    case EndRejudge(c) =>
      s.(calls := s.calls - {c})
    case Deliver(w, id) =>
      s.(ready := s.ready - multiset{id}, tasks := s.tasks[w := Task(id, Started)])
    case SayJudging(w, ok) =>
      var id := s.tasks[w].id;
      s.(results := if ok then s.results + [Result(id, Judging)] else s.results,
         tasks := s.tasks[w := Task(id, JudgingSent)])
    case Report(w, v, ok) =>
      var id := s.tasks[w].id;
      if ok then s.(results := s.results + [Result(id, v)], tasks := s.tasks[w := Task(id, Reported)])
      else s.(ready := s.ready + multiset{id}, tasks := s.tasks - {w})
    case ReportCE(w, ok) =>
      var id := s.tasks[w].id;
      s.(results := if ok then s.results + [Result(id, CompilationError)] else s.results,
         tasks := s.tasks[w := Task(id, Reported)])
    case Ack(w) =>
      s.(tasks := s.tasks - {w})
    case Crash(w) =>
      s.(ready := s.ready + multiset{s.tasks[w].id}, tasks := s.tasks - {w})
    case Consume =>
      var r := s.results[0];
      // a result for a row that no longer exists is acknowledged and discarded
      s.(rows := if r.id in s.rows then s.rows[r.id := r.verdict] else s.rows, results := s.results[1..])
    case NackResult(k) =>
      s.(results := s.results[1..k + 1] + [s.results[0]] + s.results[k + 1..])
  }

  /** An interleaving: every event is possible where it happens. */
  ghost predicate Valid(s: State, es: seq<Event>)
    decreases es
  {
    es == [] || (Enabled(s, es[0]) && Valid(Apply(s, es[0]), es[1..]))
  }

  /** The state after the first n events. */
  ghost function At(s: State, es: seq<Event>, n: nat): State
    requires Valid(s, es) && n <= |es|
    decreases n
  {
    if n == 0 then s else At(Apply(s, es[0]), es[1..], n - 1)
  }

  ghost function Final(s: State, es: seq<Event>): State
    requires Valid(s, es)
  {
    At(s, es, |es|)
  }

  lemma {:induction false} AtStep(s: State, es: seq<Event>, n: nat)
    requires Valid(s, es) && n < |es|
    ensures Enabled(At(s, es, n), es[n])
    ensures At(s, es, n + 1) == Apply(At(s, es, n), es[n])
    decreases n
  {
    if n > 0 {
      AtStep(Apply(s, es[0]), es[1..], n - 1);
    }
  }

  // ---------- Every row is judged ----------

  /** The verdict a row will show once all the messages in rs have been consumed: the last write wins. */
  function LastFor(rs: seq<Result>, id: Id, v: Verdict): Verdict {
    if rs == [] then v
    else if rs[|rs| - 1].id == id then rs[|rs| - 1].verdict
    else LastFor(rs[..|rs| - 1], id, v)
  }

  function Upcoming(s: State, id: Id): Verdict
    requires id in s.rows
  {
    LastFor(s.results, id, s.rows[id])
  }

  predicate TaskOwes(t: Task, id: Id) {
    t.id == id && !t.phase.Reported?
  }

  predicate CallOwes(c: Call, id: Id) {
    match c
    case Creating(i, _) => i == id
    case Rejudging(todo, wasReset) => wasReset && todo != [] && todo[0] == id
  }

  /** Somebody still owes id a terminal result: a queued job, a worker that has not reported, or a running call. */
  ghost predicate Covered(s: State, id: Id) {
    || id in s.ready
    || (exists w :: w in s.tasks && TaskOwes(s.tasks[w], id))
    || (exists c :: c in s.calls && CallOwes(s.calls[c], id))
  }

  /** A row that will stay PENDING or JUDGING unless an outside event rescues it. */
  ghost predicate Stuck(s: State, id: Id) {
    id in s.rows && !Terminal(Upcoming(s, id)) && !Covered(s, id)
  }

  ghost predicate OnlyTaskOwes(s: State, w: nat, id: Id) {
    && w in s.tasks && TaskOwes(s.tasks[w], id)
    && id !in s.ready
    && (forall x :: x in s.tasks && x != w ==> !TaskOwes(s.tasks[x], id))
    && (forall c :: c in s.calls ==> !CallOwes(s.calls[c], id))
  }

  ghost predicate OnlyCallOwes(s: State, c: nat, id: Id) {
    && c in s.calls && CallOwes(s.calls[c], id)
    && id !in s.ready
    && (forall w :: w in s.tasks ==> !TaskOwes(s.tasks[w], id))
    && (forall x :: x in s.calls && x != c ==> !CallOwes(s.calls[x], id))
  }

  /** The head of the results queue, requeued behind k messages, becomes the last message about its row. */
  predicate BecomesLast(s: State, k: nat) {
    k < |s.results| && forall i :: k < i < |s.results| ==> s.results[i].id != s.results[0].id
  }

  /**
   The four ways the code loses a row: a compile-error publish whose error is ignored, a rejudge whose
   publish fails after the reset, a create whose compensating DELETE fails with its error ignored, and a
   non-terminal result requeued past a terminal one. Each matters only when nobody else owes the row a result.
   */
  ghost predicate Strands(s: State, e: Event, id: Id) {
    Enabled(s, e) && id in s.rows &&
    match e
    case ReportCE(w, ok) => !ok && OnlyTaskOwes(s, w, id) && !Terminal(Upcoming(s, id))
    case Requeue(c, ok) => !ok && OnlyCallOwes(s, c, id) && !Terminal(Upcoming(s, id))
    case DropRow(c, ok) => !ok && OnlyCallOwes(s, c, id) && !Terminal(Upcoming(s, id))
    case NackResult(k) =>
      && s.results[0].id == id && !Terminal(s.results[0].verdict) && BecomesLast(s, k) && !Covered(s, id)
    case _ => false
  }

  /**
   What brings a stuck row back: a rejudge reset, a terminal result requeued past the JUDGING one, or a
   worker that dies after reporting but before its acknowledgement, so that the job is redelivered.
   */
  ghost predicate Rescues(s: State, e: Event, id: Id) {
    Enabled(s, e) &&
    match e
    case ResetRow(c, ok) => ok && s.calls[c].todo[0] == id
    case NackResult(k) => s.results[0].id == id && Terminal(s.results[0].verdict) && BecomesLast(s, k)
    case Crash(w) => s.tasks[w].id == id
    case _ => false
  }

  lemma {:induction false} LastForAppend(a: seq<Result>, b: seq<Result>, id: Id, v: Verdict)
    ensures LastFor(a + b, id, v) == LastFor(b, id, LastFor(a, id, v))
    decreases |b|
  {
    if b == [] {
      assert a + b == a;
    } else {
      var n := |b| - 1;
      assert (a + b)[..|a + b| - 1] == a + b[..n];
      LastForAppend(a, b[..n], id, v);
    }
  }

  lemma {:induction false} LastForOther(rs: seq<Result>, id: Id, v: Verdict)
    requires forall i :: 0 <= i < |rs| ==> rs[i].id != id
    ensures LastFor(rs, id, v) == v
    decreases |rs|
  {
    if rs != [] {
      LastForOther(rs[..|rs| - 1], id, v);
    }
  }

  lemma {:induction false} LastForSome(rs: seq<Result>, id: Id, v: Verdict, u: Verdict, i: nat)
    requires i < |rs| && rs[i].id == id
    ensures LastFor(rs, id, v) == LastFor(rs, id, u)
    decreases |rs|
  {
    if rs[|rs| - 1].id != id {
      LastForSome(rs[..|rs| - 1], id, v, u, i);
    }
  }

  /** Delivering the oldest result changes no row's upcoming verdict. */
  lemma ConsumeKeepsUpcoming(s: State, id: Id)
    requires s.results != [] && id in s.rows
    ensures Upcoming(Apply(s, Consume), id) == Upcoming(s, id)
  {
    var r := s.results[0];
    assert s.results == [r] + s.results[1..];
    LastForAppend([r], s.results[1..], id, s.rows[id]);
    assert LastFor([r], id, s.rows[id]) == if r.id == id then r.verdict else LastFor([r][..0], id, s.rows[id]);
  }

  /** The last message about a row, for a message r before or behind the messages of a. */
  lemma LastForMoved(r: Result, a: seq<Result>, b: seq<Result>, id: Id, v: Verdict)
    ensures LastFor([r] + a + b, id, v) == LastFor(b, id, LastFor(a, id, if r.id == id then r.verdict else v))
    ensures LastFor(a + [r] + b, id, v) == LastFor(b, id, if r.id == id then r.verdict else LastFor(a, id, v))
  {
    LastForAppend([r] + a, b, id, v);
    LastForAppend([r], a, id, v);
    LastForAppend(a + [r], b, id, v);
    LastForAppend(a, [r], id, v);
    LastForOne(r, id, v);
    LastForOne(r, id, LastFor(a, id, v));
  }

  lemma LastForOne(r: Result, id: Id, v: Verdict)
    ensures LastFor([r], id, v) == if r.id == id then r.verdict else v
  {
    assert [r][..0] == [];
  }

  /** What a requeue of the oldest result does to the upcoming verdict of a row. */
  lemma NackChangesUpcoming(s: State, k: nat, id: Id)
    requires k < |s.results| && id in s.rows
    ensures Upcoming(Apply(s, NackResult(k)), id)
         == if s.results[0].id == id && BecomesLast(s, k) then s.results[0].verdict else Upcoming(s, id)
  {
    var r, a, b, v := s.results[0], s.results[1..k + 1], s.results[k + 1..], s.rows[id];
    assert s.results == [r] + a + b;
    LastForMoved(r, a, b, id, v);
    if r.id == id {
      BehindTheRest(s, k, id, r.verdict, LastFor(a, id, r.verdict));
    }
  }

  /** The messages behind position k decide for the row of the oldest message, unless none is about it. */
  lemma BehindTheRest(s: State, k: nat, id: Id, v: Verdict, u: Verdict)
    requires k < |s.results| && s.results[0].id == id
    ensures var b := s.results[k + 1..];
      if BecomesLast(s, k) then LastFor(b, id, v) == v else LastFor(b, id, v) == LastFor(b, id, u)
  {
    var b := s.results[k + 1..];
    if BecomesLast(s, k) {
      forall i | 0 <= i < |b|
        ensures b[i].id != id
      {
        assert b[i] == s.results[k + 1 + i];
      }
      LastForOther(b, id, v);
    } else {
      var i :| k < i < |s.results| && s.results[i].id == s.results[0].id;
      assert b[i - k - 1].id == id;
      LastForSome(b, id, v, u, i - k - 1);
    }
  }

  ghost predicate IdsFresh(s: State) {
    forall id :: id in s.rows ==> id < s.nextId
  }

  /** Events that neither add nor remove a debt towards id and leave its verdicts alone. */
  lemma {:induction false} StuckByInsert(s: State, c: nat, id: Id)
    requires Enabled(s, InsertRow(c)) && IdsFresh(s)
    ensures Stuck(Apply(s, InsertRow(c)), id) <==> Stuck(s, id)
  {
    var t := Apply(s, InsertRow(c));
    assert forall x :: x in s.calls ==> x in t.calls && t.calls[x] == s.calls[x];
    assert forall x :: x in t.calls && x != c ==> x in s.calls;
    assert CallOwes(t.calls[c], s.nextId);
  }

  /** A create call that goes on still owes its row a result. */
  lemma StuckByCreate(s: State, e: Event, id: Id)
    requires Enabled(s, e) && (e.Upload? || e.DropObject? || (e.Enqueue? && !e.ok))
    ensures Stuck(Apply(s, e), id) <==> Stuck(s, id)
  {
    var t := Apply(s, e);
    assert forall c :: c in s.calls <==> c in t.calls;
    assert forall c :: c in s.calls ==> CallOwes(t.calls[c], id) == CallOwes(s.calls[c], id);
  }

  lemma {:induction false} StuckByCreated(s: State, c: nat, id: Id)
    requires Enabled(s, Enqueue(c, true))
    ensures Stuck(Apply(s, Enqueue(c, true)), id) <==> Stuck(s, id)
  {
    var t := Apply(s, Enqueue(c, true));
    assert forall x :: x in s.calls && x != c ==> x in t.calls && t.calls[x] == s.calls[x];
    assert forall x :: x in t.calls ==> x in s.calls && x != c;
    assert CallOwes(s.calls[c], id) ==> Covered(s, id);
  }

  lemma {:induction false} StuckByUndo(s: State, c: nat, ok: bool, id: Id)
    requires Enabled(s, DropRow(c, ok))
    ensures Stuck(Apply(s, DropRow(c, ok)), id) <==> Stuck(s, id) || Strands(s, DropRow(c, ok), id)
  {
    var t := Apply(s, DropRow(c, ok));
    assert forall x :: x in s.calls && x != c ==> x in t.calls && t.calls[x] == s.calls[x];
    assert forall x :: x in t.calls ==> x in s.calls && x != c;
    assert CallOwes(s.calls[c], id) ==> Covered(s, id);
  }

  lemma {:induction false} StuckByReset(s: State, c: nat, ok: bool, id: Id)
    requires Enabled(s, ResetRow(c, ok))
    ensures Stuck(Apply(s, ResetRow(c, ok)), id) <==> Stuck(s, id) && !Rescues(s, ResetRow(c, ok), id)
  {
    var t := Apply(s, ResetRow(c, ok));
    assert forall x :: x in s.calls && x != c ==> x in t.calls && t.calls[x] == s.calls[x];
    assert forall x :: x in t.calls && x != c ==> x in s.calls;
    if ok {
      assert CallOwes(t.calls[c], s.calls[c].todo[0]);
    }
  }

  lemma {:induction false} StuckByRejudge(s: State, e: Event, id: Id)
    requires Enabled(s, e) && (e.ListRows? || e.Requeue? || e.EndRejudge?)
    ensures Stuck(Apply(s, e), id) <==> Stuck(s, id) || Strands(s, e, id)
  {
    var t := Apply(s, e);
    var c := e.c;
    assert forall x :: x in s.calls && x != c ==> x in t.calls && t.calls[x] == s.calls[x];
    assert forall x :: x in t.calls && x != c ==> x in s.calls;
  }

  /** A step of worker w that leaves the calls alone moves coverage only through its own task and the queue. */
  lemma CoveredByTask(s: State, t: State, w: nat, id: Id)
    requires t.calls == s.calls && t.tasks - {w} == s.tasks - {w}
    ensures Covered(t, id) <==>
      || id in t.ready
      || (w in t.tasks && TaskOwes(t.tasks[w], id))
      || (exists x :: x in s.tasks && x != w && TaskOwes(s.tasks[x], id))
      || (exists c :: c in s.calls && CallOwes(s.calls[c], id))
  {
    forall x | x != w
      ensures x in t.tasks <==> x in s.tasks
      ensures x in t.tasks ==> t.tasks[x] == s.tasks[x]
    {
      assert x in t.tasks <==> x in t.tasks - {w};
      assert x in s.tasks <==> x in s.tasks - {w};
    }
  }

  /** Steps that hand a job over without publishing: the debt moves between the queue and the task. */
  lemma StuckByHandOver(s: State, e: Event, id: Id)
    requires Enabled(s, e)
    requires e.Deliver? || e.Ack? || e.Crash? || (e.Report? && !e.ok)
    ensures Stuck(Apply(s, e), id) <==> Stuck(s, id) && !Rescues(s, e, id)
  {
    var t := Apply(s, e);
    assert t.tasks - {e.w} == s.tasks - {e.w};
    CoveredByTask(s, t, e.w, id);
    CoveredByTask(s, s, e.w, id);
    if e.Deliver? && id != e.id {
      assert t.ready[id] == s.ready[id];
    }
  }

  /** A result that is published becomes the upcoming verdict of its row, and of no other. */
  lemma UpcomingAfterPublish(s: State, e: Event, id: Id)
    requires Enabled(s, e) && id in s.rows
    requires e.SayJudging? || e.Report? || e.ReportCE?
    ensures var t := Apply(s, e);
      Upcoming(t, id) ==
        if t.results != s.results && s.tasks[e.w].id == id then t.results[|s.results|].verdict else Upcoming(s, id)
  {
    var t := Apply(s, e);
    if t.results != s.results {
      assert t.results[..|t.results| - 1] == s.results;
    }
  }

  /** Steps that publish, or try to publish, a result. */
  lemma StuckByPublish(s: State, e: Event, id: Id)
    requires Enabled(s, e)
    requires e.SayJudging? || (e.Report? && e.ok)
    ensures Stuck(Apply(s, e), id) <==> Stuck(s, id)
  {
    var t := Apply(s, e);
    assert t.tasks - {e.w} == s.tasks - {e.w};
    CoveredByTask(s, t, e.w, id);
    CoveredByTask(s, s, e.w, id);
    if id in s.rows {
      UpcomingAfterPublish(s, e, id);
    }
  }

  lemma StuckByCompileError(s: State, w: nat, ok: bool, id: Id)
    requires Enabled(s, ReportCE(w, ok))
    ensures Stuck(Apply(s, ReportCE(w, ok)), id) <==> Stuck(s, id) || Strands(s, ReportCE(w, ok), id)
  {
    var t := Apply(s, ReportCE(w, ok));
    assert t.tasks - {w} == s.tasks - {w};
    CoveredByTask(s, t, w, id);
    CoveredByTask(s, s, w, id);
    if id in s.rows {
      UpcomingAfterPublish(s, ReportCE(w, ok), id);
    }
  }

  lemma {:induction false} StuckByConsumer(s: State, e: Event, id: Id)
    requires Enabled(s, e)
    requires e.Consume? || e.NackResult?
    ensures Stuck(Apply(s, e), id) <==> if Stuck(s, id) then !Rescues(s, e, id) else Strands(s, e, id)
  {
    assert Covered(Apply(s, e), id) <==> Covered(s, id);
    if id in s.rows {
      match e {
        case Consume =>
          ConsumeKeepsUpcoming(s, id);
        case NackResult(k) =>
          NackChangesUpcoming(s, k, id);
          if s.results[0].id == id && BecomesLast(s, k) && k == 0 {
            assert s.results == [s.results[0]] + s.results[1..];
          }
      }
    }
  }

  /**
   Exactly when one step changes a row's fate: a row that was not stuck becomes stuck if and only if the
   step is one of the four losses of Strands, and a stuck row stays stuck unless the step is a rescue.
   */
  lemma StuckStep(s: State, e: Event, id: Id)
    requires Enabled(s, e) && IdsFresh(s)
    ensures IdsFresh(Apply(s, e))
    ensures Stuck(Apply(s, e), id) <==> if Stuck(s, id) then !Rescues(s, e, id) else Strands(s, e, id)
  {
    match e
    case InsertRow(c) => StuckByInsert(s, c, id);
    case Upload(_, _) => StuckByCreate(s, e, id);
    case Enqueue(c, ok) => if ok { StuckByCreated(s, c, id); } else { StuckByCreate(s, e, id); }
    case DropObject(_, _) => StuckByCreate(s, e, id);
    case DropRow(c, ok) => StuckByUndo(s, c, ok, id);
    case ListRows(_, _) => StuckByRejudge(s, e, id);
    case ResetRow(c, ok) => StuckByReset(s, c, ok, id);
    case Requeue(_, _) => StuckByRejudge(s, e, id);
    case EndRejudge(_) => StuckByRejudge(s, e, id);
    case Consume => StuckByConsumer(s, e, id);
    case NackResult(_) => StuckByConsumer(s, e, id);
    case SayJudging(_, _) => StuckByPublish(s, e, id);
    case ReportCE(w, ok) => StuckByCompileError(s, w, ok, id);
    case Report(_, _, ok) => if ok { StuckByPublish(s, e, id); } else { StuckByHandOver(s, e, id); }
    case _ => StuckByHandOver(s, e, id);
  }

  /** Step i loses id, and no later step before step n rescues it. */
  ghost predicate LostAt(s: State, es: seq<Event>, i: nat, n: nat, id: Id)
    requires Valid(s, es) && i < n <= |es|
  {
    Strands(At(s, es, i), es[i], id) && forall j :: i < j < n ==> !Rescues(At(s, es, j), es[j], id)
  }

  /** Within the first n steps, id was lost and not rescued since. */
  ghost predicate LostBy(s: State, es: seq<Event>, n: nat, id: Id)
    requires Valid(s, es) && n <= |es|
  {
    exists i :: 0 <= i < n && LostAt(s, es, i, n, id)
  }

  lemma LostAtStep(s: State, es: seq<Event>, i: nat, m: nat, id: Id)
    requires Valid(s, es) && i < m < |es|
    ensures LostAt(s, es, i, m + 1, id) <==> LostAt(s, es, i, m, id) && !Rescues(At(s, es, m), es[m], id)
  {
  }

  lemma LostByStep(s: State, es: seq<Event>, m: nat, id: Id)
    requires Valid(s, es) && m < |es|
    ensures LostBy(s, es, m + 1, id) <==>
      Strands(At(s, es, m), es[m], id) || (LostBy(s, es, m, id) && !Rescues(At(s, es, m), es[m], id))
  {
    if LostBy(s, es, m + 1, id) {
      var i: nat :| i < m + 1 && LostAt(s, es, i, m + 1, id);
      if i < m {
        LostAtStep(s, es, i, m, id);
      }
    }
    if Strands(At(s, es, m), es[m], id) {
      assert LostAt(s, es, m, m + 1, id);
    } else if LostBy(s, es, m, id) && !Rescues(At(s, es, m), es[m], id) {
      var i: nat :| i < m && LostAt(s, es, i, m, id);
      LostAtStep(s, es, i, m, id);
    }
  }

  lemma {:induction false} StuckIffLost(s: State, es: seq<Event>, n: nat, id: Id)
    requires Valid(s, es) && n <= |es| && IdsFresh(s) && !Stuck(s, id)
    ensures IdsFresh(At(s, es, n))
    ensures Stuck(At(s, es, n), id) <==> LostBy(s, es, n, id)
    decreases n
  {
    if n > 0 {
      StuckIffLost(s, es, n - 1, id);
      AtStep(s, es, n - 1);
      LostByStep(s, es, n - 1, id);
      StuckOrLost(At(s, es, n - 1), es[n - 1], id);
    }
  }

  /** Whatever the row looked like before, a loss leaves it stuck. */
  lemma StuckOrLost(s: State, e: Event, id: Id)
    requires Enabled(s, e) && IdsFresh(s)
    ensures IdsFresh(Apply(s, e))
    ensures Stuck(Apply(s, e), id) <==> Strands(s, e, id) || (Stuck(s, id) && !Rescues(s, e, id))
  {
    StuckStep(s, e, id);
  }

  ghost predicate Quiescent(s: State) {
    s.ready == multiset{} && s.tasks == map[] && s.results == [] && s.calls == map[]
  }

  /**
   Safety over every run: once nothing is queued, held, undelivered or running, a row shows a final verdict
   unless one of the four losses hit it and nothing rescued it afterwards, and in that case it does not.
   */
  lemma EveryRowIsJudged(es: seq<Event>, id: Id)
    requires Valid(INIT, es) && Quiescent(Final(INIT, es)) && id in Final(INIT, es).rows
    ensures Terminal(Final(INIT, es).rows[id]) <==> !LostBy(INIT, es, |es|, id)
  {
    StuckIffLost(INIT, es, |es|, id);
  }

  // ---------- Which verdict a row shows ----------

  /** The step publishes the final verdict v about row id. */
  ghost predicate Publishes(s: State, e: Event, id: Id, v: Verdict) {
    Enabled(s, e) &&
    match e
    case Report(w, u, ok) => ok && s.tasks[w].id == id && u == v
    case ReportCE(w, ok) => ok && s.tasks[w].id == id && v == CompilationError
    case _ => false
  }

  ghost predicate PublishedAt(s: State, es: seq<Event>, i: nat, id: Id, v: Verdict)
    requires Valid(s, es) && i < |es|
  {
    Publishes(At(s, es, i), es[i], id, v)
  }

  /** One of the first n steps published v about row id. */
  ghost predicate PublishedBy(s: State, es: seq<Event>, n: nat, id: Id, v: Verdict)
    requires Valid(s, es) && n <= |es|
  {
    exists i: nat :: i < n && PublishedAt(s, es, i, id, v)
  }

  ghost predicate RowsKnown(s: State, es: seq<Event>, n: nat)
    requires Valid(s, es) && n <= |es|
  {
    var t := At(s, es, n);
    forall id :: id in t.rows && Terminal(t.rows[id]) ==> PublishedBy(s, es, n, id, t.rows[id])
  }

  ghost predicate MessagesKnown(s: State, es: seq<Event>, n: nat)
    requires Valid(s, es) && n <= |es|
  {
    forall r :: r in At(s, es, n).results && Terminal(r.verdict) ==> PublishedBy(s, es, n, r.id, r.verdict)
  }

  lemma RowVerdictFrom(s: State, e: Event, id: Id)
    requires Enabled(s, e) && id in Apply(s, e).rows && Terminal(Apply(s, e).rows[id])
    ensures var v := Apply(s, e).rows[id];
      (id in s.rows && s.rows[id] == v) || (s.results != [] && s.results[0] == Result(id, v))
  {
  }

  lemma ResultFrom(s: State, e: Event, r: Result)
    requires Enabled(s, e) && r in Apply(s, e).results && Terminal(r.verdict)
    ensures r in s.results || Publishes(s, e, r.id, r.verdict)
  {
  }

  lemma PublishedLater(es: seq<Event>, n: nat, id: Id, v: Verdict)
    requires Valid(INIT, es) && n < |es|
    requires PublishedBy(INIT, es, n, id, v) || PublishedAt(INIT, es, n, id, v)
    ensures PublishedBy(INIT, es, n + 1, id, v)
  {
    if i: nat :| i < n && PublishedAt(INIT, es, i, id, v) {
      assert i < n + 1;
    }
  }

  lemma RowsStayKnown(es: seq<Event>, n: nat)
    requires Valid(INIT, es) && n < |es| && RowsKnown(INIT, es, n) && MessagesKnown(INIT, es, n)
    ensures RowsKnown(INIT, es, n + 1)
  {
    AtStep(INIT, es, n);
    var t := At(INIT, es, n + 1);
    forall id | id in t.rows && Terminal(t.rows[id])
      ensures PublishedBy(INIT, es, n + 1, id, t.rows[id])
    {
      RowVerdictFrom(At(INIT, es, n), es[n], id);
      PublishedLater(es, n, id, t.rows[id]);
    }
  }

  lemma MessagesStayKnown(es: seq<Event>, n: nat)
    requires Valid(INIT, es) && n < |es| && MessagesKnown(INIT, es, n)
    ensures MessagesKnown(INIT, es, n + 1)
  {
    AtStep(INIT, es, n);
    forall r | r in At(INIT, es, n + 1).results && Terminal(r.verdict)
      ensures PublishedBy(INIT, es, n + 1, r.id, r.verdict)
    {
      ResultFrom(At(INIT, es, n), es[n], r);
      PublishedLater(es, n, r.id, r.verdict);
    }
  }

  /** Along every run, each final verdict a row shows, or a message carries, was published about that very row. */
  lemma {:induction false} VerdictsArePublished(es: seq<Event>, n: nat)
    requires Valid(INIT, es) && n <= |es|
    ensures RowsKnown(INIT, es, n) && MessagesKnown(INIT, es, n)
    decreases n
  {
    if n > 0 {
      VerdictsArePublished(es, n - 1);
      RowsStayKnown(es, n - 1);
      MessagesStayKnown(es, n - 1);
    }
  }

  /**
   The step decides what row id will show: a published message about it, the oldest message requeued behind all
   others about it, or a reset while no message about it is on its way.
   */
  ghost predicate Decides(s: State, e: Event, id: Id) {
    Enabled(s, e) && id in s.rows &&
    match e
    case SayJudging(w, ok) => ok && s.tasks[w].id == id
    case Report(w, _, ok) => ok && s.tasks[w].id == id
    case ReportCE(w, ok) => ok && s.tasks[w].id == id
    case ResetRow(c, ok) => ok && s.calls[c].todo[0] == id && forall r :: r in s.results ==> r.id != id
    case NackResult(k) => s.results[0].id == id && BecomesLast(s, k)
    case _ => false
  }

  function Decided(s: State, e: Event): Verdict
    requires Enabled(s, e)
  {
    match e
    case SayJudging(_, _) => Judging
    case Report(_, v, _) => v
    case ReportCE(_, _) => CompilationError
    case NackResult(_) => s.results[0].verdict
    case _ => Pending
  }

  /** The verdict the latest of the first n steps that decided about row id gave it, PENDING if there was none. */
  ghost function LatestVerdict(s: State, es: seq<Event>, n: nat, id: Id): Verdict
    requires Valid(s, es) && n <= |es|
    decreases n
  {
    if n == 0 then Pending
    else
      AtStep(s, es, n - 1);
      if Decides(At(s, es, n - 1), es[n - 1], id) then Decided(At(s, es, n - 1), es[n - 1])
      else LatestVerdict(s, es, n - 1, id)
  }

  lemma LastForIgnores(rs: seq<Result>, id: Id, v: Verdict, u: Verdict)
    ensures (exists r :: r in rs && r.id == id) ==> LastFor(rs, id, v) == LastFor(rs, id, u)
    ensures (forall r :: r in rs ==> r.id != id) ==> LastFor(rs, id, v) == v
  {
    if r :| r in rs && r.id == id {
      var i :| 0 <= i < |rs| && rs[i] == r;
      LastForSome(rs, id, v, u, i);
    } else {
      LastForOther(rs, id, v);
    }
  }

  /** Exactly how one step changes what a row will show. */
  lemma UpcomingStep(s: State, e: Event, id: Id)
    requires Enabled(s, e) && id in s.rows && id in Apply(s, e).rows && IdsFresh(s)
    ensures Upcoming(Apply(s, e), id) == if Decides(s, e, id) then Decided(s, e) else Upcoming(s, id)
  {
    match e
    case Consume => ConsumeKeepsUpcoming(s, id);
    case NackResult(k) => NackChangesUpcoming(s, k, id);
    case SayJudging(_, _) => UpcomingAfterPublish(s, e, id);
    case Report(_, _, _) => UpcomingAfterPublish(s, e, id);
    case ReportCE(_, _) => UpcomingAfterPublish(s, e, id);
    case ResetRow(_, _) => LastForIgnores(s.results, id, Pending, s.rows[id]);
    case _ =>
  }

  ghost predicate CallFresh(c: Call, bound: nat) {
    match c
    case Creating(id, _) => id < bound
    case Rejudging(todo, _) => forall id :: id in todo ==> id < bound
  }

  ghost predicate CallsFresh(s: State) {
    forall c :: c in s.calls ==> CallFresh(s.calls[c], s.nextId)
  }

  ghost predicate QueueFresh(s: State) {
    forall id :: id in s.ready ==> id < s.nextId
  }

  ghost predicate TasksFresh(s: State) {
    forall w :: w in s.tasks ==> s.tasks[w].id < s.nextId
  }

  /** Nothing mentions a row that has not been inserted yet. */
  ghost predicate AllFresh(s: State) {
    && IdsFresh(s) && CallsFresh(s) && QueueFresh(s) && TasksFresh(s)
    && forall r :: r in s.results ==> r.id < s.nextId
  }

  lemma CallsStayFresh(s: State, e: Event)
    requires Enabled(s, e) && IdsFresh(s) && CallsFresh(s)
    ensures IdsFresh(Apply(s, e)) && CallsFresh(Apply(s, e))
  {
    if e.Requeue? || e.ResetRow? {
      var todo := s.calls[e.c].todo;
      assert CallFresh(s.calls[e.c], s.nextId);
      assert forall id :: id in todo[1..] ==> id in todo;
    }
  }

  lemma QueueStaysFresh(s: State, e: Event)
    requires Enabled(s, e) && CallsFresh(s) && QueueFresh(s) && TasksFresh(s)
    ensures QueueFresh(Apply(s, e))
  {
    if e.Requeue? || e.Enqueue? {
      assert CallFresh(s.calls[e.c], s.nextId);
    }
    if e.Requeue? {
      assert s.calls[e.c].todo[0] in s.calls[e.c].todo;
    }
  }

  lemma TasksStayFresh(s: State, e: Event)
    requires Enabled(s, e) && QueueFresh(s) && TasksFresh(s)
    ensures TasksFresh(Apply(s, e))
  {
  }

  lemma FreshStep(s: State, e: Event)
    requires Enabled(s, e) && AllFresh(s)
    ensures AllFresh(Apply(s, e))
  {
    CallsStayFresh(s, e);
    QueueStaysFresh(s, e);
    TasksStayFresh(s, e);
    var t := Apply(s, e);
    forall r | r in t.results
      ensures r.id < t.nextId
    {
      MessageFrom(s, e, r);
    }
  }

  lemma MessageFrom(s: State, e: Event, r: Result)
    requires Enabled(s, e) && r in Apply(s, e).results
    ensures r in s.results || exists w :: w in s.tasks && s.tasks[w].id == r.id
  {
  }

  lemma {:induction false} AlwaysFresh(es: seq<Event>, n: nat)
    requires Valid(INIT, es) && n <= |es|
    ensures AllFresh(At(INIT, es, n))
    ensures forall id :: id >= At(INIT, es, n).nextId ==> LatestVerdict(INIT, es, n, id) == Pending
    decreases n
  {
    if n > 0 {
      AlwaysFresh(es, n - 1);
      AtStep(INIT, es, n - 1);
      FreshStep(At(INIT, es, n - 1), es[n - 1]);
    }
  }

  /** Along every run, the verdict a row will show is the one the latest deciding step gave it. */
  lemma {:induction false} UpcomingIsLatest(es: seq<Event>, n: nat, id: Id)
    requires Valid(INIT, es) && n <= |es| && id in At(INIT, es, n).rows
    ensures Upcoming(At(INIT, es, n), id) == LatestVerdict(INIT, es, n, id)
    decreases n
  {
    if n > 0 {
      AtStep(INIT, es, n - 1);
      AlwaysFresh(es, n - 1);
      var s, e := At(INIT, es, n - 1), es[n - 1];
      if id in s.rows {
        UpcomingIsLatest(es, n - 1, id);
        UpcomingStep(s, e, id);
      } else {
        LastForIgnores(s.results, id, Pending, Pending);
      }
    }
  }

  /** At quiescence every row shows what the latest step that decided about it said. */
  lemma ShowsLatestVerdict(es: seq<Event>, id: Id)
    requires Valid(INIT, es) && Quiescent(Final(INIT, es)) && id in Final(INIT, es).rows
    ensures Final(INIT, es).rows[id] == LatestVerdict(INIT, es, |es|, id)
    ensures Terminal(Final(INIT, es).rows[id]) ==> PublishedBy(INIT, es, |es|, id, Final(INIT, es).rows[id])
  {
    UpcomingIsLatest(es, |es|, id);
    VerdictsArePublished(es, |es|);
  }

  // ---------- The system drains ----------

  /** Every step except new API calls and redeliveries: a crash, a nacked job or a nacked result. */
  predicate Progresses(e: Event) {
    !e.InsertRow? && !e.ListRows? && !e.Crash? && !e.NackResult? && !(e.Report? && !e.ok)
  }

  function TaskWeight(t: Task): nat {
    match t.phase
    case Started => 6
    case JudgingSent => 3
    case Reported => 1
  }

  function CallWeight(c: Call): nat {
    match c
    case Creating(_, Inserted) => 12
    case Creating(_, Uploaded) => 11
    case Creating(_, UndoingObject) => 3
    case Creating(_, UndoingRow) => 2
    case Rejudging(todo, wasReset) => 10 * |todo| + if wasReset then 1 else 2
  }

  ghost function Measure(s: State): nat {
    7 * |s.ready| + |s.results| + SumMap(s.tasks, TaskWeight) + SumMap(s.calls, CallWeight)
  }

  lemma WorkerUsesWork(s: State, e: Event)
    requires Enabled(s, e) && Progresses(e)
    requires e.Deliver? || e.SayJudging? || e.Report? || e.ReportCE? || e.Ack?
    ensures Measure(Apply(s, e)) < Measure(s)
  {
    if e.Deliver? {
      SumMapUpdate(s.tasks, TaskWeight, e.w, Task(e.id, Started));
      assert s.tasks - {e.w} == s.tasks;
    } else {
      TaskWork(s.tasks, e.w);
    }
  }

  /** No run can progress forever: each such step uses up some of the remaining work. */
  lemma ProgressUsesWork(s: State, e: Event)
    requires Enabled(s, e) && Progresses(e)
    ensures Measure(Apply(s, e)) < Measure(s)
  {
    match e
    case Consume =>
    case Upload(c, _) => CallWork(s.calls, c);
    case Enqueue(c, _) => CallWork(s.calls, c);
    case DropObject(c, _) => CallWork(s.calls, c);
    case DropRow(c, _) => CallWork(s.calls, c);
    case ResetRow(c, _) => CallWork(s.calls, c);
    case Requeue(c, _) => CallWork(s.calls, c);
    case EndRejudge(c) => CallWork(s.calls, c);
    case _ => WorkerUsesWork(s, e);
  }

  lemma TaskWork(m: map<nat, Task>, w: nat)
    requires w in m
    ensures SumMap(m, TaskWeight) == TaskWeight(m[w]) + SumMap(m - {w}, TaskWeight)
    ensures forall t {:trigger m[w := t]} ::
      SumMap(m[w := t], TaskWeight) == TaskWeight(t) + SumMap(m - {w}, TaskWeight)
  {
    SumMapRemove(m, TaskWeight, w);
    forall t { SumMapUpdate(m, TaskWeight, w, t); }
  }

  lemma CallWork(m: map<nat, Call>, c: nat)
    requires c in m
    ensures SumMap(m, CallWeight) == CallWeight(m[c]) + SumMap(m - {c}, CallWeight)
    ensures forall k {:trigger m[c := k]} ::
      SumMap(m[c := k], CallWeight) == CallWeight(k) + SumMap(m - {c}, CallWeight)
  {
    SumMapRemove(m, CallWeight, c);
    forall k { SumMapUpdate(m, CallWeight, c, k); }
  }

  /** The event does work of the normal course and loses no row. */
  ghost predicate WorksSafely(s: State, e: Event) {
    Progresses(e) && forall id :: !Strands(s, e, id)
  }

  /** Until the system is quiescent, some step is possible that progresses and loses no row. */
  lemma SomeStepProgresses(s: State) returns (e: Event)
    requires !Quiescent(s)
    ensures Enabled(s, e) && WorksSafely(s, e)
  {
    if c :| c in s.calls {
      match s.calls[c] {
        case Creating(_, Inserted) => e := Upload(c, true);
        case Creating(_, Uploaded) => e := Enqueue(c, true);
        case Creating(_, UndoingObject) => e := DropObject(c, true);
        case Creating(_, UndoingRow) => e := DropRow(c, true);
        case Rejudging(todo, wasReset) =>
          e := if todo == [] then EndRejudge(c)
               else if wasReset then Requeue(c, true)
               else ResetRow(c, todo[0] in s.rows);
      }
    } else if w :| w in s.tasks {
      e := match s.tasks[w].phase
           case Started => SayJudging(w, true)
           case JudgingSent => Report(w, Accepted, true)
           case Reported => Ack(w);
    } else if id :| id in s.ready {
      e := Deliver(0, id);
    } else {
      assert s.calls == map[] && s.tasks == map[];
      assert forall x :: x !in s.ready;
      assert |s.ready| == 0;
      e := Consume;
    }
  }

  ghost predicate RunsSafely(s: State, es: seq<Event>)
    requires Valid(s, es)
  {
    forall i :: 0 <= i < |es| ==> WorksSafely(At(s, es, i), es[i])
  }

  /** From every state the remaining work can be finished without losing a row. */
  lemma {:induction false} Drains(s: State) returns (es: seq<Event>)
    ensures Valid(s, es) && Quiescent(Final(s, es)) && RunsSafely(s, es)
    decreases Measure(s)
  {
    if Quiescent(s) {
      es := [];
    } else {
      var e := SomeStepProgresses(s);
      ProgressUsesWork(s, e);
      var rest := Drains(Apply(s, e));
      es := [e] + rest;
      assert es[1..] == rest;
      forall i | 0 <= i < |es|
        ensures WorksSafely(At(s, es, i), es[i])
      {
        if i > 0 {
          assert es[i] == rest[i - 1];
          assert At(s, es, i) == At(Apply(s, e), rest, i - 1);
        }
      }
    }
  }

  // ---------- Every job is backed by its row and its artifact ----------

  ghost predicate HasJob(s: State, id: Id) {
    id in s.ready || exists w :: w in s.tasks && s.tasks[w].id == id
  }

  ghost predicate JobsBacked(s: State) {
    forall id :: HasJob(s, id) ==> id in s.rows && id in s.objects
  }

  /** The create call of this row is over and left both the row and its artifact behind. */
  ghost predicate Settled(s: State, id: Id) {
    && id in s.rows && id in s.objects
    && forall c :: c in s.calls && s.calls[c].Creating? ==> s.calls[c].id != id
  }

  ghost predicate Orderly(s: State) {
    && IdsFresh(s)
    && (forall id :: HasJob(s, id) ==> Settled(s, id))
    && (forall c :: c in s.calls && s.calls[c].Creating? ==>
          && s.calls[c].id < s.nextId && s.calls[c].id in s.rows
          && (s.calls[c].stage.Uploaded? ==> s.calls[c].id in s.objects))
    && (forall c, d :: c in s.calls && d in s.calls && c != d && s.calls[c].Creating? && s.calls[d].Creating? ==>
          s.calls[c].id != s.calls[d].id)
  }

  /** A rejudge re-enqueues only rows whose create call is over. */
  ghost predicate RequeuesSettled(s: State, e: Event) {
    e.Requeue? && e.ok && Enabled(s, e) ==> Settled(s, s.calls[e.c].todo[0])
  }

  lemma JobsAfter(s: State, e: Event, id: Id)
    requires Enabled(s, e) && HasJob(Apply(s, e), id)
    ensures || HasJob(s, id)
            || (e.Enqueue? && e.ok && s.calls[e.c].id == id)
            || (e.Requeue? && e.ok && s.calls[e.c].todo[0] == id)
  {
    var t := Apply(s, e);
    if id !in t.ready {
      var w :| w in t.tasks && t.tasks[w].id == id;
      if e.Deliver? && e.w == w {
        assert id in s.ready;
      } else {
        assert w in s.tasks && s.tasks[w].id == id;
      }
    }
  }

  /** What one step does to the calls: at most one changes, and a create call keeps its row. */
  lemma CallsAfter(s: State, e: Event, c: nat)
    requires Enabled(s, e) && c in Apply(s, e).calls && Apply(s, e).calls[c].Creating?
    ensures || (e.InsertRow? && e.c == c && Apply(s, e).calls[c].id == s.nextId)
            || (c in s.calls && s.calls[c].Creating? && s.calls[c].id == Apply(s, e).calls[c].id)
  {
  }

  lemma CreatesStayBacked(s: State, e: Event, c: nat)
    requires Orderly(s) && Enabled(s, e)
    requires c in Apply(s, e).calls && Apply(s, e).calls[c].Creating?
    ensures var t := Apply(s, e); var k := t.calls[c];
      k.id < t.nextId && k.id in t.rows && (k.stage.Uploaded? ==> k.id in t.objects)
  {
    CallsAfter(s, e, c);
    if !(e.InsertRow? && e.c == c) {
      var id := s.calls[c].id;
      assert id in s.rows && id < s.nextId;
      if e.DropRow? || e.DropObject? {
        assert e.c != c ==> s.calls[e.c].id != id;
      }
    }
  }

  /** A settled row stays settled: only its own create call could undo it, and that call is over. */
  lemma SettledStays(s: State, e: Event, id: Id)
    requires IdsFresh(s) && Enabled(s, e) && Settled(s, id)
    ensures Settled(Apply(s, e), id)
  {
    forall c | c in Apply(s, e).calls && Apply(s, e).calls[c].Creating?
      ensures Apply(s, e).calls[c].id != id
    {
      CallsAfter(s, e, c);
    }
    if e.DropRow? || e.DropObject? {
      assert s.calls[e.c].id != id;
    }
  }

  lemma EnqueueSettles(s: State, c: nat)
    requires Orderly(s) && Enabled(s, Enqueue(c, true))
    ensures Settled(Apply(s, Enqueue(c, true)), s.calls[c].id)
  {
  }

  lemma {:induction false} OrderlyStep(s: State, e: Event)
    requires Orderly(s) && Enabled(s, e) && RequeuesSettled(s, e)
    ensures Orderly(Apply(s, e))
  {
    var t := Apply(s, e);
    StuckStep(s, e, 0);
    forall id | HasJob(t, id)
      ensures Settled(t, id)
    {
      JobsAfter(s, e, id);
      if e.Enqueue? && e.ok && s.calls[e.c].id == id {
        EnqueueSettles(s, e.c);
      } else {
        SettledStays(s, e, id);
      }
    }
    forall c | c in t.calls && t.calls[c].Creating?
      ensures t.calls[c].id < t.nextId && t.calls[c].id in t.rows
      ensures t.calls[c].stage.Uploaded? ==> t.calls[c].id in t.objects
    {
      CreatesStayBacked(s, e, c);
    }
    forall c, d | c in t.calls && d in t.calls && c != d && t.calls[c].Creating? && t.calls[d].Creating?
      ensures t.calls[c].id != t.calls[d].id
    {
      CallsAfter(s, e, c);
      CallsAfter(s, e, d);
    }
  }

  /**
   Safety over every run: jobs always refer to a stored row and an uploaded artifact, if rejudges wait for
   creates.
   */
  lemma {:induction false} JobsAlwaysBacked(s: State, es: seq<Event>, n: nat)
    requires Orderly(s) && Valid(s, es) && n <= |es|
    requires forall i :: 0 <= i < n ==> RequeuesSettled(At(s, es, i), es[i])
    ensures Orderly(At(s, es, n)) && JobsBacked(At(s, es, n))
    decreases n
  {
    if n > 0 {
      JobsAlwaysBacked(s, es, n - 1);
      AtStep(s, es, n - 1);
      OrderlyStep(At(s, es, n - 1), es[n - 1]);
    }
  }

  lemma InitIsOrderly()
    ensures Orderly(INIT) && forall id :: !Stuck(INIT, id)
  {
  }

  /** From the start: in every run in which rejudges wait for creates, no job ever lacks its row or its artifact. */
  lemma JobsBackedFromStart(es: seq<Event>, n: nat)
    requires Valid(INIT, es) && n <= |es|
    requires forall i :: 0 <= i < n ==> RequeuesSettled(At(INIT, es, i), es[i])
    ensures JobsBacked(At(INIT, es, n))
  {
    InitIsOrderly();
    JobsAlwaysBacked(INIT, es, n);
  }

  /** A rejudge that catches a row during its creation can leave a job without a row or an artifact behind. */
  lemma UnsettledJobDangles(s: State, id: Id) returns (es: seq<Event>)
    requires Orderly(s.(ready := s.ready - multiset{id})) && id in s.ready && !Settled(s, id)
    ensures Valid(s, es) && !JobsBacked(Final(s, es)) && forall i :: 0 <= i < |es| ==> !es[i].Requeue?
  {
    if id !in s.rows || id !in s.objects {
      es := [];
      assert HasJob(s, id);
    } else {
      var c :| c in s.calls && s.calls[c].Creating? && s.calls[c].id == id;
      es := match s.calls[c].stage
            case Inserted => [Upload(c, false), DropRow(c, true)]
            case Uploaded => [Enqueue(c, false), DropObject(c, true)]
            case UndoingObject => [DropObject(c, true)]
            case UndoingRow => [DropRow(c, true)];
      var s1 := Apply(s, es[0]);
      assert es[1..] == if |es| == 1 then [] else [es[1]];
      assert id in s1.ready;
      if |es| == 2 {
        assert es[1..][1..] == [];
        assert Final(s, es) == Final(s1, es[1..]) == Apply(s1, es[1]);
        assert HasJob(Apply(s1, es[1]), id);
      } else {
        assert Final(s, es) == s1;
        assert HasJob(s1, id);
      }
    }
  }

  lemma RejudgesKeepOrder(s: State, c: nat, k: Call)
    requires Orderly(s) && c in s.calls && s.calls[c].Rejudging? && k.Rejudging?
    ensures Orderly(s.(calls := s.calls[c := k]))
  {
    var t := s.(calls := s.calls[c := k]);
    forall id | HasJob(t, id)
      ensures Settled(t, id)
    {
      assert HasJob(s, id);
    }
  }

  /**
   Exactly when a rejudge may re-enqueue a row: no continuation in which the later rejudges are careful too
   ever holds an unbacked job if and only if the row's create call is over and left its row and artifact.
   */
  lemma RequeueIsSafeIffSettled(s: State, c: nat)
    requires Orderly(s) && Enabled(s, Requeue(c, true))
    ensures Settled(s, s.calls[c].todo[0]) <==>
      forall es :: Valid(Apply(s, Requeue(c, true)), es)
        && (forall i :: 0 <= i < |es| ==> RequeuesSettled(At(Apply(s, Requeue(c, true)), es, i), es[i]))
        ==> JobsBacked(Final(Apply(s, Requeue(c, true)), es))
  {
    var e := Requeue(c, true);
    var t := Apply(s, e);
    var id := s.calls[c].todo[0];
    if Settled(s, id) {
      OrderlyStep(s, e);
      forall es | Valid(t, es) && forall i :: 0 <= i < |es| ==> RequeuesSettled(At(t, es, i), es[i])
        ensures JobsBacked(Final(t, es))
      {
        JobsAlwaysBacked(t, es, |es|);
      }
    } else {
      assert t.ready - multiset{id} == s.ready;
      RejudgesKeepOrder(s, c, t.calls[c]);
      assert s.(calls := s.calls[c := t.calls[c]]) == t.(ready := s.ready);
      forall x | x in s.calls && s.calls[x].Creating?
        ensures x in t.calls && t.calls[x] == s.calls[x]
      {
      }
      assert !Settled(t, id);
      var es := UnsettledJobDangles(t, id);
    }
  }

  /** The race on a concrete run: row 0 is rejudged while its upload fails, and its job outlives it. */
  lemma RejudgeRacesCreate() returns (es: seq<Event>)
    ensures es ==
      [InsertRow(0), ListRows(1, [0]), ResetRow(1, true), Requeue(1, true), Upload(0, false), DropRow(0, true)]
    ensures Valid(INIT, es) && 0 in Final(INIT, es).ready && 0 !in Final(INIT, es).rows
  {
    var inserted, undoing, requeued := Creating(0, Inserted), Creating(0, UndoingRow), Rejudging([], false);
    es := [];
    es := FinalCons(NoArtifact(multiset{0}, map[0 := undoing, 1 := requeued]), DropRow(0, true), es);
    es := Step(NoArtifact(multiset{0}, map[0 := inserted, 1 := requeued]), Upload(0, false),
               NoArtifact(multiset{0}, map[0 := undoing, 1 := requeued]), es);
    es := RejudgeNoArtifact(map[0 := inserted], es);
    es := Step(INIT, InsertRow(0), NoArtifact(multiset{}, map[0 := inserted]), es);
  }

  /** A rejudge resets the row without an artifact and requeues it. */
  lemma RejudgeNoArtifact(calls: map<nat, Call>, es: seq<Event>) returns (fs: seq<Event>)
    requires 1 !in calls && Valid(NoArtifact(multiset{0}, calls[1 := Rejudging([], false)]), es)
    ensures fs == [ListRows(1, [0]), ResetRow(1, true), Requeue(1, true)] + es
    ensures Valid(NoArtifact(multiset{}, calls), fs)
    ensures Final(NoArtifact(multiset{}, calls), fs)
       == Final(NoArtifact(multiset{0}, calls[1 := Rejudging([], false)]), es)
  {
    var listed, reset := calls[1 := Rejudging([0], false)], calls[1 := Rejudging([0], true)];
    Requeued(calls);
    fs := Step(NoArtifact(multiset{}, reset), Requeue(1, true),
               NoArtifact(multiset{0}, calls[1 := Rejudging([], false)]), es);
    WasReset(calls);
    fs := Step(NoArtifact(multiset{}, listed), ResetRow(1, true), NoArtifact(multiset{}, reset), fs);
    fs := FinalCons(NoArtifact(multiset{}, calls), ListRows(1, [0]), fs);
  }

  lemma Requeued(calls: map<nat, Call>)
    ensures var s, e := NoArtifact(multiset{}, calls[1 := Rejudging([0], true)]), Requeue(1, true);
      Enabled(s, e) && Apply(s, e) == NoArtifact(multiset{0}, calls[1 := Rejudging([], false)])
  {
    assert [0][1..] == [];
    assert calls[1 := Rejudging([0], true)][1 := Rejudging([], false)] == calls[1 := Rejudging([], false)];
  }

  lemma WasReset(calls: map<nat, Call>)
    ensures var s, e := NoArtifact(multiset{}, calls[1 := Rejudging([0], false)]), ResetRow(1, true);
      Enabled(s, e) && Apply(s, e) == NoArtifact(multiset{}, calls[1 := Rejudging([0], true)])
  {
    assert calls[1 := Rejudging([0], false)][1 := Rejudging([0], true)] == calls[1 := Rejudging([0], true)];
    assert map[0 := Pending][0 := Pending] == map[0 := Pending];
  }

  /** Row 0 is stored without its artifact. */
  function NoArtifact(ready: multiset<Id>, calls: map<nat, Call>): State {
    State(1, map[0 := Pending], {}, ready, map[], [], calls)
  }

  /**
   A rejudge at any later time leaves such a job behind when a create has failed and so has its compensating DELETE:
   here the artifact was never stored.
   */
  lemma RejudgeAfterFailedUndo() returns (es: seq<Event>)
    ensures es ==
      [InsertRow(0), Upload(0, false), DropRow(0, false), ListRows(1, [0]), ResetRow(1, true), Requeue(1, true)]
    ensures Valid(INIT, es)
    ensures var s := Final(INIT, es);
      0 in s.ready && 0 in s.rows && 0 !in s.objects && forall c :: c in s.calls ==> !s.calls[c].Creating?
  {
    var inserted, undoing := Creating(0, Inserted), Creating(0, UndoingRow);
    es := RejudgeNoArtifact(map[], []);
    es := Step(NoArtifact(multiset{}, map[0 := undoing]), DropRow(0, false), NoArtifact(multiset{}, map[]), es);
    es := Step(NoArtifact(multiset{}, map[0 := inserted]), Upload(0, false),
               NoArtifact(multiset{}, map[0 := undoing]), es);
    es := Step(INIT, InsertRow(0), NoArtifact(multiset{}, map[0 := inserted]), es);
  }

  /** And here it was stored and removed again, because the job could not be published. */
  lemma RejudgeAfterRemovedArtifact() returns (es: seq<Event>)
    ensures es ==
      [InsertRow(0), Upload(0, true), Enqueue(0, false), DropObject(0, true), DropRow(0, false), ListRows(1, [0]),
       ResetRow(1, true), Requeue(1, true)]
    ensures Valid(INIT, es)
    ensures var s := Final(INIT, es);
      0 in s.ready && 0 in s.rows && 0 !in s.objects && forall c :: c in s.calls ==> !s.calls[c].Creating?
  {
    var undoing := Creating(0, UndoingRow);
    es := RejudgeNoArtifact(map[], []);
    es := Step(NoArtifact(multiset{}, map[0 := undoing]), DropRow(0, false), NoArtifact(multiset{}, map[]), es);
    es := UntilRemoved(es);
  }

  /** The create up to the removal of its artifact. */
  lemma UntilRemoved(es: seq<Event>) returns (fs: seq<Event>)
    requires Valid(NoArtifact(multiset{}, map[0 := Creating(0, UndoingRow)]), es)
    ensures fs == [InsertRow(0), Upload(0, true), Enqueue(0, false), DropObject(0, true)] + es && Valid(INIT, fs)
    ensures Final(INIT, fs) == Final(NoArtifact(multiset{}, map[0 := Creating(0, UndoingRow)]), es)
  {
    var s1 := NoArtifact(multiset{}, map[0 := Creating(0, Inserted)]);
    var s2 := s1.(objects := {0}, calls := map[0 := Creating(0, Uploaded)]);
    var s3 := s2.(calls := map[0 := Creating(0, UndoingObject)]);
    fs := Step(s3, DropObject(0, true), NoArtifact(multiset{}, map[0 := Creating(0, UndoingRow)]), es);
    fs := Step(s2, Enqueue(0, false), s3, fs);
    fs := Step(s1, Upload(0, true), s2, fs);
    fs := Step(INIT, InsertRow(0), s1, fs);
  }

  lemma FinalCons(s: State, e: Event, es: seq<Event>) returns (fs: seq<Event>)
    requires Enabled(s, e) && Valid(Apply(s, e), es)
    ensures fs == [e] + es && Valid(s, fs) && Final(s, fs) == Final(Apply(s, e), es)
  {
    fs := [e] + es;
    assert fs[1..] == es;
  }

  /** Row 0 is stored and its job is with worker 0. */
  function Working(v: Verdict, phase: Phase, results: seq<Result>): State {
    State(1, map[0 := v], {0}, multiset{}, map[0 := Task(0, phase)], results, map[])
  }

  /** Row 0 is stored and nobody has its job. */
  function Resting(v: Verdict, results: seq<Result>, calls: map<nat, Call>): State {
    State(1, map[0 := v], {0}, multiset{}, map[], results, calls)
  }

  lemma Step(s: State, e: Event, t: State, es: seq<Event>) returns (fs: seq<Event>)
    requires Enabled(s, e) && Apply(s, e) == t && Valid(t, es)
    ensures fs == [e] + es && Valid(s, fs) && Final(s, fs) == Final(t, es)
  {
    fs := FinalCons(s, e, es);
  }

  lemma UntilQueued(es: seq<Event>) returns (fs: seq<Event>)
    requires Valid(Resting(Pending, [], map[]).(ready := multiset{0}), es)
    ensures Valid(INIT, fs) && Final(INIT, fs) == Final(Resting(Pending, [], map[]).(ready := multiset{0}), es)
  {
    var s1 := Apply(INIT, InsertRow(0));
    var s2 := Apply(s1, Upload(0, true));
    fs := Step(s2, Enqueue(0, true), Resting(Pending, [], map[]).(ready := multiset{0}), es);
    fs := FinalCons(s1, Upload(0, true), fs);
    fs := FinalCons(INIT, InsertRow(0), fs);
  }

  /** The job is created and delivered, and the worker has or has not said that it is judging. */
  lemma UntilTaken(said: bool, es: seq<Event>) returns (fs: seq<Event>)
    requires Valid(Working(Pending, JudgingSent, if said then [Result(0, Judging)] else []), es)
    ensures Valid(INIT, fs)
    ensures Final(INIT, fs) == Final(Working(Pending, JudgingSent, if said then [Result(0, Judging)] else []), es)
  {
    var s := Working(Pending, Started, []);
    fs := Step(s, SayJudging(0, said), Working(Pending, JudgingSent, if said then [Result(0, Judging)] else []), es);
    fs := Step(Resting(Pending, [], map[]).(ready := multiset{0}), Deliver(0, 0), s, fs);
    fs := UntilQueued(fs);
  }

  /** A worker reports JUDGING, then a compile error whose publish fails; the job is acknowledged all the same. */
  lemma CompileErrorIsLost() returns (es: seq<Event>)
    ensures Valid(INIT, es) && Quiescent(Final(INIT, es))
    ensures 0 in Final(INIT, es).rows && Final(INIT, es).rows[0] == Judging
  {
    es := [];
    es := Step(Working(Judging, Reported, []), Ack(0), Resting(Judging, [], map[]), es);
    es := Step(Working(Judging, JudgingSent, []), ReportCE(0, false), Working(Judging, Reported, []), es);
    es := Step(Working(Pending, JudgingSent, [Result(0, Judging)]), Consume, Working(Judging, JudgingSent, []), es);
    es := UntilTaken(true, es);
  }

  /** A judged row is reset to PENDING and its new job cannot be published. */
  lemma RejudgeIsLost() returns (es: seq<Event>)
    ensures Valid(INIT, es) && Quiescent(Final(INIT, es))
    ensures 0 in Final(INIT, es).rows && Final(INIT, es).rows[0] == Pending
  {
    es := FailingRejudge();
    es := Step(Resting(Pending, [Result(0, Accepted)], map[]), Consume, Resting(Accepted, [], map[]), es);
    es := Step(Working(Pending, Reported, [Result(0, Accepted)]), Ack(0),
               Resting(Pending, [Result(0, Accepted)], map[]), es);
    es := Step(Working(Pending, JudgingSent, []), Report(0, Accepted, true),
               Working(Pending, Reported, [Result(0, Accepted)]), es);
    es := UntilTaken(false, es);
  }

  lemma FailingRejudge() returns (es: seq<Event>)
    ensures Valid(Resting(Accepted, [], map[]), es)
    ensures Final(Resting(Accepted, [], map[]), es) == Resting(Pending, [], map[])
  {
    var listed, reset := Rejudging([0], false), Rejudging([0], true);
    es := [];
    es := Step(Resting(Pending, [], map[1 := reset]), Requeue(1, false), Resting(Pending, [], map[]), es);
    es := Step(Resting(Accepted, [], map[1 := listed]), ResetRow(1, true), Resting(Pending, [], map[1 := reset]), es);
    es := Step(Resting(Accepted, [], map[]), ListRows(1, [0]), Resting(Accepted, [], map[1 := listed]), es);
  }

  /** The job of a new row cannot be published, its artifact is removed, and the DELETE of the row fails. */
  lemma FailedUndoIsLost() returns (es: seq<Event>)
    ensures Valid(INIT, es) && Quiescent(Final(INIT, es))
    ensures 0 in Final(INIT, es).rows && Final(INIT, es).rows[0] == Pending
  {
    var s1 := Apply(INIT, InsertRow(0));
    var s2 := Apply(s1, Upload(0, true));
    var s3 := Apply(s2, Enqueue(0, false));
    var s4 := Apply(s3, DropObject(0, true));
    var s5 := Apply(s4, DropRow(0, false));
    es := [];
    es := FinalCons(s4, DropRow(0, false), es);
    es := FinalCons(s3, DropObject(0, true), es);
    es := FinalCons(s2, Enqueue(0, false), es);
    es := FinalCons(s1, Upload(0, true), es);
    es := FinalCons(INIT, InsertRow(0), es);
  }

  /** The JUDGING result is nacked and requeued behind the terminal one. */
  lemma OvertakenResultIsLost() returns (es: seq<Event>)
    ensures Valid(INIT, es) && Quiescent(Final(INIT, es))
    ensures 0 in Final(INIT, es).rows && Final(INIT, es).rows[0] == Judging
  {
    var judging, accepted := Result(0, Judging), Result(0, Accepted);
    es := Overtakes();
    es := Step(Working(Pending, Reported, [judging, accepted]), Ack(0),
               Resting(Pending, [judging, accepted], map[]), es);
    es := Step(Working(Pending, JudgingSent, [judging]), Report(0, Accepted, true),
               Working(Pending, Reported, [judging, accepted]), es);
    es := UntilTaken(true, es);
  }

  lemma Overtakes() returns (es: seq<Event>)
    ensures var s := Resting(Pending, [Result(0, Judging), Result(0, Accepted)], map[]);
      Valid(s, es) && Final(s, es) == Resting(Judging, [], map[])
  {
    var judging, accepted := Result(0, Judging), Result(0, Accepted);
    es := [];
    es := Step(Resting(Accepted, [judging], map[]), Consume, Resting(Judging, [], map[]), es);
    es := Step(Resting(Pending, [accepted, judging], map[]), Consume, Resting(Accepted, [judging], map[]), es);
    es := Step(Resting(Pending, [judging, accepted], map[]), NackResult(1),
               Resting(Pending, [accepted, judging], map[]), es);
  }
}
