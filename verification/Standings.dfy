/** Contest standings. */
module Standings {
  import opened Options
  import opened Verdicts
  import opened MapSums

  // The SQL aggregate and the totals, as a specification over the raw list of submissions.

  /** One row of contest_submissions; seconds is the time from the contest's start to the submission. */
  datatype Sub = Sub(user: int, problem: int, verdict: Verdict, score: int, seconds: real)

  datatype Scoring = ICPC | IOI | OtherScoring

  // ---------- The specification, per user and problem ----------

  function Problems(subs: seq<Sub>, u: int): set<int> {
    set i | 0 <= i < |subs| && subs[i].user == u :: subs[i].problem
  }

  function Users(subs: seq<Sub>): set<int> {
    set i | 0 <= i < |subs| :: subs[i].user
  }

  /** All submissions of the user to the problem, judged or not, before or after the first accepted one. */
  function Attempts(subs: seq<Sub>, u: int, p: int): nat {
    if subs == [] then 0
    else
      var s := subs[|subs| - 1];
      Attempts(subs[..|subs| - 1], u, p) + if s.user == u && s.problem == p then 1 else 0
  }

  function BestScore(subs: seq<Sub>, u: int, p: int): Option<int> {
    if subs == [] then None
    else
      var s, b := subs[|subs| - 1], BestScore(subs[..|subs| - 1], u, p);
      if s.user != u || s.problem != p || (b.Some? && b.value >= s.score) then b else Some(s.score)
  }

  function FirstAccept(subs: seq<Sub>, u: int, p: int): Option<real> {
    if subs == [] then None
    else
      var s, f := subs[|subs| - 1], FirstAccept(subs[..|subs| - 1], u, p);
      if s.user != u || s.problem != p || !s.verdict.Accepted? || (f.Some? && f.value <= s.seconds) then f
      else Some(s.seconds)
  }

  /** Go's conversion of a float to int. */
  function Truncated(x: real): (t: int)
    ensures x >= 0.0 ==> t as real <= x < t as real + 1.0
    ensures x < 0.0 ==> t as real - 1.0 < x <= t as real
  {
    if x >= 0.0 then x.Floor else -((-x).Floor)
  }

  function Gain(k: Scoring, subs: seq<Sub>, u: int): int -> int {
    (p: int) =>
      match k
      case ICPC => if FirstAccept(subs, u, p).Some? then 1 else 0
      case IOI => (match BestScore(subs, u, p) case Some(b) => b case None => 0)
      case OtherScoring => 0
  }

  function Penalty(k: Scoring, subs: seq<Sub>, u: int): int -> int {
    (p: int) =>
      match FirstAccept(subs, u, p)
      case Some(f) => if k.ICPC? then Truncated(f) + 20 * 60 * (Attempts(subs, u, p) - 1) else 0
      case None => 0
  }

  ghost function Total(k: Scoring, subs: seq<Sub>, u: int): int {
    Sum(Problems(subs, u), Gain(k, subs, u))
  }

  ghost function TotalPenalty(k: Scoring, subs: seq<Sub>, u: int): int {
    Sum(Problems(subs, u), Penalty(k, subs, u))
  }

  /** v stands strictly above u. */
  ghost predicate Above(k: Scoring, subs: seq<Sub>, v: int, u: int) {
    || Total(k, subs, v) > Total(k, subs, u)
    || (k.ICPC? && Total(k, subs, v) == Total(k, subs, u) && TotalPenalty(k, subs, v) < TotalPenalty(k, subs, u))
  }

  lemma {:induction false} BestScoreIsMaximum(subs: seq<Sub>, u: int, p: int)
    ensures BestScore(subs, u, p).Some? <==> p in Problems(subs, u)
    ensures BestScore(subs, u, p).Some? ==>
      && (exists s :: s in subs && s.user == u && s.problem == p && s.score == BestScore(subs, u, p).value)
      && (forall s :: s in subs && s.user == u && s.problem == p ==> s.score <= BestScore(subs, u, p).value)
    decreases |subs|
  {
    if subs != [] {
      var n := |subs| - 1;
      BestScoreIsMaximum(subs[..n], u, p);
      assert subs == subs[..n] + [subs[n]];
      ProblemsGrow(subs[..n], subs[n], u);
    }
  }

  lemma {:induction false} FirstAcceptIsMinimum(subs: seq<Sub>, u: int, p: int)
    ensures FirstAccept(subs, u, p).Some? <==>
      exists s :: s in subs && s.user == u && s.problem == p && s.verdict.Accepted?
    ensures FirstAccept(subs, u, p).Some? ==>
      && (exists s :: s in subs && s.user == u && s.problem == p && s.verdict.Accepted?
                  && s.seconds == FirstAccept(subs, u, p).value)
      && (forall s :: s in subs && s.user == u && s.problem == p && s.verdict.Accepted? ==>
              FirstAccept(subs, u, p).value <= s.seconds)
    decreases |subs|
  {
    if subs != [] {
      var n := |subs| - 1;
      FirstAcceptIsMinimum(subs[..n], u, p);
      assert subs == subs[..n] + [subs[n]];
    }
  }

  lemma ProblemsGrow(subs: seq<Sub>, s: Sub, u: int)
    ensures Problems(subs + [s], u) == Problems(subs, u) + if s.user == u then {s.problem} else {}
  {
    var more := subs + [s];
    assert forall i :: 0 <= i < |subs| ==> more[i] == subs[i];
    if s.user == u {
      assert more[|subs|].problem in Problems(more, u);
    }
    forall p | p in Problems(subs, u)
      ensures p in Problems(more, u)
    {
      var i :| 0 <= i < |subs| && subs[i].user == u && subs[i].problem == p;
      assert more[i].problem == p;
    }
  }

  function Solved(subs: seq<Sub>, u: int): set<int> {
    set p | p in Problems(subs, u) && FirstAccept(subs, u, p).Some?
  }

  /** The ICPC total is the number of problems with an accepted submission. */
  lemma IcpcTotalIsSolvedCount(subs: seq<Sub>, u: int)
    ensures Total(ICPC, subs, u) == |Solved(subs, u)|
  {
    CountBits(Problems(subs, u), Gain(ICPC, subs, u), Solved(subs, u));
  }

  // ---------- What one more submission changes ----------

  /** One more submission changes the aggregates of its own user and problem only. */
  lemma AggregatesGrow(subs: seq<Sub>, s: Sub, u: int, p: int)
    ensures var more := subs + [s];
      if s.user == u && s.problem == p then
        var b, f := BestScore(subs, u, p), FirstAccept(subs, u, p);
        && Attempts(more, u, p) == Attempts(subs, u, p) + 1
        && BestScore(more, u, p) == (if b.Some? && b.value >= s.score then b else Some(s.score))
        && FirstAccept(more, u, p) ==
             (if !s.verdict.Accepted? || (f.Some? && f.value <= s.seconds) then f else Some(s.seconds))
      else
        && Attempts(more, u, p) == Attempts(subs, u, p)
        && BestScore(more, u, p) == BestScore(subs, u, p)
        && FirstAccept(more, u, p) == FirstAccept(subs, u, p)
  {
    assert (subs + [s])[..|subs + [s]| - 1] == subs;
  }

  lemma SummandsGrow(k: Scoring, subs: seq<Sub>, s: Sub, u: int, p: int)
    requires s.user != u || s.problem != p
    ensures Gain(k, subs + [s], u)(p) == Gain(k, subs, u)(p)
    ensures Penalty(k, subs + [s], u)(p) == Penalty(k, subs, u)(p)
  {
    AggregatesGrow(subs, s, u, p);
  }

  lemma OthersUnchanged(k: Scoring, subs: seq<Sub>, s: Sub, u: int)
    requires s.user != u
    ensures Total(k, subs + [s], u) == Total(k, subs, u) && TotalPenalty(k, subs + [s], u) == TotalPenalty(k, subs, u)
  {
    ProblemsGrow(subs, s, u);
    assert Problems(subs + [s], u) == Problems(subs, u);
    forall p
      ensures Gain(k, subs + [s], u)(p) == Gain(k, subs, u)(p)
      ensures Penalty(k, subs + [s], u)(p) == Penalty(k, subs, u)(p)
    {
      SummandsGrow(k, subs, s, u, p);
    }
    SumSame(Problems(subs, u), Gain(k, subs, u), Gain(k, subs + [s], u));
    SumSame(Problems(subs, u), Penalty(k, subs, u), Penalty(k, subs + [s], u));
  }

  /** The totals of the submitting user move by the change of one summand. */
  lemma OwnerMoves(k: Scoring, subs: seq<Sub>, s: Sub)
    ensures Total(k, subs + [s], s.user)
         == Total(k, subs, s.user) + Gain(k, subs + [s], s.user)(s.problem) - Gain(k, subs, s.user)(s.problem)
    ensures TotalPenalty(k, subs + [s], s.user)
         == TotalPenalty(k, subs, s.user)
           + Penalty(k, subs + [s], s.user)(s.problem) - Penalty(k, subs, s.user)(s.problem)
  {
    var u, p := s.user, s.problem;
    ProblemsGrow(subs, s, u);
    forall q | q != p
      ensures Gain(k, subs + [s], u)(q) == Gain(k, subs, u)(q)
      ensures Penalty(k, subs + [s], u)(q) == Penalty(k, subs, u)(q)
    {
      SummandsGrow(k, subs, s, u, q);
    }
    OneSummandChanges(Problems(subs, u), p, Gain(k, subs, u), Gain(k, subs + [s], u));
    OneSummandChanges(Problems(subs, u), p, Penalty(k, subs, u), Penalty(k, subs + [s], u));
    if p !in Problems(subs, u) {
      NotAttempted(k, subs, u, p);
    }
  }

  lemma NotAttempted(k: Scoring, subs: seq<Sub>, u: int, p: int)
    requires p !in Problems(subs, u)
    ensures FirstAccept(subs, u, p).None? && BestScore(subs, u, p).None?
    ensures Gain(k, subs, u)(p) == 0 && Penalty(k, subs, u)(p) == 0
  {
    BestScoreIsMaximum(subs, u, p);
    FirstAcceptIsMinimum(subs, u, p);
    forall s | s in subs
      ensures s.user != u || s.problem != p
    {
      var i :| 0 <= i < |subs| && subs[i] == s;
      assert s.user == u ==> subs[i].problem in Problems(subs, u);
    }
  }

  /** The exact effect of a new submission on its user's IOI total. */
  lemma OwnerTotalIoi(subs: seq<Sub>, s: Sub)
    ensures var b := BestScore(subs, s.user, s.problem);
      Total(IOI, subs + [s], s.user) == Total(IOI, subs, s.user)
        + if b.None? then s.score else if s.score > b.value then s.score - b.value else 0
  {
    AggregatesGrow(subs, s, s.user, s.problem);
    OwnerMoves(IOI, subs, s);
  }

  /** The exact effect of a new submission on its user's solved count. */
  lemma OwnerTotalIcpc(subs: seq<Sub>, s: Sub)
    ensures Total(ICPC, subs + [s], s.user) == Total(ICPC, subs, s.user)
        + if FirstAccept(subs, s.user, s.problem).None? && s.verdict.Accepted? then 1 else 0
  {
    AggregatesGrow(subs, s, s.user, s.problem);
    OwnerMoves(ICPC, subs, s);
  }

  lemma PenaltyMeans(subs: seq<Sub>, u: int, p: int)
    ensures Penalty(ICPC, subs, u)(p) == match FirstAccept(subs, u, p)
                                         case Some(f) => Truncated(f) + 1200 * Attempts(subs, u, p) - 1200
                                         case None => 0
  {
  }

  /**
   The penalty of a solved problem is the whole seconds up to the earliest accepted submission, and 20 minutes for
   each of the user's submissions to it but one.
   */
  lemma PenaltyOfSolved(subs: seq<Sub>, u: int, p: int)
    requires FirstAccept(subs, u, p).Some?
    ensures var f := FirstAccept(subs, u, p).value;
      var seconds := Penalty(ICPC, subs, u)(p) - 1200 * (Attempts(subs, u, p) - 1);
      && (f >= 0.0 ==> seconds as real <= f < seconds as real + 1.0)
      && (f < 0.0 ==> seconds as real - 1.0 < f <= seconds as real)
    ensures Attempts(subs, u, p) == |set i | 0 <= i < |subs| && subs[i].user == u && subs[i].problem == p| >= 1
  {
    AttemptsAreCounted(subs, u, p);
    FirstAcceptIsMinimum(subs, u, p);
    var s :| s in subs && s.user == u && s.problem == p;
    var i :| 0 <= i < |subs| && subs[i] == s;
    assert i in set i | 0 <= i < |subs| && subs[i].user == u && subs[i].problem == p;
    PenaltyMeans(subs, u, p);
  }

  /** Attempts counts the user's submissions to the problem. */
  lemma {:induction false} AttemptsAreCounted(subs: seq<Sub>, u: int, p: int)
    ensures Attempts(subs, u, p) == |set i | 0 <= i < |subs| && subs[i].user == u && subs[i].problem == p|
    decreases |subs|
  {
    if subs != [] {
      var n := |subs| - 1;
      AttemptsAreCounted(subs[..n], u, p);
      var before := set i | 0 <= i < n && subs[..n][i].user == u && subs[..n][i].problem == p;
      var all := set i | 0 <= i < |subs| && subs[i].user == u && subs[i].problem == p;
      if subs[n].user == u && subs[n].problem == p {
        assert all == before + {n};
      } else {
        assert all == before;
      }
    }
  }

  /**
   The exact effect of a new submission on its user's penalty: nothing while the problem is unsolved, the
   whole debt when it gets solved, and 20 minutes for each submission after that, accepted or not.
   */
  lemma OwnerPenalty(subs: seq<Sub>, s: Sub)
    ensures var f, n := FirstAccept(subs, s.user, s.problem), Attempts(subs, s.user, s.problem);
      TotalPenalty(ICPC, subs + [s], s.user) == TotalPenalty(ICPC, subs, s.user)
        + match f
          case None => if s.verdict.Accepted? then Truncated(s.seconds) + 1200 * n else 0
          case Some(t) => 1200 + if s.verdict.Accepted? && s.seconds < t then Truncated(s.seconds) - Truncated(t) else 0
  {
    AggregatesGrow(subs, s, s.user, s.problem);
    PenaltyMeans(subs + [s], s.user, s.problem);
    PenaltyMeans(subs, s.user, s.problem);
    OwnerMoves(ICPC, subs, s);
  }

  /**
   An added row never lowers the solved count. It would lower the IOI total exactly as the first one of its problem
   and with a negative score; the rows the code adds have score 0, and get another one by an update.
   */
  lemma WhenTotalsDrop(subs: seq<Sub>, s: Sub, u: int)
    ensures Total(ICPC, subs + [s], u) >= Total(ICPC, subs, u)
    ensures Total(IOI, subs + [s], u) < Total(IOI, subs, u) <==>
      u == s.user && s.problem !in Problems(subs, u) && s.score < 0
  {
    if u == s.user {
      OwnerTotalIoi(subs, s);
      OwnerTotalIcpc(subs, s);
      BestScoreIsMaximum(subs, u, s.problem);
    } else {
      OthersUnchanged(ICPC, subs, s, u);
      OthersUnchanged(IOI, subs, s, u);
    }
  }

  /** As it is inserted: not judged yet. */
  predicate IsNew(s: Sub) {
    s.verdict.Pending? && s.score == 0
  }

  /**
   A new row lowers nobody's totals and solves nothing. It raises its user's IOI total exactly when all scores the user
   had for the problem are negative, and costs 20 minutes at once when the user has solved the problem before.
   */
  lemma NewRowLowersNothing(subs: seq<Sub>, s: Sub, u: int)
    requires IsNew(s)
    ensures Total(ICPC, subs + [s], u) == Total(ICPC, subs, u)
    ensures Total(IOI, subs + [s], u) >= Total(IOI, subs, u)
    ensures Total(IOI, subs + [s], u) > Total(IOI, subs, u) <==>
      && u == s.user && s.problem in Problems(subs, u)
      && forall x :: x in subs && x.user == u && x.problem == s.problem ==> x.score < 0
    ensures TotalPenalty(ICPC, subs + [s], u) == TotalPenalty(ICPC, subs, u)
          + if u == s.user && FirstAccept(subs, u, s.problem).Some? then 1200 else 0
  {
    if u == s.user {
      OwnerTotalIoi(subs, s);
      OwnerTotalIcpc(subs, s);
      OwnerPenalty(subs, s);
      BestScoreIsMaximum(subs, u, s.problem);
    } else {
      OthersUnchanged(ICPC, subs, s, u);
      OthersUnchanged(IOI, subs, s, u);
    }
  }

  // ---------- What an update of a stored row changes ----------

  /** Row i gets a verdict and a score; a rejudge sets them to PENDING and 0 first. */
  function Updated(subs: seq<Sub>, i: nat, verdict: Verdict, score: int): seq<Sub>
    requires i < |subs|
  {
    subs[i := subs[i].(verdict := verdict, score := score)]
  }

  function OtherRows(subs: seq<Sub>, i: nat): seq<Sub>
    requires i < |subs|
  {
    subs[..i] + subs[i + 1..]
  }

  function Higher(b: Option<int>, score: int): int {
    if b.Some? && b.value >= score then b.value else score
  }

  function Earlier(f: Option<real>, s: Sub): Option<real> {
    if !s.verdict.Accepted? || (f.Some? && f.value <= s.seconds) then f else Some(s.seconds)
  }

  /** The rows without s and with it, by what they give for the user and problem of s. */
  ghost predicate Around(without: seq<Sub>, s: Sub, all: seq<Sub>) {
    var u, p := s.user, s.problem;
    && Attempts(all, u, p) == Attempts(without, u, p) + 1
    && BestScore(all, u, p) == Some(Higher(BestScore(without, u, p), s.score))
    && FirstAccept(all, u, p) == Earlier(FirstAccept(without, u, p), s)
  }

  lemma AroundMore(without: seq<Sub>, s: Sub, all: seq<Sub>, t: Sub)
    requires Around(without, s, all)
    ensures Around(without + [t], s, all + [t])
  {
    AggregatesGrow(without, t, s.user, s.problem);
    AggregatesGrow(all, t, s.user, s.problem);
  }

  /** The aggregates of a row's user and problem are those of the other rows, put together with the row. */
  lemma {:induction false} AggregatesAround(a: seq<Sub>, s: Sub, b: seq<Sub>)
    ensures Around(a + b, s, a + [s] + b)
    decreases |b|
  {
    if b == [] {
      assert a + [s] + b == a + [s] && a + b == a;
      AggregatesGrow(a, s, s.user, s.problem);
    } else {
      var n := |b| - 1;
      AggregatesAround(a, s, b[..n]);
      AroundMore(a + b[..n], s, a + [s] + b[..n], b[n]);
      assert a + [s] + b == a + [s] + b[..n] + [b[n]] && a + b == a + b[..n] + [b[n]];
    }
  }

  lemma {:induction false} AggregatesBeside(a: seq<Sub>, s: Sub, b: seq<Sub>, u: int, p: int)
    requires s.user != u || s.problem != p
    ensures Attempts(a + [s] + b, u, p) == Attempts(a + b, u, p)
    ensures BestScore(a + [s] + b, u, p) == BestScore(a + b, u, p)
    ensures FirstAccept(a + [s] + b, u, p) == FirstAccept(a + b, u, p)
    decreases |b|
  {
    if b == [] {
      assert a + [s] + b == a + [s] && a + b == a;
      AggregatesGrow(a, s, u, p);
    } else {
      var n := |b| - 1;
      AggregatesBeside(a, s, b[..n], u, p);
      assert a + [s] + b == a + [s] + b[..n] + [b[n]] && a + b == a + b[..n] + [b[n]];
      AggregatesGrow(a + [s] + b[..n], b[n], u, p);
      AggregatesGrow(a + b[..n], b[n], u, p);
    }
  }

  lemma AroundRow(subs: seq<Sub>, i: nat, verdict: Verdict, score: int)
    requires i < |subs|
    ensures subs == subs[..i] + [subs[i]] + subs[i + 1..]
    ensures Updated(subs, i, verdict, score)
         == subs[..i] + [subs[i].(verdict := verdict, score := score)] + subs[i + 1..]
  {
  }

  lemma SummandsBeside(k: Scoring, subs: seq<Sub>, i: nat, verdict: Verdict, score: int, u: int, p: int)
    requires i < |subs| && (subs[i].user != u || subs[i].problem != p)
    ensures Gain(k, Updated(subs, i, verdict, score), u)(p) == Gain(k, subs, u)(p)
    ensures Penalty(k, Updated(subs, i, verdict, score), u)(p) == Penalty(k, subs, u)(p)
  {
    AroundRow(subs, i, verdict, score);
    AggregatesBeside(subs[..i], subs[i], subs[i + 1..], u, p);
    AggregatesBeside(subs[..i], subs[i].(verdict := verdict, score := score), subs[i + 1..], u, p);
  }

  lemma SameProblems(subs: seq<Sub>, i: nat, verdict: Verdict, score: int, u: int)
    requires i < |subs|
    ensures Problems(Updated(subs, i, verdict, score), u) == Problems(subs, u)
  {
    var after := Updated(subs, i, verdict, score);
    forall p
      ensures p in Problems(after, u) <==> p in Problems(subs, u)
    {
      if p in Problems(after, u) {
        var j :| 0 <= j < |after| && after[j].user == u && after[j].problem == p;
        assert subs[j].user == u && subs[j].problem == p;
      }
      if p in Problems(subs, u) {
        var j :| 0 <= j < |subs| && subs[j].user == u && subs[j].problem == p;
        assert after[j].user == u && after[j].problem == p;
      }
    }
  }

  /** A verdict of one user changes no totals of another. */
  lemma UpdateLeavesOthers(k: Scoring, subs: seq<Sub>, i: nat, verdict: Verdict, score: int, u: int)
    requires i < |subs| && subs[i].user != u
    ensures var after := Updated(subs, i, verdict, score);
      Total(k, after, u) == Total(k, subs, u) && TotalPenalty(k, after, u) == TotalPenalty(k, subs, u)
  {
    var after := Updated(subs, i, verdict, score);
    SameProblems(subs, i, verdict, score, u);
    forall p
      ensures Gain(k, after, u)(p) == Gain(k, subs, u)(p) && Penalty(k, after, u)(p) == Penalty(k, subs, u)(p)
    {
      SummandsBeside(k, subs, i, verdict, score, u, p);
    }
    SumSame(Problems(subs, u), Gain(k, subs, u), Gain(k, after, u));
    SumSame(Problems(subs, u), Penalty(k, subs, u), Penalty(k, after, u));
  }

  /** The totals of the row's user move by the change of the summands of the row's problem. */
  lemma UpdateMovesOwner(k: Scoring, subs: seq<Sub>, i: nat, verdict: Verdict, score: int)
    requires i < |subs|
    ensures var after, u, p := Updated(subs, i, verdict, score), subs[i].user, subs[i].problem;
      && Total(k, after, u) == Total(k, subs, u) + Gain(k, after, u)(p) - Gain(k, subs, u)(p)
      && TotalPenalty(k, after, u) == TotalPenalty(k, subs, u) + Penalty(k, after, u)(p) - Penalty(k, subs, u)(p)
  {
    var after, u, p := Updated(subs, i, verdict, score), subs[i].user, subs[i].problem;
    var all := Problems(subs, u);
    SameProblems(subs, i, verdict, score, u);
    forall q | q != p
      ensures Gain(k, after, u)(q) == Gain(k, subs, u)(q) && Penalty(k, after, u)(q) == Penalty(k, subs, u)(q)
    {
      SummandsBeside(k, subs, i, verdict, score, u, q);
    }
    assert p in all && all + {p} == all;
    OneSummandChanges(all, p, Gain(k, subs, u), Gain(k, after, u));
    OneSummandChanges(all, p, Penalty(k, subs, u), Penalty(k, after, u));
  }

  /** The aggregates of the row's user and problem before and after the update, from those of the other rows. */
  lemma UpdatedAggregates(subs: seq<Sub>, i: nat, verdict: Verdict, score: int)
    requires i < |subs|
    ensures var after, rest, u, p :=
      Updated(subs, i, verdict, score), OtherRows(subs, i), subs[i].user, subs[i].problem;
      && Attempts(after, u, p) == Attempts(subs, u, p)
      && BestScore(subs, u, p) == Some(Higher(BestScore(rest, u, p), subs[i].score))
      && BestScore(after, u, p) == Some(Higher(BestScore(rest, u, p), score))
      && FirstAccept(subs, u, p) == Earlier(FirstAccept(rest, u, p), subs[i])
      && FirstAccept(after, u, p) == Earlier(FirstAccept(rest, u, p), subs[i].(verdict := verdict))
  {
    AroundRow(subs, i, verdict, score);
    AggregatesAround(subs[..i], subs[i], subs[i + 1..]);
    AggregatesAround(subs[..i], subs[i].(verdict := verdict, score := score), subs[i + 1..]);
  }

  /** The exact effect of an update on the owner's IOI total and solved count. */
  lemma UpdatedTotals(subs: seq<Sub>, i: nat, verdict: Verdict, score: int)
    requires i < |subs|
    ensures var after, x := Updated(subs, i, verdict, score), subs[i];
      var b, f := BestScore(OtherRows(subs, i), x.user, x.problem), FirstAccept(OtherRows(subs, i), x.user, x.problem);
      && Total(IOI, after, x.user) == Total(IOI, subs, x.user) + Higher(b, score) - Higher(b, x.score)
      && Total(ICPC, after, x.user) == Total(ICPC, subs, x.user) + if f.Some? then 0 else
           (if verdict.Accepted? then 1 else 0) - (if x.verdict.Accepted? then 1 else 0)
  {
    UpdatedAggregates(subs, i, verdict, score);
    UpdateMovesOwner(IOI, subs, i, verdict, score);
    UpdateMovesOwner(ICPC, subs, i, verdict, score);
  }

  function Debt(f: Option<real>, attempts: int): int {
    match f
    case Some(t) => Truncated(t) + 1200 * attempts - 1200
    case None => 0
  }

  /** The exact effect of an update on the owner's penalty: the attempts count as before, the first accept may move. */
  lemma UpdatedPenalty(subs: seq<Sub>, i: nat, verdict: Verdict, score: int)
    requires i < |subs|
    ensures var after, x := Updated(subs, i, verdict, score), subs[i];
      var f, n := FirstAccept(OtherRows(subs, i), x.user, x.problem), Attempts(subs, x.user, x.problem);
      TotalPenalty(ICPC, after, x.user)
        == TotalPenalty(ICPC, subs, x.user) + Debt(Earlier(f, x.(verdict := verdict)), n) - Debt(Earlier(f, x), n)
  {
    UpdatedAggregates(subs, i, verdict, score);
    PenaltyMeans(Updated(subs, i, verdict, score), subs[i].user, subs[i].problem);
    PenaltyMeans(subs, subs[i].user, subs[i].problem);
    UpdateMovesOwner(ICPC, subs, i, verdict, score);
  }

  /** Another row of the same user for the same problem. */
  ghost predicate Rival(subs: seq<Sub>, i: nat, s: Sub)
    requires i < |subs|
  {
    s in OtherRows(subs, i) && s.user == subs[i].user && s.problem == subs[i].problem
  }

  lemma BestRival(subs: seq<Sub>, i: nat, score: int)
    requires i < |subs|
    ensures var b := BestScore(OtherRows(subs, i), subs[i].user, subs[i].problem);
      b.None? || b.value < score <==> forall s :: Rival(subs, i, s) ==> s.score < score
  {
    var rest, u, p := OtherRows(subs, i), subs[i].user, subs[i].problem;
    BestScoreIsMaximum(rest, u, p);
    if p in Problems(rest, u) {
      var best :| best in rest && best.user == u && best.problem == p && best.score == BestScore(rest, u, p).value;
      assert Rival(subs, i, best);
    } else {
      NoRivals(subs, i);
    }
  }

  lemma NoRivals(subs: seq<Sub>, i: nat)
    requires i < |subs| && subs[i].problem !in Problems(OtherRows(subs, i), subs[i].user)
    ensures forall s :: !Rival(subs, i, s)
  {
    var rest := OtherRows(subs, i);
    assert forall j :: 0 <= j < |rest| && rest[j].user == subs[i].user ==>
      rest[j].problem in Problems(rest, subs[i].user);
  }

  /**
   When a new verdict and score lower the owner's totals: the IOI total exactly when the row alone had the best score
   and gets a smaller one, the solved count exactly when the row was the only accepted one and is not any more.
   */
  lemma WhenUpdateLowers(subs: seq<Sub>, i: nat, verdict: Verdict, score: int)
    requires i < |subs|
    ensures Total(IOI, Updated(subs, i, verdict, score), subs[i].user) < Total(IOI, subs, subs[i].user) <==>
      score < subs[i].score && forall s :: Rival(subs, i, s) ==> s.score < subs[i].score
    ensures Total(ICPC, Updated(subs, i, verdict, score), subs[i].user) < Total(ICPC, subs, subs[i].user) <==>
      && subs[i].verdict.Accepted? && !verdict.Accepted?
      && forall s :: Rival(subs, i, s) ==> !s.verdict.Accepted?
  {
    UpdatedTotals(subs, i, verdict, score);
    FirstAcceptIsMinimum(OtherRows(subs, i), subs[i].user, subs[i].problem);
    BestRival(subs, i, subs[i].score);
  }

  /**
   The verdict on a row that still has score 0, as all rows have until they are judged, lowers the IOI total exactly
   when its score and the scores of all other rows of the user for the problem are negative.
   */
  lemma WhenJudgingLowers(subs: seq<Sub>, i: nat, verdict: Verdict, score: int)
    requires i < |subs| && subs[i].score == 0
    ensures Total(IOI, Updated(subs, i, verdict, score), subs[i].user) < Total(IOI, subs, subs[i].user) <==>
      score < 0 && forall s :: Rival(subs, i, s) ==> s.score < 0
    ensures IsNew(subs[i]) ==>
      Total(ICPC, Updated(subs, i, verdict, score), subs[i].user) >= Total(ICPC, subs, subs[i].user)
  {
    WhenUpdateLowers(subs, i, verdict, score);
  }

  /**
   A rejudge takes the problem off the user's solved count until the row is judged again exactly when the row is
   the only accepted one, and never adds one.
   */
  lemma WhenResetUnsolves(subs: seq<Sub>, i: nat)
    requires i < |subs|
    ensures var before, after :=
      Total(ICPC, subs, subs[i].user), Total(ICPC, Updated(subs, i, Pending, 0), subs[i].user);
      && after <= before
      && (after < before <==>
          subs[i].verdict.Accepted? && forall s :: Rival(subs, i, s) ==> !s.verdict.Accepted?)
  {
    UpdatedTotals(subs, i, Pending, 0);
    FirstAcceptIsMinimum(OtherRows(subs, i), subs[i].user, subs[i].problem);
  }

  /**
   It takes points off the IOI total exactly when the row alone has the user's best score for the problem and that
   is positive, and adds points exactly when all the user's scores for the problem are negative.
   */
  lemma WhenResetMovesPoints(subs: seq<Sub>, i: nat)
    requires i < |subs|
    ensures var before, after := Total(IOI, subs, subs[i].user), Total(IOI, Updated(subs, i, Pending, 0), subs[i].user);
      && (after < before <==> subs[i].score > 0 && forall s :: Rival(subs, i, s) ==> s.score < subs[i].score)
      && (after > before <==> subs[i].score < 0 && forall s :: Rival(subs, i, s) ==> s.score < 0)
  {
    UpdatedTotals(subs, i, Pending, 0);
    BestRival(subs, i, subs[i].score);
    BestRival(subs, i, 0);
  }
}
