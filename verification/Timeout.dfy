/** waitpid_with_timeout: the timeout arithmetic, when the child is killed, and when a status is reported. */
module Timeout {
  import opened Options

  const MAX_INT32 := 0x7fff_ffff
  const MAX_UINT64 := 0xffff_ffff_ffff_ffff

  datatype Status = Exited(code: int) | Signaled(signal: int) | Other

  /** One turn of the poll loop: the time lost before the clock is read, and the time poll takes. */
  datatype Turn = Turn(delay: nat, took: nat)

  datatype PollEnd = PollTimedOut | PollReady(expected: bool) | PollFailed

  datatype Wait = Reaped(status: Status) | WaitFailed

  datatype PidFd = Opened | Gone(reaped: Option<Status>) | Failed

  /**
   What the system does: how the pidfd opens, the turns in which poll is interrupted, the last turn and how it
   ends, what waitpid gives after its own interruptions, and the time from there to the last look at the clock. When
   waitpid fails after the kill, the status variable keeps whatever it held.
   */
  datatype Env = Env(
    pidfd: PidFd, interrupted: seq<Turn>, last: Turn, end: PollEnd, wait: Wait, unset: Status, reapTook: nat)

  /**
   The outcome. killedAt is the time since the start; status and wallTime are what the out-parameters were set to.
   */
  datatype Outcome = Outcome(
    ok: bool, timedOut: bool, status: Option<Status>, wallTime: Option<nat>, reaped: bool, killedAt: Option<nat>)

  function TimeoutMs(timeoutUs: nat): nat {
    if timeoutUs >= MAX_INT32 * 1000 then MAX_INT32 else (timeoutUs + 999) / 1000
  }

  /** The milliseconds fit an int, nothing overflows on the way, and below the clamp they are the exact ceiling. */
  lemma TimeoutMsIsCeiling(timeoutUs: nat)
    requires timeoutUs <= MAX_UINT64
    ensures TimeoutMs(timeoutUs) < 0x8000_0000
    ensures timeoutUs < MAX_INT32 * 1000 ==> timeoutUs + 999 < 0x1_0000_0000_0000_0000
    ensures timeoutUs <= 1000 * TimeoutMs(timeoutUs) <==> timeoutUs <= 2_147_483_647_000
    ensures 1000 * TimeoutMs(timeoutUs) < timeoutUs + 1000
  {
  }

  /** poll does not time out before its timeout. */
  predicate PollKeepsTime(env: Env, timeoutUs: nat) {
    env.end.PollTimedOut? ==> env.last.took >= 1000 * TimeoutMs(timeoutUs)
  }

  /** The system reacts within slack: poll never takes longer than its timeout and the slack. */
  predicate Prompt(env: Env, timeoutUs: nat, slack: nat) {
    && (forall i :: 0 <= i < |env.interrupted| ==> PromptTurn(env.interrupted[i], timeoutUs, slack))
    && PromptTurn(env.last, timeoutUs, slack)
  }

  predicate PromptTurn(t: Turn, timeoutUs: nat, slack: nat) {
    t.delay <= slack && t.took <= 1000 * TimeoutMs(timeoutUs) + slack
  }

  function Elapsed(turns: seq<Turn>): nat {
    if turns == [] then 0
    else Elapsed(turns[..|turns| - 1]) + turns[|turns| - 1].delay + turns[|turns| - 1].took
  }

  function Turns(env: Env): seq<Turn> {
    env.interrupted + [env.last]
  }

  /** Every interrupted turn is one of the loop, in order, and the last one ends it. */
  lemma TurnsAre(env: Env)
    ensures |Turns(env)| == |env.interrupted| + 1 && Turns(env)[|env.interrupted|] == env.last
    ensures forall i :: 0 <= i < |env.interrupted| ==> Turns(env)[i] == env.interrupted[i]
  {
  }

  /** The clock shows at the start of turn i that the time is over. */
  predicate OverAt(env: Env, timeoutUs: nat, i: nat) {
    i < |Turns(env)| && Elapsed(Turns(env)[..i]) + Turns(env)[i].delay >= timeoutUs
  }

  /** The kill happens at time t: at the first turn that starts too late, or when poll times out. */
  ghost predicate KillsAt(env: Env, timeoutUs: nat, t: nat) {
    || (exists i: nat :: OverAt(env, timeoutUs, i) && (forall j: nat :: j < i ==> !OverAt(env, timeoutUs, j))
          && t == Elapsed(Turns(env)[..i]) + Turns(env)[i].delay)
    || ((forall j: nat :: !OverAt(env, timeoutUs, j)) && env.end.PollTimedOut? && t == Elapsed(Turns(env)))
  }

  /** A status of the child that the call gets without a kill: after poll, or at once when the child is gone. */
  function Seen(env: Env): Option<Status> {
    match env.pidfd
    case Opened => if env.end == PollReady(true) && env.wait.Reaped? then Some(env.wait.status) else None
    case Gone(reaped) => reaped
    case Failed => None
  }

  ghost predicate Kills(env: Env, timeoutUs: nat) {
    env.pidfd.Opened? && ((exists i: nat :: OverAt(env, timeoutUs, i)) || env.end.PollTimedOut?)
  }

  /** Without a kill the call succeeds with the status the child ended with, or fails without one. */
  predicate WithoutKill(env: Env, out: Outcome) {
    && out.killedAt.None? && !out.timedOut && out.reaped == Seen(env).Some?
    && (out.ok <==> Seen(env).Some? && !Seen(env).value.Other?)
    && out.status == (if out.ok then Seen(env) else None)
    && out.wallTime == if !out.ok then None
                       else Some((if env.pidfd.Opened? then Elapsed(Turns(env)) else 0) + env.reapTook)
  }

  /** After a kill it fails, with ETIMEDOUT, the status and the wall time exactly when the status makes sense. */
  predicate AfterKill(env: Env, out: Outcome) {
    var st := if env.wait.Reaped? then env.wait.status else env.unset;
    && out.killedAt.Some? && !out.ok && out.reaped == env.wait.Reaped?
    && (out.timedOut <==> !st.Other?)
    && out.status == (if out.timedOut then Some(st) else None)
    && out.wallTime == if out.timedOut then Some(out.killedAt.value + env.reapTook) else None
  }

  method WaitpidWithTimeout(env: Env, timeoutUs: nat) returns (out: Outcome)
    requires timeoutUs <= MAX_UINT64
    ensures if Kills(env, timeoutUs) then AfterKill(env, out) && KillsAt(env, timeoutUs, out.killedAt.value)
            else WithoutKill(env, out)
  {
    if !env.pidfd.Opened? {
      out := CollectGone(env);
      return;
    }
    var over, now := Poll(env, timeoutUs);
    if over {
      out := Kill(env, now);
    } else {
      out := Collect(env, now);
    }
  }

  /** pidfd_open failed: when the process is gone, its status may be there already. */
  method CollectGone(env: Env) returns (out: Outcome)
    requires !env.pidfd.Opened?
    ensures WithoutKill(env, out)
  {
    if env.pidfd.Gone? {
      if env.pidfd.reaped.Some? {
        if env.pidfd.reaped.value.Other? {
          return Outcome(false, false, None, None, true, None);
        }
        return Outcome(true, false, env.pidfd.reaped, Some(env.reapTook), true, None);
      }
    }
    return Outcome(false, false, None, None, false, None);
  }

  /** The poll loop, up to the time `now`; over says that the time of the child is over. */
  method Poll(env: Env, timeoutUs: nat) returns (over: bool, now: nat)
    ensures over <==> (exists i: nat :: OverAt(env, timeoutUs, i)) || env.end.PollTimedOut?
    ensures if over then KillsAt(env, timeoutUs, now) else now == Elapsed(Turns(env))
  {
    now := 0;
    var turns := Turns(env);
    for i := 0 to |turns|
      invariant now == Elapsed(turns[..i])
      invariant forall j: nat :: j < i ==> !OverAt(env, timeoutUs, j)
    {
      assert turns[..i + 1][..i] == turns[..i];
      now := now + turns[i].delay;
      if now >= timeoutUs {
        assert OverAt(env, timeoutUs, i);
        return true, now;
      }
      now := now + turns[i].took;
    }
    assert turns[..|turns|] == turns;
    over := env.end.PollTimedOut?;
  }

  /** What follows when poll did not time out. */
  method Collect(env: Env, now: nat) returns (out: Outcome)
    requires env.pidfd.Opened? && !env.end.PollTimedOut? && now == Elapsed(Turns(env))
    ensures WithoutKill(env, out)
  {
    if env.end.PollFailed? || !env.end.expected || env.wait.WaitFailed? {
      return Outcome(false, false, None, None, false, None);
    }
    if env.wait.status.Other? {
      return Outcome(false, false, None, None, true, None);
    }
    return Outcome(true, false, Some(env.wait.status), Some(now + env.reapTook), true, None);
  }

  /** SIGKILL, then wait for the child; the call fails, with ETIMEDOUT when the status makes sense. */
  method Kill(env: Env, now: nat) returns (out: Outcome)
    ensures AfterKill(env, out) && out.killedAt == Some(now)
  {
    var st := env.unset;
    if env.wait.Reaped? {
      st := env.wait.status;
    }
    if st.Other? {
      return Outcome(false, false, None, None, env.wait.Reaped?, Some(now));
    }
    return Outcome(false, true, Some(st), Some(now + env.reapTook), env.wait.Reaped?, Some(now));
  }

  /** Below the clamp, the child is never killed before its time is over. */
  lemma NeverKilledEarly(env: Env, timeoutUs: nat, t: nat)
    requires timeoutUs <= MAX_INT32 * 1000 && PollKeepsTime(env, timeoutUs) && KillsAt(env, timeoutUs, t)
    ensures t >= timeoutUs
  {
    LastTurn(env);
  }

  /** So the wall time reported for a killed program is at least the limit. */
  lemma KilledHasUsedItsTime(env: Env, timeoutUs: nat, out: Outcome)
    requires timeoutUs <= MAX_INT32 * 1000 && PollKeepsTime(env, timeoutUs) && AfterKill(env, out) && out.timedOut
    requires KillsAt(env, timeoutUs, out.killedAt.value)
    ensures out.wallTime.Some? && out.wallTime.value >= timeoutUs
  {
    NeverKilledEarly(env, timeoutUs, out.killedAt.value);
  }

  lemma LastTurn(env: Env)
    ensures Elapsed(Turns(env)) >= Elapsed(Turns(env)[..|env.interrupted|]) + env.last.delay + env.last.took
  {
    assert Turns(env)[|env.interrupted|] == env.last;
  }

  lemma KilledEarly(timeoutUs: nat) returns (env: Env)
    requires timeoutUs > MAX_INT32 * 1000
    ensures PollKeepsTime(env, timeoutUs) && KillsAt(env, timeoutUs, 1000 * MAX_INT32)
  {
    env := Env(Opened, [], Turn(0, 1000 * MAX_INT32), PollTimedOut, WaitFailed, Other, 0);
    var turns := Turns(env);
    assert turns == [env.last] && turns[..0] == [];
    assert Elapsed(turns[..0]) == 0;
    assert Elapsed(turns) == 1000 * MAX_INT32;
    forall j: nat
      ensures !OverAt(env, timeoutUs, j)
    {
      assert j < |turns| ==> j == 0;
    }
  }

  /** Beyond the clamp it can be: poll's longest timeout is shorter. A kill can come early exactly then. */
  lemma CanBeKilledEarly(timeoutUs: nat)
    ensures (exists env, t: nat :: PollKeepsTime(env, timeoutUs) && KillsAt(env, timeoutUs, t) && t < timeoutUs)
      <==> timeoutUs > MAX_INT32 * 1000
  {
    if timeoutUs > MAX_INT32 * 1000 {
      var env := KilledEarly(timeoutUs);
    }
    forall env, t: nat | PollKeepsTime(env, timeoutUs) && KillsAt(env, timeoutUs, t) && timeoutUs <= MAX_INT32 * 1000
      ensures t >= timeoutUs
    {
      NeverKilledEarly(env, timeoutUs, t);
    }
  }

  /**
   Although every interruption starts the whole timeout again, a kill comes in less than twice the time and a
   millisecond, plus the slack of the last two turns.
   */
  lemma KilledInTime(env: Env, timeoutUs: nat, slack: nat, t: nat)
    requires Prompt(env, timeoutUs, slack) && KillsAt(env, timeoutUs, t)
    ensures t < 2 * timeoutUs + 1000 + 2 * slack
  {
    var turns := Turns(env);
    TimeoutMsBound(timeoutUs);
    if (forall j: nat :: !OverAt(env, timeoutUs, j)) && env.end.PollTimedOut? && t == Elapsed(turns) {
      BeforeTurn(env, timeoutUs, slack, |turns|);
    } else {
      var i: nat :| OverAt(env, timeoutUs, i) && (forall j: nat :: j < i ==> !OverAt(env, timeoutUs, j))
        && t == Elapsed(turns[..i]) + turns[i].delay;
      assert PromptTurn(turns[i], timeoutUs, slack);
      if i > 0 {
        BeforeTurn(env, timeoutUs, slack, i);
      } else {
        assert turns[..0] == [];
      }
    }
  }

  lemma TimeoutMsBound(timeoutUs: nat)
    ensures 1000 * TimeoutMs(timeoutUs) < timeoutUs + 1000
  {
  }

  /** The time when turn i could start, if the one before it still started in time. */
  lemma BeforeTurn(env: Env, timeoutUs: nat, slack: nat, i: nat)
    requires Prompt(env, timeoutUs, slack) && 0 < i <= |Turns(env)| && !OverAt(env, timeoutUs, i - 1)
    ensures Elapsed(Turns(env)[..i]) < timeoutUs + 1000 * TimeoutMs(timeoutUs) + slack
  {
    assert Turns(env)[..i][..i - 1] == Turns(env)[..i - 1];
    assert PromptTurn(Turns(env)[i - 1], timeoutUs, slack);
  }
}
