/** The sandbox's bootstrap handshake. */
module Handshake {

  // handle_run in the parent and child_fn in the cloned child, over one byte channel in each direction, with the
  // I/O threads the parent starts in between. Any step may fail, the child may be killed from outside at any
  // time, and the two processes run interleaved. The parent keeps its copy of the child's socket end open, so it
  // never sees an end of file on the channel when the child dies; it only learns of a failed bootstrap from an
  // 'X' byte.

  datatype Byte = A | B | C | X

  datatype Config = Config(
    stdinLen: nat,       // bytes the stdin thread has to write
    pipeCap: nat,        // capacity of the stdin pipe
    useSeccomp: bool)

  // The parent's steps, in order.
  const SETUP_MAPS: nat := 0
  const WRITE_A: nat := 1
  const READ_B: nat := 2
  const CREATE_CGROUP: nat := 3
  const PUT_IN_CGROUP: nat := 4
  const START_STDIN: nat := 5      // the three pthread_create calls of io_start
  const START_STDOUT: nat := 6
  const START_STDERR: nat := 7
  const WRITE_C: nat := 8
  const WAIT: nat := 9

  // The child's steps, in order.
  const PRIVATE_MOUNTS: nat := 0
  const READ_A: nat := 1
  const SET_UID: nat := 2
  const SET_GID: nat := 3
  const BOOT: nat := 4             // 15 steps: root file system, pivot_root, dup2 calls, read-only remount
  const WRITE_B: nat := 19
  const READ_C: nat := 20
  const DROP_CAPS: nat := 21
  const FILTER: nat := 22
  const EXEC: nat := 23
  const RUNNING: nat := 24

  /** Going: about to take step number `did`. The other cases are the ways out. */
  datatype ParentMode =
    | Going
    | JoinStdin(stdoutToo: bool) | JoinStdout     // io_start joining the threads it started before it fails
    | Killing(joinThreads: bool)
    | IoWait(ok: bool)
    | Done(ok: bool)

  /** Alive: about to take step number `passed`, or running the submission once that is RUNNING. */
  datatype ChildMode = Alive | SayX | Dead

  datatype State = State(
    parent: ParentMode,
    did: nat,            // steps the parent has completed
    child: ChildMode,
    passed: nat,         // steps the child has completed
    toChild: seq<Byte>,
    toParent: seq<Byte>,
    written: nat,        // bytes the stdin thread has written
    consumed: nat,       // bytes the child has read from stdin
    writerFailed: bool,  // the stdin thread has ended on an error of write
    readerFailed: bool)  // the stdout thread has ended on an error of read, malloc or realloc

  const INIT := State(Going, 0, Alive, 0, [], [], 0, 0, false, false)

  predicate StdinThread(s: State) {
    s.did > START_STDIN
  }

  datatype Event =
    | Parent(ok: bool)     // the parent's next step succeeds or fails
    | Child(ok: bool)      // the child's next step succeeds or fails
    | StdinWrite           // the stdin thread writes one more byte
    | ChildReads           // the running child reads one byte of its stdin
    | WriterFails          // the stdin thread gives up
    | ReaderFails          // the stdout thread gives up
    | Timeout              // the wait gives up: the parent kills and reaps the child
    | Killed               // somebody else kills the child

  predicate Enabled(cfg: Config, s: State, e: Event) {
    match e
    case Parent(ok) =>
      (match s.parent
       case Going => (ok && s.did == READ_B ==> s.toParent != []) && (ok && s.did == WAIT ==> s.child.Dead?)
       case JoinStdin(_) => ok && (s.written == cfg.stdinLen || s.writerFailed || s.child.Dead?)   // EPIPE
       case JoinStdout => ok && (s.readerFailed || s.child.Dead?)                                  // end of file
       case Killing(_) => ok
       case IoWait(_) => ok && s.child.Dead?
       case Done(_) => false)
    case Child(ok) =>
      (match s.child
       case Alive =>
         && (ok && (s.passed == READ_A || s.passed == READ_C) ==> s.toChild != [])
         && (!ok && s.passed == FILTER ==> cfg.useSeccomp)
         && (s.passed == RUNNING ==> ok)
       case SayX => true
       case Dead => false)
    case StdinWrite =>
      StdinThread(s) && !s.writerFailed && s.written < cfg.stdinLen && s.written - s.consumed < cfg.pipeCap
    case ChildReads => s.child.Alive? && s.passed == RUNNING && s.consumed < s.written
    case WriterFails => StdinThread(s) && !s.writerFailed && s.written < cfg.stdinLen
    case ReaderFails => s.did > START_STDOUT && !s.readerFailed
    case Timeout => s.parent.Going? && s.did == WAIT
    case Killed => !s.child.Dead?
  }

  /**
   Where a failure of the parent's step leads. The cases that end in Killing send SIGKILL and return without waiting
   for the child, so that there Dead means: killed, and running no more code of its own.
   */
  function OnFailure(step: nat): ParentMode {
    if step == START_STDOUT then JoinStdin(false)
    else if step == START_STDERR then JoinStdin(true)
    else if step == WRITE_C || step == WAIT then Killing(true)
    else Killing(false)
  }

  function ParentStep(s: State, ok: bool): State
    requires ok && s.parent.Going? && s.did == READ_B ==> s.toParent != []
  {
    match s.parent
    case Going =>
      if !ok then s.(parent := OnFailure(s.did))
      else if s.did == READ_B then
        if s.toParent[0] == B then s.(did := s.did + 1, toParent := s.toParent[1..])
        else s.(parent := Killing(false), toParent := s.toParent[1..])
      else if s.did == WRITE_A then s.(did := s.did + 1, toChild := s.toChild + [A])
      else if s.did == WRITE_C then s.(did := s.did + 1, toChild := s.toChild + [C])
      else if s.did == WAIT then s.(parent := IoWait(true))
      else s.(did := s.did + 1)
    case JoinStdin(stdoutToo) => s.(parent := if stdoutToo then JoinStdout else Killing(false))
    case JoinStdout => s.(parent := Killing(false))
    case Killing(joinThreads) => s.(child := Dead, parent := if joinThreads then IoWait(false) else Done(false))
    case IoWait(result) => s.(parent := Done(result))
    case Done(_) => s
  }

  function ChildStep(s: State, ok: bool): State
    requires ok && s.child.Alive? && (s.passed == READ_A || s.passed == READ_C) ==> s.toChild != []
  {
    match s.child
    case Alive =>
      if !ok then s.(child := if s.passed == EXEC then Dead else SayX)
      else if s.passed == READ_A || s.passed == READ_C then
        if s.toChild[0] == (if s.passed == READ_A then A else C) then
          s.(passed := s.passed + 1, toChild := s.toChild[1..])
        else s.(child := SayX, toChild := s.toChild[1..])
      else if s.passed == WRITE_B then s.(passed := s.passed + 1, toParent := s.toParent + [B])
      else if s.passed == RUNNING then s.(child := Dead)
      else s.(passed := s.passed + 1)
    case SayX => s.(child := Dead, toParent := if ok then s.toParent + [X] else s.toParent)
    case Dead => s
  }

  function Apply(cfg: Config, s: State, e: Event): State
    requires Enabled(cfg, s, e)
  {
    match e
    case Parent(ok) => ParentStep(s, ok)
    case Child(ok) => ChildStep(s, ok)
    case StdinWrite => s.(written := s.written + 1)
    case ChildReads => s.(consumed := s.consumed + 1)
    case WriterFails => s.(writerFailed := true)
    case ReaderFails => s.(readerFailed := true)
    case Timeout => s.(child := Dead, parent := IoWait(true))
    case Killed => s.(child := Dead)
  }

  ghost predicate Valid(cfg: Config, s: State, es: seq<Event>)
    decreases es
  {
    es == [] || (Enabled(cfg, s, es[0]) && Valid(cfg, Apply(cfg, s, es[0]), es[1..]))
  }

  ghost function Final(cfg: Config, s: State, es: seq<Event>): State
    requires Valid(cfg, s, es)
    decreases es
  {
    if es == [] then s else Final(cfg, Apply(cfg, s, es[0]), es[1..])
  }

  // ---------- Safety ----------

  /** The parent's mode fits the steps it has completed, and it never finishes before the child is dead. */
  predicate ParentRecord(cfg: Config, s: State) {
    && s.did <= WAIT
    && (s.parent.JoinStdin? ==> s.did == if s.parent.stdoutToo then START_STDERR else START_STDOUT)
    && (s.parent.JoinStdout? ==> s.did == START_STDERR)
    && (s.parent.Killing? ==> (s.parent.joinThreads <==> s.did > START_STDERR))
    && (s.parent.IoWait? ==> s.did > START_STDERR)
    && (s.parent.JoinStdout? ==> s.written == cfg.stdinLen || s.writerFailed || s.child.Dead?)
    && (s.parent.Done? || s.parent.IoWait? ==> s.child.Dead?)
  }

  /** The bytes on the wire are exactly those one side has sent and the other has not taken. */
  predicate WireToChild(s: State) {
    && s.passed <= RUNNING
    && (s.passed > READ_A ==> s.did > WRITE_A)
    && (s.passed > READ_C ==> s.did > WRITE_C)
    && (!s.child.Alive? || s.toChild ==
          (if s.did > WRITE_A && s.passed <= READ_A then [A] else [])
          + (if s.did > WRITE_C && s.passed <= READ_C then [C] else []))
  }

  predicate WireToParent(s: State) {
    && (s.did > READ_B ==> s.passed > WRITE_B)
    && (B in s.toParent ==> s.passed > WRITE_B)
    && (s.parent.Going? && s.did <= READ_B && s.passed > WRITE_B ==> s.toParent != [] && s.toParent[0] == B)
    && (s.parent.Going? && s.did <= READ_B && s.passed <= WRITE_B && !s.child.Dead? ==> s.toParent == [])
  }

  /** The pipe holds at most its capacity, and only a running child has read from it. */
  predicate StdinRecord(cfg: Config, s: State) {
    && s.consumed <= s.written <= cfg.stdinLen
    && s.written - s.consumed <= cfg.pipeCap
    && (s.consumed > 0 ==> s.passed == RUNNING)
    && (s.written > 0 || s.writerFailed ==> s.did > START_STDIN)
    && (s.writerFailed ==> s.written < cfg.stdinLen)
    && (s.readerFailed ==> s.did > START_STDOUT)
  }

  predicate Inv(cfg: Config, s: State) {
    ParentRecord(cfg, s) && WireToChild(s) && WireToParent(s) && StdinRecord(cfg, s)
  }

  lemma BootingKeepsInv(cfg: Config, s: State)
    requires Inv(cfg, s) && s.parent.Going? && Enabled(cfg, s, Parent(true))
    ensures Inv(cfg, ParentStep(s, true))
  {
  }

  lemma LeavingKeepsInv(cfg: Config, s: State, ok: bool)
    requires Inv(cfg, s) && Enabled(cfg, s, Parent(ok)) && !(s.parent.Going? && ok)
    ensures Inv(cfg, ParentStep(s, ok))
  {
  }

  lemma ParentKeepsInv(cfg: Config, s: State, ok: bool)
    requires Inv(cfg, s) && Enabled(cfg, s, Parent(ok))
    ensures Inv(cfg, ParentStep(s, ok))
  {
    if s.parent.Going? && ok {
      BootingKeepsInv(cfg, s);
    } else {
      LeavingKeepsInv(cfg, s, ok);
    }
  }

  lemma ChildKeepsInv(cfg: Config, s: State, ok: bool)
    requires Inv(cfg, s) && Enabled(cfg, s, Child(ok))
    ensures Inv(cfg, ChildStep(s, ok))
  {
  }

  lemma {:induction false} InvStep(cfg: Config, s: State, e: Event)
    requires Inv(cfg, s) && Enabled(cfg, s, e)
    ensures Inv(cfg, Apply(cfg, s, e))
  {
    match e
    case Parent(ok) => ParentKeepsInv(cfg, s, ok);
    case Child(ok) => ChildKeepsInv(cfg, s, ok);
    case _ =>
  }

  lemma {:induction false} InvAlways(cfg: Config, s: State, es: seq<Event>)
    requires Inv(cfg, s) && Valid(cfg, s, es)
    ensures Inv(cfg, Final(cfg, s, es))
    decreases es
  {
    if es != [] {
      InvStep(cfg, s, es[0]);
      InvAlways(cfg, Apply(cfg, s, es[0]), es[1..]);
    }
  }

  /**
   Safety in every interleaving, whatever fails and whoever kills the child: the child gets as far as execve
   only after the uid maps were written, it was put in its cgroup and all three I/O threads were started; it
   asks for its identity only after 'A' was sent; a thread does nothing before it is started; and the parent never
   finishes while the child is alive and has not been killed.
   */
  lemma BootstrapIsSafe(cfg: Config, es: seq<Event>)
    requires Valid(cfg, INIT, es)
    ensures var s := Final(cfg, INIT, es);
      && (s.passed >= SET_UID ==> s.did > SETUP_MAPS && s.did > WRITE_A)
      && (s.passed >= EXEC ==> s.did > SETUP_MAPS && s.did > PUT_IN_CGROUP && s.did > START_STDERR)
      && (s.consumed > 0 ==> s.passed == RUNNING)
      && (s.written > 0 || s.writerFailed ==> s.did > START_STDIN) && (s.readerFailed ==> s.did > START_STDOUT)
      && (s.parent.Done? ==> s.child.Dead?)
  {
    InvAlways(cfg, INIT, es);
  }

  // ---------- Progress ----------

  /** Nothing that does not rely on a failure can happen any more, and the parent is not finished. */
  predicate Stalled(cfg: Config, s: State) {
    && !s.parent.Done?
    && !Enabled(cfg, s, Parent(true)) && !Enabled(cfg, s, Child(true))
    && !Enabled(cfg, s, StdinWrite) && !Enabled(cfg, s, Timeout)
  }

  /** The child died without a word while the parent waits for its first byte. */
  predicate SilentDeath(s: State) {
    s.parent.Going? && s.did == READ_B && s.child.Dead? && s.toParent == []
  }

  /** io_start failed and joins a thread that waits for the child, which waits for 'C'. */
  predicate JoinHang(cfg: Config, s: State) {
    && s.child.Alive? && s.passed == READ_C
    && ((s.parent.JoinStdout? && !s.readerFailed)
        || (s.parent.JoinStdin? && !s.writerFailed && s.written < cfg.stdinLen && s.written == cfg.pipeCap))
  }

  /** The only two ways in which both processes can be blocked for good. */
  lemma StalledExactly(cfg: Config, s: State)
    requires Inv(cfg, s)
    ensures Stalled(cfg, s) <==> SilentDeath(s) || JoinHang(cfg, s)
  {
  }

  /** The stdin thread can end while the child waits for 'C': it has given up, or the whole input fits the pipe. */
  predicate WriterEnds(cfg: Config, s: State) {
    s.writerFailed || cfg.stdinLen <= cfg.pipeCap
  }

  /**
   Events that break the code's assumptions: an outside kill, a lost 'X', or a thread that cannot be started
   while one to be joined cannot end.
   */
  predicate Faulty(cfg: Config, s: State, e: Event) {
    || e.Killed?
    || (e == Child(false) && s.child.SayX?)
    || (e == Parent(false) && s.parent.Going? && s.did == START_STDOUT && !WriterEnds(cfg, s))
    || (e == Parent(false) && s.parent.Going? && s.did == START_STDERR && !(WriterEnds(cfg, s) && s.readerFailed))
  }

  ghost predicate FaultFree(cfg: Config, s: State, es: seq<Event>)
    requires Valid(cfg, s, es)
    decreases es
  {
    es == [] || (!Faulty(cfg, s, es[0]) && FaultFree(cfg, Apply(cfg, s, es[0]), es[1..]))
  }

  /** A dead child has left a byte for a waiting parent, and the parent joins only a thread that can finish. */
  predicate Healthy(cfg: Config, s: State) {
    && (s.parent.Going? && s.did <= READ_B && s.child.Dead? ==> s.toParent != [])
    && (s.parent.JoinStdout? ==> s.readerFailed)
    && (s.parent.JoinStdin? ==> WriterEnds(cfg, s) && (s.parent.stdoutToo ==> s.readerFailed))
  }

  lemma HealthyStep(cfg: Config, s: State, e: Event)
    requires Inv(cfg, s) && Healthy(cfg, s) && Enabled(cfg, s, e) && !Faulty(cfg, s, e)
    ensures Healthy(cfg, Apply(cfg, s, e))
  {
    match e
    case Parent(ok) => HealthyParentStep(cfg, s, ok);
    case Child(ok) => HealthyChildStep(cfg, s, ok);
    case _ =>
  }

  lemma HealthyParentStep(cfg: Config, s: State, ok: bool)
    requires Inv(cfg, s) && Healthy(cfg, s) && Enabled(cfg, s, Parent(ok)) && !Faulty(cfg, s, Parent(ok))
    ensures Healthy(cfg, ParentStep(s, ok))
  {
  }

  lemma HealthyChildStep(cfg: Config, s: State, ok: bool)
    requires Inv(cfg, s) && Healthy(cfg, s) && Enabled(cfg, s, Child(ok)) && !Faulty(cfg, s, Child(ok))
    ensures Healthy(cfg, ChildStep(s, ok))
  {
  }

  /**
   In every run without such a fault, some step that relies on no failure is possible until the parent is
   finished.
   */
  lemma {:induction false} NeverStalls(cfg: Config, s: State, es: seq<Event>)
    requires Inv(cfg, s) && Healthy(cfg, s) && Valid(cfg, s, es) && FaultFree(cfg, s, es)
    ensures !Stalled(cfg, Final(cfg, s, es))
    decreases es
  {
    if es == [] {
      StalledExactly(cfg, s);
    } else {
      InvStep(cfg, s, es[0]);
      HealthyStep(cfg, s, es[0]);
      NeverStalls(cfg, Apply(cfg, s, es[0]), es[1..]);
    }
  }

  /** How far the parent and the child are from their ends. */
  function ParentLeft(s: State): int {
    match s.parent
    case Going => 15 - s.did
    case JoinStdin(_) => 4
    case JoinStdout => 3
    case Killing(_) => 2
    case IoWait(_) => 1
    case Done(_) => 0
  }

  function ChildLeft(s: State): int {
    match s.child
    case Alive => RUNNING + 2 - s.passed
    case SayX => 1
    case Dead => 0
  }

  function Remaining(cfg: Config, s: State): int {
    ParentLeft(s) + ChildLeft(s) + (cfg.stdinLen - s.written) + (cfg.stdinLen - s.consumed)
    + (if s.writerFailed then 0 else 1) + (if s.readerFailed then 0 else 1)
  }

  lemma ParentGetsCloser(cfg: Config, s: State, ok: bool)
    requires Inv(cfg, s) && Enabled(cfg, s, Parent(ok))
    ensures Remaining(cfg, ParentStep(s, ok)) < Remaining(cfg, s)
  {
  }

  lemma ChildGetsCloser(cfg: Config, s: State, ok: bool)
    requires Inv(cfg, s) && Enabled(cfg, s, Child(ok))
    ensures Remaining(cfg, ChildStep(s, ok)) < Remaining(cfg, s)
  {
  }

  lemma OthersGetCloser(cfg: Config, s: State, e: Event)
    requires Inv(cfg, s) && Enabled(cfg, s, e) && !e.Parent? && !e.Child?
    ensures Remaining(cfg, Apply(cfg, s, e)) < Remaining(cfg, s)
  {
  }

  lemma SomethingRemains(cfg: Config, s: State)
    requires Inv(cfg, s)
    ensures Remaining(cfg, s) >= 0
  {
  }

  /** Every event, failures included, brings the bootstrap closer to its end. */
  lemma StepsAreBounded(cfg: Config, s: State, e: Event)
    requires Inv(cfg, s) && Enabled(cfg, s, e)
    ensures 0 <= Remaining(cfg, Apply(cfg, s, e)) < Remaining(cfg, s)
  {
    InvStep(cfg, s, e);
    SomethingRemains(cfg, Apply(cfg, s, e));
    match e
    case Parent(ok) => ParentGetsCloser(cfg, s, ok);
    case Child(ok) => ChildGetsCloser(cfg, s, ok);
    case _ => OthersGetCloser(cfg, s, e);
  }

  /**
   No run is longer than the initial distance; with NeverStalls, a fault-free run can only stop when the parent
   is done.
   */
  lemma {:induction false} RunsAreBounded(cfg: Config, s: State, es: seq<Event>)
    requires Inv(cfg, s) && Valid(cfg, s, es)
    ensures |es| <= Remaining(cfg, s)
    decreases es
  {
    if es == [] {
      SomethingRemains(cfg, s);
    } else {
      InvStep(cfg, s, es[0]);
      StepsAreBounded(cfg, s, es[0]);
      RunsAreBounded(cfg, Apply(cfg, s, es[0]), es[1..]);
    }
  }

  // ---------- The io_start hang, exactly ----------

  /**
   No outside kill, no error of the child (on a bootstrapped child, no spurious read error), and no I/O thread
   that gives up.
   */
  predicate Calm(es: seq<Event>) {
    Killed !in es && Child(false) !in es && WriterFails !in es && ReaderFails !in es
  }

  predicate Hung(cfg: Config, s: State) {
    && s.child.Alive? && s.passed == READ_C && s.toChild == []
    && ((s.parent.JoinStdout? && !s.readerFailed)
        || (s.parent.JoinStdin? && !(WriterEnds(cfg, s) && (s.parent.stdoutToo ==> s.readerFailed))))
  }

  lemma {:induction false} HungForever(cfg: Config, s: State, es: seq<Event>)
    requires Inv(cfg, s) && Hung(cfg, s) && Valid(cfg, s, es) && Calm(es)
    ensures Hung(cfg, Final(cfg, s, es))
    decreases es
  {
    if es != [] {
      assert es[0] in es && Calm(es[1..]);
      InvStep(cfg, s, es[0]);
      assert Hung(cfg, Apply(cfg, s, es[0]));
      HungForever(cfg, Apply(cfg, s, es[0]), es[1..]);
    }
  }

  lemma Cons(cfg: Config, s: State, e: Event, es: seq<Event>) returns (fs: seq<Event>)
    requires Enabled(cfg, s, e) && Valid(cfg, Apply(cfg, s, e), es)
    ensures fs == [e] + es && Valid(cfg, s, fs) && Final(cfg, s, fs) == Final(cfg, Apply(cfg, s, e), es)
  {
    fs := [e] + es;
    assert fs[1..] == es;
  }

  /** Both joined threads end, and the parent kills the child. */
  lemma {:induction false} JoinFinishes(cfg: Config, s: State) returns (es: seq<Event>)
    requires Inv(cfg, s) && s.parent.JoinStdin? && WriterEnds(cfg, s) && (s.parent.stdoutToo ==> s.readerFailed)
    ensures Valid(cfg, s, es) && Calm(es) && Final(cfg, s, es).parent.Done?
    decreases cfg.stdinLen - s.written
  {
    if s.written < cfg.stdinLen && !s.writerFailed {
      InvStep(cfg, s, StdinWrite);
      es := JoinFinishes(cfg, Apply(cfg, s, StdinWrite));
      es := Cons(cfg, s, StdinWrite, es);
    } else {
      var t := Apply(cfg, s, Parent(true));
      es := [];
      if s.parent.stdoutToo {
        var u := Apply(cfg, t, Parent(true));
        es := Cons(cfg, u, Parent(true), es);
      }
      es := Cons(cfg, t, Parent(true), es);
      es := Cons(cfg, s, Parent(true), es);
    }
  }

  /** The sandbox gets out by itself: in some run without outside help the parent finishes. */
  ghost predicate GetsOut(cfg: Config, s: State) {
    exists es :: Valid(cfg, s, es) && Calm(es) && Final(cfg, s, es).parent.Done?
  }

  lemma HungOrOut(cfg: Config, s: State)
    requires Inv(cfg, s) && s.parent.JoinStdin? && s.child.Alive? && s.passed == READ_C && s.toChild == []
    ensures GetsOut(cfg, s) <==> WriterEnds(cfg, s) && (s.parent.stdoutToo ==> s.readerFailed)
  {
    if WriterEnds(cfg, s) && (s.parent.stdoutToo ==> s.readerFailed) {
      var es := JoinFinishes(cfg, s);
    } else {
      forall es | Valid(cfg, s, es) && Calm(es)
        ensures !Final(cfg, s, es).parent.Done?
      {
        HungForever(cfg, s, es);
      }
    }
  }

  /**
   When the stdout reader cannot be started on a bootstrapped child, the sandbox gets out by itself if and only
   if the stdin thread has given up or the whole input fits into the stdin pipe.
   */
  lemma StdoutThreadFailure(cfg: Config, s: State)
    requires Inv(cfg, s) && s.parent.Going? && s.did == START_STDOUT && s.child.Alive?
    ensures GetsOut(cfg, Apply(cfg, s, Parent(false))) <==> WriterEnds(cfg, s)
  {
    InvStep(cfg, s, Parent(false));
    HungOrOut(cfg, Apply(cfg, s, Parent(false)));
  }

  /**
   When the stderr reader cannot be started, the stdout reader must have given up as well: otherwise it waits
   for the child's end of its pipe.
   */
  lemma StderrThreadFailure(cfg: Config, s: State)
    requires Inv(cfg, s) && s.parent.Going? && s.did == START_STDERR && s.child.Alive?
    ensures GetsOut(cfg, Apply(cfg, s, Parent(false))) <==> WriterEnds(cfg, s) && s.readerFailed
  {
    InvStep(cfg, s, Parent(false));
    HungOrOut(cfg, Apply(cfg, s, Parent(false)));
  }

  // ---------- The hangs happen ----------

  /** Only steps of the two processes, and no failure. */
  predicate Smooth(es: seq<Event>) {
    forall e :: e in es ==> e == Parent(true) || e == Child(true)
  }

  /** The child, bootstrapped up to its step k, when it has taken 'A'. */
  function Booting(k: nat): State {
    State(Going, READ_B, Alive, k, [], [], 0, 0, false, false)
  }

  /** io_start is about to start its thread number did - START_STDIN; the child waits for 'C'. */
  function IoStarting(did: nat): State {
    State(Going, did, Alive, READ_C, [], [], 0, 0, false, false)
  }

  lemma {:induction false} Boots(cfg: Config, k: nat, n: nat, es: seq<Event>) returns (fs: seq<Event>)
    requires SET_UID <= k <= n <= WRITE_B && Valid(cfg, Booting(n), es)
    ensures Valid(cfg, Booting(k), fs) && Final(cfg, Booting(k), fs) == Final(cfg, Booting(n), es)
    ensures Smooth(es) ==> Smooth(fs)
    decreases n - k
  {
    fs := es;
    if k < n {
      fs := Boots(cfg, k + 1, n, es);
      fs := Cons(cfg, Booting(k), Child(true), fs);
    }
  }

  /** An undisturbed bootstrap brings the parent to io_start. */
  lemma UntilIoStart(cfg: Config, es: seq<Event>) returns (fs: seq<Event>)
    requires Valid(cfg, IoStarting(START_STDIN), es)
    ensures Valid(cfg, INIT, fs) && Final(cfg, INIT, fs) == Final(cfg, IoStarting(START_STDIN), es)
    ensures Smooth(es) ==> Smooth(fs)
  {
    var s1 := Apply(cfg, Booting(WRITE_B), Child(true));
    var s2 := Apply(cfg, s1, Parent(true));
    var s3 := Apply(cfg, s2, Parent(true));
    assert Apply(cfg, s3, Parent(true)) == IoStarting(START_STDIN);
    fs := Cons(cfg, s3, Parent(true), es);
    fs := Cons(cfg, s2, Parent(true), fs);
    fs := Cons(cfg, s1, Parent(true), fs);
    fs := Cons(cfg, Booting(WRITE_B), Child(true), fs);
    fs := Boots(cfg, SET_UID, WRITE_B, fs);
    fs := UntilBooting(cfg, fs);
  }

  lemma UntilBooting(cfg: Config, es: seq<Event>) returns (fs: seq<Event>)
    requires Valid(cfg, Booting(SET_UID), es)
    ensures Valid(cfg, INIT, fs) && Final(cfg, INIT, fs) == Final(cfg, Booting(SET_UID), es)
    ensures Smooth(es) ==> Smooth(fs)
  {
    assert Apply(cfg, INIT.(did := WRITE_A), Parent(true)) == INIT.(did := READ_B, toChild := [A]);
    fs := TakesA(cfg, es);
    fs := Cons(cfg, INIT.(did := WRITE_A), Parent(true), fs);
    fs := Cons(cfg, INIT, Parent(true), fs);
  }

  /** The child mounts its file systems and takes 'A'. */
  lemma TakesA(cfg: Config, es: seq<Event>) returns (fs: seq<Event>)
    requires Valid(cfg, Booting(SET_UID), es)
    ensures var s := INIT.(did := READ_B, toChild := [A]);
      Valid(cfg, s, fs) && Final(cfg, s, fs) == Final(cfg, Booting(SET_UID), es)
    ensures Smooth(es) ==> Smooth(fs)
  {
    var s := INIT.(did := READ_B, toChild := [A]);
    var t := s.(passed := READ_A);
    assert Apply(cfg, t, Child(true)) == Booting(SET_UID);
    fs := Cons(cfg, t, Child(true), es);
    fs := Cons(cfg, s, Child(true), fs);
  }

  /** The stdin thread writes until the pipe is full or the input ends. */
  lemma {:induction false} FillsPipe(cfg: Config, s: State) returns (es: seq<Event>)
    requires StdinThread(s) && !s.writerFailed && s.consumed == 0
    requires s.written <= cfg.stdinLen && s.written <= cfg.pipeCap
    ensures Valid(cfg, s, es)
    ensures Final(cfg, s, es) == s.(written := if cfg.stdinLen <= cfg.pipeCap then cfg.stdinLen else cfg.pipeCap)
    decreases cfg.stdinLen - s.written
  {
    es := [];
    if s.written < cfg.stdinLen && s.written < cfg.pipeCap {
      es := FillsPipe(cfg, Apply(cfg, s, StdinWrite));
      es := Cons(cfg, s, StdinWrite, es);
    }
  }

  /** The child is killed before it has said anything, and the parent reads for good. */
  lemma SilentDeathHappens(cfg: Config) returns (es: seq<Event>)
    ensures Valid(cfg, INIT, es) && SilentDeath(Final(cfg, INIT, es)) && Stalled(cfg, Final(cfg, INIT, es))
  {
    var s1 := Apply(cfg, INIT, Parent(true));
    var s2 := Apply(cfg, s1, Parent(true));
    es := [];
    es := Cons(cfg, s2, Killed, es);
    es := Cons(cfg, s1, Parent(true), es);
    es := Cons(cfg, INIT, Parent(true), es);
  }

  /** The same when the child's first step fails and its 'X' cannot be written. */
  lemma LostXHappens(cfg: Config) returns (es: seq<Event>)
    ensures Valid(cfg, INIT, es) && SilentDeath(Final(cfg, INIT, es)) && Stalled(cfg, Final(cfg, INIT, es))
    ensures es == [Parent(true), Parent(true), Child(false), Child(false)]
  {
    var s1 := Apply(cfg, INIT, Parent(true));
    var s2 := Apply(cfg, s1, Parent(true));
    var s3 := Apply(cfg, s2, Child(false));
    es := [];
    es := Cons(cfg, s3, Child(false), es);
    es := Cons(cfg, s2, Child(false), es);
    es := Cons(cfg, s1, Parent(true), es);
    es := Cons(cfg, INIT, Parent(true), es);
  }

  /**
   With an input larger than the pipe, one failure, that of the stdout reader's pthread_create, blocks both
   processes.
   */
  lemma StdoutHangHappens(cfg: Config) returns (es: seq<Event>)
    requires cfg.stdinLen > cfg.pipeCap
    ensures Valid(cfg, INIT, es) && JoinHang(cfg, Final(cfg, INIT, es)) && Stalled(cfg, Final(cfg, INIT, es))
  {
    var s := IoStarting(START_STDOUT);
    es := FillsPipe(cfg, Apply(cfg, s, Parent(false)));
    es := Cons(cfg, s, Parent(false), es);
    es := Cons(cfg, IoStarting(START_STDIN), Parent(true), es);
    es := UntilIoStart(cfg, es);
  }

  /** With any input, the failure of the stderr reader's pthread_create does. */
  lemma StderrHangHappens(cfg: Config) returns (es: seq<Event>)
    ensures Valid(cfg, INIT, es) && JoinHang(cfg, Final(cfg, INIT, es)) && Stalled(cfg, Final(cfg, INIT, es))
  {
    var s := IoStarting(START_STDERR);
    es := HangsAtStderr(cfg, Apply(cfg, s, Parent(false)));
    es := Cons(cfg, s, Parent(false), es);
    es := Cons(cfg, IoStarting(START_STDOUT), Parent(true), es);
    es := Cons(cfg, IoStarting(START_STDIN), Parent(true), es);
    es := UntilIoStart(cfg, es);
  }

  lemma {:induction false} HangsAtStderr(cfg: Config, s: State) returns (es: seq<Event>)
    requires StdinThread(s) && s.child.Alive? && s.passed == READ_C && s.toChild == [] && s.parent == JoinStdin(true)
    requires !s.writerFailed && !s.readerFailed && s.consumed == 0
    requires s.written <= cfg.stdinLen && s.written <= cfg.pipeCap
    ensures Valid(cfg, s, es) && JoinHang(cfg, Final(cfg, s, es)) && Stalled(cfg, Final(cfg, s, es))
    decreases cfg.stdinLen - s.written
  {
    es := [];
    if s.written < cfg.stdinLen && s.written < cfg.pipeCap {
      es := HangsAtStderr(cfg, Apply(cfg, s, StdinWrite));
      es := Cons(cfg, s, StdinWrite, es);
    } else if s.written == cfg.stdinLen {
      es := Cons(cfg, s, Parent(true), es);
    }
  }

  // ---------- What the parent returns ----------

  /** The state after the first n events. */
  ghost function At(cfg: Config, s: State, es: seq<Event>, n: nat): State
    requires Valid(cfg, s, es) && n <= |es|
    decreases n
  {
    if n == 0 then s else At(cfg, Apply(cfg, s, es[0]), es[1..], n - 1)
  }

  /** Step i ends the wait: the child has exited and is reaped, or its time is over. */
  ghost predicate WaitEndsAt(cfg: Config, s: State, es: seq<Event>, i: nat)
    requires Valid(cfg, s, es)
  {
    && i < |es| && At(cfg, s, es, i).parent.Going? && At(cfg, s, es, i).did == WAIT
    && (es[i] == Parent(true) || es[i] == Timeout)
  }

  ghost predicate WaitEnds(cfg: Config, s: State, es: seq<Event>)
    requires Valid(cfg, s, es)
  {
    exists i: nat :: WaitEndsAt(cfg, s, es, i)
  }

  lemma {:induction false} AtAll(cfg: Config, s: State, es: seq<Event>)
    requires Valid(cfg, s, es)
    ensures At(cfg, s, es, |es|) == Final(cfg, s, es)
    decreases es
  {
    if es != [] {
      AtAll(cfg, Apply(cfg, s, es[0]), es[1..]);
    }
  }

  lemma WaitEndsLater(cfg: Config, s: State, es: seq<Event>)
    requires Valid(cfg, s, es) && es != []
    ensures WaitEnds(cfg, s, es) <==>
      WaitEndsAt(cfg, s, es, 0) || WaitEnds(cfg, Apply(cfg, s, es[0]), es[1..])
  {
    var t, rest := Apply(cfg, s, es[0]), es[1..];
    if i: nat :| WaitEndsAt(cfg, s, es, i) && i > 0 {
      assert WaitEndsAt(cfg, t, rest, i - 1);
    }
    if i: nat :| WaitEndsAt(cfg, t, rest, i) {
      assert WaitEndsAt(cfg, s, es, i + 1);
    }
  }

  /** The parent has already been told that the wait was a success. */
  predicate Succeeding(s: State) {
    s.parent == IoWait(true) || s.parent == Done(true)
  }

  lemma ResultStep(cfg: Config, s: State, e: Event)
    requires Enabled(cfg, s, e)
    ensures Succeeding(Apply(cfg, s, e)) <==>
      Succeeding(s) || (s.parent.Going? && s.did == WAIT && (e == Parent(true) || e == Timeout))
  {
  }

  lemma {:induction false} ResultFrom(cfg: Config, s: State, es: seq<Event>)
    requires Valid(cfg, s, es) && Final(cfg, s, es).parent.Done?
    ensures Final(cfg, s, es).parent.ok <==> Succeeding(s) || WaitEnds(cfg, s, es)
    decreases es
  {
    if es != [] {
      WaitEndsLater(cfg, s, es);
      ResultStep(cfg, s, es[0]);
      assert At(cfg, s, es, 0) == s;
      ResultFrom(cfg, Apply(cfg, s, es[0]), es[1..]);
    }
  }

  lemma {:induction false} WaitedAlways(cfg: Config, s: State, es: seq<Event>)
    requires Valid(cfg, s, es) && (Succeeding(s) ==> s.did == WAIT)
    ensures Succeeding(Final(cfg, s, es)) ==> Final(cfg, s, es).did == WAIT
    decreases es
  {
    if es != [] {
      WaitedAlways(cfg, Apply(cfg, s, es[0]), es[1..]);
    }
  }

  /**
   Over every run: handle_run reports success exactly when its wait for the child ended, with an exit or because the
   time was over. Then the child had bootstrapped.
   */
  lemma ResultMeans(cfg: Config, es: seq<Event>)
    requires Valid(cfg, INIT, es) && Final(cfg, INIT, es).parent.Done?
    ensures Final(cfg, INIT, es).parent.ok <==> WaitEnds(cfg, INIT, es)
    ensures Final(cfg, INIT, es).parent.ok ==> Final(cfg, INIT, es).passed > WRITE_B
  {
    ResultFrom(cfg, INIT, es);
    InvAlways(cfg, INIT, es);
    WaitedAlways(cfg, INIT, es);
  }

  /** All three threads are started. */
  lemma UntilThreads(cfg: Config, es: seq<Event>) returns (fs: seq<Event>)
    requires Valid(cfg, IoStarting(WRITE_C), es) && Smooth(es)
    ensures Valid(cfg, INIT, fs) && Final(cfg, INIT, fs) == Final(cfg, IoStarting(WRITE_C), es) && Smooth(fs)
  {
    fs := Cons(cfg, IoStarting(START_STDERR), Parent(true), es);
    fs := Cons(cfg, IoStarting(START_STDOUT), Parent(true), fs);
    fs := Cons(cfg, IoStarting(START_STDIN), Parent(true), fs);
    fs := UntilIoStart(cfg, fs);
  }

  /** The parent waits, and the child is on its last steps before the program, or executing it. */
  function Executing(passed: nat): State {
    State(Going, WAIT, Alive, passed, [], [], 0, 0, false, false)
  }

  lemma {:induction false} Executes(cfg: Config, k: nat, n: nat, es: seq<Event>) returns (fs: seq<Event>)
    requires DROP_CAPS <= k <= n <= RUNNING && Valid(cfg, Executing(n), es) && Smooth(es)
    ensures Valid(cfg, Executing(k), fs) && Smooth(fs)
    ensures Final(cfg, Executing(k), fs) == Final(cfg, Executing(n), es)
    decreases n - k
  {
    fs := es;
    if k < n {
      fs := Executes(cfg, k + 1, n, es);
      fs := Cons(cfg, Executing(k), Child(true), fs);
    }
  }

  lemma UntilExecuting(cfg: Config, n: nat, es: seq<Event>) returns (fs: seq<Event>)
    requires DROP_CAPS <= n <= RUNNING && Valid(cfg, Executing(n), es) && Smooth(es)
    ensures Valid(cfg, IoStarting(WRITE_C), fs) && Smooth(fs)
    ensures Final(cfg, IoStarting(WRITE_C), fs) == Final(cfg, Executing(n), es)
  {
    var s := Apply(cfg, IoStarting(WRITE_C), Parent(true));
    assert Apply(cfg, s, Child(true)) == Executing(DROP_CAPS);
    fs := Executes(cfg, DROP_CAPS, n, es);
    fs := Cons(cfg, s, Child(true), fs);
    fs := Cons(cfg, IoStarting(WRITE_C), Parent(true), fs);
  }

  /** The undisturbed run, in which nothing fails, ends in success. */
  lemma UndisturbedRun(cfg: Config) returns (es: seq<Event>)
    ensures Valid(cfg, INIT, es) && Smooth(es) && Final(cfg, INIT, es).parent == Done(true)
  {
    var s1 := Apply(cfg, Executing(RUNNING), Child(true));
    var s2 := Apply(cfg, s1, Parent(true));
    es := [];
    es := Cons(cfg, s2, Parent(true), es);
    es := Cons(cfg, s1, Parent(true), es);
    es := Cons(cfg, Executing(RUNNING), Child(true), es);
    es := UntilExecuting(cfg, RUNNING, es);
    es := UntilThreads(cfg, es);
  }

  /** A program that does not end is killed when its time is over, and that is a success as well. */
  lemma OverdueRun(cfg: Config) returns (es: seq<Event>)
    ensures Valid(cfg, INIT, es) && Final(cfg, INIT, es).parent == Done(true)
    ensures |es| >= 2 && Smooth(es[..|es| - 2]) && es[|es| - 2..] == [Timeout, Parent(true)]
  {
    var before := UntilExecuting(cfg, RUNNING, []);
    before := UntilThreads(cfg, before);
    es := before + [Timeout, Parent(true)];
    Continues(cfg, INIT, before, [Timeout, Parent(true)]);
    var s1 := Apply(cfg, Executing(RUNNING), Timeout);
    var last := Cons(cfg, s1, Parent(true), []);
    last := Cons(cfg, Executing(RUNNING), Timeout, last);
  }

  /** When a step of the child's bootstrap fails and its 'X' arrives, handle_run fails. */
  lemma FailedBootRun(cfg: Config, k: nat) returns (es: seq<Event>)
    requires SET_UID <= k <= WRITE_B
    ensures Valid(cfg, INIT, es) && Final(cfg, INIT, es).parent == Done(false) && Final(cfg, INIT, es).passed == k
    ensures |es| >= 4 && Smooth(es[..|es| - 4])
    ensures es[|es| - 4..] == [Child(false), Child(true), Parent(true), Parent(true)]
  {
    var before := Boots(cfg, SET_UID, k, []);
    before := UntilBooting(cfg, before);
    var after := [Child(false), Child(true), Parent(true), Parent(true)];
    es := before + after;
    Continues(cfg, INIT, before, after);
    var s1 := Apply(cfg, Booting(k), Child(false));
    var s2 := Apply(cfg, s1, Child(true));
    var s3 := Apply(cfg, s2, Parent(true));
    var last := Cons(cfg, s3, Parent(true), []);
    last := Cons(cfg, s2, Parent(true), last);
    last := Cons(cfg, s1, Child(true), last);
    last := Cons(cfg, Booting(k), Child(false), last);
  }

  /** The program, which is executing, has read n bytes of its input. */
  function Fed(n: nat): State {
    Executing(RUNNING).(written := n, consumed := n)
  }

  lemma {:induction false} FeedsOn(cfg: Config, n: nat, es: seq<Event>) returns (fs: seq<Event>)
    requires cfg.pipeCap > 0 && n <= cfg.stdinLen && Valid(cfg, Fed(cfg.stdinLen), es)
    ensures Valid(cfg, Fed(n), fs) && Final(cfg, Fed(n), fs) == Final(cfg, Fed(cfg.stdinLen), es)
    decreases cfg.stdinLen - n
  {
    fs := es;
    if n < cfg.stdinLen {
      fs := FeedsOn(cfg, n + 1, es);
      var s := Apply(cfg, Fed(n), StdinWrite);
      fs := Cons(cfg, s, ChildReads, fs);
      fs := Cons(cfg, Fed(n), StdinWrite, fs);
    }
  }

  /** With any pipe, the program can read an input of any length, while its writer thread writes on. */
  lemma InputIsRead(cfg: Config) returns (es: seq<Event>)
    requires cfg.pipeCap > 0
    ensures Valid(cfg, INIT, es) && Final(cfg, INIT, es).parent == Done(true)
    ensures Final(cfg, INIT, es).consumed == cfg.stdinLen && Final(cfg, INIT, es).passed == RUNNING
  {
    var s1 := Apply(cfg, Fed(cfg.stdinLen), Child(true));
    var s2 := Apply(cfg, s1, Parent(true));
    es := Cons(cfg, s2, Parent(true), []);
    es := Cons(cfg, s1, Parent(true), es);
    es := Cons(cfg, Fed(cfg.stdinLen), Child(true), es);
    es := FeedsOn(cfg, 0, es);
    var before := UntilExecuting(cfg, RUNNING, []);
    before := UntilThreads(cfg, before);
    Continues(cfg, INIT, before, es);
    es := before + es;
  }

  /**
   A failed execve is a success as well: the child ends without an 'X', which nobody would read, and the parent takes
   that for the end of the program.
   */
  lemma FailedExecRun(cfg: Config) returns (es: seq<Event>)
    ensures Valid(cfg, INIT, es) && Final(cfg, INIT, es).parent == Done(true) && Final(cfg, INIT, es).passed == EXEC
    ensures |es| >= 3 && Smooth(es[..|es| - 3]) && es[|es| - 3..] == [Child(false), Parent(true), Parent(true)]
  {
    var before := UntilExecuting(cfg, EXEC, []);
    before := UntilThreads(cfg, before);
    var after := [Child(false), Parent(true), Parent(true)];
    es := before + after;
    Continues(cfg, INIT, before, after);
    var s1 := Apply(cfg, Executing(EXEC), Child(false));
    var s2 := Apply(cfg, s1, Parent(true));
    var last := Cons(cfg, s2, Parent(true), []);
    last := Cons(cfg, s1, Parent(true), last);
    last := Cons(cfg, Executing(EXEC), Child(false), last);
  }

  /** Over every run: the child reports a failure only before execve, and one of the filter only if there is one. */
  lemma {:induction false} SaysXBeforeExec(cfg: Config, s: State, es: seq<Event>)
    requires Valid(cfg, s, es) && Inv(cfg, s)
    requires s.child.SayX? ==> s.passed < EXEC && (s.passed == FILTER ==> cfg.useSeccomp)
    ensures var t := Final(cfg, s, es); t.child.SayX? ==> t.passed < EXEC && (t.passed == FILTER ==> cfg.useSeccomp)
    decreases es
  {
    if es != [] {
      InvStep(cfg, s, es[0]);
      SaysXBeforeExec(cfg, Apply(cfg, s, es[0]), es[1..]);
    }
  }

  lemma {:induction false} Continues(cfg: Config, s: State, a: seq<Event>, b: seq<Event>)
    requires Valid(cfg, s, a)
    ensures Valid(cfg, s, a + b) <==> Valid(cfg, Final(cfg, s, a), b)
    ensures Valid(cfg, s, a + b) ==> Final(cfg, s, a + b) == Final(cfg, Final(cfg, s, a), b)
    decreases a
  {
    if a == [] {
      assert a + b == b;
    } else {
      assert (a + b)[1..] == a[1..] + b;
      Continues(cfg, Apply(cfg, s, a[0]), a[1..], b);
    }
  }

  // ---------- No thread is left behind ----------

  /** The ways in which the parent joins threads: the first one or two in a failing io_start, or all of them. */
  datatype Join = JoinsStdin | JoinsStdout | JoinsAll

  predicate Performs(m: ParentMode, j: Join) {
    match j
    case JoinsStdin => m.JoinStdin?
    case JoinsStdout => m.JoinStdout?
    case JoinsAll => m.IoWait?
  }

  /** At some point of the run the parent performs j, which it leaves only when the joined threads have ended. */
  ghost predicate Joined(cfg: Config, s: State, es: seq<Event>, j: Join)
    requires Valid(cfg, s, es)
  {
    exists i: nat :: i <= |es| && Performs(At(cfg, s, es, i).parent, j)
  }

  lemma JoinedLater(cfg: Config, s: State, es: seq<Event>, j: Join)
    requires Valid(cfg, s, es) && es != []
    requires Performs(s.parent, j) || Joined(cfg, Apply(cfg, s, es[0]), es[1..], j)
    ensures Joined(cfg, s, es, j)
  {
    if Performs(s.parent, j) {
      assert Performs(At(cfg, s, es, 0).parent, j);
    } else {
      var i: nat :| i <= |es[1..]| && Performs(At(cfg, Apply(cfg, s, es[0]), es[1..], i).parent, j);
      assert Performs(At(cfg, s, es, i + 1).parent, j);
    }
  }

  /** What the parent still has to join, in mode m after `did` steps. */
  predicate Due(m: ParentMode, did: nat, j: Join) {
    match m
    case Going => if j.JoinsStdin? then START_STDOUT <= did <= START_STDERR else
                  if j.JoinsStdout? then did == START_STDERR else did > START_STDERR
    case JoinStdin(stdoutToo) => j.JoinsStdin? || (j.JoinsStdout? && stdoutToo)
    case JoinStdout => j.JoinsStdout?
    case Killing(joinThreads) => j.JoinsAll? && joinThreads
    case IoWait(_) => j.JoinsAll?
    case Done(_) => false
  }

  lemma DueStep(cfg: Config, s: State, e: Event, did: nat, j: Join)
    requires Enabled(cfg, s, e) && s.did <= WAIT && Due(s.parent, did, j) && !Performs(s.parent, j)
    requires s.parent.Going? ==> did == if Apply(cfg, s, e).parent.Going? then did else s.did
    ensures Due(Apply(cfg, s, e).parent, did, j)
  {
  }

  lemma {:induction false} DueIsDone(cfg: Config, s: State, es: seq<Event>, j: Join)
    requires Valid(cfg, s, es) && Final(cfg, s, es).parent.Done? && s.did <= WAIT
    requires if s.parent.Going? then Due(Going, Final(cfg, s, es).did, j) else Due(s.parent, s.did, j)
    ensures Joined(cfg, s, es, j)
    decreases es
  {
    if Performs(s.parent, j) {
      assert Performs(At(cfg, s, es, 0).parent, j);
    } else {
      var t := Apply(cfg, s, es[0]);
      if !t.parent.Going? {
        DidStays(cfg, t, es[1..]);
      }
      DueStep(cfg, s, es[0], if s.parent.Going? then Final(cfg, s, es).did else s.did, j);
      DueIsDone(cfg, t, es[1..], j);
      JoinedLater(cfg, s, es, j);
    }
  }

  lemma {:induction false} DidStays(cfg: Config, s: State, es: seq<Event>)
    requires Valid(cfg, s, es) && !s.parent.Going?
    ensures Final(cfg, s, es).did == s.did
    decreases es
  {
    if es != [] {
      DidStays(cfg, Apply(cfg, s, es[0]), es[1..]);
    }
  }

  lemma {:induction false} JoinedIsDue(cfg: Config, s: State, es: seq<Event>, j: Join)
    requires Inv(cfg, s) && Valid(cfg, s, es) && Joined(cfg, s, es, j)
    ensures Due(Going, Final(cfg, s, es).did, j)
    decreases es
  {
    if Performs(s.parent, j) {
      DidStays(cfg, s, es);
    } else {
      var i: nat :| i <= |es| && Performs(At(cfg, s, es, i).parent, j);
      assert Performs(At(cfg, Apply(cfg, s, es[0]), es[1..], i - 1).parent, j);
      InvStep(cfg, s, es[0]);
      JoinedIsDue(cfg, Apply(cfg, s, es[0]), es[1..], j);
    }
  }

  /** Over every run: when the parent returns, it has joined the I/O threads it had started, and no others. */
  lemma ThreadsAreJoined(cfg: Config, es: seq<Event>)
    requires Valid(cfg, INIT, es) && Final(cfg, INIT, es).parent.Done?
    ensures var did := Final(cfg, INIT, es).did;
      && (Joined(cfg, INIT, es, JoinsStdin) <==> START_STDOUT <= did <= START_STDERR)
      && (Joined(cfg, INIT, es, JoinsStdout) <==> did == START_STDERR)
      && (Joined(cfg, INIT, es, JoinsAll) <==> did > START_STDERR)
  {
    forall j: Join
      ensures Joined(cfg, INIT, es, j) <==> Due(Going, Final(cfg, INIT, es).did, j)
    {
      if Due(Going, Final(cfg, INIT, es).did, j) {
        DueIsDone(cfg, INIT, es, j);
      }
      if Joined(cfg, INIT, es, j) {
        JoinedIsDue(cfg, INIT, es, j);
      }
    }
  }
}
