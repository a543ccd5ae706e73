/** The child's three pipes and the three I/O threads behind them, over every interleaving. */
module PipeThreads {
  import opened PipeIO

  datatype Stream = Stdout | Stderr

  /** An output pipe and its reader thread: what is in the pipe, what was read, and whether the thread has ended. */
  datatype Output = Output(buffer: seq<Byte>, got: seq<Byte>, ended: bool, failed: bool)

  /**
   capacity bounds each pipe. unsent is the input the writer thread still has, piped what is in the stdin pipe,
   read what the child took from it; wrote is what the child wrote to each stream.
   */
  datatype State = State(
    capacity: nat, unsent: seq<Byte>, piped: seq<Byte>, read: seq<Byte>, writerEnded: bool,
    out: Output, err: Output, wroteOut: seq<Byte>, wroteErr: seq<Byte>, alive: bool)

  function Start(capacity: nat, input: seq<Byte>): State {
    State(capacity, input, [], [], false, Output([], [], false, false), Output([], [], false, false), [], [], true)
  }

  /** Steps of the threads, which close their descriptor when they end, and steps of the child. */
  datatype Event =
    | Feed(n: nat) | WriterEnds | BrokenPipe
    | Collect(s: Stream, n: nat) | ReaderEnds(s: Stream) | ReaderFails(s: Stream)
    | ChildReads(n: nat) | ChildWrites(s: Stream, bytes: seq<Byte>) | ChildExits

  function OutputOf(st: State, s: Stream): Output {
    if s.Stdout? then st.out else st.err
  }

  predicate Enabled(st: State, e: Event) {
    match e
    case Feed(n) => !st.writerEnded && st.alive && 0 < n <= |st.unsent| && |st.piped| + n <= st.capacity
    case WriterEnds => !st.writerEnded && st.unsent == []
    case BrokenPipe => !st.writerEnded && !st.alive && st.unsent != []
    case Collect(s, n) => !OutputOf(st, s).ended && 0 < n <= |OutputOf(st, s).buffer|
    case ReaderEnds(s) => !OutputOf(st, s).ended && OutputOf(st, s).buffer == [] && !st.alive
    case ReaderFails(s) => !OutputOf(st, s).ended
    case ChildReads(n) => st.alive && 0 < n <= |st.piped|
    case ChildWrites(s, bytes) =>
      st.alive && bytes != [] && !OutputOf(st, s).ended && |OutputOf(st, s).buffer| + |bytes| <= st.capacity
    case ChildExits => st.alive
  }

  function WithOutput(st: State, s: Stream, o: Output): State {
    if s.Stdout? then st.(out := o) else st.(err := o)
  }

  function After(st: State, e: Event): State
    requires Enabled(st, e)
  {
    match e
    case Feed(n) => st.(unsent := st.unsent[n..], piped := st.piped + st.unsent[..n])
    case WriterEnds => st.(writerEnded := true)
    case BrokenPipe => st.(writerEnded := true)
    case Collect(s, n) =>
      var o := OutputOf(st, s);
      WithOutput(st, s, o.(buffer := o.buffer[n..], got := o.got + o.buffer[..n]))
    case ReaderEnds(s) => WithOutput(st, s, OutputOf(st, s).(ended := true))
    case ReaderFails(s) => WithOutput(st, s, OutputOf(st, s).(ended := true, failed := true))
    case ChildReads(n) => st.(piped := st.piped[n..], read := st.read + st.piped[..n])
    case ChildWrites(s, bytes) =>
      var next := WithOutput(st, s, OutputOf(st, s).(buffer := OutputOf(st, s).buffer + bytes));
      if s.Stdout? then next.(wroteOut := st.wroteOut + bytes) else next.(wroteErr := st.wroteErr + bytes)
    case ChildExits => st.(alive := false)
  }

  /** An event that cannot happen changes nothing. */
  function Next(st: State, e: Event): State {
    if Enabled(st, e) then After(st, e) else st
  }

  function Run(capacity: nat, input: seq<Byte>, events: seq<Event>): State {
    if events == [] then Start(capacity, input)
    else Next(Run(capacity, input, events[..|events| - 1]), events[|events| - 1])
  }

  predicate KeepsBytes(o: Output, wrote: seq<Byte>, alive: bool) {
    && wrote == o.got + o.buffer
    && (o.ended && !o.failed ==> o.buffer == [] && !alive)
  }

  /** No byte is lost, doubled or reordered, and no pipe holds more than its capacity. */
  predicate Conserved(st: State, capacity: nat, input: seq<Byte>) {
    && st.capacity == capacity && |st.piped| <= capacity && |st.out.buffer| <= capacity && |st.err.buffer| <= capacity
    && input == st.read + st.piped + st.unsent
    && (st.writerEnded && st.alive ==> st.unsent == [])
    && KeepsBytes(st.out, st.wroteOut, st.alive) && KeepsBytes(st.err, st.wroteErr, st.alive)
  }

  lemma InputStep(st: State, e: Event, capacity: nat, input: seq<Byte>)
    requires Conserved(st, capacity, input) && Enabled(st, e) && (e.Feed? || e.ChildReads?)
    ensures Conserved(After(st, e), capacity, input)
  {
    if e.Feed? {
      assert st.unsent == st.unsent[..e.n] + st.unsent[e.n..];
      assert st.read + st.piped + st.unsent == st.read + (st.piped + st.unsent[..e.n]) + st.unsent[e.n..];
    } else {
      assert st.piped == st.piped[..e.n] + st.piped[e.n..];
      assert st.read + st.piped + st.unsent == (st.read + st.piped[..e.n]) + st.piped[e.n..] + st.unsent;
    }
  }

  lemma CollectStep(o: Output, n: nat, wrote: seq<Byte>, alive: bool)
    requires KeepsBytes(o, wrote, alive) && !o.ended && n <= |o.buffer|
    ensures KeepsBytes(o.(buffer := o.buffer[n..], got := o.got + o.buffer[..n]), wrote, alive)
  {
    assert o.buffer == o.buffer[..n] + o.buffer[n..];
  }

  lemma OutputStep(st: State, e: Event, capacity: nat, input: seq<Byte>)
    requires Conserved(st, capacity, input) && Enabled(st, e) && (e.Collect? || e.ChildWrites?)
    ensures Conserved(After(st, e), capacity, input)
  {
    var o := OutputOf(st, e.s);
    if e.Collect? {
      CollectStep(o, e.n, if e.s.Stdout? then st.wroteOut else st.wroteErr, st.alive);
    } else {
      assert o.got + o.buffer + e.bytes == o.got + (o.buffer + e.bytes);
    }
  }

  lemma StepConserves(st: State, e: Event, capacity: nat, input: seq<Byte>)
    requires Conserved(st, capacity, input)
    ensures Conserved(Next(st, e), capacity, input)
  {
    if Enabled(st, e) {
      if e.Feed? || e.ChildReads? {
        InputStep(st, e, capacity, input);
      } else if e.Collect? || e.ChildWrites? {
        OutputStep(st, e, capacity, input);
      }
    }
  }

  lemma {:induction false} RunConserves(capacity: nat, input: seq<Byte>, events: seq<Event>)
    ensures Conserved(Run(capacity, input, events), capacity, input)
    decreases |events|
  {
    if events != [] {
      RunConserves(capacity, input, events[..|events| - 1]);
      StepConserves(Run(capacity, input, events[..|events| - 1]), events[|events| - 1], capacity, input);
    }
  }

  /**
   What the child is doing; a blocked read or write lets it do nothing else. size is how much has to go into the
   pipe at once: all of a write of up to PIPE_BUF bytes, at least one byte of a larger one.
   */
  datatype Doing = Computing | Reading | Writing(s: Stream, size: nat)

  /** read blocks on an empty pipe with an open write end, write while there is no room, if the read end is open. */
  predicate Blocked(st: State, d: Doing) {
    match d
    case Computing => false
    case Reading => st.piped == [] && !st.writerEnded
    case Writing(s, size) =>
      size <= st.capacity && |OutputOf(st, s).buffer| + size > st.capacity && !OutputOf(st, s).ended
  }

  predicate ByThread(e: Event) {
    e.Feed? || e.WriterEnds? || e.BrokenPipe? || e.Collect? || e.ReaderEnds?
  }

  predicate Joined(st: State) {
    st.writerEnded && st.out.ended && st.err.ended
  }

  /** While the child is blocked on a pipe, or has exited and the threads have not ended, some thread can move. */
  lemma SomeThreadMoves(capacity: nat, input: seq<Byte>, events: seq<Event>, d: Doing)
    requires capacity > 0
    ensures var st := Run(capacity, input, events);
      (if st.alive then Blocked(st, d) else !Joined(st)) ==> exists e :: ByThread(e) && Enabled(st, e)
  {
    RunConserves(capacity, input, events);
    var st := Run(capacity, input, events);
    if if st.alive then Blocked(st, d) else !Joined(st) {
      var e := MoveOf(st, if st.alive then d else Computing);
      assert ByThread(e) && Enabled(st, e);
    }
  }

  function MoveOf(st: State, d: Doing): Event {
    if d.Writing? then Collect(d.s, |OutputOf(st, d.s).buffer|)
    else if !st.writerEnded then
      if st.unsent == [] then WriterEnds else if st.alive then Feed(1) else BrokenPipe
    else
      var s := if st.out.ended then Stderr else Stdout;
      if OutputOf(st, s).buffer == [] then ReaderEnds(s) else Collect(s, |OutputOf(st, s).buffer|)
  }

  /** The work left to the threads; every one of their steps takes some of it. */
  function Work(st: State): nat {
    |st.unsent| + |st.out.buffer| + |st.err.buffer|
    + (if st.writerEnded then 0 else 1) + (if st.out.ended then 0 else 1) + (if st.err.ended then 0 else 1)
  }

  lemma ThreadsTakeWork(st: State, e: Event)
    requires Enabled(st, e) && ByThread(e)
    ensures Work(After(st, e)) < Work(st)
  {
  }

  /** Once io_wait has joined the threads, each stream holds all that the child wrote to it unless its reader failed. */
  lemma AllIsCollected(capacity: nat, input: seq<Byte>, events: seq<Event>)
    ensures var st := Run(capacity, input, events);
      && st.read <= input && st.out.got <= st.wroteOut && st.err.got <= st.wroteErr
      && (Joined(st) && !st.out.failed ==> st.out.got == st.wroteOut && !st.alive)
      && (Joined(st) && !st.err.failed ==> st.err.got == st.wroteErr && !st.alive)
  {
    RunConserves(capacity, input, events);
    var st := Run(capacity, input, events);
    assert st.read + st.piped + st.unsent == st.read + (st.piped + st.unsent);
  }

  // ---------- An undisturbed run ----------

  lemma OneMore(capacity: nat, input: seq<Byte>, events: seq<Event>, e: Event)
    ensures Run(capacity, input, events + [e]) == Next(Run(capacity, input, events), e)
  {
    assert (events + [e])[..|events|] == events;
  }

  /** The child has read n bytes of its input, one by one, and written nothing. */
  lemma {:induction false} ReadsInput(capacity: nat, input: seq<Byte>, n: nat) returns (events: seq<Event>)
    requires capacity > 0 && n <= |input|
    ensures Run(capacity, input, events) == Start(capacity, input).(unsent := input[n..], read := input[..n])
    decreases n
  {
    events := [];
    if n > 0 {
      events := ReadsInput(capacity, input, n - 1);
      OneMore(capacity, input, events, Feed(1));
      assert input[n - 1..][1..] == input[n..] && [] + input[n - 1..][..1] == [input[n - 1]];
      OneMore(capacity, input, events + [Feed(1)], ChildReads(1));
      assert [input[n - 1]][1..] == [] && input[..n - 1] + [input[n - 1]][..1] == input[..n];
      events := events + [Feed(1)] + [ChildReads(1)];
    }
  }

  /** The child has read its whole input, and what it wrote has been collected. */
  function Midway(capacity: nat, input: seq<Byte>, out: seq<Byte>, err: seq<Byte>): State {
    State(capacity, [], [], input, false, Output([], out, false, false), Output([], err, false, false), out, err, true)
  }

  lemma WritesByte(capacity: nat, st: State, s: Stream, b: Byte)
    requires capacity > 0 && st == Midway(capacity, st.read, st.wroteOut, st.wroteErr)
    ensures Next(Next(st, ChildWrites(s, [b])), Collect(s, 1)) ==
      if s.Stdout? then Midway(capacity, st.read, st.wroteOut + [b], st.wroteErr)
      else Midway(capacity, st.read, st.wroteOut, st.wroteErr + [b])
  {
    assert [] + [b] == [b] && [b][..1] == [b] && [b][1..] == [];
  }

  lemma {:induction false} WritesOutput(capacity: nat, input: seq<Byte>, out: seq<Byte>, err: seq<Byte>)
    returns (events: seq<Event>)
    requires capacity > 0
    ensures Run(capacity, input, events) == Midway(capacity, input, out, err)
    decreases |out| + |err|
  {
    if out == [] && err == [] {
      events := ReadsInput(capacity, input, |input|);
      assert input[..|input|] == input && input[|input|..] == [];
    } else {
      var s := if err != [] then Stderr else Stdout;
      var text := if err != [] then err else out;
      var front, b := text[..|text| - 1], text[|text| - 1];
      assert text == front + [b];
      events := WritesOutput(capacity, input, if err != [] then out else front, if err != [] then front else err);
      WritesByte(capacity, Run(capacity, input, events), s, b);
      OneMore(capacity, input, events, ChildWrites(s, [b]));
      OneMore(capacity, input, events + [ChildWrites(s, [b])], Collect(s, 1));
      events := events + [ChildWrites(s, [b])] + [Collect(s, 1)];
    }
  }

  /**
   With any pipe, a child that reads its whole input and writes any two texts can do so; all of it arrives, and the
   threads end.
   */
  lemma UndisturbedRun(capacity: nat, input: seq<Byte>, out: seq<Byte>, err: seq<Byte>) returns (events: seq<Event>)
    requires capacity > 0
    ensures var st := Run(capacity, input, events);
      && st.read == input && st.out.got == st.wroteOut == out && st.err.got == st.wroteErr == err
      && !st.alive && Joined(st) && !st.out.failed && !st.err.failed
  {
    events := WritesOutput(capacity, input, out, err);
    OneMore(capacity, input, events, WriterEnds);
    events := events + [WriterEnds];
    OneMore(capacity, input, events, ChildExits);
    events := events + [ChildExits];
    OneMore(capacity, input, events, ReaderEnds(Stdout));
    events := events + [ReaderEnds(Stdout)];
    OneMore(capacity, input, events, ReaderEnds(Stderr));
    events := events + [ReaderEnds(Stderr)];
  }
}
