/** The I/O threads: reading a descriptor to its end, feeding stdin, and why bounded pipes cannot block the child. */
module PipeIO {
  import opened Options

  type Byte = bv8

  // ---------- read_all_from_fd ----------

  /**
   A descriptor with the bytes still to come; a read gives any non-empty start of them that fits, or fails, which
   `failed` remembers.
   */
  class Source {
    var rest: seq<Byte>
    var failed: bool

    constructor (data: seq<Byte>)
      ensures rest == data && !failed
    {
      rest, failed := data, false;
    }

    /** read(2): None is an error, and nothing is the end of the file, which it would not be for an empty request. */
    method Read(request: nat) returns (chunk: Option<seq<Byte>>)
      requires request >= 1
      modifies this
      ensures chunk.Some? ==> |chunk.value| <= request && chunk.value <= old(rest) && rest == old(rest)[|chunk.value|..]
      ensures chunk.Some? ==> (chunk.value == [] <==> old(rest) == [])
      ensures chunk.None? ==> rest == old(rest)
      ensures failed == (old(failed) || chunk.None?)
    {
      var fails: bool := *;
      if fails {
        failed := true;
        return None;
      }
      var n := if request <= |rest| then request else |rest|;
      var fewer: nat := *;
      if 0 < fewer < n {
        n := fewer;
      }
      chunk := Some(rest[..n]);
      rest := rest[n..];
    }
  }

  /** malloc and realloc; `refused` remembers that a request was turned down. */
  class Memory {
    var refused: bool

    constructor ()
      ensures !refused
    {
      refused := false;
    }

    method Ask() returns (given: bool)
      modifies this
      ensures refused == (old(refused) || !given)
    {
      given := *;
      refused := refused || !given;
    }
  }

  /** The buffer holds data and a terminating zero, in no more room than doubling needs. */
  ghost predicate HoldsText(buffer: array<Byte>, data: seq<Byte>)
    reads buffer
  {
    && |data| < buffer.Length && buffer[..|data|] == data && buffer[|data|] == 0
    && buffer.Length <= (if 2 * (|data| + 1) < 4096 then 4096 else 2 * (|data| + 1))
  }

  /** The buffer so far: length bytes of data, and room for at least one more and the zero. */
  ghost predicate Filled(buffer: array<Byte>, data: seq<Byte>)
    reads buffer
  {
    && |data| + 1 < buffer.Length && buffer[..|data|] == data
    && buffer.Length <= (if 2 * (|data| + 1) < 4096 then 4096 else 2 * (|data| + 1))
  }

  /** rest is what remains of data after some of its start was taken. */
  predicate IsEnd(rest: seq<Byte>, data: seq<Byte>) {
    |rest| <= |data| && rest == data[|data| - |rest|..]
  }

  /** Some exactly when no read fails and no request for memory is turned down. */
  method ReadAllFromFd(fd: Source, memory: Memory) returns (result: Option<array<Byte>>)
    requires !fd.failed && !memory.refused
    modifies fd, memory
    ensures result.Some? <==> !fd.failed && !memory.refused
    ensures result.Some? ==> fresh(result.value) && HoldsText(result.value, old(fd.rest)) && fd.rest == []
    ensures IsEnd(fd.rest, old(fd.rest))
  {
    var gotMemory := memory.Ask();
    if !gotMemory {
      return None;
    }
    var buffer := new Byte[4096];
    var length := 0;
    ghost var all := fd.rest;
    while true
      invariant length <= |all| && fd.rest == all[length..] && fresh(buffer) && Filled(buffer, all[..length])
      invariant !fd.failed && !memory.refused
      decreases |all| - length
    {
      var chunk := fd.Read(buffer.Length - length - 1);
      if chunk.None? {
        return None;
      }
      if chunk.value == [] {
        break;
      }
      TakeMore(all, length, chunk.value);
      var grown := Take(memory, buffer, length, chunk.value, all[..length]);
      if grown.None? {
        return None;
      }
      length := length + |chunk.value|;
      buffer := grown.value;
    }
    assert all[..length] == all;
    buffer[length] := 0;
    return Some(buffer);
  }

  lemma TakeMore(all: seq<Byte>, n: nat, chunk: seq<Byte>)
    requires n <= |all| && chunk <= all[n..]
    ensures n + |chunk| <= |all| && all[..n] + chunk == all[..n + |chunk|] && all[n..][|chunk|..] == all[n + |chunk|..]
  {
  }

  /** The bytes of one read, and the larger buffer when they leave no room for another; None when there is no memory. */
  method Take(memory: Memory, buffer: array<Byte>, length: nat, chunk: seq<Byte>, ghost data: seq<Byte>)
    returns (grown: Option<array<Byte>>)
    requires length == |data| && Filled(buffer, data) && 0 < |chunk| < buffer.Length - length && !memory.refused
    modifies buffer, memory
    ensures grown.None? <==> memory.refused
    ensures grown.Some? ==> (grown.value == buffer || fresh(grown.value)) && Filled(grown.value, data + chunk)
  {
    CopyInto(buffer, length, chunk);
    if length + |chunk| + 1 < buffer.Length {
      return Some(buffer);
    }
    var gotMemory := memory.Ask();
    if !gotMemory {
      return None;
    }
    var bigger := Grow(buffer, length + |chunk|);
    return Some(bigger);
  }

  method CopyInto(buffer: array<Byte>, at: nat, chunk: seq<Byte>)
    requires at + |chunk| <= buffer.Length
    modifies buffer
    ensures buffer[..at + |chunk|] == old(buffer[..at]) + chunk
  {
    for i := 0 to |chunk|
      invariant buffer[..at] == old(buffer[..at])
      invariant buffer[at..at + i] == chunk[..i]
    {
      buffer[at + i] := chunk[i];
    }
    assert buffer[..at + |chunk|] == buffer[..at] + buffer[at..at + |chunk|];
  }

  /** realloc to twice the size. */
  method Grow(buffer: array<Byte>, length: nat) returns (bigger: array<Byte>)
    requires length <= buffer.Length
    ensures fresh(bigger) && bigger.Length == 2 * buffer.Length && bigger[..length] == buffer[..length]
  {
    bigger := new Byte[2 * buffer.Length];
    CopyInto(bigger, 0, buffer[..length]);
    assert bigger[..0 + length] == bigger[..length];
  }

  /** The text C code sees in the buffer: the bytes before the first zero. */
  function CString(data: seq<Byte>): seq<Byte> {
    if data == [] || data[0] == 0 then [] else [data[0]] + CString(data[1..])
  }

  /** The caller gets no length: it sees all of the output exactly when the output has no zero byte. */
  lemma {:induction false} ZeroBytesCutOff(data: seq<Byte>)
    ensures CString(data) <= data && 0 !in CString(data)
    ensures CString(data) == data || data[|CString(data)|] == 0
    ensures CString(data) == data <==> 0 !in data
    decreases |data|
  {
    if data != [] && data[0] != 0 {
      ZeroBytesCutOff(data[1..]);
      assert data == [data[0]] + data[1..];
    }
  }

  // ---------- stdin_writer ----------

  datatype WriteResult = Wrote(n: nat) | Interrupted | WriteError(errno: nat)

  /**
   A pipe's write end; idle bounds how often it is interrupted, or writes nothing, before it moves on. errno is that of
   the last write that failed for good, 0 before.
   */
  class Sink {
    var got: seq<Byte>
    var idle: nat
    var open: bool
    var errno: nat

    constructor (idle: nat)
      ensures got == [] && open && this.idle == idle && errno == 0
    {
      got, open, errno := [], true, 0;
      this.idle := idle;
    }

    method Write(data: seq<Byte>) returns (r: WriteResult)
      requires open && data != []
      modifies this
      ensures open && (r.Wrote? ==> r.n <= |data|)
      ensures got == if r.Wrote? then old(got) + data[..r.n] else old(got)
      ensures r.Interrupted? || r == Wrote(0) ==> idle < old(idle)
      ensures if r.WriteError? then r.errno == errno != 0 else errno == old(errno)
    {
      var choice: nat := *;
      if choice == 0 && idle > 0 {
        idle := idle - 1;
        return Interrupted;
      }
      if choice == 1 && idle > 0 {
        idle := idle - 1;
        return Wrote(0);
      }
      if choice > 2 {
        errno := choice;
        return WriteError(choice);
      }
      var n: nat := *;
      n := if 0 < n < |data| then n else |data|;
      got := got + data[..n];
      return Wrote(n);
    }

    method Close()
      modifies `open
      ensures !open
    {
      open := false;
    }
  }

  /**
   Short writes and interruptions lose nothing: what got through is a start of the input, all of it without an
   error. The error is the one a write reported, and 0 when none did.
   */
  method StdinWriter(fd: Sink, buf: seq<Byte>) returns (error: nat)
    requires fd.open && fd.errno == 0
    modifies fd
    ensures !fd.open && error == fd.errno
    ensures exists written :: written <= buf && fd.got == old(fd.got) + written && (error == 0 <==> written == buf)
  {
    var written := 0;
    error := 0;
    while written < |buf|
      invariant fd.open && written <= |buf| && fd.got == old(fd.got) + buf[..written] && error == fd.errno == 0
      decreases |buf| - written, fd.idle
    {
      var r := fd.Write(buf[written..]);
      match r {
        case Wrote(n) =>
          assert buf[..written] + buf[written..][..n] == buf[..written + n];
          written := written + n;
        case Interrupted =>
        case WriteError(errno) =>
          error := errno;
          break;
      }
    }
    assert buf[..written] <= buf;
    fd.Close();
  }
}
