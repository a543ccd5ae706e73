/** How the sandbox's response becomes a report, with Go's 64-bit unsigned fields. */
module LimeReport {

  const U64: int := 0x1_0000_0000_0000_0000

  type Uint64 = x: int | 0 <= x < U64

  /** A Go conversion between int64 and uint64: the bits stay, the value wraps. */
  function ToUint64(x: int): Uint64 {
    x % U64
  }

  function ToInt64(x: Uint64): int {
    if x < U64 / 2 then x else x - U64
  }

  /** Converting an int64 there and back gives it again; a small non-negative number does not change at all. */
  lemma WrapsBack(x: int)
    requires -(U64 / 2) <= x < U64 / 2
    ensures ToInt64(ToUint64(x)) == x && (x >= 0 ==> ToUint64(x) == x)
  {
  }

  datatype Status = Ok | RuntimeFailure | TimeLimitExceeded | MemoryLimitExceeded

  datatype Response = Response(
    exitCode: int, termSignal: int,
    cpuTimeUs: Uint64, wallTimeUs: Uint64, memoryBytes: Uint64,
    stdout: string, stderr: string)

  datatype Report = Report(status: Status, stdout: string, stderr: string, cpuTime: Uint64, memory: Uint64)

  /** A limit of zero is no limit; time is checked before memory, and memory before the exit status. */
  function ReportFromResponse(resp: Response, timeLimitUs: Uint64, memoryLimit: Uint64): (r: Report)
    ensures r.status.Ok? <==>
      && (timeLimitUs > 0 ==> resp.cpuTimeUs <= timeLimitUs && resp.wallTimeUs <= timeLimitUs)
      && (memoryLimit > 0 ==> resp.memoryBytes <= memoryLimit)
      && resp.exitCode == 0 && resp.termSignal == 0
    ensures r.status.TimeLimitExceeded? <==>
      timeLimitUs > 0 && (resp.cpuTimeUs > timeLimitUs || resp.wallTimeUs > timeLimitUs)
    ensures r.status.MemoryLimitExceeded? <==>
      !r.status.TimeLimitExceeded? && memoryLimit > 0 && resp.memoryBytes > memoryLimit
    ensures r.cpuTime == resp.cpuTimeUs && r.memory == resp.memoryBytes
    ensures r.stdout == resp.stdout && r.stderr == resp.stderr
  {
    var status :=
      if timeLimitUs > 0 && (resp.cpuTimeUs > timeLimitUs || resp.wallTimeUs > timeLimitUs) then TimeLimitExceeded
      else if memoryLimit > 0 && resp.memoryBytes > memoryLimit then MemoryLimitExceeded
      else if resp.exitCode != 0 || resp.termSignal != 0 then RuntimeFailure
      else Ok;
    Report(status, resp.stdout, resp.stderr, resp.cpuTimeUs, resp.memoryBytes)
  }

  /** The wall time limit the sandbox enforces: twice the time limit, in uint64. */
  function WallLimitUs(timeLimitUs: Uint64): Uint64 {
    (2 * timeLimitUs) % U64
  }

  /**
   A program that used up its wall time, as every one the sandbox kills for it has, is always reported as over
   the time limit exactly when there is a limit and doubling it does not wrap.
   */
  lemma WallKillIsTimeLimit(timeLimitUs: Uint64, memoryLimit: Uint64)
    ensures (forall resp: Response :: resp.wallTimeUs >= WallLimitUs(timeLimitUs)
              ==> ReportFromResponse(resp, timeLimitUs, memoryLimit).status.TimeLimitExceeded?)
            <==> 0 < timeLimitUs < U64 / 2
  {
    var wall := WallLimitUs(timeLimitUs);
    var resp := Response(0, 0, 0, wall, 0, "", "");
    if timeLimitUs == 0 || timeLimitUs >= U64 / 2 {
      assert wall <= timeLimitUs;
      assert !ReportFromResponse(resp, timeLimitUs, memoryLimit).status.TimeLimitExceeded?;
    } else {
      assert wall == 2 * timeLimitUs;
    }
  }
}
