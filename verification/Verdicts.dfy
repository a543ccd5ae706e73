/** The verdicts of api/types/submission.go, shared by the judge, the message queues and the standings. */
module Verdicts {

  datatype Verdict =
    | Pending
    | Judging
    | Accepted
    | WrongAnswer
    | TimeLimitExceeded
    | MemoryLimitExceeded
    | RuntimeError
    | CompilationError
    | SystemError
    | InternalError
    | Skipped

  /** A row is still being worked on while it is PENDING or JUDGING; every other verdict is final. */
  predicate Terminal(v: Verdict)
    ensures Terminal(v) <==>
      v in {Accepted, WrongAnswer, TimeLimitExceeded, MemoryLimitExceeded, RuntimeError, CompilationError, SystemError,
            InternalError, Skipped}
  {
    !v.Pending? && !v.Judging?
  }
}
