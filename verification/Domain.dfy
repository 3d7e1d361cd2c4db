/** The values the engine passes around: commits and their rows, test cases and
    their results, and the ways a foreign call can end. */
module Domain {

  datatype Option<+T> = None | Some(value: T)

  /** What escapes from a call. `Fatal` is an Exception of a class that stops the
      worker (OSError, MemoryError, SystemError); `Retryable` is every other
      Exception; `Cancelled` is a BaseException that is not an Exception. */
  datatype Exc = Retryable | Fatal | Cancelled

  datatype Result<+T> = Ok(value: T) | Err(error: Exc)

  /** How a foreign call without a database effect ends. */
  datatype Outcome = Done | Raised(exc: Exc) {
    /** Handled by an `except Exception` clause. */
    predicate Caught() { Raised? && !exc.Cancelled? }
  }

  /** How a database statement ends. A statement that raises may still have taken
      effect; one that returns always has. */
  datatype Call = Returned | Threw(exc: Exc, took: bool) {
    predicate Took() { Returned? || took }

    function ToOutcome(): Outcome {
      if Returned? then Done else Raised(exc)
    }
  }

  datatype Status =
    | InQueue | Compiling | Compiled | Running
    | Incomplete | Completed | Error | InternalError | Processing

  /** The statuses with which an attempt may end normally. */
  predicate IsFinal(s: Status) {
    s.Completed? || s.Incomplete? || s.Error? || s.InternalError?
  }

  datatype Verdict = Correct | Malformed | Incorrect

  datatype TestCase = TestCase(id: int, outputType: int, absError: Option<real>)

  datatype CaseResult = CaseResult(caseId: int, verdict: Verdict)

  /** The columns of a commit that `update_commit` writes and that the engine
      decides; `started` and `finished` say whether the time stamp is set. */
  datatype CommitData = CommitData(
    status: Status, corrects: nat, score: real, compiled: bool,
    started: bool, finished: bool, compileError: string)

  /** A row of the commits table together with its rows of test results. */
  datatype Row = Row(data: CommitData, results: seq<CaseResult>)
}
