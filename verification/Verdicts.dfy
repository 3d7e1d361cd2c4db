/** From the files a container leaves behind to the verdict of each test case:
    `diff` and `process_test_results` of engine.py. */
module Verdicts {
  import opened Domain
  import opened Comparators

  const IO_TYPE_TEXT := 1
  const IO_TYPE_NUMERIC := 2
  const IO_TYPE_BINARY := 3

  /** A file under its two views: decoded lines, and bytes. */
  datatype OutFile = OutFile(text: TextFile, bytes: seq<bv8>)

  /** What one test case leaves behind: the monitor's signal, the size of its error file,
      its output, and the expected output if storage delivers it. */
  datatype CaseRun = CaseRun(signal: string, stderrSize: nat, user: OutFile, expected: Option<OutFile>)

  /** `abs_error or 0.0` */
  function Bound(absError: Option<real>): real {
    if absError.Some? then absError.value else 0.0
  }

  /** The output agrees with the expected one under the comparison its type asks for. */
  ghost predicate Matches(lx: Lexis, user: OutFile, test: OutFile, outputType: int, absError: Option<real>) {
    if outputType == IO_TYPE_TEXT then LinesAgree(lx, user.text, test.text)
    else if outputType == IO_TYPE_NUMERIC then NumbersAgree(lx, user.text, test.text, Bound(absError))
    else user.bytes == test.bytes
  }

  /** The inputs for which `diff` raises ValueError. */
  predicate Ungradable(outputType: int, absError: Option<real>) {
    outputType !in {IO_TYPE_TEXT, IO_TYPE_NUMERIC, IO_TYPE_BINARY}
    || (outputType == IO_TYPE_NUMERIC && Bound(absError) < 0.0)
  }

  lemma MatchesMeans(lx: Lexis, user: OutFile, test: OutFile, outputType: int, absError: Option<real>)
    ensures outputType == 1 ==>
              (Matches(lx, user, test, outputType, absError) <==> LinesAgree(lx, user.text, test.text))
    ensures outputType == 2 ==>
              (Matches(lx, user, test, outputType, absError)
               <==> NumbersAgree(lx, user.text, test.text, if absError.Some? then absError.value else 0.0))
    ensures outputType == 3 ==> (Matches(lx, user, test, outputType, absError) <==> user.bytes == test.bytes)
    ensures Ungradable(outputType, absError)
       <==> outputType !in {1, 2, 3} || (outputType == 2 && absError.Some? && absError.value < 0.0)
  {
  }

  ghost function Grade(lx: Lexis, user: OutFile, test: OutFile, outputType: int, absError: Option<real>): Result<Verdict> {
    if Ungradable(outputType, absError) then Err(Retryable)
    else if Matches(lx, user, test, outputType, absError) then Ok(Correct)
    else if outputType == IO_TYPE_TEXT && LooselyAgree(lx, user.text, test.text) then Ok(Malformed)
    else Ok(Incorrect)
  }

  /** `diff`. Text is CORRECT when the lines agree, MALFORMED when they do not but the words do, and
      otherwise INCORRECT; numbers are CORRECT within the bound, a missing one counting as zero, and bytes
      when equal. A type outside the three and a negative bound raise. */
  method Diff(lx: Lexis, user: OutFile, test: OutFile, outputType: int, absError: Option<real>)
    returns (r: Result<Verdict>)
    ensures r == Grade(lx, user, test, outputType, absError)
    ensures outputType == 1 ==>
              r.Ok? && (r.value.Correct? <==> LinesAgree(lx, user.text, test.text))
              && (r.value.Malformed? <==>
                    !LinesAgree(lx, user.text, test.text) && LooselyAgree(lx, user.text, test.text))
    ensures outputType == 2 && (absError.Some? ==> absError.value >= 0.0) ==>
              r.Ok? && !r.value.Malformed?
              && (r.value.Correct? <==>
                    NumbersAgree(lx, user.text, test.text, if absError.Some? then absError.value else 0.0))
    ensures outputType == 3 ==> r == Ok(if user.bytes == test.bytes then Correct else Incorrect)
    ensures r.Err? <==> outputType !in {1, 2, 3} || (outputType == 2 && absError.Some? && absError.value < 0.0)
    ensures r.Err? ==> r.error.Retryable?
  {
    if outputType == IO_TYPE_TEXT {
      var same := TextCmp(lx, user.text, test.text);
      if same { return Ok(Correct); }
      same := TextCmp2(lx, user.text, test.text);
      if same { return Ok(Malformed); }
      return Ok(Incorrect);
    } else if outputType == IO_TYPE_NUMERIC {
      var close := NumberCmp(lx, user.text, test.text, Bound(absError));
      if close.Err? { return Err(close.error); }
      return Ok(if close.value then Correct else Incorrect);
    } else if outputType == IO_TYPE_BINARY {
      return Ok(if user.bytes == test.bytes then Correct else Incorrect);
    }
    return Err(Retryable);
  }

  /** The verdict does not depend on which file is the user's. */
  lemma GradeSymmetric(lx: Lexis, a: OutFile, b: OutFile, outputType: int, absError: Option<real>)
    ensures Grade(lx, a, b, outputType, absError) == Grade(lx, b, a, outputType, absError)
  {
  }

  /** Outputs graded CORRECT for text form classes: two outputs that are both correct for one
      expected file are correct for each other. */
  lemma CorrectTextIsTransitive(lx: Lexis, a: OutFile, b: OutFile, c: OutFile)
    requires Grade(lx, a, b, IO_TYPE_TEXT, None) == Ok(Correct)
    requires Grade(lx, b, c, IO_TYPE_TEXT, None) == Ok(Correct)
    ensures Grade(lx, a, c, IO_TYPE_TEXT, None) == Ok(Correct)
  {
  }

  /** A text output equal to the expected one is CORRECT. It would also have been MALFORMED,
      had the first comparison been skipped, exactly when it does not end in a blank line. */
  lemma CorrectTextMeetsLoose(lx: Lexis, user: OutFile, test: OutFile)
    requires LowerKeepsTrailingSpace(lx) && Grade(lx, user, test, IO_TYPE_TEXT, None) == Ok(Correct)
    ensures LooselyAgree(lx, user.text, test.text) <==> !EndsBlank(lx, test.text.lines)
    ensures EndsBlank(lx, user.text.lines) <==> EndsBlank(lx, test.text.lines)
  {
    StrictImpliesLoose(lx, user.text, test.text);
  }

  // ----- one result per test case -----

  /** A test case passes when the program was not signalled, wrote nothing to its error file and
      its output matches. */
  ghost predicate Passes(lx: Lexis, c: TestCase, run: CaseRun) {
    run.signal == "" && run.stderrSize == 0 && run.expected.Some?
    && Matches(lx, run.user, run.expected.value, c.outputType, c.absError)
  }

  /** `process_test_results` for the case `c`; a case without files raises. */
  ghost function Judge(lx: Lexis, c: TestCase, runs: map<int, CaseRun>): Result<CaseResult> {
    if c.id !in runs then Err(Fatal)
    else
      var run := runs[c.id];
      if run.signal != "" || run.stderrSize != 0 then Ok(CaseResult(c.id, Incorrect))
      else if run.expected.None? then Err(Retryable)
      else
        match Grade(lx, run.user, run.expected.value, c.outputType, c.absError)
        case Ok(v) => Ok(CaseResult(c.id, v))
        case Err(e) => Err(e)
  }

  /** `process_test_results`. A signal or anything in the error file is INCORRECT whatever the output; only
      otherwise are the files compared. */
  method ProcessTestResults(lx: Lexis, c: TestCase, runs: map<int, CaseRun>) returns (r: Result<CaseResult>)
    ensures r == Judge(lx, c, runs)
    ensures r.Ok? ==> c.id in runs && r.value.caseId == c.id
    ensures c.id in runs && (runs[c.id].signal != "" || runs[c.id].stderrSize != 0) ==>
              r == Ok(CaseResult(c.id, Incorrect))
    ensures r.Ok? && runs[c.id].signal == "" && runs[c.id].stderrSize == 0 ==>
              var user, test := runs[c.id].user, runs[c.id].expected;
              test.Some?
              && (r.value.verdict.Correct? <==> Matches(lx, user, test.value, c.outputType, c.absError))
              && (r.value.verdict.Malformed? <==>
                    c.outputType == 1 && !LinesAgree(lx, user.text, test.value.text)
                    && LooselyAgree(lx, user.text, test.value.text))
    ensures r.Err? <==>
              c.id !in runs
              || (runs[c.id].signal == "" && runs[c.id].stderrSize == 0
                  && (runs[c.id].expected.None? || Ungradable(c.outputType, c.absError)))
  {
    if c.id !in runs { return Err(Fatal); }
    var run := runs[c.id];
    if run.signal != "" || run.stderrSize != 0 { return Ok(CaseResult(c.id, Incorrect)); }
    if run.expected.None? { return Err(Retryable); }
    var verdict := Diff(lx, run.user, run.expected.value, c.outputType, c.absError);
    if verdict.Err? { return Err(verdict.error); }
    return Ok(CaseResult(c.id, verdict.value));
  }

  /** `results` holds one judged result per test case, in order. */
  ghost predicate Judged(lx: Lexis, cases: seq<TestCase>, runs: map<int, CaseRun>, results: seq<CaseResult>) {
    |results| == |cases|
    && forall i :: 0 <= i < |cases| ==> Judge(lx, cases[i], runs) == Ok(results[i])
  }

  /** All results, or the exception of the first case that raises. */
  method ProcessTestResultsBatch(lx: Lexis, cases: seq<TestCase>, runs: map<int, CaseRun>)
    returns (r: Result<seq<CaseResult>>)
    ensures r.Ok? ==> Judged(lx, cases, runs, r.value)
    ensures r.Err? ==> exists i :: 0 <= i < |cases| && Judge(lx, cases[i], runs) == Err(r.error)
                                   && forall k :: 0 <= k < i ==> Judge(lx, cases[k], runs).Ok?
  {
    var results := [];
    for i := 0 to |cases|
      invariant |results| == i
      invariant forall k :: 0 <= k < i ==> Judge(lx, cases[k], runs) == Ok(results[k])
    {
      var result := ProcessTestResults(lx, cases[i], runs);
      if result.Err? { return Err(result.error); }
      results := results + [result.value];
    }
    return Ok(results);
  }

  /** A result is CORRECT exactly when its test case passes. */
  lemma JudgedCorrect(lx: Lexis, cases: seq<TestCase>, runs: map<int, CaseRun>, results: seq<CaseResult>, i: nat)
    requires Judged(lx, cases, runs, results) && i < |cases|
    ensures cases[i].id in runs && results[i].caseId == cases[i].id
    ensures results[i].verdict == Correct <==> Passes(lx, cases[i], runs[cases[i].id])
  {
  }
}
