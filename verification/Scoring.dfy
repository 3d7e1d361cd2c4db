/** `count_if` of util.py and the arithmetic of `compute_score`. */
module Scoring {
  import opened Domain

  function CountIf<T>(pred: T -> bool, xs: seq<T>): nat {
    if xs == [] then 0 else (if pred(xs[0]) then 1 else 0) + CountIf(pred, xs[1..])
  }

  lemma {:induction false} CountIfSnoc<T>(pred: T -> bool, xs: seq<T>, x: T)
    ensures CountIf(pred, xs + [x]) == CountIf(pred, xs) + if pred(x) then 1 else 0
  {
    if xs != [] {
      assert (xs + [x])[1..] == xs[1..] + [x];
      CountIfSnoc(pred, xs[1..], x);
    }
  }

  /** Counting agrees with the number of positions at which the predicate holds. */
  lemma {:induction false} CountIfPositions<T>(pred: T -> bool, xs: seq<T>, here: set<int>)
    requires forall i :: i in here <==> 0 <= i < |xs| && pred(xs[i])
    ensures CountIf(pred, xs) == |here|
  {
    if xs == [] {
      assert forall i :: i !in here;
      assert here == {};
    } else {
      var m := |xs| - 1;
      CountIfPositions(pred, xs[..m], here - {m});
      CountIfSnoc(pred, xs[..m], xs[m]);
      assert xs == xs[..m] + [xs[m]];
      assert here == (here - {m}) + if pred(xs[m]) then {m} else {};
    }
  }

  predicate IsCorrect(r: CaseResult) { r.verdict == Correct }

  function Corrects(results: seq<CaseResult>): nat { CountIf(IsCorrect, results) }

  function ScoreOf(corrects: nat, cases: nat): real {
    if cases > 0 then 10.0 * (corrects as real / cases as real) else 10.0
  }

  /** The count is the number of results that are CORRECT. */
  lemma CountCorrect(results: seq<CaseResult>)
    ensures Corrects(results) == |set i | 0 <= i < |results| && results[i].verdict.Correct?|
  {
    CountIfPositions(IsCorrect, results, set i | 0 <= i < |results| && results[i].verdict.Correct?);
  }

  /** The score is ten times the share of the cases that came out CORRECT, and full without any case. */
  lemma ScoreIsShare(corrects: nat, cases: nat)
    ensures ScoreOf(corrects, cases) * cases as real == if cases > 0 then 10.0 * corrects as real else 0.0
    ensures cases == 0 ==> ScoreOf(corrects, cases) == 10.0
  {
  }

  lemma {:induction false} CorrectsBound(results: seq<CaseResult>)
    ensures Corrects(results) <= |results|
    ensures Corrects(results) == |results| <==> forall i :: 0 <= i < |results| ==> IsCorrect(results[i])
  {
    if results != [] {
      CorrectsBound(results[1..]);
      assert forall i :: 0 < i < |results| ==> results[i] == results[1..][i - 1];
      assert forall i :: 0 <= i < |results[1..]| ==> results[1..][i] == results[i + 1];
    }
  }

  lemma UnitFraction(c: real, n: real)
    requires 0.0 <= c <= n && n > 0.0
    ensures 0.0 <= c / n <= 1.0 && (c / n == 1.0 <==> c == n)
  {
  }

  /** The score lies between 0 and 10, and is 10 exactly when every result is CORRECT. */
  lemma ScoreRange(results: seq<CaseResult>)
    ensures 0.0 <= ScoreOf(Corrects(results), |results|) <= 10.0
    ensures ScoreOf(Corrects(results), |results|) == 10.0
       <==> forall i :: 0 <= i < |results| ==> IsCorrect(results[i])
  {
    CorrectsBound(results);
    var c, n := Corrects(results) as real, |results| as real;
    if |results| > 0 {
      UnitFraction(c, n);
    }
  }

  // ----- the commit data an attempt writes -----

  /** `Commit.reset`. */
  function ResetData(): CommitData {
    CommitData(Processing, 0, 0.0, false, false, false, "")
  }

  /** What line 763 of engine.py writes: a reset commit with a start time. */
  function FreshData(): CommitData { ResetData().(started := true) }

  /** `d` is what `compute_score` makes of `before` for results that hold one entry per test case, in order. */
  ghost predicate Graded(before: CommitData, d: CommitData, cases: seq<TestCase>, results: seq<CaseResult>) {
    |results| == |cases|
    && (forall i :: 0 <= i < |cases| ==> results[i].caseId == cases[i].id)
    && d == before.(corrects := Corrects(results), score := ScoreOf(Corrects(results), |cases|),
                    status := if Corrects(results) == |cases| then Completed else Incomplete)
  }

  /** What a graded commit holds, without the functions that compute it: the number of CORRECT results, ten
      times their share of the cases, and COMPLETED exactly when every result is CORRECT, which is when the
      score is full. The other columns are as before. */
  lemma GradedCompleted(before: CommitData, d: CommitData, cases: seq<TestCase>, results: seq<CaseResult>)
    requires Graded(before, d, cases, results)
    ensures |results| == |cases| && forall i :: 0 <= i < |cases| ==> results[i].caseId == cases[i].id
    ensures d.corrects == |set i | 0 <= i < |results| && results[i].verdict.Correct?|
    ensures d.score * |cases| as real == 10.0 * d.corrects as real || |cases| == 0
    ensures |cases| == 0 ==> d.score == 10.0
    ensures d.status == if forall i :: 0 <= i < |results| ==> results[i].verdict.Correct? then Completed else Incomplete
    ensures d.status == Completed <==> d.score == 10.0
    ensures 0.0 <= d.score <= 10.0
    ensures d == before.(corrects := d.corrects, score := d.score, status := d.status)
  {
    CorrectsBound(results);
    ScoreRange(results);
    ScoreIsShare(d.corrects, |cases|);
    CountCorrect(results);
    assert forall i :: 0 <= i < |results| ==> (IsCorrect(results[i]) <==> results[i].verdict.Correct?);
  }
}
