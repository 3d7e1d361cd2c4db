/** A run of one attempt that ends with a published verdict and no results. */
module Outage {
  import opened Domain
  import opened Scoring
  import opened CommitTable
  import opened Protocol

  const CASES := [TestCase(7, 1, None)]
  const RESULTS := [CaseResult(7, Correct)]

  const BUILT := FreshData().(compiled := true, finished := true)
  const RUNNING := BUILT.(status := Status.Running)
  const PASSED := RUNNING.(corrects := 1, score := 10.0, status := Completed)
  const FAILED := PASSED.(status := InternalError)

  /** Without compilation, up to a full score; then the database is out of reach for the store and
      for the write that would have reported it. */
  function Events(): seq<Event> {
    [Db(Delete, Returned), Db(Write(FreshData()), Returned), Db(Write(BUILT), Returned), Heard(RUN_START),
     Db(Write(RUNNING), Returned), Heard(RUN_DONE), Db(Write(PASSED), Returned),
     Db(Store(RESULTS), Threw(Retryable, false)), Db(Write(FAILED), Threw(Retryable, false))]
  }

  function Nodes(data: CommitData): seq<Node> {
    [Node(Begin, data, [], []), Node(Deleted, data, [], []), Node(Ready, FreshData(), CASES, []),
     Node(Built, BUILT, CASES, []), Node(HeardRun, BUILT, CASES, []), Node(Stage.Running, RUNNING, CASES, []),
     Node(HeardEnd, RUNNING, CASES, []), Node(Scored, PASSED, CASES, RESULTS),
     Node(Failing, PASSED, CASES, RESULTS), Node(Broken, FAILED, CASES, RESULTS)]
  }

  /** The row after the first `k` events of the run. */
  function RowAfter(row: Row, k: nat): Row {
    if k < 1 then row
    else if k < 2 then row.(results := [])
    else if k < 3 then Row(FreshData(), [])
    else if k < 5 then Row(BUILT, [])
    else if k < 7 then Row(RUNNING, [])
    else Row(PASSED, [])
  }

  lemma FullScore()
    ensures Graded(RUNNING, PASSED, CASES, RESULTS)
  {
    assert IsCorrect(RESULTS[0]) && RESULTS[1..] == [];
    assert Corrects(RESULTS) == 1;
  }

  lemma OutageSteps(data: CommitData, i: nat)
    requires i < 9
    ensures Step(Nodes(data)[i], Events()[i], Nodes(data)[i + 1])
  {
    FullScore();
  }

  lemma {:induction false} OutageRow(row: Row, k: nat)
    requires k <= 9
    ensures Replay(row, Events()[..k]) == RowAfter(row, k)
  {
    if k > 0 {
      OutageRow(row, k - 1);
      assert Events()[..k][..k - 1] == Events()[..k - 1];
    }
  }

  /** It does happen: the row says COMPLETED with a full score and holds no results; the attempt ends
      with a retryable exception, and the release that follows does not reach the row. */
  lemma VerdictWithoutResults(data: CommitData, row: Row, rows: Rows, id: int)
    requires id in rows && rows[id] == Replay(row, Events())
    ensures Run(Nodes(data), Events()) && ExitOK(Nodes(data)[9].stage, Escaped(Retryable))
    ensures rows[id] == Row(PASSED, []) && Nodes(data)[9].results == RESULTS && !StoreTook(Events())
    ensures Released(rows, id) == rows
  {
    OutageRow(row, 9);
    assert Events()[..9] == Events();
    forall i | 0 <= i < |Events()| ensures EventAt(Nodes(data), Events(), i) { OutageSteps(data, i); }
  }
}
