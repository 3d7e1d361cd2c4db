/** What one attempt may do to its commit: an automaton over database statements and log messages.
    The attempt of engine.py is shown to follow it, and the whole system is built on it. */
module Protocol {
  import opened Domain
  import opened Scoring
  import opened CommitTable

  const COMPILATION_START := "compilation.start"
  const COMPILATION_DONE := "compilation.done"
  const RUN_START := "run.start"
  const RUN_DONE := "run.done"

  /** A database statement with its outcome, or an expected message taken from the log stream. */
  datatype Event = Db(op: Op, call: Call) | Heard(message: string)

  datatype Stage =
    | Begin        // the claim is won, nothing done
    | Deleted | DeleteFailed
    | Ready        // the PROCESSING write after the prefetch
    | HeardStart | Compiling | HeardDone
    | Built        // the write after compilation
    | HeardRun | Running | HeardEnd
    | Rejected     // that write, with a compilation error
    | Scored | Stored
    | Failing      // a statement raised inside a try block
    | Failed       // INTERNAL_ERROR is written
    | Broken       // a statement raised outside any try block

  /** What the attempt knows: the commit's data in memory, its test cases and their results. */
  datatype Node = Node(stage: Stage, data: CommitData, cases: seq<TestCase>, results: seq<CaseResult>)

  datatype Exit = Normal | Escaped(exc: Exc)

  // ----- steps -----

  /** The stages from which some handler writes INTERNAL_ERROR. */
  predicate MayFail(s: Stage) {
    !s.Failed? && !s.Broken?
  }

  /** The stage after a successful write of `status`. */
  function NextStage(s: Stage, status: Status): Option<Stage> {
    match (s, status)
    case (_, InternalError) => if MayFail(s) then Some(Failed) else None
    case (Deleted, Processing) => Some(Ready)
    case (Ready, Processing) => Some(Built)
    case (HeardStart, Compiling) => Some(Stage.Compiling)
    case (HeardDone, Compiled) => Some(Built)
    case (HeardDone, Error) => Some(Rejected)
    case (HeardRun, Running) => Some(Stage.Running)
    case (HeardEnd, Completed) => Some(Scored)
    case (HeardEnd, Incomplete) => Some(Scored)
    case (Rejected, Error) => Some(Scored)
    case _ => None
  }

  /** The stage after a write that raised: the handlers' own writes and the one after the prefetch
      are outside any try block. */
  function RaisedStage(s: Stage, status: Status): Stage {
    if s.Deleted? || status.InternalError? then Broken else Failing
  }

  /** What is written with INTERNAL_ERROR: the commit as the attempt last wrote it, or, before anything was
      written, a commit that has been reset. */
  predicate MayReport(n: Node, d: CommitData) {
    d == n.data.(status := d.status) || (n.stage.Begin? && d == ResetData().(status := d.status))
  }

  /** What a write from `n` may contain, and what the attempt knows afterwards. */
  ghost predicate Contents(n: Node, d: CommitData, n': Node) {
    n'.data == d
    && if d.status.InternalError? then n'.cases == n.cases && n'.results == n.results && MayReport(n, d)
       else if n.stage.Deleted? then d == FreshData() && n'.results == []
       else if n.stage.HeardEnd? then n'.cases == n.cases && Graded(n.data, d, n.cases, n'.results)
       else
         n'.cases == n.cases && n'.results == n.results
         && match n.stage
            case Ready => d == n.data.(compiled := true, finished := true)
            case HeardDone =>
              if d.status.Error?
              then d == n.data.(status := Error, compiled := false, finished := true,
                                compileError := d.compileError) && d.compileError != ""
              else d == n.data.(status := Compiled, compiled := true, finished := true)
            case Rejected => d == n.data.(corrects := 0, score := 0.0)
            case _ => d == n.data.(status := d.status)
  }

  function AfterMessage(s: Stage, message: string): Option<Stage> {
    if s.Ready? && message == COMPILATION_START then Some(HeardStart)
    else if s.Compiling? && message == COMPILATION_DONE then Some(HeardDone)
    else if s.Built? && message == RUN_START then Some(HeardRun)
    else if s.Running? && message == RUN_DONE then Some(HeardEnd)
    else None
  }

  ghost predicate Step(n: Node, e: Event, n': Node) {
    match e
    case Heard(message) =>
      AfterMessage(n.stage, message).Some? && n' == n.(stage := AfterMessage(n.stage, message).value)
    case Db(Delete, c) =>
      n.stage.Begin? && n' == n.(stage := if c.Returned? then Deleted else DeleteFailed)
    case Db(Store(rs), c) =>
      n.stage.Scored? && rs == n.results && n' == n.(stage := if c.Returned? then Stored else Failing)
    case Db(Write(d), c) =>
      NextStage(n.stage, d.status).Some? && Contents(n, d, n')
      && n'.stage == if c.Returned? then NextStage(n.stage, d.status).value else RaisedStage(n.stage, d.status)
  }

  /** Where an attempt may end, and how. */
  predicate ExitOK(s: Stage, exit: Exit) {
    match exit
    case Normal => s.Failed? || s.Stored?
    case Escaped(exc) =>
      s.Begin? || s.DeleteFailed? || s.Broken? || s.Failed? || (s.Deleted? && exc.Cancelled?)
  }

  ghost predicate EventAt(nodes: seq<Node>, events: seq<Event>, i: nat)
    requires i < |events| && |nodes| == |events| + 1
  {
    Step(nodes[i], events[i], nodes[i + 1])
  }

  /** The events of an attempt from its start, with what it knows before and after each. */
  ghost predicate Run(nodes: seq<Node>, events: seq<Event>) {
    |nodes| == |events| + 1 && nodes[0].stage.Begin?
    && forall i :: 0 <= i < |events| ==> EventAt(nodes, events, i)
  }

  /** A run without its last event is a run. */
  lemma RunPrefix(nodes: seq<Node>, events: seq<Event>, m: nat)
    requires Run(nodes, events) && m <= |events|
    ensures Run(nodes[..m + 1], events[..m])
    ensures m < |events| ==> Step(nodes[m], events[m], nodes[m + 1])
  {
    var ns, es := nodes[..m + 1], events[..m];
    forall i | 0 <= i < |es| ensures EventAt(ns, es, i) {
      assert EventAt(nodes, events, i);
    }
    if m < |events| { assert EventAt(nodes, events, m); }
  }

  lemma RunExtend(nodes: seq<Node>, events: seq<Event>, e: Event, n: Node)
    requires Run(nodes, events) && Step(nodes[|events|], e, n)
    ensures Run(nodes + [n], events + [e])
  {
    var ns, es := nodes + [n], events + [e];
    forall i | 0 <= i < |es| ensures EventAt(ns, es, i) {
      if i < |events| { assert EventAt(nodes, events, i); }
    }
  }

  // ----- the row behind an attempt -----

  function After(row: Row, e: Event): Row {
    if e.Db? && e.call.Took() then Effect(row, e.op) else row
  }

  function Replay(row: Row, events: seq<Event>): Row {
    if events == [] then row else After(Replay(row, events[..|events| - 1]), events[|events| - 1])
  }

  /** A row marked PROCESSING has a start time. */
  predicate StartKnown(row: Row) { row.data.status.Processing? ==> row.data.started }

  /** What the table holds for an attempt at `n`, and what the attempt knows to be consistent. */
  ghost predicate RowOK(n: Node, row: Row) {
    && StartKnown(row) && !row.data.status.InQueue?
    && match n.stage
       case Begin => row.data.status.Processing?
       case Deleted => row.data.status.Processing? && row.results == []
       case DeleteFailed => row.data.status.Processing?
       case Failing => Published(row, n.cases, n.results)
       case Broken => Published(row, n.cases, n.results)
       case Failed => row.data == n.data && n.data.status.InternalError?
       case Scored =>
         row.data == n.data && row.results == [] && Settled(n)
       case Stored =>
         row.data == n.data && row.results == n.results && Settled(n)
       case stage =>
         row.data == n.data && row.results == [] && InProgress(stage, n)
  }

  /** If the row shows a verdict, its count, score and status are those of `results`, and `results` are
      its stored results, unless none are stored. */
  ghost predicate Published(row: Row, cases: seq<TestCase>, results: seq<CaseResult>) {
    ShowsVerdict(row) ==>
      Graded(row.data, row.data, cases, results) && (row.results == [] || row.results == results)
  }

  predicate ShowsVerdict(row: Row) { row.data.status.Completed? || row.data.status.Incomplete? }

  /** The in-memory data between the prefetch and the scoring. */
  ghost predicate InProgress(stage: Stage, n: Node) {
    var d := n.data;
    n.results == [] && d.started && d.corrects == 0 && d.score == 0.0
    && (if stage.Ready? || stage.HeardStart? then d == FreshData()
        else if stage.Compiling? || stage.HeardDone? then d == FreshData().(status := Status.Compiling)
        else if stage.Rejected? then d.status.Error? && d.finished && !d.compiled && d.compileError != ""
        else d.finished && d.compiled && d.compileError == ""
             && if stage.Built? || stage.HeardRun? then d.status.Processing? || d.status.Compiled?
                else d.status.Running?)
  }

  /** The data and results of a scored attempt. */
  ghost predicate Settled(n: Node) {
    var d := n.data;
    d.started && d.finished
    && if d.status.Error?
       then n.results == [] && !d.compiled && d.compileError != "" && d.corrects == 0 && d.score == 0.0
       else d.compiled && d.compileError == "" && Graded(d, d, n.cases, n.results)
  }

  lemma WriteKeepsRow(n: Node, d: CommitData, c: Call, n': Node, row: Row)
    requires Step(n, Db(Write(d), c), n') && RowOK(n, row) && c.Returned?
    ensures RowOK(n', row.(data := d))
  {
  }

  /** A statement that raised leaves the row out of the queue, whether or not it took effect, and a
      verdict it shows is the attempt's own. */
  lemma RaisedKeepsRow(n: Node, op: Op, c: Call, n': Node, row: Row)
    requires Step(n, Db(op, c), n') && RowOK(n, row) && c.Threw?
    ensures RowOK(n', row) && RowOK(n', Effect(row, op))
  {
    if op.Store? { assert [] + op.results == op.results; }
  }

  lemma HeardKeepsRow(n: Node, message: string, n': Node, row: Row)
    requires Step(n, Heard(message), n') && RowOK(n, row)
    ensures RowOK(n', row)
  {
  }

  lemma StatementKeepsRow(n: Node, op: Op, n': Node, row: Row)
    requires Step(n, Db(op, Returned), n') && RowOK(n, row) && !op.Write?
    ensures RowOK(n', Effect(row, op))
  {
    if op.Store? { assert [] + op.results == op.results; }
  }

  lemma StepKeepsRow(n: Node, e: Event, n': Node, row: Row)
    requires Step(n, e, n') && RowOK(n, row)
    ensures RowOK(n', After(row, e))
  {
    match e
    case Heard(message) => HeardKeepsRow(n, message, n', row);
    case Db(op, Threw(exc, took)) => RaisedKeepsRow(n, op, e.call, n', row);
    case Db(Write(d), Returned) => WriteKeepsRow(n, d, e.call, n', row);
    case Db(op, Returned) => StatementKeepsRow(n, op, n', row);
  }

  /** After any number of steps the row is what the attempt's stage says it is. */
  lemma {:induction false} RunKeepsRow(nodes: seq<Node>, events: seq<Event>, row: Row)
    requires Run(nodes, events) && RowOK(nodes[0], row)
    ensures RowOK(nodes[|events|], Replay(row, events))
  {
    if events != [] {
      var m := |events| - 1;
      RunPrefix(nodes, events, m);
      RunKeepsRow(nodes[..m + 1], events[..m], row);
      StepKeepsRow(nodes[m], events[m], nodes[m + 1], Replay(row, events[..m]));
    }
  }

  /** No statement of an attempt puts its commit back in the queue. */
  lemma NeverQueued(n: Node, e: Event, n': Node)
    requires Step(n, e, n')
    ensures e.Db? && e.op.Write? ==> !e.op.data.status.InQueue?
  {
  }

  // ----- a verdict and its results -----

  predicate TookStore(e: Event) { e.Db? && e.op.Store? && e.call.Took() }

  predicate StoreTook(events: seq<Event>) { exists k :: 0 <= k < |events| && TookStore(events[k]) }

  /** How the stored results of an attempt's row go with whether its store took effect. */
  ghost predicate ResultsOK(n: Node, row: Row, took: bool) {
    match n.stage
    case Stored => took
    case Failing => ShowsVerdict(row) ==> row.results == if took then n.results else []
    case Broken => ShowsVerdict(row) ==> row.results == if took then n.results else []
    case Failed => true
    case _ => !took
  }

  lemma StepKeepsResults(n: Node, e: Event, n': Node, row: Row, took: bool)
    requires Step(n, e, n') && RowOK(n, row) && ResultsOK(n, row, took)
    ensures ResultsOK(n', After(row, e), took || TookStore(e))
  {
    if TookStore(e) { assert [] + e.op.results == e.op.results; }
  }

  lemma {:induction false} RunKeepsResults(nodes: seq<Node>, events: seq<Event>, row: Row)
    requires Run(nodes, events) && RowOK(nodes[0], row)
    ensures ResultsOK(nodes[|events|], Replay(row, events), StoreTook(events))
  {
    if events != [] {
      var m := |events| - 1;
      RunPrefix(nodes, events, m);
      RunKeepsResults(nodes[..m + 1], events[..m], row);
      RunKeepsRow(nodes[..m + 1], events[..m], row);
      StepKeepsResults(nodes[m], events[m], nodes[m + 1], Replay(row, events[..m]), StoreTook(events[..m]));
      StoreTookSnoc(events[..m], events[m]);
      assert events == events[..m] + [events[m]];
    }
  }

  lemma StoreTookSnoc(events: seq<Event>, e: Event)
    ensures StoreTook(events + [e]) <==> StoreTook(events) || TookStore(e)
  {
    if TookStore(e) { assert TookStore((events + [e])[|events|]); }
    if StoreTook(events) {
      var k :| 0 <= k < |events| && TookStore(events[k]);
      assert TookStore((events + [e])[k]);
    }
  }

  /** Whenever the row of an attempt shows COMPLETED or INCOMPLETE, count, score and status are those of
      the attempt's results; and these are stored with it exactly when the store took effect. */
  lemma VerdictNeedsStore(nodes: seq<Node>, events: seq<Event>, row: Row)
    requires Run(nodes, events) && RowOK(nodes[0], row)
    requires Replay(row, events).data.status.Completed? || Replay(row, events).data.status.Incomplete?
    ensures var n, r := nodes[|events|], Replay(row, events);
            Graded(r.data, r.data, n.cases, n.results)
            && r.results == if StoreTook(events) then n.results else []
  {
    RunKeepsRow(nodes, events, row);
    RunKeepsResults(nodes, events, row);
  }

  // ----- the sequence of statuses -----

  /** The moves of a row's status that one event of an attempt may cause. */
  predicate StatusMove(s: Status, t: Status) {
    s == t
    || match t
       case Compiling => s.Processing?
       case Compiled => s.Compiling?
       case Error => s.Compiling?
       case Running => s.Processing? || s.Compiled?
       case Completed => s.Running?
       case Incomplete => s.Running?
       case InternalError => !s.InQueue?
       case _ => false
  }

  lemma StepMovesStatus(n: Node, e: Event, n': Node, row: Row)
    requires Step(n, e, n') && RowOK(n, row)
    ensures StatusMove(row.data.status, After(row, e).data.status)
  {
  }

  /** The statuses a row goes through during one attempt form a path of `StatusMove`. */
  lemma StatusPath(nodes: seq<Node>, events: seq<Event>, row: Row, i: nat)
    requires Run(nodes, events) && RowOK(nodes[0], row) && i < |events|
    ensures StatusMove(Replay(row, events[..i]).data.status, Replay(row, events[..i + 1]).data.status)
    ensures var s, t := Replay(row, events[..i]).data.status, Replay(row, events[..i + 1]).data.status;
            && !t.InQueue? && (t.Processing? ==> s.Processing?)
            && (t != s ==>
                  (t.Compiling? ==> s.Processing?)
                  && (t.Compiled? || t.Error? ==> s.Compiling?)
                  && (t.Running? ==> s.Processing? || s.Compiled?)
                  && (t.Completed? || t.Incomplete? ==> s.Running?))
  {
    RunPrefix(nodes, events, i);
    RunKeepsRow(nodes[..i + 1], events[..i], row);
    StepMovesStatus(nodes[i], events[i], nodes[i + 1], Replay(row, events[..i]));
    assert events[..i + 1][..i] == events[..i];
  }

  // ----- the log messages -----

  /** COMPILING and RUNNING are written only right after the message that announces them. */
  lemma WriteFollowsMessage(nodes: seq<Node>, events: seq<Event>, j: nat)
    requires Run(nodes, events) && j < |events| && events[j].Db? && events[j].op.Write?
    ensures events[j].op.data.status.Compiling? ==> j > 0 && events[j - 1] == Heard(COMPILATION_START)
    ensures events[j].op.data.status.Running? ==> j > 0 && events[j - 1] == Heard(RUN_START)
    ensures events[j].op.data.status.Compiled? ==> j > 0 && events[j - 1] == Heard(COMPILATION_DONE)
    ensures events[j].op.data.status.Completed? || events[j].op.data.status.Incomplete? ==>
              j > 0 && events[j - 1] == Heard(RUN_DONE)
  {
    RunPrefix(nodes, events, j);
    if j > 0 { RunPrefix(nodes, events, j - 1); }
  }

  function Messages(events: seq<Event>): seq<string> {
    if events == [] then []
    else
      var prefix := Messages(events[..|events| - 1]);
      var last := events[|events| - 1];
      if last.Heard? then prefix + [last.message] else prefix
  }

  /** The messages behind an attempt, as far as its stage and data determine them. */
  ghost predicate MessagesOK(n: Node, heard: seq<string>) {
    var compiling := [COMPILATION_START, COMPILATION_DONE];
    match n.stage
    case Ready => heard == []
    case HeardStart => heard == [COMPILATION_START]
    case Compiling => heard == [COMPILATION_START]
    case HeardDone => heard == compiling
    case Rejected => heard == compiling
    case Built => heard == [] || heard == compiling
    case HeardRun => heard == [RUN_START] || heard == compiling + [RUN_START]
    case Running => heard == [RUN_START] || heard == compiling + [RUN_START]
    case HeardEnd => heard == [RUN_START, RUN_DONE] || heard == compiling + [RUN_START, RUN_DONE]
    case Scored => ScoredMessages(n.data.status, heard)
    case Stored => ScoredMessages(n.data.status, heard)
    case Failing => true
    case Failed => true
    case Broken => true
    case _ => heard == []
  }

  ghost predicate ScoredMessages(status: Status, heard: seq<string>) {
    var compiling := [COMPILATION_START, COMPILATION_DONE];
    if status.Error? then heard == compiling
    else heard == [RUN_START, RUN_DONE] || heard == compiling + [RUN_START, RUN_DONE]
  }

  lemma StepMessages(n: Node, e: Event, n': Node, heard: seq<string>)
    requires Step(n, e, n') && MessagesOK(n, heard)
    ensures MessagesOK(n', if e.Heard? then heard + [e.message] else heard)
  {
  }

  /** A scored attempt has heard exactly the messages of its path, in order. */
  lemma {:induction false} RunMessages(nodes: seq<Node>, events: seq<Event>)
    requires Run(nodes, events)
    ensures MessagesOK(nodes[|events|], Messages(events))
  {
    if events != [] {
      var m := |events| - 1;
      RunPrefix(nodes, events, m);
      RunMessages(nodes[..m + 1], events[..m]);
      StepMessages(nodes[m], events[m], nodes[m + 1], Messages(events[..m]));
    }
  }

  /** INTERNAL_ERROR may be written from any stage that has a handler. */
  lemma FailureContents(n: Node, d: CommitData)
    requires MayFail(n.stage) && d.status.InternalError? && MayReport(n, d)
    ensures NextStage(n.stage, d.status) == Some(Failed) && RaisedStage(n.stage, d.status) == Broken
    ensures Contents(n, d, Node(Begin, d, n.cases, n.results))
  {
  }

  // ----- length -----

  /** How many more events an attempt can have. */
  function Rank(s: Stage): nat {
    match s
    case Begin => 13 case Deleted => 12 case DeleteFailed => 12
    case Ready => 11 case HeardStart => 10 case Compiling => 9 case HeardDone => 8
    case Built => 7 case HeardRun => 6 case Running => 5 case HeardEnd => 4
    case Rejected => 4 case Scored => 3 case Stored => 2
    case Failing => 1 case Failed => 0 case Broken => 0
  }

  lemma StepLowersRank(n: Node, e: Event, n': Node)
    requires Step(n, e, n')
    ensures Rank(n'.stage) < Rank(n.stage)
  {
  }

  /** An attempt has at most thirteen statements and messages. */
  lemma {:induction false} RunIsShort(nodes: seq<Node>, events: seq<Event>)
    requires Run(nodes, events)
    ensures |events| + Rank(nodes[|events|].stage) <= 13
  {
    if events != [] {
      var m := |events| - 1;
      RunPrefix(nodes, events, m);
      RunIsShort(nodes[..m + 1], events[..m]);
      StepLowersRank(nodes[m], events[m], nodes[m + 1]);
    }
  }

  /** Nothing goes wrong in this event: it is a message, or a statement that returns and does not report
      a failure, unless one has to be reported. */
  predicate Smooth(n: Node, e: Event) {
    e.Heard?
    || (e.call.Returned? && (e.op.Write? && e.op.data.status.InternalError? ==> n.stage.Failing?))
  }

  /** An attempt is never stuck, and no failure is needed to get on: where it cannot end normally, and has
      not been broken by a statement outside any handler, a smooth event is possible. */
  lemma CanMove(n: Node, row: Row)
    requires RowOK(n, row)
    ensures ExitOK(n.stage, Normal) || n.stage.DeleteFailed? || n.stage.Broken?
            || exists e, n' :: Step(n, e, n') && Smooth(n, e)
  {
    var d := n.data;
    match n.stage
    case Begin => Moves(n, Db(Delete, Returned), n.(stage := Deleted));
    case Deleted => Moves(n, Db(Write(FreshData()), Returned), Node(Ready, FreshData(), n.cases, []));
    case Ready => Moves(n, Heard(COMPILATION_START), n.(stage := HeardStart));
    case HeardStart => MovesBy(n, d.(status := Status.Compiling));
    case Compiling => Moves(n, Heard(COMPILATION_DONE), n.(stage := HeardDone));
    case HeardDone => MovesBy(n, d.(status := Compiled, compiled := true, finished := true));
    case Built => Moves(n, Heard(RUN_START), n.(stage := HeardRun));
    case HeardRun => MovesBy(n, d.(status := Status.Running));
    case Running => Moves(n, Heard(RUN_DONE), n.(stage := HeardEnd));
    case HeardEnd =>
      var results := seq(|n.cases|, i requires 0 <= i < |n.cases| => CaseResult(n.cases[i].id, Correct));
      var d' := d.(corrects := Corrects(results), score := ScoreOf(Corrects(results), |n.cases|),
                   status := if Corrects(results) == |n.cases| then Completed else Incomplete);
      Moves(n, Db(Write(d'), Returned), Node(Scored, d', n.cases, results));
    case Rejected => MovesBy(n, d.(corrects := 0, score := 0.0));
    case Scored => Moves(n, Db(Store(n.results), Returned), n.(stage := Stored));
    case Failing => MovesBy(n, d.(status := InternalError));
    case _ =>
  }

  lemma Moves(n: Node, e: Event, n': Node)
    requires Step(n, e, n') && Smooth(n, e)
    ensures exists e, n' :: Step(n, e, n') && Smooth(n, e)
  {
  }

  lemma MovesBy(n: Node, d: CommitData)
    requires NextStage(n.stage, d.status).Some? && Contents(n, d, n.(data := d))
    requires d.status.InternalError? ==> n.stage.Failing?
    ensures exists e, n' :: Step(n, e, n') && Smooth(n, e)
  {
    Moves(n, Db(Write(d), Returned), n.(stage := NextStage(n.stage, d.status).value, data := d));
  }

  // ----- what a normal end means -----

  /** When an attempt ends normally, the row shows the commit as it is in memory, with a final status. */
  lemma NormalEnd(nodes: seq<Node>, events: seq<Event>, row: Row)
    requires Run(nodes, events) && RowOK(nodes[0], row)
    requires ExitOK(nodes[|events|].stage, Normal)
    ensures var n, r := nodes[|events|], Replay(row, events);
            r.data == n.data && IsFinal(r.data.status)
            && (r.data.status.InternalError? || (r.results == n.results && Settled(n)))
  {
    RunKeepsRow(nodes, events, row);
  }
}
