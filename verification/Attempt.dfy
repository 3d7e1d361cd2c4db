/** One attempt at a commit: `process_commit`, `run`, `compute_score` and the prefetch of engine.py,
    step by step, with every foreign call free to raise. */
module Attempts {
  import opened Domain
  import opened Comparators
  import opened Verdicts
  import opened Scoring
  import opened CommitTable
  import opened Protocol
  import opened LogReading

  /** `_raise_first_error` */
  function FirstError(outcomes: seq<Outcome>): Outcome {
    if outcomes == [] then Done
    else if outcomes[0].Raised? then outcomes[0]
    else FirstError(outcomes[1..])
  }

  /** The first error in submission order, and success only if every download succeeded. */
  lemma {:induction false} FirstErrorIsFirst(outcomes: seq<Outcome>)
    ensures FirstError(outcomes).Done? <==> forall k :: 0 <= k < |outcomes| ==> outcomes[k].Done?
    ensures FirstError(outcomes).Raised? ==>
              exists i :: 0 <= i < |outcomes| && outcomes[i] == FirstError(outcomes)
                          && forall k :: 0 <= k < i ==> outcomes[k].Done?
  {
    if outcomes != [] && outcomes[0].Done? {
      var rest := outcomes[1..];
      FirstErrorIsFirst(rest);
      assert forall k :: 0 < k < |outcomes| ==> outcomes[k] == rest[k - 1];
      if FirstError(rest).Raised? {
        var i :| 0 <= i < |rest| && rest[i] == FirstError(rest) && forall k :: 0 <= k < i ==> rest[k].Done?;
        assert outcomes[i + 1] == FirstError(outcomes);
      } else {
        assert forall k :: 0 <= k < |rest| ==> rest[k] == outcomes[k + 1];
      }
    }
  }

  lemma {:induction false} FirstErrorSnoc(outcomes: seq<Outcome>, o: Outcome)
    ensures FirstError(outcomes + [o]) == if FirstError(outcomes).Raised? then FirstError(outcomes) else o
  {
    if outcomes != [] {
      assert (outcomes + [o])[1..] == outcomes[1..] + [o];
      FirstErrorSnoc(outcomes[1..], o);
    }
  }

  /** The stream items that stand for a list of messages. */
  function Says(messages: seq<string>): seq<Item> {
    seq(|messages|, i requires 0 <= i < |messages| => Text(messages[i]))
  }

  lemma SaysSnoc(messages: seq<string>, message: string)
    ensures Says(messages + [message]) == Says(messages) + [Text(message)]
  {
  }

  /** What an attempt meets outside: the test cases of the exercise, what is known of the source file's
      language and the number of files that come with the exercise, the log the container writes, the
      compiler's error file, and the files each test case leaves behind. */
  datatype Inputs = Inputs(
    lx: Lexis, cases: seq<TestCase>, compilable: bool, hasLanguage: bool, exerciseFiles: nat,
    log: seq<Raw>, compilerErrors: string, runs: map<int, CaseRun>, cleanupOnError: bool)
  {
    /** The compiler has rejected the commit. */
    predicate Rejects() { compilable && Strip(lx, compilerErrors) != "" }
  }

  /** The calls of an attempt that are not database statements on its commit. */
  datatype Deed =
    | OpenStorage | CleanUp | MakeDirectory | FetchCases | Download | WriteConfig | DetectLanguage | ListFiles
    | OpenDocker | StartContainer | FollowLogs | ReadErrors | AwaitContainer | KillContainer | RemoveContainer
    | Upload

  function Downloads(n: nat): seq<Deed> { seq(n, _ => Download) }

  class Attempt {
    const id: int
    const table: Table
    const given: Inputs

    /** The commit object. */
    var data: CommitData
    var compilable: bool
    var hasLanguage: bool
    /** The work directory may exist. */
    var workDir: bool
    /** Downloads into the work directory that are still running. */
    var downloads: nat
    /** How many downloads were running at each cleanup of the work directory. */
    var cleanups: seq<nat>
    /** Containers that were started and whose removal has not been asked for. */
    var containers: nat

    /** The row when the claim was won, and the attempt's events since then. */
    ghost var claimed: Row
    ghost var events: seq<Event>
    ghost var nodes: seq<Node>
    /** Some call has raised, some message did not come, or the commit has no language; except for the
        two failures that `run` handles itself, a container that has to be killed and a failed removal. */
    ghost var faulted: bool
    /** All foreign calls so far, and how the last of them ended. */
    ghost var deeds: seq<Deed>
    ghost var last: Outcome
    /** The wait for the container has timed out. */
    ghost var killed: bool
    /** How many downloads have arrived. */
    ghost var arrived: nat

    ghost function Here(): Node
      reads this
      requires |nodes| > 0
    {
      nodes[|nodes| - 1]
    }

    ghost predicate Valid()
      reads this, table
    {
      Run(nodes, events) && id in table.rows
      && table.rows[id] == Replay(claimed, events) && JustClaimed(claimed)
      && forall k :: 0 <= k < |cleanups| ==> cleanups[k] == 0
    }

    /** A claim has just moved the row to PROCESSING and set its start time. */
    static predicate JustClaimed(row: Row) {
      row.data.status.Processing? && row.data.started
    }

    /** The row is what the attempt's stage says it is. */
    lemma RowHere()
      requires Valid()
      ensures RowOK(Here(), table.rows[id])
    {
      RunKeepsRow(nodes, events, claimed);
    }

    /** The attempt of a task that has just won the claim on `id`. */
    constructor (id: int, table: Table, given: Inputs, data: CommitData, workDir: bool)
      requires id in table.rows && JustClaimed(table.rows[id])
      ensures Valid() && nodes == [Node(Begin, data, [], [])] && events == []
      ensures downloads == 0 && containers == 0 && arrived == 0 && !faulted
      ensures cleanups == [] && deeds == []
      ensures this.id == id && this.table == table && this.given == given
      ensures this.data == data && this.workDir == workDir && claimed == table.rows[id]
    {
      this.id, this.table, this.given := id, table, given;
      this.data, this.workDir := data, workDir;
      compilable, hasLanguage, downloads, cleanups := false, false, 0, [];
      containers, arrived, faulted := 0, 0, false;
      deeds, last, killed := [], Done, false;
      claimed, events, nodes := table.rows[id], [], [Node(Begin, data, [], [])];
    }

    /** Any foreign call without a database effect. A cancellation in the middle of one is excluded. */
    method Foreign(deed: Deed) returns (o: Outcome)
      modifies this`faulted, this`deeds, this`last
      ensures (o.Raised? ==> o.Caught()) && (faulted <==> old(faulted) || o.Raised?)
      ensures deeds == old(deeds) + [deed] && last == o
    {
      o :| o.Raised? ==> o.Caught();
      faulted, deeds, last := faulted || o.Raised?, deeds + [deed], o;
    }

    // ----- database statements and messages -----

    /** Between two statements the other tasks may change any other row. */
    method Interfere()
      requires Valid()
      modifies table
      ensures Valid() && table.rows[id] == old(table.rows[id])
    {
      var others: Rows :| true;
      table.rows := others[id := table.rows[id]];
    }

    lemma Extend(e: Event, n: Node)
      requires Run(nodes, events) && Step(Here(), e, n)
      ensures Run(nodes + [n], events + [e])
      ensures Replay(claimed, events + [e]) == After(Replay(claimed, events), e)
      ensures Messages(events + [e]) == Messages(events) + if e.Heard? then [e.message] else []
    {
      RunExtend(nodes, events, e, n);
      assert (events + [e])[..|events|] == events;
    }

    /** Runs a statement of this attempt and records it. */
    method Execute(op: Op, ghost ifReturned: Node, ghost ifThrew: Node) returns (c: Call)
      requires Valid()
      requires Step(Here(), Db(op, Returned), ifReturned)
      requires forall exc, took :: Step(Here(), Db(op, Threw(exc, took)), ifThrew)
      modifies table, this`faulted, this`events, this`nodes
      ensures Valid() && (c.Threw? ==> !c.exc.Cancelled?)
      ensures events == old(events) + [Db(op, c)] && Messages(events) == Messages(old(events))
      ensures nodes == old(nodes) + [if c.Returned? then ifReturned else ifThrew]
      ensures faulted <==> old(faulted) || c.Threw?
    {
      Interfere();
      c := table.Execute(id, op);
      faulted := faulted || c.Threw?;
      ghost var n := if c.Returned? then ifReturned else ifThrew;
      Extend(Db(op, c), n);
      events, nodes := events + [Db(op, c)], nodes + [n];
    }

    /** `data_provider.update_commit(commit)`; `cases` and `results` are what the attempt knows then. */
    method UpdateCommit(ghost cases: seq<TestCase>, ghost results: seq<CaseResult>) returns (c: Call)
      requires Valid() && NextStage(Here().stage, data.status).Some?
      requires Contents(Here(), data, Node(Begin, data, cases, results))
      modifies table, this`faulted, this`events, this`nodes
      ensures Valid() && (c.Threw? ==> !c.exc.Cancelled?)
      ensures events == old(events) + [Db(Write(data), c)] && Messages(events) == Messages(old(events))
      ensures |nodes| == |old(nodes)| + 1 && nodes[..|old(nodes)|] == old(nodes)
      ensures Here() == Node(if c.Returned? then NextStage(old(Here()).stage, data.status).value
                             else RaisedStage(old(Here()).stage, data.status), data, cases, results)
      ensures faulted <==> old(faulted) || c.Threw?
    {
      ghost var n := Node(NextStage(Here().stage, data.status).value, data, cases, results);
      c := Execute(Write(data), n, n.(stage := RaisedStage(Here().stage, data.status)));
    }

    /** `data_provider.delete_commit_test_results(commit)` */
    method DeleteResults() returns (c: Call)
      requires Valid() && Here().stage.Begin?
      modifies table, this`faulted, this`events, this`nodes
      ensures Valid() && (c.Threw? ==> !c.exc.Cancelled?) && Messages(events) == Messages(old(events))
      ensures Here() == old(Here()).(stage := if c.Returned? then Deleted else DeleteFailed)
      ensures events == old(events) + [Db(Delete, c)]
      ensures faulted <==> old(faulted) || c.Threw?
    {
      ghost var n := Here();
      c := Execute(Delete, n.(stage := Deleted), n.(stage := DeleteFailed));
    }

    /** `data_provider.store_commit_test_results(commit, results)` */
    method StoreResults(results: seq<CaseResult>) returns (c: Call)
      requires Valid() && Here().stage.Scored? && Here().results == results
      modifies table, this`faulted, this`events, this`nodes
      ensures Valid() && (c.Threw? ==> !c.exc.Cancelled?) && Messages(events) == Messages(old(events))
      ensures Here() == old(Here()).(stage := if c.Returned? then Stored else Failing)
      ensures events == old(events) + [Db(Store(results), c)]
      ensures faulted <==> old(faulted) || c.Threw?
    {
      ghost var n := Here();
      c := Execute(Store(results), n.(stage := Stored), n.(stage := Failing));
    }

    /** `expect_message`, recorded when it succeeds. */
    method Expect(reader: LogReader, message: string) returns (o: Outcome)
      requires Valid() && reader.Valid() && AfterMessage(Here().stage, message).Some?
      requires reader.taken == Says(Messages(events))
      modifies reader, this`faulted, this`events, this`nodes
      ensures Valid() && reader.Valid()
      ensures o.Done? ==> Here() == old(Here()).(stage := AfterMessage(old(Here()).stage, message).value)
                          && reader.taken == Says(Messages(events))
                          && Messages(events) == Messages(old(events)) + [message]
      ensures o.Raised? ==> o.Caught() && nodes == old(nodes) && events == old(events)
      ensures faulted <==> old(faulted) || o.Raised?
    {
      var turns: nat, late: bool :| true;
      o := reader.ExpectMessage(message, turns, late);
      faulted := faulted || o.Raised?;
      if o.Done? {
        ghost var e, n := Heard(message), Here().(stage := AfterMessage(Here().stage, message).value);
        Extend(e, n);
        SaysSnoc(Messages(events), message);
        events, nodes := events + [e], nodes + [n];
      }
    }

    // ----- work directory -----

    /** `cleanup_tests`: when it does not raise, the work directory is gone. */
    method CleanupTests() returns (o: Outcome)
      requires Valid() && downloads == 0
      modifies this`faulted, this`deeds, this`last, this`cleanups, this`workDir
      ensures Valid() && (o.Raised? ==> o.Caught())
      ensures workDir == (old(workDir) && o.Raised?) && cleanups == old(cleanups) + [0]
      ensures deeds == old(deeds) + [CleanUp] && last == o
      ensures faulted <==> old(faulted) || o.Raised?
    {
      cleanups := cleanups + [downloads];
      o := Foreign(CleanUp);
      if o.Done? { workDir := false; }
    }

    /** `await download_task`, through `_await_task`. */
    method AwaitDownload() returns (o: Outcome)
      requires downloads > 0
      modifies this`faulted, this`deeds, this`last, this`downloads, this`arrived
      ensures downloads == old(downloads) - 1 && (o.Raised? ==> o.Caught())
      ensures arrived == old(arrived) + if o.Done? then 1 else 0
      ensures deeds == old(deeds) + [Download] && last == o
      ensures faulted <==> old(faulted) || o.Raised?
    {
      o := Foreign(Download);
      downloads := downloads - 1;
      arrived := arrived + if o.Done? then 1 else 0;
    }

    /** A batch of concurrent downloads under `gather(return_exceptions=True)`: all of them have
        finished, whatever the outcome, before the first error is raised. */
    method GatherDownloads(count: nat) returns (o: Outcome, ghost outcomes: seq<Outcome>)
      modifies this`faulted, this`deeds, this`last, this`downloads, this`arrived
      ensures downloads == old(downloads) && (o.Raised? ==> o.Caught())
      ensures |outcomes| == count && o == FirstError(outcomes)
      ensures o.Done? ==> arrived == old(arrived) + count
      ensures deeds == old(deeds) + Downloads(count)
      ensures faulted <==> old(faulted) || o.Raised?
    {
      downloads := downloads + count;
      var results: seq<Outcome> := [];
      while |results| < count
        invariant |results| <= count && downloads == old(downloads) + count - |results|
        invariant forall k :: 0 <= k < |results| && results[k].Raised? ==> results[k].Caught()
        invariant FirstError(results).Done? ==> arrived == old(arrived) + |results|
        invariant deeds == old(deeds) + Downloads(|results|)
        invariant faulted <==> old(faulted) || FirstError(results).Raised?
      {
        var result := AwaitDownload();
        FirstErrorSnoc(results, result);
        assert Downloads(|results| + 1) == Downloads(|results|) + [Download];
        results := results + [result];
      }
      o, outcomes := FirstError(results), results;
      FirstErrorIsFirst(results);
    }

    /** `copy_source_files`: decides the language, then downloads the exercise's files. */
    method CopySourceFiles() returns (o: Outcome)
      modifies this`faulted, this`deeds, this`last, this`compilable, this`hasLanguage, this`downloads, this`arrived
      ensures downloads == old(downloads) && (o.Raised? ==> o.Caught())
      ensures o.Done? ==> compilable == given.compilable && hasLanguage == given.hasLanguage
                          && arrived == old(arrived) + given.exerciseFiles
      ensures o.Done? ==> deeds == old(deeds) + [DetectLanguage, ListFiles] + Downloads(given.exerciseFiles)
      ensures faulted <==> old(faulted) || o.Raised?
    {
      o := Foreign(DetectLanguage);
      if o.Raised? { return; }
      compilable, hasLanguage := given.compilable, given.hasLanguage;
      o := Foreign(ListFiles);
      if o.Raised? { return; }
      ghost var outcomes;
      o, outcomes := GatherDownloads(given.exerciseFiles);
    }

    /** The "prepare runs" block. */
    method Prepare(cases: seq<TestCase>) returns (o: Outcome)
      requires downloads == 1
      modifies this`faulted, this`deeds, this`last, this`compilable, this`hasLanguage, this`downloads, this`arrived
      ensures downloads == 0 && (o.Raised? ==> o.Caught())
      ensures o.Done? ==> compilable == given.compilable && hasLanguage == given.hasLanguage
                          && arrived == old(arrived) + 1 + given.exerciseFiles + |cases|
      ensures o.Done? ==>
                deeds == old(deeds) + [Download, WriteConfig, DetectLanguage, ListFiles]
                         + Downloads(given.exerciseFiles) + Downloads(|cases|)
      ensures faulted <==> old(faulted) || o.Raised?
    {
      o := AwaitDownload();
      if o.Raised? { return; }
      o := Foreign(WriteConfig);
      if o.Raised? { return; }
      o := CopySourceFiles();
      if o.Raised? { return; }
      ghost var outcomes;
      o, outcomes := GatherDownloads(|cases|);
    }

    // ----- the container -----

    /** The commit after the compilation: rejected with what the compiler wrote, or compiled. */
    ghost predicate CompileOutcome(before: CommitData, after: CommitData) {
      var text := Strip(given.lx, given.compilerErrors);
      after == if text != "" then before.(status := Error, compiled := false, compileError := text)
               else before.(status := Compiled, compiled := true)
    }

    /** The write that follows a start message: COMPILING or RUNNING. */
    method Announce(status: Status) returns (o: Outcome)
      requires Valid() && Here().data == data
      requires (Here().stage.HeardStart? && status.Compiling?) || (Here().stage.HeardRun? && status.Running?)
      modifies table, this`faulted, this`events, this`nodes, this`data
      ensures Valid() && (o.Raised? ==> o.Caught()) && Messages(events) == Messages(old(events))
      ensures data == old(data).(status := status)
      ensures faulted <==> old(faulted) || o.Raised?
      ensures Here() == Node(if o.Raised? then Failing else if status.Compiling? then Stage.Compiling else Stage.Running,
                             data, old(Here()).cases, old(Here()).results)
    {
      data := data.(status := status);
      var c := UpdateCommit(Here().cases, Here().results);
      o := c.ToOutcome();
    }

    /** The compilation phase of `run`. */
    method Compile(reader: LogReader) returns (o: Outcome)
      requires Valid() && reader.Valid() && Here().stage.Ready? && Here().data == data == FreshData()
      requires Messages(events) == [] && reader.taken == Says(Messages(events))
      modifies table, reader, this`faulted, this`deeds, this`last, this`events, this`nodes, this`data
      ensures Valid() && reader.Valid() && MayFail(Here().stage)
      ensures Here().cases == old(Here()).cases && Here().results == old(Here()).results
      ensures o.Raised? ==> o.Caught() && !Followed(Here().stage) && Here().data == data
      ensures o.Done? ==>
                Here().stage.HeardDone? && reader.taken == Says(Messages(events))
                && Here().data == FreshData().(status := Status.Compiling) && CompileOutcome(Here().data, data)
                && Messages(events) == Messages(old(events)) + [COMPILATION_START, COMPILATION_DONE]
      ensures o.Done? ==> deeds == old(deeds) + [ReadErrors]
      ensures faulted <==> old(faulted) || o.Raised?
    {
      o := HearCompilation(reader);
      if o.Raised? { return; }
      o := Foreign(ReadErrors);
      if o.Raised? { return; }
      var compileError := Strip(given.lx, given.compilerErrors);
      if compileError != "" {
        data := data.(status := Error, compileError := compileError, compiled := false);
      } else {
        data := data.(status := Compiled, compiled := true);
      }
    }

    /** The two messages around the compilation, and the write between them. */
    method HearCompilation(reader: LogReader) returns (o: Outcome)
      requires Valid() && reader.Valid() && Here().stage.Ready? && Here().data == data == FreshData()
      requires Messages(events) == [] && reader.taken == Says(Messages(events))
      modifies table, reader, this`faulted, this`events, this`nodes, this`data
      ensures Valid() && reader.Valid() && MayFail(Here().stage)
      ensures Here().cases == old(Here()).cases && Here().results == old(Here()).results
      ensures o.Raised? ==> o.Caught() && !Followed(Here().stage) && Here().data == data
      ensures o.Done? ==>
                Here().stage.HeardDone? && Here().data == data == FreshData().(status := Status.Compiling)
                && Messages(events) == [COMPILATION_START, COMPILATION_DONE]
                && reader.taken == Says(Messages(events))
      ensures faulted <==> old(faulted) || o.Raised?
    {
      o := Expect(reader, COMPILATION_START);
      if o.Raised? { return; }
      o := Announce(Status.Compiling);
      if o.Raised? { return; }
      o := Expect(reader, COMPILATION_DONE);
    }

    /** `run`: compile if needed, execute, wait for the container. It returns normally only after the
        messages of its path, at a rejected or a fully executed commit. The container is removed exactly
        when the log was followed to its end; a failure after the first event leaves it behind. */
    method RunContainer(reader: LogReader) returns (o: Outcome)
      requires compilable == given.compilable
      requires Valid() && reader.Valid() && Here().stage.Ready? && Here().data == data == FreshData()
      requires Messages(events) == [] && reader.taken == Says(Messages(events))
      modifies table, reader, this`faulted, this`deeds, this`last, this`events, this`nodes, this`data,
               this`containers, this`killed
      ensures Valid() && reader.Valid() && MayFail(Here().stage)
      ensures Here().cases == old(Here()).cases && Here().results == old(Here()).results
      ensures o.Raised? ==> o.Caught() && Here().data == data
      ensures o.Done? ==> Here().data == data && reader.taken == Says(Messages(events))
                          && Messages(events) == PathMessages(compilable, data.status)
                          && Ran(data) && if given.Rejects() then Here().stage.Rejected? else Here().stage.HeardEnd?
      ensures o.Done? ==> deeds == old(deeds) + RunDeeds(killed)
      ensures faulted <==> old(faulted) || o.Raised?
      ensures old(containers) <= containers <= old(containers) + 1
      ensures Followed(Here().stage) ==> containers == old(containers)
      ensures !Followed(Here().stage) && |events| > |old(events)| ==> containers == old(containers) + 1
    {
      o := StartContainer();
      if o.Raised? { return; }
      o := FollowLog(reader);
      if o.Raised? { return; }
      o := CloseContainer();
      GroupDeeds(old(deeds));
    }

    lemma GroupDeeds(before: seq<Deed>)
      ensures before + [OpenDocker, Deed.StartContainer, FollowLogs] + (if given.compilable then [ReadErrors] else [])
              + [AwaitContainer] + (if killed then [KillContainer] else []) + [RemoveContainer]
           == before + RunDeeds(killed)
    {
    }

    /** The part of `run` that follows the log: the build, and the execution unless that was rejected. */
    method FollowLog(reader: LogReader) returns (o: Outcome)
      requires compilable == given.compilable
      requires Valid() && reader.Valid() && Here().stage.Ready? && Here().data == data == FreshData()
      requires Messages(events) == [] && reader.taken == Says(Messages(events))
      modifies table, reader, this`faulted, this`deeds, this`last, this`events, this`nodes, this`data
      ensures Valid() && reader.Valid() && MayFail(Here().stage)
      ensures Here().cases == old(Here()).cases && Here().results == old(Here()).results
      ensures o.Raised? ==> o.Caught() && !Followed(Here().stage) && Here().data == data
      ensures o.Done? ==> Here().data == data && reader.taken == Says(Messages(events))
                          && Messages(events) == PathMessages(compilable, data.status)
                          && Ran(data) && if given.Rejects() then Here().stage.Rejected? else Here().stage.HeardEnd?
      ensures o.Done? ==> deeds == old(deeds) + if compilable then [ReadErrors] else []
      ensures faulted <==> old(faulted) || o.Raised?
    {
      o := Build(reader);
      if o.Raised? { return; }
      if !data.status.Error? { o := Execution(reader); }
    }

    /** The calls of a `run` that returns: the container is started, its log followed, and the container is
        awaited, killed if that times out, and removed. */
    ghost function RunDeeds(killed: bool): seq<Deed> {
      [OpenDocker, Deed.StartContainer, FollowLogs] + (if given.compilable then [ReadErrors] else [])
      + [AwaitContainer] + (if killed then [KillContainer] else []) + [RemoveContainer]
    }

    /** The commit when its log has been followed: rejected with what the compiler wrote, or run. */
    ghost predicate Ran(d: CommitData) {
      d == if given.Rejects()
           then CommitData(Error, 0, 0.0, false, true, true, Strip(given.lx, given.compilerErrors))
           else CommitData(Status.Running, 0, 0.0, true, true, true, "")
    }

    /** The log has been followed as far as the commit's path goes. */
    predicate Followed(s: Stage) { s.Rejected? || s.HeardEnd? }

    /** The end of `run`: wait for the container, kill it when the wait times out, and remove it whatever
        happened; a removal that raises is only logged. */
    method CloseContainer() returns (o: Outcome)
      requires containers > 0
      modifies this`faulted, this`deeds, this`last, this`containers, this`killed
      ensures containers == old(containers) - 1
      ensures deeds == old(deeds) + [AwaitContainer] + (if killed then [KillContainer] else []) + [RemoveContainer]
      ensures (o.Raised? ==> o.Caught()) && (faulted <==> old(faulted) || o.Raised?)
    {
      ghost var before := faulted;
      var timedOut: bool := *;
      o := Foreign(AwaitContainer);
      if timedOut {
        o := Foreign(KillContainer);
        faulted := before || o.Raised?;
      }
      before := faulted;
      var removal := Foreign(RemoveContainer);
      faulted := before;
      containers := containers - 1;
      killed := timedOut;
    }

    /** Everything `run` does before it reads the log. */
    method StartContainer() returns (o: Outcome)
      modifies this`faulted, this`deeds, this`last, this`containers
      ensures o.Done? ==> containers == old(containers) + 1
      ensures o.Done? ==> deeds == old(deeds) + [OpenDocker, Deed.StartContainer, FollowLogs]
      ensures old(containers) <= containers <= old(containers) + 1
      ensures (o.Raised? ==> o.Caught()) && (o.Done? ==> hasLanguage) && (faulted <==> old(faulted) || o.Raised?)
    {
      o := Foreign(OpenDocker);
      if o.Raised? { return; }
      if !hasLanguage {
        faulted := true;
        return Raised(Retryable);
      }
      o := Foreign(Deed.StartContainer);
      if o.Raised? { return; }
      containers := containers + 1;
      o := Foreign(FollowLogs);
    }

    /** The compilation, if there is one, and the write that closes it. */
    method Build(reader: LogReader) returns (o: Outcome)
      requires compilable == given.compilable
      requires Valid() && reader.Valid() && Here().stage.Ready? && Here().data == data == FreshData()
      requires Messages(events) == [] && reader.taken == Says(Messages(events))
      modifies table, reader, this`faulted, this`deeds, this`last, this`events, this`nodes, this`data
      ensures Valid() && reader.Valid() && MayFail(Here().stage)
      ensures Here().cases == old(Here()).cases && Here().results == old(Here()).results
      ensures o.Raised? ==> o.Caught() && !Followed(Here().stage) && Here().data == data
      ensures o.Done? ==> Here().data == data && reader.taken == Says(Messages(events))
                          && Messages(events) == (if compilable then [COMPILATION_START, COMPILATION_DONE] else [])
                          && if given.Rejects() then Here().stage.Rejected? && Ran(data)
                             else Here().stage.Built? && Ran(data.(status := Status.Running))
                                  && data.status == if compilable then Compiled else Processing
      ensures o.Done? ==> deeds == old(deeds) + if compilable then [ReadErrors] else []
      ensures faulted <==> old(faulted) || o.Raised?
    {
      if compilable {
        o := Compile(reader);
        if o.Raised? { return; }
      } else {
        data := data.(compiled := true);
      }
      o := CloseBuild();
    }

    /** The commit in memory is one that the build phase may write. */
    ghost predicate BuildOutcome(n: Node, d: CommitData) {
      if n.stage.Ready? then n.data.status.Processing? && d == n.data.(compiled := true)
      else n.stage.HeardDone? && CompileOutcome(n.data, d)
    }

    /** The write at the end of the build phase. */
    method CloseBuild() returns (o: Outcome)
      requires Valid() && BuildOutcome(Here(), data)
      modifies table, this`faulted, this`events, this`nodes, this`data
      ensures Valid() && (o.Raised? ==> o.Caught()) && Messages(events) == Messages(old(events))
      ensures Here() == Node(if o.Raised? then Failing else if data.status.Error? then Rejected else Built,
                             data, old(Here()).cases, old(Here()).results)
      ensures data == old(data).(finished := true)
      ensures faulted <==> old(faulted) || o.Raised?
    {
      data := data.(finished := true);
      var c := UpdateCommit(Here().cases, Here().results);
      o := c.ToOutcome();
    }

    /** The execution phase of `run`. */
    method Execution(reader: LogReader) returns (o: Outcome)
      requires Valid() && reader.Valid() && Here().stage.Built? && Here().data == data
      requires reader.taken == Says(Messages(events))
      modifies table, reader, this`faulted, this`events, this`nodes, this`data
      ensures Valid() && reader.Valid() && MayFail(Here().stage)
      ensures Here().cases == old(Here()).cases && Here().results == old(Here()).results
      ensures o.Raised? ==> o.Caught() && !Followed(Here().stage) && Here().data == data
      ensures o.Done? ==> Here().stage.HeardEnd? && Here().data == data == old(data).(status := Status.Running)
                          && reader.taken == Says(Messages(events))
                          && Messages(events) == Messages(old(events)) + [RUN_START, RUN_DONE]
      ensures faulted <==> old(faulted) || o.Raised?
    {
      o := Expect(reader, RUN_START);
      if o.Raised? { return; }
      o := Announce(Status.Running);
      if o.Raised? { return; }
      o := Expect(reader, RUN_DONE);
    }

    /** `run_tests`: run the container, then judge every test case unless compilation failed. */
    method RunTests(cases: seq<TestCase>) returns (r: Result<seq<CaseResult>>)
      requires compilable == given.compilable
      requires Valid() && Here() == Node(Ready, data, cases, []) && data == FreshData()
      requires Messages(events) == []
      modifies table, this`faulted, this`deeds, this`last, this`events, this`nodes, this`data, this`containers,
               this`killed
      ensures Valid() && MayFail(Here().stage) && Here().cases == cases && Here().results == []
      ensures r.Err? ==> !r.error.Cancelled? && Here().data == data
      ensures r.Ok? ==> deeds == old(deeds) + RunDeeds(killed)
      ensures old(containers) <= containers <= old(containers) + 1
      ensures r.Ok? ==> containers == old(containers)
      ensures r.Ok? ==>
                Here().data == data && Says(Messages(events)) <= Stream(given.lx, given.log)
                && Messages(events) == PathMessages(compilable, data.status) && Ran(data)
                && if given.Rejects() then Here().stage.Rejected? && r.value == []
                   else Here().stage.HeardEnd? && Judged(given.lx, cases, given.runs, r.value)
      ensures faulted <==> old(faulted) || r.Err?
    {
      var reader := new LogReader(given.lx, given.log);
      assert reader.taken == Says(Messages(events));
      var o := RunContainer(reader);
      if o.Raised? { return Err(o.exc); }
      if data.status.Error? { return Ok([]); }
      r := ProcessTestResultsBatch(given.lx, cases, given.runs);
      if r.Err? {
        faulted := true;
        assert !r.error.Cancelled? by {
          var i :| 0 <= i < |cases| && Judge(given.lx, cases[i], given.runs) == Err(r.error);
        }
      }
    }

    // ----- the end of an attempt -----

    /** The number of CORRECT results, ten times their share of the cases (ten when there is no case), and
        COMPLETED exactly when there are as many as cases. */
    ghost predicate Tallied(d: CommitData, cases: nat, results: seq<CaseResult>) {
      d.corrects == |set i | 0 <= i < |results| && results[i].verdict.Correct?|
      && (if cases == 0 then d.score == 10.0 else d.score * cases as real == 10.0 * d.corrects as real)
      && d.status == if d.corrects == cases then Completed else Incomplete
    }

    method ComputeScore(cases: seq<TestCase>, results: seq<CaseResult>)
      requires |results| == |cases| || data.status.Error?
      modifies this`data
      ensures old(data).status.Error? ==> data == old(data).(corrects := 0, score := 0.0)
      ensures !old(data).status.Error? ==>
                data == old(data).(corrects := data.corrects, score := data.score, status := data.status)
                && Tallied(data, |cases|, results)
      ensures !old(data).status.Error? ==>
                data == old(data).(corrects := Corrects(results), score := ScoreOf(Corrects(results), |cases|),
                                   status := if Corrects(results) == |cases| then Completed else Incomplete)
    {
      ScoreIsShare(Corrects(results), |cases|);
      CountCorrect(results);
      if data.status.Error? {
        data := data.(corrects := 0, score := 0.0);
        return;
      }
      data := data.(corrects := CountIf(IsCorrect, results), score := 10.0);
      if |cases| > 0 {
        data := data.(score := data.score * (data.corrects as real / |cases| as real));
      }
      data := data.(status := if data.corrects == |cases| then Completed else Incomplete);
    }

    /** The last statement of the attempt raised `exc`. */
    ghost predicate StatementRaised(exc: Exc)
      reads this
    {
      |events| > 0 && events[|events| - 1].Db? && events[|events| - 1].call.Threw?
      && events[|events| - 1].call.exc == exc
    }

    /** What the exception that escapes from an attempt comes from: its last statement, or the cleanup of its
        work directory. */
    ghost predicate Blamed(exc: Exc)
      reads this
    {
      StatementRaised(exc) || (deeds != [] && deeds[|deeds| - 1].CleanUp? && last == Raised(exc))
    }

    /** The handler every failure ends in: write INTERNAL_ERROR and, if configured, clean up. */
    method FailAttempt() returns (exit: Exit)
      requires Valid() && MayFail(Here().stage) && downloads == 0 && faulted && MayReport(Here(), data)
      modifies table, this`faulted, this`deeds, this`last, this`events, this`nodes, this`data, this`cleanups,
               this`workDir
      ensures Valid() && ExitOK(Here().stage, exit)
      ensures exit.Normal? ==>
                Here().stage.Failed? && Here().data == data && Finished(table.rows[id])
                && table.rows[id].data.status.InternalError?
      ensures data == old(data).(status := InternalError)
      ensures workDir == (old(workDir) && !(exit.Normal? && given.cleanupOnError)) && old(cleanups) <= cleanups
      ensures exit.Escaped? ==> !exit.exc.Cancelled? && Blamed(exit.exc)
      ensures faulted && Messages(events) == Messages(old(events)) && !PrefetchWriteRaised()
    {
      var written := WriteFailure();
      if written.Raised? { return Escaped(written.exc); }
      if given.cleanupOnError {
        var o := CleanupTests();
        if o.Raised? { return Escaped(o.exc); }
      }
      RowHere();
      return Normal;
    }

    method WriteFailure() returns (o: Outcome)
      requires Valid() && MayFail(Here().stage) && faulted && MayReport(Here(), data)
      modifies table, this`faulted, this`events, this`nodes, this`data
      ensures Valid() && (o.Raised? ==> o.Caught()) && Messages(events) == Messages(old(events))
      ensures Here().data == data && Here().stage == if o.Done? then Failed else Broken
      ensures data == old(data).(status := InternalError)
      ensures o.Raised? ==> StatementRaised(o.exc)
      ensures faulted && |events| == |old(events)| + 1 && !PrefetchWriteRaised()
    {
      FailureContents(Here(), data.(status := InternalError));
      data := data.(status := InternalError);
      var c := UpdateCommit(Here().cases, Here().results);
      o := c.ToOutcome();
    }

    /** The tested commit matches what the attempt has recorded so far. */
    ghost predicate Tested(cases: seq<TestCase>, results: seq<CaseResult>)
      reads this
      requires |nodes| > 0
    {
      Here().data == data && Here().cases == cases
      && if data.status.Error? then Here().stage.Rejected? && Here().results == results == []
         else Here().stage.HeardEnd? && |results| == |cases|
              && forall i :: 0 <= i < |cases| ==> results[i].caseId == cases[i].id
    }

    /** `compute_score` and the write that publishes it. */
    method PublishScore(cases: seq<TestCase>, results: seq<CaseResult>) returns (c: Call)
      requires Valid() && Tested(cases, results)
      modifies table, this`faulted, this`events, this`nodes, this`data
      ensures Valid() && (c.Threw? ==> !c.exc.Cancelled?) && Messages(events) == Messages(old(events))
      ensures Here() == Node(if c.Returned? then Scored else Failing, data, cases, results)
      ensures data == old(data).(corrects := data.corrects, score := data.score, status := data.status)
      ensures if old(data).status.Error? then data.status.Error? && data.corrects == 0 && data.score == 0.0
              else Tallied(data, |cases|, results)
      ensures faulted <==> old(faulted) || c.Threw?
    {
      ComputeScore(cases, results);
      c := UpdateCommit(cases, results);
    }

    /** The last block: score, save, upload, clean up. */
    method SaveResults(cases: seq<TestCase>, results: seq<CaseResult>) returns (exit: Exit)
      requires Valid() && downloads == 0 && Tested(cases, results)
      modifies table, this`faulted, this`deeds, this`last, this`events, this`nodes, this`data, this`cleanups,
               this`workDir
      ensures Valid() && ExitOK(Here().stage, exit) && Messages(events) == Messages(old(events))
      ensures exit.Normal? ==> Here().data == data
                               && (Here().stage.Failed? ==> Finished(table.rows[id]) && table.rows[id].data.status.InternalError?)
      ensures exit.Normal? && Here().stage.Stored? ==>
                Here().cases == cases && Here().results == results && !workDir
                && data == old(data).(corrects := data.corrects, score := data.score, status := data.status)
                && if old(data).status.Error? then data.status.Error? && data.corrects == 0 && data.score == 0.0
                   else Tallied(data, |cases|, results)
      ensures exit.Normal? && Here().stage.Failed? && given.cleanupOnError ==> !workDir
      ensures faulted <==> old(faulted) || !(exit.Normal? && Here().stage.Stored?)
      ensures !PrefetchWriteRaised() && (exit.Escaped? ==> !exit.exc.Cancelled? && Blamed(exit.exc))
      ensures exit.Normal? && Here().stage.Stored? ==>
                deeds == old(deeds) + (if results != [] then [Upload] else []) + [CleanUp]
    {
      var c := PublishScore(cases, results);
      if c.Threw? { exit := FailAttempt(); return; }
      exit := StoreScored(results);
    }

    /** The rest of the last block, with the score published. */
    method StoreScored(results: seq<CaseResult>) returns (exit: Exit)
      requires Valid() && downloads == 0 && Here().stage.Scored? && Here().data == data && Here().results == results
      modifies table, this`faulted, this`deeds, this`last, this`events, this`nodes, this`data, this`cleanups,
               this`workDir
      ensures Valid() && ExitOK(Here().stage, exit) && Messages(events) == Messages(old(events))
      ensures exit.Normal? ==> Here().data == data
                               && (Here().stage.Failed? ==> Finished(table.rows[id]) && table.rows[id].data.status.InternalError?)
      ensures exit.Normal? && Here().stage.Stored? ==>
                Here() == old(Here()).(stage := Stored) && data == old(data) && !workDir
      ensures exit.Normal? && Here().stage.Failed? && given.cleanupOnError ==> !workDir
      ensures faulted <==> old(faulted) || !(exit.Normal? && Here().stage.Stored?)
      ensures !PrefetchWriteRaised() && (exit.Escaped? ==> !exit.exc.Cancelled? && Blamed(exit.exc))
      ensures exit.Normal? && Here().stage.Stored? ==>
                deeds == old(deeds) + (if results != [] then [Upload] else []) + [CleanUp]
    {
      var c := StoreResults(results);
      if c.Threw? { exit := FailAttempt(); return; }
      if |results| > 0 {
        var o := Foreign(Upload);
        if o.Raised? { exit := FailAttempt(); return; }
      }
      var o := CleanupTests();
      if o.Raised? { exit := FailAttempt(); return; }
      return Normal;
    }

    // ----- the attempt -----

    /** The statement that closed the attempt is the write after the prefetch, and it raised. */
    ghost predicate PrefetchWriteRaised()
      reads this
    {
      |events| > 0 && events[|events| - 1].Db? && events[|events| - 1].call.Threw?
      && events[|events| - 1].op == Write(FreshData())
    }

    /** What a normal end of the attempt leaves behind. The row shows the commit as it is in memory,
        with a final status. Unless that is INTERNAL_ERROR, it is ERROR exactly when the commit is compilable
        and the compiler wrote something, with what it wrote and no results. Otherwise the stored results are
        the judged results of the exercise's test cases, one each and in order, with the number of CORRECT
        ones, ten times their share as the score, and COMPLETED exactly when every test case passed. The
        container's log began with the messages of the commit's path, the container has been removed and the
        work directory is gone. */
    ghost predicate Finished(row: Row)
      reads this
    {
      var d := row.data;
      d == data && IsFinal(d.status) && downloads == 0
      && (!d.status.InternalError? ==>
            !workDir && containers == 0 && arrived == 1 + given.exerciseFiles + |given.cases|
            && deeds == AllDeeds(killed, row.results)
            && Messages(events) == PathMessages(given.compilable, d.status)
            && Says(Messages(events)) <= Stream(given.lx, given.log)
            && (d.status.Error? <==> given.Rejects())
            && d.compileError == (if given.Rejects() then Strip(given.lx, given.compilerErrors) else "")
            && d.compiled == !given.Rejects() && d.started && d.finished)
      && (d.status.Error? ==> row.results == [] && d.corrects == 0 && d.score == 0.0)
      && (d.status.Completed? || d.status.Incomplete? ==>
            Judged(given.lx, given.cases, given.runs, row.results) && Tallied(d, |given.cases|, row.results)
            && (d.status.Completed? <==> AllPass()))
    }

    /** The messages of a commit's path through the container. */
    static function PathMessages(compilable: bool, status: Status): seq<string> {
      (if compilable then [COMPILATION_START, COMPILATION_DONE] else [])
      + (if status.Error? then [] else [RUN_START, RUN_DONE])
    }

    /** The calls of an attempt until it has judged its results, in order: everything is in place before the
        container starts. */
    ghost function DeedsUntilJudged(killed: bool): seq<Deed> {
      [OpenStorage, CleanUp, MakeDirectory, FetchCases] + [Download, WriteConfig, DetectLanguage, ListFiles]
      + Downloads(given.exerciseFiles) + Downloads(|given.cases|) + RunDeeds(killed)
    }

    /** The calls of an attempt that stores its results: the work directory is removed last. */
    ghost function AllDeeds(killed: bool, results: seq<CaseResult>): seq<Deed> {
      DeedsUntilJudged(killed) + (if results != [] then [Upload] else []) + [CleanUp]
    }

    ghost predicate AllPass() {
      forall i :: 0 <= i < |given.cases| ==>
        given.cases[i].id in given.runs && Passes(given.lx, given.cases[i], given.runs[given.cases[i].id])
    }

    lemma JudgedAllPass(results: seq<CaseResult>)
      requires Judged(given.lx, given.cases, given.runs, results)
      ensures Corrects(results) == |given.cases| <==> AllPass()
    {
      CorrectsBound(results);
      var cases := given.cases;
      forall i | 0 <= i < |cases|
        ensures IsCorrect(results[i]) <==> cases[i].id in given.runs && Passes(given.lx, cases[i], given.runs[cases[i].id])
      {
        JudgedCorrect(given.lx, cases, given.runs, results, i);
      }
    }

    /** The commit has been run or rejected, and scored. */
    ghost predicate Graded(d: CommitData, results: seq<CaseResult>) {
      Ran(d.(corrects := 0, score := 0.0, status := if given.Rejects() then Error else Status.Running))
      && if given.Rejects() then d.status.Error? && d.corrects == 0 && d.score == 0.0 && results == []
         else Tallied(d, |given.cases|, results) && Judged(given.lx, given.cases, given.runs, results)
    }

    lemma StoredIsFinished(row: Row)
      requires Run(nodes, events) && RowOK(Here(), row) && Here().stage.Stored? && Here().data == data
      requires downloads == 0 && containers == 0 && !workDir && arrived == 1 + given.exerciseFiles + |given.cases|
      requires Messages(events) == PathMessages(given.compilable, data.status)
      requires Says(Messages(events)) <= Stream(given.lx, given.log)
      requires Graded(data, Here().results) && deeds == AllDeeds(killed, Here().results)
      ensures Finished(row)
    {
      if !given.Rejects() {
        JudgedAllPass(Here().results);
        CountCorrect(Here().results);
      }
    }

    lemma StoredRowIsFinished()
      requires Valid() && Here().stage.Stored? && Here().data == data
      requires downloads == 0 && containers == 0 && !workDir && arrived == 1 + given.exerciseFiles + |given.cases|
      requires Messages(events) == PathMessages(given.compilable, data.status)
      requires Says(Messages(events)) <= Stream(given.lx, given.log)
      requires Graded(data, Here().results) && deeds == AllDeeds(killed, Here().results)
      ensures Finished(table.rows[id]) && !table.rows[id].data.status.InternalError?
    {
      RowHere();
      StoredIsFinished(table.rows[id]);
    }

    /** The attempt has reported its failure and cleaned up as configured. */
    ghost predicate FailedCleanly()
      reads this, table
      requires |nodes| > 0 && id in table.rows
    {
      Finished(table.rows[id]) && table.rows[id].data.status.InternalError? && (given.cleanupOnError ==> !workDir)
    }

    /** The overlapping part of the prefetch: the fetch of the test cases, the deletion of stale results
        and the download of the commit file. `go` says that the first two went well; otherwise the
        download has been awaited, unless the fetch was cancelled. */
    method Overlap() returns (go: bool, cases: seq<TestCase>, exit: Exit)
      requires Valid() && Here().stage.Begin? && Here().data == data && downloads == 0 && events == []
      modifies table, this`faulted, this`deeds, this`last, this`events, this`nodes, this`data, this`downloads,
               this`arrived,
               this`cleanups, this`workDir
      ensures Valid()
      ensures go ==> Here().stage.Deleted? && downloads == 1 && Messages(events) == [] && faulted == old(faulted)
                     && cases == given.cases && arrived == old(arrived) && deeds == old(deeds) + [FetchCases]
      ensures !go ==> faulted && (exit.Escaped? && !exit.exc.Cancelled? ==> Blamed(exit.exc))
      ensures !go && exit == Escaped(Cancelled) ==> Here().stage.Deleted? || Here().stage.DeleteFailed?
      ensures !go ==> ExitOK(Here().stage, exit) && !PrefetchWriteRaised()
      ensures !go ==> (downloads > 0 <==> exit == Escaped(Cancelled))
      ensures !go && exit.Normal? ==> FailedCleanly()
    {
      go, cases, exit := false, [], Normal;
      var failure, c := FetchAndDelete();
      if failure.Some? {
        if failure.value.Cancelled? { exit := Escaped(Cancelled); return; }
        exit := ReportFetch();
        return;
      }
      if c.Threw? {
        var o := AwaitDownload();
        exit := Escaped(c.exc);
        return;
      }
      go, cases := true, given.cases;
    }

    /** The download of the commit file is started, and the two queries are run and gathered. */
    method FetchAndDelete() returns (failure: Option<Exc>, c: Call)
      requires Valid() && Here().stage.Begin? && Here().data == data && downloads == 0 && events == []
      modifies table, this`faulted, this`deeds, this`events, this`nodes, this`downloads
      ensures Valid() && downloads == 1 && Messages(events) == [] && deeds == old(deeds) + [FetchCases]
      ensures Here() == old(Here()).(stage := if c.Returned? then Deleted else DeleteFailed)
      ensures (c.Threw? ==> !c.exc.Cancelled? && StatementRaised(c.exc)) && !PrefetchWriteRaised()
      ensures faulted <==> old(faulted) || failure.Some? || c.Threw?
    {
      downloads := 1;
      failure :| true;
      faulted, deeds := faulted || failure.Some?, deeds + [FetchCases];
      c := DeleteResults();
    }

    /** A failed fetch of the test cases: the download is awaited, whatever it brings, and the failure
        reported. */
    method ReportFetch() returns (exit: Exit)
      requires Valid() && (Here().stage.Deleted? || Here().stage.DeleteFailed?) && Here().data == data
      requires downloads == 1 && faulted
      modifies table, this`faulted, this`deeds, this`last, this`events, this`nodes, this`data, this`downloads,
               this`arrived, this`cleanups, this`workDir
      ensures Valid() && ExitOK(Here().stage, exit) && faulted && downloads == 0 && !PrefetchWriteRaised()
      ensures exit.Escaped? ==> !exit.exc.Cancelled? && Blamed(exit.exc)
      ensures exit.Normal? ==> FailedCleanly()
    {
      var o := AwaitDownload();
      exit := FailAttempt();
    }

    /** The prefetch up to the PROCESSING write. */
    method Prefetch() returns (go: bool, cases: seq<TestCase>, exit: Exit)
      requires Valid() && Here().stage.Begin? && Here().data == data && downloads == 0 && events == []
      modifies table, this`faulted, this`deeds, this`last, this`events, this`nodes, this`data, this`downloads,
               this`arrived,
               this`cleanups, this`workDir
      ensures Valid()
      ensures go ==> cases == given.cases && arrived == old(arrived) && deeds == old(deeds) + [FetchCases]
      ensures go ==> data == CommitData(Processing, 0, 0.0, false, true, false, "")
      ensures go ==> Here() == Node(Ready, data, cases, []) && data == FreshData()
                     && downloads == 1 && Messages(events) == [] && faulted == old(faulted)
      ensures !go ==> faulted && ExitOK(Here().stage, exit)
                      && (downloads > 0 <==> exit == Escaped(Cancelled) || PrefetchWriteRaised())
      ensures !go && exit.Escaped? && !exit.exc.Cancelled? ==> Blamed(exit.exc)
      ensures !go && exit == Escaped(Cancelled) ==> Here().stage.Deleted? || Here().stage.DeleteFailed?
      ensures !go && exit.Normal? ==> FailedCleanly()
    {
      go, cases, exit := Overlap();
      if !go { return; }
      data := FreshData();
      var c := UpdateCommit(cases, []);
      if c.Threw? { go, exit := false, Escaped(c.exc); }
    }

    /** `process_commit`. Every way out is one the protocol allows. A normal end leaves the row
        finished and no download running. A download is left running exactly by a cancelled fetch and by
        a failing write right after the prefetch. No cleanup ever meets a running download. With cleanup
        on error configured, a normal end leaves no work directory, except one of an earlier attempt
        when this one got no further than reporting a storage failure. And the attempt fails, by an
        exception or by INTERNAL_ERROR, exactly when something on the way did. */
    method ProcessCommit(configured: bool) returns (exit: Exit)
      requires Valid() && Here().stage.Begin? && Here().data == data && events == [] && deeds == []
      requires downloads == 0 && containers == 0 && arrived == 0 && !faulted
      modifies table, this
      ensures Valid() && ExitOK(Here().stage, exit) && claimed == old(claimed)
      ensures exit.Normal? ==> Finished(table.rows[id])
      ensures downloads > 0 <==> exit == Escaped(Cancelled) || PrefetchWriteRaised()
      ensures containers <= 1
      ensures forall k :: 0 <= k < |cleanups| ==> cleanups[k] == 0
      ensures !configured ==> exit == Escaped(Retryable) && events == []
      ensures configured && exit.Escaped? && !exit.exc.Cancelled? ==> Blamed(exit.exc)
      ensures exit == Escaped(Cancelled) ==> Here().stage.Deleted? || Here().stage.DeleteFailed?
      ensures configured ==> (faulted <==> exit.Escaped? || table.rows[id].data.status.InternalError?)
      ensures exit.Normal? && given.cleanupOnError && workDir ==> old(workDir) && |events| == 1
    {
      var go, cases;
      go, exit := SetUp(configured);
      if !go { return; }
      go, cases, exit := Prefetch();
      if !go { return; }
      exit := Test(cases);
    }

    /** Everything before the prefetch: the configuration, the storage provider, the work directory. */
    method SetUp(configured: bool) returns (go: bool, exit: Exit)
      requires Valid() && Here().stage.Begin? && Here().data == data && events == [] && downloads == 0
      modifies table, this`faulted, this`deeds, this`last, this`events, this`nodes, this`data, this`cleanups,
               this`workDir
      ensures Valid() && (go ==> Here().stage.Begin? && events == [] && faulted == old(faulted))
      ensures go ==> deeds == old(deeds) + [OpenStorage, CleanUp, MakeDirectory] && workDir
                     && data == old(data) && Here() == old(Here())
      ensures !go && configured && exit.Escaped? ==> Blamed(exit.exc)
      ensures !go && configured ==> faulted
      ensures !go && configured ==>
                data == if cleanups == old(cleanups) then old(data).(status := InternalError)
                        else CommitData(InternalError, 0, 0.0, false, false, false, "")
      ensures !configured ==> !go && exit == Escaped(Retryable) && data == old(data) && events == []
      ensures !go && exit.Normal? && given.cleanupOnError && workDir ==> old(workDir) && |events| == 1
      ensures !go ==> ExitOK(Here().stage, exit) && !Here().stage.Stored?
                      && !PrefetchWriteRaised() && exit != Escaped(Cancelled)
      ensures !go && exit.Normal? ==> Finished(table.rows[id]) && table.rows[id].data.status.InternalError?
    {
      go, exit := false, Escaped(Retryable);
      if !configured { return; }
      var o := Foreign(OpenStorage);
      if o.Raised? {
        o := WriteFailure();
        RowHere();
        exit := if o.Raised? then Escaped(o.exc) else Normal;
        return;
      }
      o := CleanupTests();
      if o.Done? {
        o := Foreign(MakeDirectory);
        workDir := o.Done?;
      }
      if o.Raised? {
        data := ResetData();
        exit := FailAttempt();
        return;
      }
      go := true;
    }

    /** Everything after the prefetch. */
    method Test(cases: seq<TestCase>) returns (exit: Exit)
      requires cases == given.cases && arrived == 0 && deeds == [OpenStorage, CleanUp, MakeDirectory, FetchCases]
      requires Valid() && Here() == Node(Ready, data, cases, []) && data == FreshData()
      requires downloads == 1 && containers == 0 && Messages(events) == []
      modifies table, this`faulted, this`deeds, this`last, this`events, this`nodes, this`data, this`compilable,
               this`hasLanguage, this`downloads, this`arrived,
               this`cleanups, this`workDir, this`containers, this`killed
      ensures Valid() && ExitOK(Here().stage, exit) && downloads == 0 && containers <= 1 && !PrefetchWriteRaised()
      ensures exit.Escaped? ==> !exit.exc.Cancelled? && Blamed(exit.exc)
      ensures faulted <==> old(faulted) || exit.Escaped? || table.rows[id].data.status.InternalError?
      ensures exit.Normal? ==> Finished(table.rows[id]) && (given.cleanupOnError ==> !workDir)
    {
      var o := Prepare(cases);
      if o.Raised? { exit := FailAttempt(); return; }
      var tests := RunTests(cases);
      if tests.Err? { exit := FailAttempt(); return; }
      exit := SaveTested(cases, tests.value);
    }

    method SaveTested(cases: seq<TestCase>, results: seq<CaseResult>) returns (exit: Exit)
      requires Valid() && downloads == 0 && containers == 0 && Here().data == data
      requires Here().cases == cases && Here().results == []
      requires cases == given.cases && arrived == 1 + given.exerciseFiles + |cases| && Ran(data)
      requires deeds == DeedsUntilJudged(killed)
      requires Says(Messages(events)) <= Stream(given.lx, given.log)
      requires Messages(events) == PathMessages(given.compilable, data.status)
      requires if given.Rejects() then Here().stage.Rejected? && results == []
               else Here().stage.HeardEnd? && Judged(given.lx, cases, given.runs, results)
      modifies table, this`faulted, this`deeds, this`last, this`events, this`nodes, this`data, this`cleanups,
               this`workDir
      ensures Valid() && ExitOK(Here().stage, exit)
      ensures !PrefetchWriteRaised() && (exit.Escaped? ==> !exit.exc.Cancelled? && Blamed(exit.exc))
      ensures faulted <==> old(faulted) || exit.Escaped? || table.rows[id].data.status.InternalError?
      ensures exit.Normal? ==> Finished(table.rows[id]) && (given.cleanupOnError ==> !workDir)
    {
      exit := SaveResults(cases, results);
      if exit.Normal? && Here().stage.Stored? { StoredRowIsFinished(); }
    }
  }
}
