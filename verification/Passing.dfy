/** A run in which nothing goes wrong: a commit is submitted, polled, claimed, attempted and stored. */
module Passing {
  import opened Domain
  import opened CommitTable
  import opened Protocol
  import opened Pipeline
  import opened Histories
  import Outage

  const ONE := Config(1, 1)
  const QUEUED := Row(CommitData(InQueue, 0, 0.0, false, false, false, ""), [])
  const NO_ROWS: Rows := map[]
  const NO_TASKS: map<nat, Task> := map[]

  lemma Overwrite<K, V>(m: map<K, V>, k: K, a: V, b: V)
    ensures m[k := a][k := b] == m[k := b]
  {
  }

  // ----- from the submission to the claim -----

  function Before(rows: Rows, parent: Parent, queue: seq<Item>, unfinished: int, worker: Worker, puts: seq<Item>,
                  pulls: seq<Pull>): System {
    System(rows, queue, unfinished, parent, None, 0, [worker], NO_TASKS, 0, puts, pulls)
  }

  const OPEN := NewWorker(ONE).(pool := Open, phase := Checking)

  function Opening(): seq<SysStep> {
    [Submit(1, QUEUED), Loop(0, OpenPool(true)), Loop(0, Check), Main(Poll([1])), Main(PutCommit), Loop(0, Get),
     Loop(0, Acquire), Loop(0, Spawn), Loop(0, MarkDone)]
  }

  function OpeningStates(): seq<System> {
    var rows := NO_ROWS[1 := QUEUED];
    var copy, log := [Copy(1)], [Pull(0, Copy(1))];
    [Before(NO_ROWS, Polling([]), [], 0, NewWorker(ONE), [], []),
     Before(rows, Polling([]), [], 0, NewWorker(ONE), [], []),
     Before(rows, Polling([]), [], 0, OPEN, [], []),
     Before(rows, Polling([]), [], 0, OPEN.(phase := Getting), [], []),
     Before(rows, Polling([1]), [], 0, OPEN.(phase := Getting), [], []),
     Before(rows, Polling([]), copy, 1, OPEN.(phase := Getting), copy, []),
     Before(rows, Polling([]), [], 1, OPEN.(phase := Pulled(Copy(1))), copy, log),
     Before(rows, Polling([]), [], 1, OPEN.(phase := Acquired(1), free := 0), copy, log),
     WithTask(QUEUED, Spawned, 1, OPEN.(phase := Marking(false), free := 0, inFlight := {0})),
     WithTask(QUEUED, Spawned, 0, Busy())]
  }

  /** The worker that runs the commit and waits for the next one. */
  function Busy(): Worker { OPEN.(free := 0, inFlight := {0}) }

  function WithTask(row: Row, job: Job, unfinished: int, worker: Worker): System {
    System(NO_ROWS[1 := row], [], unfinished, Polling([]), None, 0, [worker], NO_TASKS[0 := Task(0, 1, job)], 1,
           [Copy(1)], [Pull(0, Copy(1))])
  }

  lemma OpeningStep(i: nat)
    requires i < 4
    ensures Enabled(ONE, OpeningStates()[i], Opening()[i])
    ensures OpeningStates()[i + 1] == Next(ONE, OpeningStates()[i], Opening()[i])
  {
  }

  lemma PuttingStep(i: nat)
    requires 4 <= i < 6
    ensures Enabled(ONE, OpeningStates()[i], Opening()[i])
    ensures OpeningStates()[i + 1] == Next(ONE, OpeningStates()[i], Opening()[i])
  {
    var none: seq<Item>, nothing: seq<Pull> := [], [];
    assert none + [Copy(1)] == [Copy(1)] && [Copy(1)][1..] == none && [1][1..] == [];
    assert nothing + [Pull(0, Copy(1))] == [Pull(0, Copy(1))];
  }

  lemma SpawningStep(i: nat)
    requires 6 <= i < 9
    ensures Enabled(ONE, OpeningStates()[i], Opening()[i])
    ensures OpeningStates()[i + 1] == Next(ONE, OpeningStates()[i], Opening()[i])
  {
    assert {} + {0} == {0};
  }

  // ----- the attempt -----

  /** As in `Outage`, but the store succeeds. */
  function Events(): seq<Event> { Outage.Events()[..7] + [Db(Store(Outage.RESULTS), Returned)] }

  function Nodes(data: CommitData): seq<Node> {
    Outage.Nodes(data)[..8] + [Node(Stored, Outage.PASSED, Outage.CASES, Outage.RESULTS)]
  }

  const CLAIMED := Row(QUEUED.data.(status := Processing, started := true), [])

  function RowAt(k: nat): Row {
    if k < 8 then Outage.RowAfter(CLAIMED, k) else Row(Outage.PASSED, Outage.RESULTS)
  }

  lemma AttemptStep(data: CommitData, k: nat)
    requires k < 8
    ensures Step(Nodes(data)[k], Events()[k], Nodes(data)[k + 1]) && RowAt(k + 1) == After(RowAt(k), Events()[k])
  {
    if k < 7 {
      Outage.OutageSteps(data, k);
    } else {
      assert [] + Outage.RESULTS == Outage.RESULTS;
    }
  }

  /** The state of the system after `k` events of the attempt. */
  function During(data: CommitData, k: nat): System
    requires k <= 8
  {
    WithTask(RowAt(k), Holding(Nodes(data)[k]), 0, Busy())
  }

  lemma ClaimStep(data: CommitData)
    ensures var s, step := OpeningStates()[9], Run(0, Claim(Returned, data));
            Enabled(ONE, s, step) && Next(ONE, s, step) == During(data, 0)
  {
    Overwrite(NO_ROWS, 1, QUEUED, CLAIMED);
    Overwrite(NO_TASKS, 0, Task(0, 1, Spawned), Task(0, 1, Holding(Nodes(data)[0])));
  }

  lemma WorkStep(data: CommitData, k: nat)
    requires k < 8
    ensures var step := Run(0, Work(Events()[k], Nodes(data)[k + 1]));
            Enabled(ONE, During(data, k), step) && Next(ONE, During(data, k), step) == During(data, k + 1)
  {
    AttemptStep(data, k);
    Overwrite(NO_ROWS, 1, RowAt(k), RowAt(k + 1));
    Overwrite(NO_TASKS, 0, Task(0, 1, Holding(Nodes(data)[k])), Task(0, 1, Holding(Nodes(data)[k + 1])));
  }

  // ----- the end -----

  function Ending(): System { WithTask(Row(Outage.PASSED, Outage.RESULTS), Finishing, 0, Busy()) }

  /** The commit is graded, the worker idle, and nothing is left to do. */
  function Idle(): System { Ending().(tasks := NO_TASKS, workers := [OPEN]) }

  lemma EndStep(data: CommitData)
    ensures var step := Run(0, End(Normal));
            Enabled(ONE, During(data, 8), step) && Next(ONE, During(data, 8), step) == Ending()
  {
    Overwrite(NO_TASKS, 0, Task(0, 1, Holding(Nodes(data)[8])), Task(0, 1, Finishing));
  }

  lemma FinishStep()
    ensures Enabled(ONE, Ending(), Run(0, Finish)) && Next(ONE, Ending(), Run(0, Finish)) == Idle()
  {
    assert {0} - {0} == {};
    assert Ending().tasks - {0} == NO_TASKS;
  }

  // ----- the run -----

  lemma OpeningRun()
    ensures IsRun(ONE, OpeningStates(), Opening())
  {
    assert Init(ONE, OpeningStates()[0]);
    forall i | 0 <= i < 9 ensures StepAt(ONE, OpeningStates(), Opening(), i) {
      if i < 4 { OpeningStep(i); } else if i < 6 { PuttingStep(i); } else { SpawningStep(i); }
    }
  }

  /** The run up to the claim and the first `k` events of the attempt. */
  lemma {:induction false} AttemptRun(data: CommitData, k: nat) returns (states: seq<System>, steps: seq<SysStep>)
    requires k <= 8
    ensures IsRun(ONE, states, steps) && |steps| == 10 + k && states[|steps|] == During(data, k)
    ensures steps[..10] == Opening() + [Run(0, Claim(Returned, data))] && WonAt(ONE, states, steps, 9, 0, data)
  {
    if k == 0 {
      OpeningRun();
      ClaimStep(data);
      RunAppend(ONE, OpeningStates(), Opening(), Run(0, Claim(Returned, data)));
      states, steps := OpeningStates() + [During(data, 0)], Opening() + [Run(0, Claim(Returned, data))];
      assert StepAt(ONE, states, steps, 9);
    } else {
      var step := Run(0, Work(Events()[k - 1], Nodes(data)[k]));
      states, steps := AttemptRun(data, k - 1);
      WorkStep(data, k - 1);
      RunAppend(ONE, states, steps, step);
      states, steps := states + [During(data, k)], steps + [step];
      assert StepAt(ONE, states, steps, 9);
    }
  }

  /** It does work: the commit is claimed by the task spawned for its copy, attempted and ended normally; its
      row is COMPLETED with a full score and its one result, and the worker has its slot back. */
  lemma CommitPasses(data: CommitData) returns (states: seq<System>, steps: seq<SysStep>)
    ensures IsRun(ONE, states, steps) && |steps| == 20 && WonAt(ONE, states, steps, 9, 0, data)
    ensures steps[18] == Run(0, End(Normal)) && steps[19] == Run(0, Finish)
    ensures var s := states[20];
            && s.rows == map[1 := Row(Outage.PASSED, Outage.RESULTS)]
            && s.queue == [] && s.unfinished == 0 && s.tasks == map[]
            && s.workers == [OPEN] && OPEN.free == ONE.concurrency
  {
    states, steps := AttemptRun(data, 8);
    EndStep(data);
    RunAppend(ONE, states, steps, Run(0, End(Normal)));
    states, steps := states + [Ending()], steps + [Run(0, End(Normal))];
    FinishStep();
    RunAppend(ONE, states, steps, Run(0, Finish));
    states, steps := states + [Idle()], steps + [Run(0, Finish)];
    assert StepAt(ONE, states, steps, 9);
  }
}
