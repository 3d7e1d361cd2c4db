/** How the pieces meet: the attempt of Attempt.dfy as steps of the system, the poller's choice as a
    poll step, and `run_commit` as a whole. */
module Refinement {
  import opened Domain
  import opened CommitTable
  import opened Protocol
  import opened Attempts
  import opened Polling
  import opened Claims
  import opened Workers
  import opened Histories
  import Pipeline

  // ----- the poller's choice -----

  /** What a polling cycle puts on the queue is a choice the system allows, whatever the tracker holds. */
  lemma DueCanBePolled(cfg: Pipeline.Config, s: Pipeline.System, tracker: map<int, int>, ids: seq<int>, cutoff: int)
    requires s.parent == Pipeline.Polling([])
    requires forall id :: id in ids ==> Claimable(s.rows, id)
    ensures Pipeline.MainEnabled(cfg, s, Pipeline.Poll(Due(tracker, ids, cutoff)))
  {
  }

  // ----- an attempt inside the system -----

  /** Task `t` is in its attempt, at `n`. */
  ghost predicate TaskAt(s: Pipeline.System, t: nat, n: Node) {
    t in s.tasks && s.tasks[t].worker < |s.workers| && s.tasks[t].job == Pipeline.Holding(n)
  }

  /** One event of an attempt is one enabled step of its task, with the same effect on the row. */
  lemma EventIsStep(s: Pipeline.System, t: nat, n: Node, e: Event, n': Node)
    requires TaskAt(s, t, n) && Step(n, e, n') && s.tasks[t].commit in s.rows
    ensures Pipeline.RunEnabled(s, t, Pipeline.Work(e, n'))
    ensures var s', id := Pipeline.RunApply(s, t, Pipeline.Work(e, n')), s.tasks[t].commit;
            TaskAt(s', t, n') && s'.tasks[t].commit == id && s'.rows == s.rows[id := After(s.rows[id], e)]
  {
  }

  /** In the run so far, task `t` has won its claim at step `i` and is in its attempt, and its own steps
      since then are the first `k` events of a recorded attempt. */
  ghost predicate HasPlayed(
    cfg: Pipeline.Config, states: seq<Pipeline.System>, steps: seq<Pipeline.SysStep>, i: nat, t: nat,
    nodes: seq<Node>, events: seq<Event>, k: nat)
    requires Run(nodes, events)
  {
    && k <= |events| && nodes[0] == Node(Begin, nodes[0].data, [], [])
    && WonAt(cfg, states, steps, i, t, nodes[0].data)
    && t in states[|steps|].tasks && states[|steps|].tasks[t].job.Holding?
    && AttemptEvents(steps, i, |steps|, t) == events[..k]
    && AttemptNodes(steps, i, |steps|, t, nodes[0].data) == nodes[..k + 1]
  }

  /** Then the task stands where the attempt stood, and so does its row. */
  lemma PlayedSoFar(
    cfg: Pipeline.Config, states: seq<Pipeline.System>, steps: seq<Pipeline.SysStep>, i: nat, t: nat,
    nodes: seq<Node>, events: seq<Event>, k: nat)
    requires Run(nodes, events) && HasPlayed(cfg, states, steps, i, t, nodes, events, k)
    ensures var s, id := states[|steps|], states[i].tasks[t].commit;
            && TaskAt(s, t, nodes[k]) && s.tasks[t].commit == id && id in states[i + 1].rows && id in s.rows
            && s.rows[id] == Replay(states[i + 1].rows[id], events[..k])
  {
    TaskFollowsProtocol(cfg, states, steps, i, |steps|, t, nodes[0].data);
    WorkersAlways(cfg, states, steps, |steps|);
  }

  ghost function Extended(cfg: Pipeline.Config, states: seq<Pipeline.System>, step: Pipeline.SysStep)
    : seq<Pipeline.System>
    requires states != [] && Pipeline.Enabled(cfg, states[|states| - 1], step)
  {
    states + [Pipeline.Next(cfg, states[|states| - 1], step)]
  }

  lemma HistoryAppend(
    cfg: Pipeline.Config, states: seq<Pipeline.System>, steps: seq<Pipeline.SysStep>, i: nat, t: nat, data: CommitData,
    step: Pipeline.SysStep)
    requires WonAt(cfg, states, steps, i, t, data) && Pipeline.Enabled(cfg, states[|steps|], step)
    ensures WonAt(cfg, Extended(cfg, states, step), steps + [step], i, t, data)
    ensures var work := IsWorkOf(step, t);
            && AttemptEvents(steps + [step], i, |steps| + 1, t)
               == AttemptEvents(steps, i, |steps|, t) + (if work then [step.job.event] else [])
            && AttemptNodes(steps + [step], i, |steps| + 1, t, data)
               == AttemptNodes(steps, i, |steps|, t, data) + (if work then [step.job.node] else [])
  {
    Pipeline.RunAppend(cfg, states, steps, step);
    assert Pipeline.StepAt(cfg, Extended(cfg, states, step), steps + [step], i);
    assert (steps + [step])[i + 1..|steps| + 1] == steps[i + 1..] + [step] && steps[i + 1..|steps|] == steps[i + 1..];
    OfSnoc(steps[i + 1..], step, t);
  }

  /** The next event of the attempt is an enabled step, however many steps the other processes have
      taken since the last one. */
  lemma AttemptAdvances(
    cfg: Pipeline.Config, states: seq<Pipeline.System>, steps: seq<Pipeline.SysStep>, i: nat, t: nat,
    nodes: seq<Node>, events: seq<Event>, k: nat)
    requires Run(nodes, events) && HasPlayed(cfg, states, steps, i, t, nodes, events, k) && k < |events|
    ensures var step := Pipeline.Run(t, Pipeline.Work(events[k], nodes[k + 1]));
            && Pipeline.Enabled(cfg, states[|steps|], step)
            && HasPlayed(cfg, Extended(cfg, states, step), steps + [step], i, t, nodes, events, k + 1)
  {
    PlayedSoFar(cfg, states, steps, i, t, nodes, events, k);
    RunPrefix(nodes, events, k);
    EventIsStep(states[|steps|], t, nodes[k], events[k], nodes[k + 1]);
    HistoryAppend(cfg, states, steps, i, t, nodes[0].data, Pipeline.Run(t, Pipeline.Work(events[k], nodes[k + 1])));
  }

  /** A step of any other process leaves the attempt where it is. */
  lemma AttemptWaits(
    cfg: Pipeline.Config, states: seq<Pipeline.System>, steps: seq<Pipeline.SysStep>, i: nat, t: nat,
    nodes: seq<Node>, events: seq<Event>, k: nat, step: Pipeline.SysStep)
    requires Run(nodes, events) && HasPlayed(cfg, states, steps, i, t, nodes, events, k)
    requires Pipeline.Enabled(cfg, states[|steps|], step) && !(step.Run? && step.task == t)
    ensures HasPlayed(cfg, Extended(cfg, states, step), steps + [step], i, t, nodes, events, k)
  {
    ClaimsAlways(cfg, states, steps, |steps|);
    OthersKeepAttempt(cfg, states[|steps|], step, t);
    HistoryAppend(cfg, states, steps, i, t, nodes[0].data, step);
  }

  /** From its claim on, a whole attempt can be played as steps of its task. */
  lemma {:induction false} AttemptCanBePlayed(
    cfg: Pipeline.Config, states: seq<Pipeline.System>, steps: seq<Pipeline.SysStep>, i: nat, t: nat,
    nodes: seq<Node>, events: seq<Event>, k: nat)
    returns (states': seq<Pipeline.System>, steps': seq<Pipeline.SysStep>)
    requires Run(nodes, events) && HasPlayed(cfg, states, steps, i, t, nodes, events, k)
    ensures states <= states' && steps <= steps' && |steps'| == |steps| + |events| - k
    ensures HasPlayed(cfg, states', steps', i, t, nodes, events, |events|)
    decreases |events| - k
  {
    states', steps' := states, steps;
    if k < |events| {
      AttemptAdvances(cfg, states, steps, i, t, nodes, events, k);
      var step := Pipeline.Run(t, Pipeline.Work(events[k], nodes[k + 1]));
      states', steps' := AttemptCanBePlayed(
        cfg, Extended(cfg, states, step), steps + [step], i, t, nodes, events, k + 1);
    }
  }

  /** When all its events have been played the task can end as the attempt did, with the attempt's row. */
  lemma AttemptIsTaskRun(
    cfg: Pipeline.Config, states: seq<Pipeline.System>, steps: seq<Pipeline.SysStep>, i: nat, t: nat,
    nodes: seq<Node>, events: seq<Event>, exit: Exit)
    requires Run(nodes, events) && HasPlayed(cfg, states, steps, i, t, nodes, events, |events|)
    requires ExitOK(nodes[|events|].stage, exit) && exit != Escaped(Cancelled)
    ensures Pipeline.Enabled(cfg, states[|steps|], Pipeline.Run(t, Pipeline.End(exit)))
    ensures var id := states[i].tasks[t].commit;
            id in states[i + 1].rows && id in states[|steps|].rows
            && states[|steps|].rows[id] == Replay(states[i + 1].rows[id], events)
  {
    PlayedSoFar(cfg, states, steps, i, t, nodes, events, |events|);
    assert events[..|events|] == events;
  }

  // ----- run_commit -----

  /** The worker's state that a task touches. */
  class Slots {
    var free: nat
    var fatal: bool
  }

  /** How a task ends. */
  datatype TaskEnd =
    | ClaimRaised(took: bool) | ClaimLost
    | Processed | KeptClaim | WasCancelled
    | GaveBack(release: Call)

  /** What holds of the commit's row when the task has ended; `before` is the row the release met. */
  ghost predicate EndsWell(end: TaskEnd, rows: Rows, id: int, before: Row) {
    match end
    case Processed => id in rows && IsFinal(rows[id].data.status)
    case KeptClaim => id in rows && !rows[id].data.status.InQueue?
    case WasCancelled => id in rows && !rows[id].data.status.InQueue?
    case GaveBack(c) =>
      id in rows && !before.data.status.InQueue?
      && (rows[id].data.status.InQueue? <==> c.Took() && before.data.status.Processing?)
      && rows[id].results == before.results
      && (!rows[id].data.status.InQueue? ==> rows[id] == before)
    case _ => true
  }

  /** `run_commit`. The slot is given back on every path. A won claim starts an attempt, and how the task
      ends is how the attempt did: a failure that stops the worker keeps the claim, and a retryable one gives
      it back, which reaches the row only while it still says PROCESSING. Losing the claim changes nothing,
      and a claim that raises is dropped. If nothing fails on its way, the commit is processed. */
  method RunCommit(slots: Slots, table: Table, id: int, given: Inputs, configured: bool, data: CommitData, workDir: bool)
    returns (end: TaskEnd, ghost before: Row, ghost exit: Option<Exit>, ghost faulted: bool)
    modifies slots, table
    ensures slots.free == old(slots.free) + 1
    ensures slots.fatal <==> old(slots.fatal) || exit == Some(Escaped(Fatal))
    ensures end.ClaimLost? ==> !Claimable(old(table.rows), id) && table.rows == old(table.rows)
    ensures end.ClaimRaised? ==>
              table.rows == if end.took then Claimed(old(table.rows), id) else old(table.rows)
    ensures !end.ClaimLost? && !end.ClaimRaised? ==> Claimable(old(table.rows), id)
    ensures exit.Some? <==> !end.ClaimLost? && !end.ClaimRaised?
    ensures exit.Some? ==> EndOf(end, exit.value) && EndsWell(end, table.rows, id, before)
    ensures exit.Some? && configured && !faulted ==>
              end.Processed? && !table.rows[id].data.status.InternalError?
  {
    before, exit, faulted := Row(data, []), None, false;
    end := ClaimLost;
    var c, claimed := table.ClaimCommit(id);
    if c.Threw? {
      end := ClaimRaised(c.took);
    } else if claimed {
      ghost var how;
      end, before, how, faulted := Process(slots, table, id, given, configured, data, workDir);
      exit := Some(how);
    }
    slots.free := slots.free + 1;
  }

  /** The end of a task whose attempt ended by `exit`. */
  ghost predicate EndOf(end: TaskEnd, exit: Exit) {
    match exit
    case Normal => end.Processed?
    case Escaped(Fatal) => end.KeptClaim?
    case Escaped(Cancelled) => end.WasCancelled?
    case Escaped(Retryable) => end.GaveBack?
  }

  /** The part of `run_commit` behind a won claim. */
  method Process(slots: Slots, table: Table, id: int, given: Inputs, configured: bool, data: CommitData, workDir: bool)
    returns (end: TaskEnd, ghost before: Row, ghost exit: Exit, ghost faulted: bool)
    requires id in table.rows && Attempt.JustClaimed(table.rows[id])
    modifies slots`fatal, table
    ensures slots.fatal <==> old(slots.fatal) || exit == Escaped(Fatal)
    ensures EndOf(end, exit) && EndsWell(end, table.rows, id, before)
    ensures configured && !faulted ==> end.Processed? && !table.rows[id].data.status.InternalError?
  {
    var attempt := new Attempt(id, table, given, data, workDir);
    var how := attempt.ProcessCommit(configured);
    attempt.RowHere();
    exit, before, faulted := how, table.rows[id], attempt.faulted;
    match how {
      case Normal => end := Processed;
      case Escaped(Fatal) =>
        slots.fatal := true;
        end := KeptClaim;
      case Escaped(Cancelled) => end := WasCancelled;
      case Escaped(Retryable) =>
        var c := table.ReleaseCommit(id);
        end := GaveBack(c);
    }
  }
}
