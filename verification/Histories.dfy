/** What a task has done so far, read off a run of the whole system: its steps are an attempt, whatever
    the other processes do between them, and its commit's row is what those steps made of it. */
module Histories {
  import opened Domain
  import opened Scoring
  import opened Protocol
  import opened Pipeline
  import opened Claims

  predicate IsWorkOf(step: SysStep, t: nat) { step.Run? && step.task == t && step.job.Work? }

  /** The events of task `t` among `steps`. */
  function EventsOf(steps: seq<SysStep>, t: nat): seq<Event> {
    if steps == [] then []
    else
      var before, last := EventsOf(steps[..|steps| - 1], t), steps[|steps| - 1];
      if IsWorkOf(last, t) then before + [last.job.event] else before
  }

  /** What the attempt of task `t` knew after each of them. */
  function NodesOf(steps: seq<SysStep>, t: nat): seq<Node> {
    if steps == [] then []
    else
      var before, last := NodesOf(steps[..|steps| - 1], t), steps[|steps| - 1];
      if IsWorkOf(last, t) then before + [last.job.node] else before
  }

  lemma OfSnoc(steps: seq<SysStep>, last: SysStep, t: nat)
    ensures EventsOf(steps + [last], t)
         == EventsOf(steps, t) + if IsWorkOf(last, t) then [last.job.event] else []
    ensures NodesOf(steps + [last], t)
         == NodesOf(steps, t) + if IsWorkOf(last, t) then [last.job.node] else []
  {
    assert (steps + [last])[..|steps|] == steps;
  }

  /** Step `i` of the run is the claim that task `t` won. */
  ghost predicate WonAt(cfg: Config, states: seq<System>, steps: seq<SysStep>, i: nat, t: nat, data: CommitData) {
    Takes(cfg, states, steps, i, Run(t, Claim(Returned, data)))
    && states[i + 1].tasks[t].job.Holding?
  }

  /** The attempt of task `t` between its claim at step `i` and state `j`. */
  function AttemptNodes(steps: seq<SysStep>, i: nat, j: nat, t: nat, data: CommitData): seq<Node>
    requires i < j <= |steps|
  {
    [Node(Begin, data, [], [])] + NodesOf(steps[i + 1..j], t)
  }

  function AttemptEvents(steps: seq<SysStep>, i: nat, j: nat, t: nat): seq<Event>
    requires i < j <= |steps|
  {
    EventsOf(steps[i + 1..j], t)
  }

  /** Task `t` is in its attempt, and its history is that of a run of the automaton. */
  ghost predicate Follows(s: System, t: nat, nodes: seq<Node>, events: seq<Event>, row: Row) {
    && t in s.tasks && s.tasks[t].commit in s.rows && Protocol.Run(nodes, events)
    && s.tasks[t].job == Holding(nodes[|events|]) && s.rows[s.tasks[t].commit] == Replay(row, events)
  }

  /** No step of another process reaches a task in its attempt, or its row. */
  lemma OthersKeepAttempt(cfg: Config, s: System, step: SysStep, t: nat)
    requires ClaimInv(s) && Enabled(cfg, s, step) && t in s.tasks && s.tasks[t].job.Holding?
    requires !(step.Run? && step.task == t)
    ensures var s', id := Next(cfg, s, step), s.tasks[t].commit;
            && t in s'.tasks && s'.tasks[t] == s.tasks[t]
            && id in s.rows && id in s'.rows && s'.rows[id] == s.rows[id]
  {
    assert HolderRow(s, s.tasks[t]);
    RowChange(cfg, s, step, s.tasks[t].commit);
    assert Holds(s.tasks[t], s.tasks[t].commit);
  }

  lemma OwnStepFollows(s: System, t: nat, e: Event, n: Node, nodes: seq<Node>, events: seq<Event>, row: Row)
    requires Follows(s, t, nodes, events, row) && RunEnabled(s, t, Work(e, n))
    ensures Follows(RunApply(s, t, Work(e, n)), t, nodes + [n], events + [e], row)
  {
    RunExtend(nodes, events, e, n);
    assert (events + [e])[..|events|] == events;
  }

  /** Any step after which the task is still in its attempt. */
  lemma StepFollows(cfg: Config, s: System, step: SysStep, t: nat, nodes: seq<Node>, events: seq<Event>, row: Row)
    requires ClaimInv(s) && Enabled(cfg, s, step) && Follows(s, t, nodes, events, row)
    requires t in Next(cfg, s, step).tasks && Next(cfg, s, step).tasks[t].job.Holding?
    ensures Next(cfg, s, step).tasks[t].commit == s.tasks[t].commit
    ensures var own := IsWorkOf(step, t);
            Follows(Next(cfg, s, step), t, nodes + (if own then [step.job.node] else []),
                    events + (if own then [step.job.event] else []), row)
  {
    if step.Run? && step.task == t {
      assert step.job.Work?;
      OwnStepFollows(s, t, step.job.event, step.job.node, nodes, events, row);
    } else {
      OthersKeepAttempt(cfg, s, step, t);
      assert nodes + [] == nodes && events + [] == events;
    }
  }

  /** The steps of a task from its claim on are a run of the automaton, and its row is what they made of
      the row it claimed. So an attempt may be reasoned about alone: whatever the other processes did
      between its steps, they left its row as it was. */
  lemma {:induction false} TaskFollowsProtocol(
    cfg: Config, states: seq<System>, steps: seq<SysStep>, i: nat, j: nat, t: nat, data: CommitData)
    requires WonAt(cfg, states, steps, i, t, data) && i < j < |states|
    requires t in states[j].tasks && states[j].tasks[t].job.Holding?
    ensures states[i].tasks[t].commit in states[i + 1].rows
    ensures Follows(states[j], t, AttemptNodes(steps, i, j, t, data), AttemptEvents(steps, i, j, t),
                    states[i + 1].rows[states[i].tasks[t].commit])
    ensures states[j].tasks[t].commit == states[i].tasks[t].commit
  {
    ClaimsAlways(cfg, states, steps, i + 1);
    assert HolderRow(states[i + 1], states[i + 1].tasks[t]);
    if j == i + 1 {
      assert steps[i + 1..j] == [];
    } else {
      ClaimsAlways(cfg, states, steps, j - 1);
      assert StepAt(cfg, states, steps, j - 1);
      var s, step := states[j - 1], steps[j - 1];
      HoldingBefore(cfg, states, steps, i, j - 1, t);
      TaskFollowsProtocol(cfg, states, steps, i, j - 1, t, data);
      assert steps[i + 1..j] == steps[i + 1..j - 1] + [step];
      OfSnoc(steps[i + 1..j - 1], step, t);
      StepFollows(cfg, s, step, t, AttemptNodes(steps, i, j - 1, t, data), AttemptEvents(steps, i, j - 1, t),
                  states[i + 1].rows[states[i].tasks[t].commit]);
      assert AttemptNodes(steps, i, j, t, data)
          == AttemptNodes(steps, i, j - 1, t, data) + if IsWorkOf(step, t) then [step.job.node] else [];
    }
  }

  /** A task that holds its commit now and did at step `i` held it all the time. */
  lemma HoldingBefore(cfg: Config, states: seq<System>, steps: seq<SysStep>, i: nat, j: nat, t: nat)
    requires IsRun(cfg, states, steps) && i < j < |steps|
    requires t in states[i + 1].tasks && states[i + 1].tasks[t].job.Holding?
    requires t in states[j + 1].tasks && states[j + 1].tasks[t].job.Holding?
    ensures t in states[j].tasks && states[j].tasks[t].job.Holding?
  {
    PastSpawned(cfg, states, steps, i + 1, j, t);
    assert StepAt(cfg, states, steps, j);
  }

  /** A task that has gone past its claim never comes back to it. */
  lemma {:induction false} PastSpawned(cfg: Config, states: seq<System>, steps: seq<SysStep>, i: nat, j: nat, t: nat)
    requires IsRun(cfg, states, steps) && i <= j < |states| && t in states[i].tasks && !states[i].tasks[t].job.Spawned?
    ensures t < states[j].nextTask && (t in states[j].tasks ==> !states[j].tasks[t].job.Spawned?)
  {
    ClaimsAlways(cfg, states, steps, i);
    if i < j {
      PastSpawned(cfg, states, steps, i, j - 1, t);
      assert StepAt(cfg, states, steps, j - 1);
    }
  }

  /** Every attempt in progress was begun by a claim its task won. */
  lemma {:induction false} HolderWon(cfg: Config, states: seq<System>, steps: seq<SysStep>, j: nat, t: nat)
    returns (i: nat, data: CommitData)
    requires IsRun(cfg, states, steps) && j < |states| && t in states[j].tasks && states[j].tasks[t].job.Holding?
    ensures i < j && WonAt(cfg, states, steps, i, t, data)
  {
    if j == 0 { assert false; }
    assert StepAt(cfg, states, steps, j - 1);
    var s, step := states[j - 1], steps[j - 1];
    if t in s.tasks && s.tasks[t].job.Holding? {
      i, data := HolderWon(cfg, states, steps, j - 1, t);
    } else {
      assert step.Run? && step.task == t && step.job.Claim? && step.job.call.Returned?;
      i, data := j - 1, step.job.data;
    }
  }

  // ----- a verdict published by a failed attempt -----

  /** The row is past PROCESSING, and whoever still holds it can only give it back. */
  predicate Sealed(s: System, id: int) {
    && id in s.rows && !s.rows[id].data.status.InQueue? && !s.rows[id].data.status.Processing?
    && forall u :: u in s.tasks && Holds(s.tasks[u], id) ==> s.tasks[u].job.Releasing?
  }

  lemma SealedStep(cfg: Config, s: System, step: SysStep, id: int)
    requires ClaimInv(s) && Enabled(cfg, s, step) && Sealed(s, id)
    ensures Sealed(Next(cfg, s, step), id) && Next(cfg, s, step).rows[id] == s.rows[id]
  {
    RowChange(cfg, s, step, id);
    var s' := Next(cfg, s, step);
    if step.Run? && s.tasks[step.task].commit == id && Holds(s.tasks[step.task], id) {
      assert step.job.Release?;
    }
    forall u | u in s'.tasks && Holds(s'.tasks[u], id) ensures s'.tasks[u].job.Releasing? {
      NoNewHolder(cfg, s, step, u, id);
      assert u in s.tasks && s.tasks[u].job.Releasing?;
    }
  }

  lemma {:induction false} SealedForever(cfg: Config, states: seq<System>, steps: seq<SysStep>, i: nat, j: nat, id: int)
    requires IsRun(cfg, states, steps) && i <= j < |states| && Sealed(states[i], id)
    ensures Sealed(states[j], id) && states[j].rows[id] == states[i].rows[id]
  {
    if i < j {
      SealedForever(cfg, states, steps, i, j - 1, id);
      ClaimsAlways(cfg, states, steps, j - 1);
      assert StepAt(cfg, states, steps, j - 1);
      SealedStep(cfg, states[j - 1], steps[j - 1], id);
    }
  }

  lemma EscapeSeals(s: System, t: nat, exc: Exc)
    requires ClaimInv(s) && RunEnabled(s, t, End(Escaped(exc)))
    requires s.tasks[t].commit in s.rows && ShowsVerdict(s.rows[s.tasks[t].commit])
    ensures Sealed(RunApply(s, t, End(Escaped(exc))), s.tasks[t].commit)
    ensures RunApply(s, t, End(Escaped(exc))).rows == s.rows
  {
  }

  /** An attempt that ends by an exception on a row showing COMPLETED or INCOMPLETE leaves that row for
      good, whether its worker stops or the task tries to give the commit back: with the count, score and
      status of the attempt's results, and with these results stored exactly when their store took
      effect. */
  lemma FailedVerdictIsPermanent(
    cfg: Config, states: seq<System>, steps: seq<SysStep>, i: nat, k: nat, j: nat, t: nat, data: CommitData, exc: Exc)
    requires WonAt(cfg, states, steps, i, t, data) && Takes(cfg, states, steps, k, Run(t, End(Escaped(exc))))
    requires i < k < j < |states|
    requires states[k].tasks[t].commit in states[k].rows
    requires var status := states[k].rows[states[k].tasks[t].commit].data.status;
             status.Completed? || status.Incomplete?
    ensures var n, id := states[k].tasks[t].job.node, states[k].tasks[t].commit;
            && id in states[j].rows && states[j].rows[id] == states[k].rows[id]
            && Graded(states[j].rows[id].data, states[j].rows[id].data, n.cases, n.results)
            && states[j].rows[id].results
               == if StoreTook(AttemptEvents(steps, i, k, t)) then n.results else []
  {
    var id := states[k].tasks[t].commit;
    TaskFollowsProtocol(cfg, states, steps, i, k, t, data);
    ClaimsAlways(cfg, states, steps, i + 1);
    assert HolderRow(states[i + 1], states[i + 1].tasks[t]);
    VerdictNeedsStore(AttemptNodes(steps, i, k, t, data), AttemptEvents(steps, i, k, t), states[i + 1].rows[id]);
    ClaimsAlways(cfg, states, steps, k);
    EscapeSeals(states[k], t, exc);
    SealedForever(cfg, states, steps, k + 1, j, id);
  }
}
