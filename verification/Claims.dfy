/** Safety of the claims: one holder per commit, and what follows for the rows, in every run. */
module Claims {
  import opened Domain
  import opened CommitTable
  import opened Protocol
  import opened Pipeline

  /** The task holds the claim on its commit: it is in its attempt or about to give the claim back. */
  predicate Holds(t: Task, id: int) {
    t.commit == id && (t.job.Holding? || t.job.Releasing?)
  }

  predicate Held(s: System, id: int) {
    exists t :: t in s.tasks && Holds(s.tasks[t], id)
  }

  ghost predicate OneHolder(s: System) {
    forall id, t, u :: t in s.tasks && u in s.tasks && Holds(s.tasks[t], id) && Holds(s.tasks[u], id) ==> t == u
  }

  /** The row behind a holder is what its attempt's stage says; it is never IN_QUEUE. */
  ghost predicate HolderRow(s: System, t: Task) {
    match t.job
    case Holding(n) => t.commit in s.rows && RowOK(n, s.rows[t.commit])
    case Releasing => t.commit in s.rows && !s.rows[t.commit].data.status.InQueue?
    case _ => true
  }

  ghost predicate ClaimInv(s: System) {
    && OneHolder(s)
    && (forall t :: t in s.tasks ==> HolderRow(s, s.tasks[t]))
    && (forall id :: id in s.rows ==> StartKnown(s.rows[id]))
    && (forall t :: t in s.tasks ==> t < s.nextTask)
  }

  /** A step of a task leaves every row but its commit's alone. */
  lemma RunTouchesOwnRow(s: System, t: nat, step: JobStep, id: int)
    requires RunEnabled(s, t, step) && id != s.tasks[t].commit
    ensures id in RunApply(s, t, step).rows <==> id in s.rows
    ensures id in s.rows ==> RunApply(s, t, step).rows[id] == s.rows[id]
  {
  }

  /** What a step of a task does to its own row. */
  lemma RunKeepsOwnRow(s: System, t: nat, step: JobStep)
    requires ClaimInv(s) && RunEnabled(s, t, step)
    ensures var s', id := RunApply(s, t, step), s.tasks[t].commit;
            && (id in s'.rows <==> id in s.rows)
            && (id in s.rows ==> StartKnown(s'.rows[id]))
            && (t in s'.tasks ==> HolderRow(s', s'.tasks[t]))
  {
    var id := s.tasks[t].commit;
    assert HolderRow(s, s.tasks[t]);
    if step.Work? {
      StepKeepsRow(s.tasks[t].job.node, step.event, step.node, s.rows[id]);
    }
  }

  lemma RunKeepsClaims(s: System, t: nat, step: JobStep)
    requires ClaimInv(s) && RunEnabled(s, t, step)
    ensures ClaimInv(RunApply(s, t, step))
  {
    var s', id := RunApply(s, t, step), s.tasks[t].commit;
    RunKeepsOwnRow(s, t, step);
    forall other | other in s'.rows ensures StartKnown(s'.rows[other]) {
      if other != id { RunTouchesOwnRow(s, t, step, other); }
    }
    forall u | u in s'.tasks ensures HolderRow(s', s'.tasks[u]) {
      if u != t {
        assert s'.tasks[u] == s.tasks[u] && HolderRow(s, s.tasks[u]);
        if s.tasks[u].commit == id { SameCommit(s, t, u, step); }
        else { RunTouchesOwnRow(s, t, step, s.tasks[u].commit); }
      }
    }
  }

  /** Two tasks on one commit: while `u` holds the claim, no step of `t` changes the row. */
  lemma SameCommit(s: System, t: nat, u: nat, step: JobStep)
    requires ClaimInv(s) && RunEnabled(s, t, step) && u in s.tasks && u != t
    requires s.tasks[u].commit == s.tasks[t].commit
    ensures Holds(s.tasks[u], s.tasks[u].commit) ==> RunApply(s, t, step).rows == s.rows
  {
  }

  lemma NextKeepsClaims(cfg: Config, s: System, step: SysStep)
    requires ClaimInv(s) && Enabled(cfg, s, step)
    ensures ClaimInv(Next(cfg, s, step))
  {
    match step
    case Submit(id, row) =>
      var s' := Next(cfg, s, step);
      forall t | t in s'.tasks ensures HolderRow(s', s'.tasks[t]) { assert HolderRow(s, s.tasks[t]); }
    case Main(m) =>
      var s' := MainStep(cfg, s, m);
      assert s'.rows == s.rows && s'.tasks == s.tasks && s'.nextTask == s.nextTask;
      forall t | t in s'.tasks ensures HolderRow(s', s'.tasks[t]) { assert HolderRow(s, s.tasks[t]); }
    case Loop(w, l) =>
      var s' := LoopApply(s, w, l);
      assert s'.rows == s.rows;
      forall t | t in s'.tasks ensures HolderRow(s', s'.tasks[t]) {
        if t in s.tasks && t < s.nextTask { assert s'.tasks[t] == s.tasks[t] && HolderRow(s, s.tasks[t]); }
      }
    case Run(t, j) => RunKeepsClaims(s, t, j);
  }

  lemma {:induction false} ClaimsAlways(cfg: Config, states: seq<System>, steps: seq<SysStep>, i: nat)
    requires IsRun(cfg, states, steps) && i < |states|
    ensures ClaimInv(states[i])
  {
    if i > 0 {
      ClaimsAlways(cfg, states, steps, i - 1);
      assert StepAt(cfg, states, steps, i - 1);
      NextKeepsClaims(cfg, states[i - 1], steps[i - 1]);
    }
  }

  /** In every reachable state at most one task holds a commit, and while it is held its row is in the
      table and not IN_QUEUE. */
  lemma ClaimIsExclusive(cfg: Config, states: seq<System>, steps: seq<SysStep>, i: nat, t: nat, u: nat, id: int)
    requires IsRun(cfg, states, steps) && i < |states|
    requires t in states[i].tasks && u in states[i].tasks
    requires Holds(states[i].tasks[t], id) && Holds(states[i].tasks[u], id)
    ensures t == u && id in states[i].rows && !states[i].rows[id].data.status.InQueue?
  {
    ClaimsAlways(cfg, states, steps, i);
    assert HolderRow(states[i], states[i].tasks[t]);
  }

  // ----- who changes a row -----

  /** A row that exists changes only by a step of its holder, or by a claim on a queued row; and it goes
      back to IN_QUEUE only when its holder releases it from PROCESSING, giving up the claim. */
  lemma RowChange(cfg: Config, s: System, step: SysStep, id: int)
    requires ClaimInv(s) && Enabled(cfg, s, step) && id in s.rows
    ensures var s' := Next(cfg, s, step);
            id in s'.rows
            && (s'.rows[id] != s.rows[id] ==>
                  step.Run? && s.tasks[step.task].commit == id
                  && (Holds(s.tasks[step.task], id) || (step.job.Claim? && s.rows[id].data.status.InQueue?)))
            && (s'.rows[id] != s.rows[id] && s'.rows[id].data.status.InQueue? ==>
                  step.job.Release? && s.rows[id].data.status.Processing? && !Held(s', id))
  {
    match step
    case Submit(_, _) =>
    case Main(m) => assert MainStep(cfg, s, m).rows == s.rows;
    case Loop(w, l) => assert LoopApply(s, w, l).rows == s.rows;
    case Run(t, j) =>
      if s.tasks[t].commit != id {
        RunTouchesOwnRow(s, t, j, id);
      } else {
        assert HolderRow(s, s.tasks[t]);
        if j.Work? { NeverQueued(s.tasks[t].job.node, j.event, j.node); }
        if j.Release? {
          var s' := RunApply(s, t, j);
          assert forall u :: u in s'.tasks && u != t ==> s'.tasks[u] == s.tasks[u];
        }
      }
  }

  /** Out of the queue and held by nobody. */
  predicate Abandoned(s: System, id: int) {
    id in s.rows && !s.rows[id].data.status.InQueue? && !Held(s, id)
  }

  /** A task comes to hold a commit only by claiming a queued row. */
  lemma OnlyClaimsHold(s: System, t: nat, step: JobStep, u: nat, id: int)
    requires RunEnabled(s, t, step) && u in RunApply(s, t, step).tasks
    requires Holds(RunApply(s, t, step).tasks[u], id) && !(u in s.tasks && Holds(s.tasks[u], id))
    ensures u == t && step.Claim? && Claimable(s.rows, id)
  {
  }

  lemma NoNewHolder(cfg: Config, s: System, step: SysStep, u: nat, id: int)
    requires Enabled(cfg, s, step) && u in Next(cfg, s, step).tasks && !Claimable(s.rows, id)
    requires Holds(Next(cfg, s, step).tasks[u], id)
    ensures u in s.tasks && Holds(s.tasks[u], id)
  {
    match step
    case Submit(_, _) =>
    case Main(m) =>
    case Loop(w, l) =>
    case Run(t, j) =>
      if !(u in s.tasks && Holds(s.tasks[u], id)) { OnlyClaimsHold(s, t, j, u, id); }
  }

  lemma AbandonedStep(cfg: Config, s: System, step: SysStep, id: int)
    requires ClaimInv(s) && Enabled(cfg, s, step) && Abandoned(s, id)
    ensures Abandoned(Next(cfg, s, step), id) && Next(cfg, s, step).rows[id] == s.rows[id]
  {
    RowChange(cfg, s, step, id);
    var s' := Next(cfg, s, step);
    forall t | t in s'.tasks ensures !Holds(s'.tasks[t], id) {
      if Holds(s'.tasks[t], id) { NoNewHolder(cfg, s, step, t, id); }
    }
  }

  /** A row that is out of the queue and that no task holds never changes again, whatever copies are
      still queued. This covers every final status; it also says that a row left at PROCESSING,
      COMPILING or RUNNING without a holder stays there. */
  lemma {:induction false} AbandonedForever(cfg: Config, states: seq<System>, steps: seq<SysStep>, i: nat, j: nat, id: int)
    requires IsRun(cfg, states, steps) && i <= j < |states| && Abandoned(states[i], id)
    ensures Abandoned(states[j], id) && states[j].rows[id] == states[i].rows[id]
  {
    if i < j {
      AbandonedForever(cfg, states, steps, i, j - 1, id);
      ClaimsAlways(cfg, states, steps, j - 1);
      assert StepAt(cfg, states, steps, j - 1);
      AbandonedStep(cfg, states[j - 1], steps[j - 1], id);
    }
  }

  // ----- what the end of an attempt settles -----

  lemma EndKeepsRows(s: System, t: nat, exit: Exit)
    requires ClaimInv(s) && RunEnabled(s, t, End(exit)) && (exit.Normal? || exit.exc.Fatal?)
    ensures Abandoned(RunApply(s, t, End(exit)), s.tasks[t].commit)
    ensures RunApply(s, t, End(exit)).rows == s.rows
  {
  }

  /** Once an attempt has ended normally, the row carries its final data for the rest of the run; and
      unless that is INTERNAL_ERROR, the stored results are exactly that attempt's, one per test case
      in order, with the score that belongs to them. */
  lemma NormalEndIsPermanent(cfg: Config, states: seq<System>, steps: seq<SysStep>, i: nat, j: nat, t: nat)
    requires Takes(cfg, states, steps, i, Run(t, End(Normal))) && i < j < |states|
    ensures var n, id := states[i].tasks[t].job.node, states[i].tasks[t].commit;
            && id in states[j].rows && states[j].rows[id].data == n.data && IsFinal(n.data.status)
            && (!n.data.status.InternalError? ==> states[j].rows[id].results == n.results && Settled(n))
  {
    ClaimsAlways(cfg, states, steps, i);
    var s := states[i];
    var id := s.tasks[t].commit;
    assert HolderRow(s, s.tasks[t]);
    EndKeepsRows(s, t, Normal);
    AbandonedForever(cfg, states, steps, i + 1, j, id);
  }

  /** A failure that stops the worker keeps the claim: nobody ever takes the commit up again. */
  lemma FatalEndIsPermanent(cfg: Config, states: seq<System>, steps: seq<SysStep>, i: nat, j: nat, t: nat)
    requires Takes(cfg, states, steps, i, Run(t, End(Escaped(Fatal)))) && i < j < |states|
    ensures var id := states[i].tasks[t].commit;
            id in states[i].rows && id in states[j].rows && states[j].rows[id] == states[i].rows[id]
            && !states[j].rows[id].data.status.InQueue?
  {
    ClaimsAlways(cfg, states, steps, i);
    var id := states[i].tasks[t].commit;
    assert HolderRow(states[i], states[i].tasks[t]);
    EndKeepsRows(states[i], t, Escaped(Fatal));
    AbandonedForever(cfg, states, steps, i + 1, j, id);
  }

  /** A released commit is retried exactly when the release takes effect on a row that has not moved
      past PROCESSING; otherwise the row stays as it is for good. */
  lemma ReleaseRetriesOrStrands(cfg: Config, states: seq<System>, steps: seq<SysStep>, i: nat, j: nat, t: nat, c: Call)
    requires Takes(cfg, states, steps, i, Run(t, Release(c))) && i < j < |states|
    ensures var id := states[i].tasks[t].commit;
            id in states[i].rows && id in states[i + 1].rows
            && (states[i + 1].rows[id].data.status.InQueue?
                <==> c.Took() && states[i].rows[id].data.status.Processing?)
            && (!(c.Took() && states[i].rows[id].data.status.Processing?) ==>
                  id in states[j].rows && states[j].rows[id] == states[i].rows[id])
  {
    ClaimsAlways(cfg, states, steps, i);
    var s, s', id := states[i], states[i + 1], states[i].tasks[t].commit;
    assert HolderRow(s, s.tasks[t]);
    if !(c.Took() && s.rows[id].data.status.Processing?) {
      forall u | u in s'.tasks ensures !Holds(s'.tasks[u], id) {
        if u != t { assert s'.tasks[u] == s.tasks[u]; }
      }
      AbandonedForever(cfg, states, steps, i + 1, j, id);
    }
  }

  /** A claim that raises leaves the commit in the queue exactly when it did not take effect. When it
      did, the row says PROCESSING, no task ever works on it, and it stays like that. */
  lemma RaisedClaimStrands(cfg: Config, states: seq<System>, steps: seq<SysStep>, i: nat, j: nat, t: nat,
                           exc: Exc, took: bool, d: CommitData)
    requires Takes(cfg, states, steps, i, Run(t, Claim(Threw(exc, took), d))) && i < j < |states|
    requires Claimable(states[i].rows, states[i].tasks[t].commit)
    ensures var id := states[i].tasks[t].commit;
            && (Claimable(states[i + 1].rows, id) <==> !took)
            && (took ==> id in states[j].rows && states[j].rows[id].data.status.Processing? && !Held(states[j], id))
  {
    ClaimsAlways(cfg, states, steps, i);
    var s, s', id := states[i], states[i + 1], states[i].tasks[t].commit;
    if took {
      forall u | u in s'.tasks ensures !Holds(s'.tasks[u], id) {
        if u != t {
          assert s'.tasks[u] == s.tasks[u] && HolderRow(s, s.tasks[u]);
        }
      }
      AbandonedForever(cfg, states, steps, i + 1, j, id);
    }
  }

  /** A PROCESSING row is never observed without a start time. */
  lemma ProcessingHasStart(cfg: Config, states: seq<System>, steps: seq<SysStep>, i: nat, id: int)
    requires IsRun(cfg, states, steps) && i < |states| && id in states[i].rows
    ensures states[i].rows[id].data.status.Processing? ==> states[i].rows[id].data.started
  {
    ClaimsAlways(cfg, states, steps, i);
    assert StartKnown(states[i].rows[id]);
  }
}
