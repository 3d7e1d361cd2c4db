/** How a shutdown goes on and where it ends: a measure that falls, and the two ways to get stuck. */
module Drain {
  import opened Domain
  import opened Protocol
  import opened Pipeline
  import opened Claims
  import opened Workers
  import opened Accounting
  import opened Shutdown

  // ----- the work that is left -----

  /** The work left in a task; an attempt's is bounded by the rank of its stage. */
  function JobWork(job: Job): nat {
    match job
    case Spawned => 17
    case Holding(n) => 3 + Rank(n.stage)
    case Releasing => 2
    case Finishing => 1
  }

  function PhaseWork(k: Worker): nat {
    match k.phase
    case Starting => 5
    case Checking => 4
    case Getting => 4
    case Pulled(item) => if item.Copy? then 24 else 3
    case Acquired(_) => 23
    case Marking(leave) => if leave then 2 else 5
    case Draining => 1
    case Stopped => 0
  }

  function ItemWork(item: Item): nat { if item.Copy? then 22 else 1 }

  function ParentWork(s: System): nat {
    if s.parent.Stopping? && s.parent.next < |s.workers|
    then 3 * (|s.workers| - s.parent.next) - if s.parent.due then 1 else 0
    else 0
  }

  function OrphanWork(s: System): nat { if s.orphan.Some? then 23 else 0 }

  function WorkAt(tasks: map<nat, Task>, t: nat): nat {
    if t in tasks then JobWork(tasks[t].job) else 0
  }

  /** The work of the tasks numbered below `n`. */
  function TasksWork(tasks: map<nat, Task>, n: nat): nat {
    if n == 0 then 0 else TasksWork(tasks, n - 1) + WorkAt(tasks, n - 1)
  }

  function LocalWork(s: System): nat {
    Sum(PhaseWork, s.workers) + Sum(ItemWork, s.queue) + ParentWork(s) + OrphanWork(s)
  }

  function Work(s: System): nat { LocalWork(s) + TasksWork(s.tasks, s.nextTask) }

  lemma {:induction false} TasksWorkUpdate(before: map<nat, Task>, after: map<nat, Task>, t: nat, n: nat)
    requires forall u :: u != t ==> WorkAt(after, u) == WorkAt(before, u)
    ensures TasksWork(after, n) + (if t < n then WorkAt(before, t) else 0)
         == TasksWork(before, n) + (if t < n then WorkAt(after, t) else 0)
  {
    if n > 0 { TasksWorkUpdate(before, after, t, n - 1); }
  }

  /** The steps that get work done or end a worker's loop. The others are an empty or failed poll of the
      queue that the worker repeats, the check of a worker that has not failed, and a submission from
      outside. */
  predicate Productive(s: System, step: SysStep) {
    match step
    case Submit(_, _) => false
    case Loop(_, GetEmpty) => false
    case Loop(_, GetRaised(fatal)) => fatal
    case Loop(w, Check) => w < |s.workers| && s.workers[w].fatal
    case _ => true
  }

  lemma MainLowersWork(cfg: Config, s: System, step: ParentStep)
    requires s.parent.Stopping? && s.parent.next <= |s.workers| && (s.parent.due ==> s.parent.next < |s.workers|)
    requires MainEnabled(cfg, s, step)
    ensures Work(MainStep(cfg, s, step)) < Work(s)
  {
    MainKeepsWorkers(cfg, s, step);
    if step.PutHint? { SumSnoc(ItemWork, s.queue, Stop); }
    if step.OrphanPut? { SumSnoc(ItemWork, s.queue, Copy(s.orphan.value)); }
  }

  lemma LoopLowersLocalWork(s: System, w: nat, step: LoopStep)
    requires LoopEnabled(s, w, step)
    ensures LocalWork(LoopApply(s, w, step)) + (if step.Spawn? then 17 else 0) <= LocalWork(s)
    ensures Productive(s, Loop(w, step)) ==>
              LocalWork(LoopApply(s, w, step)) + (if step.Spawn? then 17 else 0) < LocalWork(s)
  {
    var s' := LoopApply(s, w, step);
    SumUpdate(PhaseWork, s.workers, w, s'.workers[w]);
    assert s'.workers == s.workers[w := s'.workers[w]];
    assert ParentWork(s') == ParentWork(s) && OrphanWork(s') == OrphanWork(s);
    if step.Get? {
      assert Sum(ItemWork, s.queue) == ItemWork(s.queue[0]) + Sum(ItemWork, s.queue[1..]);
    } else {
      assert s'.queue == s.queue;
    }
  }

  lemma LoopLowersWork(s: System, w: nat, step: LoopStep)
    requires LoopEnabled(s, w, step) && forall t :: t in s.tasks ==> t < s.nextTask
    ensures Work(LoopApply(s, w, step)) <= Work(s)
    ensures Productive(s, Loop(w, step)) ==> Work(LoopApply(s, w, step)) < Work(s)
  {
    var s' := LoopApply(s, w, step);
    LoopLowersLocalWork(s, w, step);
    if step.Spawn? {
      TasksWorkUpdate(s.tasks, s'.tasks, s.nextTask, s.nextTask);
    } else {
      assert s'.tasks == s.tasks && s'.nextTask == s.nextTask;
    }
  }

  lemma RunLowersWork(s: System, t: nat, step: JobStep)
    requires RunEnabled(s, t, step) && t < s.nextTask
    ensures Work(RunApply(s, t, step)) < Work(s)
  {
    var s' := RunApply(s, t, step);
    RunTouchesNoHint(s, t, step);
    SumUpdate(PhaseWork, s.workers, s.tasks[t].worker, s'.workers[s.tasks[t].worker]);
    assert LocalWork(s') == LocalWork(s);
    RunLowersJob(s, t, step);
    TasksWorkUpdate(s.tasks, s'.tasks, t, s.nextTask);
  }

  lemma RunLowersJob(s: System, t: nat, step: JobStep)
    requires RunEnabled(s, t, step)
    ensures var s' := RunApply(s, t, step);
            && WorkAt(s'.tasks, t) < WorkAt(s.tasks, t) && s'.nextTask == s.nextTask && s'.orphan == s.orphan
            && forall u :: u != t ==> WorkAt(s'.tasks, u) == WorkAt(s.tasks, u)
  {
    if step.Work? { StepLowersRank(s.tasks[t].job.node, step.event, step.node); }
  }

  /** During the shutdown no step of any process raises the work that is left, and every productive one
      lowers it. */
  lemma WorkFalls(cfg: Config, states: seq<System>, steps: seq<SysStep>, i: nat)
    requires IsRun(cfg, states, steps) && i < |steps| && states[i].parent.Stopping?
    ensures Work(states[i + 1]) <= Work(states[i])
    ensures Productive(states[i], steps[i]) ==> Work(states[i + 1]) < Work(states[i])
  {
    WorkersAlways(cfg, states, steps, i);
    HintsAlways(cfg, states, steps, i);
    assert StepAt(cfg, states, steps, i);
    match steps[i]
    case Submit(_, _) =>
    case Main(m) => MainLowersWork(cfg, states[i], m);
    case Loop(w, l) => LoopLowersWork(states[i], w, l);
    case Run(t, j) => RunLowersWork(states[i], t, j);
  }

  /** The number of productive steps between two states of a run. */
  function ProductiveSteps(states: seq<System>, steps: seq<SysStep>, i: nat, j: nat): nat
    requires i <= j <= |steps| <= |states|
  {
    if i == j then 0
    else ProductiveSteps(states, steps, i, j - 1) + if Productive(states[j - 1], steps[j - 1]) then 1 else 0
  }

  /** So a shutdown takes only so many productive steps, however many empty polls lie between them. */
  lemma {:induction false} ShutdownIsBounded(cfg: Config, states: seq<System>, steps: seq<SysStep>, i: nat, j: nat)
    requires IsRun(cfg, states, steps) && i <= j < |states| && states[i].parent.Stopping?
    ensures states[j].parent.Stopping?
    ensures ProductiveSteps(states, steps, i, j) + Work(states[j]) <= Work(states[i])
  {
    if i < j {
      ShutdownIsBounded(cfg, states, steps, i, j - 1);
      WorkFalls(cfg, states, steps, j - 1);
      MissedStaysInRun(cfg, states, steps, j - 1);
    }
  }

  // ----- progress -----

  /** A productive step that is not itself a failure. */
  predicate Progress(s: System, step: SysStep) {
    Productive(s, step)
    && match step
       case Loop(_, OpenPool(ok)) => ok
       case Loop(_, GetRaised(_)) => false
       case Loop(_, SpawnFailed(_)) => false
       case Run(t, job) => t in s.tasks && Succeeds(s.tasks[t].job, job)
       case _ => true
  }

  /** No call raises in this step of a task. An attempt that a failed statement has already broken ends
      with a retryable exception. */
  predicate Succeeds(job: Job, step: JobStep) {
    match step
    case Claim(c, _) => c.Returned?
    case Work(e, _) => job.Holding? && Smooth(job.node, e)
    case End(Normal) => true
    case End(Escaped(exc)) => exc.Retryable? && job.Holding? && (job.node.stage.DeleteFailed? || job.node.stage.Broken?)
    case Release(c) => c.Returned?
    case Finish => true
  }

  ghost predicate CanProgress(cfg: Config, s: System) {
    exists step :: Enabled(cfg, s, step) && Progress(s, step)
  }

  /** Worker `w` goes round its idle loop by one step. */
  predicate Idles(s: System, w: nat, step: LoopStep) {
    LoopEnabled(s, w, step) && (step.GetEmpty? || (step.Check? && !s.workers[w].fatal))
  }

  /** Some process can make progress now, or once a worker has taken its next idle step. */
  ghost predicate GoesOn(cfg: Config, s: System) {
    CanProgress(cfg, s)
    || exists w: nat, step :: Idles(s, w, step) && CanProgress(cfg, LoopApply(s, w, step))
  }

  /** Gone, or going round its loop at an empty queue. */
  predicate AtRest(k: Worker) { k.phase.Stopped? || ((k.phase.Getting? || k.phase.Checking?) && !k.fatal) }

  /** Stuck for want of a hint: the parent has dealt with every worker, everything has been drained, and
      more hints were missed than workers have failed. */
  ghost predicate Starved(cfg: Config, s: System) {
    && s.parent == Stopping(cfg.workers, false) && s.queue == [] && s.orphan == None && s.tasks == map[]
    && (forall w :: 0 <= w < |s.workers| ==> AtRest(s.workers[w]))
    && s.missed > Quits(s)
  }

  /** Stuck for want of room: a hint is due, the queue is full, and nobody is left to pull from it. */
  ghost predicate Jammed(cfg: Config, s: System) {
    s.parent.Stopping? && s.parent.due && !HasRoom(cfg, s) && AllStopped(s)
  }

  /** An unfinished task can always take a step. */
  lemma TaskCanProgress(cfg: Config, s: System, t: nat)
    requires ClaimInv(s) && t in s.tasks && s.tasks[t].worker < |s.workers|
    ensures CanProgress(cfg, s)
  {
    assert HolderRow(s, s.tasks[t]);
    match s.tasks[t].job
    case Spawned => Makes(cfg, s, Run(t, Claim(Returned, NoData())));
    case Releasing => Makes(cfg, s, Run(t, Release(Returned)));
    case Finishing => Makes(cfg, s, Run(t, Finish));
    case Holding(n) =>
      CanMove(n, s.rows[s.tasks[t].commit]);
      if ExitOK(n.stage, Normal) {
        Makes(cfg, s, Run(t, End(Normal)));
      } else if n.stage.DeleteFailed? || n.stage.Broken? {
        Makes(cfg, s, Run(t, End(Escaped(Retryable))));
      } else {
        var e, n' :| Step(n, e, n') && Smooth(n, e);
        Makes(cfg, s, Run(t, JobStep.Work(e, n')));
      }
  }

  function NoData(): CommitData { CommitData(InQueue, 0, 0.0, false, false, false, "") }

  lemma Makes(cfg: Config, s: System, step: SysStep)
    requires Enabled(cfg, s, step) && Progress(s, step)
    ensures CanProgress(cfg, s)
  {
  }

  /** A worker without tasks can take a step unless it has stopped or is at its idle loop. */
  lemma WorkerCanProgress(cfg: Config, s: System, w: nat)
    requires cfg.Valid() && w < |s.workers| && WorkerOK(cfg, s.workers[w]) && s.workers[w].inFlight == {}
    requires !s.workers[w].phase.Stopped? && !s.workers[w].phase.Getting? && !s.workers[w].phase.Checking?
    ensures CanProgress(cfg, s)
  {
    match s.workers[w].phase
    case Starting => Makes(cfg, s, Loop(w, OpenPool(true)));
    case Pulled(item) =>
      if item.Stop? { Makes(cfg, s, Loop(w, TakeHint)); } else { Makes(cfg, s, Loop(w, Acquire)); }
    case Acquired(_) => Makes(cfg, s, Loop(w, Spawn));
    case Marking(_) => Makes(cfg, s, Loop(w, MarkDone));
    case Draining => Makes(cfg, s, Loop(w, Drained));
  }

  /** A worker in its idle loop pulls what is queued, or notices that it has failed. */
  lemma IdlerGoesOn(cfg: Config, s: System, w: nat)
    requires w < |s.workers| && (s.workers[w].phase.Getting? || s.workers[w].phase.Checking?)
    requires s.workers[w].fatal || s.queue != []
    ensures GoesOn(cfg, s)
  {
    var k := s.workers[w];
    if k.phase.Checking? {
      if k.fatal {
        Makes(cfg, s, Loop(w, Check));
      } else {
        assert Idles(s, w, Check);
        Makes(cfg, LoopApply(s, w, Check), Loop(w, Get));
      }
    } else if s.queue != [] {
      Makes(cfg, s, Loop(w, Get));
    } else {
      assert Idles(s, w, GetEmpty);
      Makes(cfg, LoopApply(s, w, GetEmpty), Loop(w, Check));
    }
  }

  /** With no task left and every worker at rest at an empty queue or gone, either the parent or an
      interrupted put has a step, or the shutdown is done or stuck. */
  lemma ParentGoesOn(cfg: Config, s: System)
    requires cfg.Valid() && WorkerInv(cfg, s) && HintInv(s) && s.parent.Stopping? && s.tasks == map[]
    requires Sum(IsStaying, s.workers) + Quits(s) == Sum(IsStop, s.queue) + (cfg.workers - s.parent.next) + s.missed
    requires forall w :: 0 <= w < |s.workers| ==>
               AtRest(s.workers[w]) && (s.workers[w].phase.Stopped? || s.queue == [])
    ensures CanProgress(cfg, s) || Joined(cfg, s) || Starved(cfg, s) || Jammed(cfg, s)
  {
    assert cfg.workers * cfg.concurrency >= 1;
    if s.parent.next < cfg.workers {
      if !s.parent.due { Makes(cfg, s, Main(Probe)); }
      else if HasRoom(cfg, s) { Makes(cfg, s, Main(PutHint)); }
      else { assert AllStopped(s); }
    } else if s.queue == [] {
      if s.orphan.Some? { Makes(cfg, s, Main(OrphanPut)); }
      else if !AllStopped(s) { SomebodyWaits(cfg, s); }
    } else {
      assert AllStopped(s);
    }
  }

  lemma SomebodyWaits(cfg: Config, s: System)
    requires WorkerInv(cfg, s) && !AllStopped(s)
    requires forall w :: 0 <= w < |s.workers| ==> AtRest(s.workers[w])
    ensures Sum(IsStaying, s.workers) > 0
  {
    var w :| 0 <= w < |s.workers| && !s.workers[w].phase.Stopped?;
    assert WorkerOK(cfg, s.workers[w]);
    assert IsStaying(s.workers[w]) == 1;
    SumZero(IsStaying, s.workers);
  }

  lemma NoTasksNoFlight(s: System, w: nat)
    requires InFlightOK(s) && w < |s.workers| && s.tasks == map[]
    ensures s.workers[w].inFlight == {}
  {
    assert forall t :: t in s.workers[w].inFlight ==> t in s.tasks;
  }

  /** A shutdown that is neither done nor stuck in one of the two ways goes on. */
  lemma ShutdownGoesOn(cfg: Config, states: seq<System>, steps: seq<SysStep>, i: nat)
    requires IsRun(cfg, states, steps) && i < |states| && states[i].parent.Stopping?
    requires !Joined(cfg, states[i]) && !Starved(cfg, states[i]) && !Jammed(cfg, states[i])
    ensures GoesOn(cfg, states[i])
  {
    var s := states[i];
    WorkersAlways(cfg, states, steps, i);
    HintsAlways(cfg, states, steps, i);
    HintSupply(cfg, states, steps, i);
    ClaimsAlways(cfg, states, steps, i);
    if t :| t in s.tasks {
      TaskCanProgress(cfg, s, t);
    } else {
      assert s.tasks.Keys == {};
      if w :| 0 <= w < |s.workers| && !s.workers[w].phase.Stopped?
              && !s.workers[w].phase.Getting? && !s.workers[w].phase.Checking? {
        NoTasksNoFlight(s, w);
        assert WorkerOK(cfg, s.workers[w]);
        WorkerCanProgress(cfg, s, w);
      } else if w :| 0 <= w < |s.workers| && !s.workers[w].phase.Stopped?
                     && (s.workers[w].fatal || s.queue != []) {
        IdlerGoesOn(cfg, s, w);
      } else {
        ParentGoesOn(cfg, s);
      }
    }
  }

  // ----- stuck -----

  lemma StarvedStep(cfg: Config, s: System, step: SysStep)
    requires WorkerInv(cfg, s) && Starved(cfg, s) && Enabled(cfg, s, step)
    ensures !Progress(s, step)
    ensures Quits(Next(cfg, s, step)) == Quits(s) ==> Starved(cfg, Next(cfg, s, step))
  {
    if step.Loop? {
      assert AtRest(s.workers[step.worker]) && WorkerOK(cfg, s.workers[step.worker]);
      LoopQuits(cfg, s, step.worker, step.loop);
    }
  }

  lemma IdleQuits(s: System, w: nat, step: LoopStep)
    requires Idles(s, w, step)
    ensures Quits(LoopApply(s, w, step)) == Quits(s)
  {
    SumUpdate(HasQuit, s.workers, w, LoopApply(s, w, step).workers[w]);
  }

  lemma StarvedStaysPut(cfg: Config, s: System)
    requires WorkerInv(cfg, s) && Starved(cfg, s)
    ensures !GoesOn(cfg, s)
  {
    forall step | Enabled(cfg, s, step) ensures !Progress(s, step) { StarvedStep(cfg, s, step); }
    forall w: nat, idle | Idles(s, w, idle) ensures !CanProgress(cfg, LoopApply(s, w, idle)) {
      var s' := LoopApply(s, w, idle);
      assert Enabled(cfg, s, Loop(w, idle)) && Next(cfg, s, Loop(w, idle)) == s';
      StarvedStep(cfg, s, Loop(w, idle));
      NextKeepsWorkers(cfg, s, Loop(w, idle));
      IdleQuits(s, w, idle);
      forall step | Enabled(cfg, s', step) ensures !Progress(s', step) { StarvedStep(cfg, s', step); }
    }
  }

  lemma JammedStep(cfg: Config, s: System, step: SysStep)
    requires WorkerInv(cfg, s) && Jammed(cfg, s) && Enabled(cfg, s, step)
    ensures step.Submit? && Jammed(cfg, Next(cfg, s, step))
  {
    StoppedMeansNoTask(cfg, s);
  }

  /** Exactly when a shutdown that is not done is stuck: when it is starved of a hint, or jammed by a
      full queue. */
  lemma ShutdownStuck(cfg: Config, states: seq<System>, steps: seq<SysStep>, i: nat)
    requires IsRun(cfg, states, steps) && i < |states| && states[i].parent.Stopping? && !Joined(cfg, states[i])
    ensures !GoesOn(cfg, states[i]) <==> Starved(cfg, states[i]) || Jammed(cfg, states[i])
  {
    var s := states[i];
    WorkersAlways(cfg, states, steps, i);
    if Starved(cfg, s) {
      StarvedStaysPut(cfg, s);
    } else if Jammed(cfg, s) {
      forall step | Enabled(cfg, s, step) ensures !Progress(s, step) { JammedStep(cfg, s, step); }
    } else {
      ShutdownGoesOn(cfg, states, steps, i);
    }
  }

  /** Where a shutdown comes to rest is decided by two things a bystander can count: it is jammed when a
      hint is still due, starved when more hints were missed than workers failed, and otherwise done. */
  lemma ShutdownOutcome(cfg: Config, states: seq<System>, steps: seq<SysStep>, i: nat)
    requires IsRun(cfg, states, steps) && i < |states| && states[i].parent.Stopping? && !GoesOn(cfg, states[i])
    ensures var s := states[i];
            && (Jammed(cfg, s) <==> s.parent.due)
            && (Starved(cfg, s) <==> s.missed > Quits(s))
            && (Joined(cfg, s) <==> !s.parent.due && s.missed <= Quits(s))
  {
    var s := states[i];
    if !Joined(cfg, s) { ShutdownStuck(cfg, states, steps, i); }
    if s.missed > Quits(s) { MissedHintBlocksShutdown(cfg, states, steps, i); }
  }

  /** While no worker has failed and no hint was missed, the shutdown goes on until it is done. */
  lemma ShutdownNeverStuck(cfg: Config, states: seq<System>, steps: seq<SysStep>, i: nat)
    requires IsRun(cfg, states, steps) && i < |states| && states[i].parent.Stopping?
    requires NoQuit(states[i]) && states[i].missed == 0 && !Joined(cfg, states[i])
    ensures GoesOn(cfg, states[i])
  {
    var s := states[i];
    NoQuitCount(s);
    HintSupply(cfg, states, steps, i);
    HintsAlways(cfg, states, steps, i);
    WorkersAlways(cfg, states, steps, i);
    if AllStopped(s) {
      forall w | 0 <= w < |s.workers| ensures IsStaying(s.workers[w]) == 0 { assert WorkerOK(cfg, s.workers[w]); }
      SumZero(IsStaying, s.workers);
    }
    ShutdownGoesOn(cfg, states, steps, i);
  }

  /** A jammed shutdown stays jammed. */
  lemma {:induction false} JammedForever(cfg: Config, states: seq<System>, steps: seq<SysStep>, i: nat, j: nat)
    requires IsRun(cfg, states, steps) && i <= j < |states| && Jammed(cfg, states[i])
    ensures Jammed(cfg, states[j])
  {
    if i < j {
      JammedForever(cfg, states, steps, i, j - 1);
      WorkersAlways(cfg, states, steps, j - 1);
      assert StepAt(cfg, states, steps, j - 1);
      JammedStep(cfg, states[j - 1], steps[j - 1]);
    }
  }

  /** A starved shutdown stays starved until a worker fails; until then no step makes progress. */
  lemma {:induction false} StarvedForever(cfg: Config, states: seq<System>, steps: seq<SysStep>, i: nat, j: nat)
    requires IsRun(cfg, states, steps) && i <= j < |states| && Starved(cfg, states[i])
    ensures Quits(states[j]) >= Quits(states[i])
    ensures Quits(states[j]) == Quits(states[i]) ==> Starved(cfg, states[j]) && !GoesOn(cfg, states[j])
  {
    WorkersAlways(cfg, states, steps, j);
    if i < j {
      StarvedForever(cfg, states, steps, i, j - 1);
      WorkersAlways(cfg, states, steps, j - 1);
      assert StepAt(cfg, states, steps, j - 1);
      QuitsGrow(cfg, states[j - 1], steps[j - 1]);
      if Quits(states[j]) == Quits(states[i]) { StarvedStep(cfg, states[j - 1], steps[j - 1]); }
    }
    if Quits(states[j]) == Quits(states[i]) { StarvedStaysPut(cfg, states[j]); }
  }

  // ----- the way there -----

  /** No worker has failed or is about to. */
  ghost predicate NoFailure(s: System) {
    forall w :: 0 <= w < |s.workers| ==> !s.workers[w].fatal && !s.workers[w].departure.Quit?
  }

  lemma ProgressKeepsHealth(cfg: Config, s: System, step: SysStep)
    requires NoFailure(s) && Enabled(cfg, s, step)
    requires Progress(s, step) || (step.Loop? && Idles(s, step.worker, step.loop))
    ensures NoFailure(Next(cfg, s, step))
  {
    if step.Main? { MainKeepsWorkers(cfg, s, step.main); }
  }

  /** The run goes on by one step that is progress or idling. */
  lemma Append(cfg: Config, states: seq<System>, steps: seq<SysStep>, step: SysStep)
    returns (states': seq<System>, steps': seq<SysStep>)
    requires IsRun(cfg, states, steps) && states[|steps|].parent.Stopping? && Enabled(cfg, states[|steps|], step)
    requires Progress(states[|steps|], step) || (step.Loop? && Idles(states[|steps|], step.worker, step.loop))
    ensures IsRun(cfg, states', steps') && states <= states' && steps <= steps' && |steps'| == |steps| + 1
    ensures states'[|steps'|] == Next(cfg, states[|steps|], step) && states'[|steps'|].parent.Stopping?
    ensures Work(states'[|steps'|]) <= Work(states[|steps|])
    ensures Progress(states[|steps|], step) ==> Work(states'[|steps'|]) < Work(states[|steps|])
    ensures NoFailure(states[|steps|]) ==> NoFailure(states'[|steps'|])
  {
    RunAppend(cfg, states, steps, step);
    states', steps' := states + [Next(cfg, states[|steps|], step)], steps + [step];
    WorkFalls(cfg, states', steps', |steps|);
    MissedStays(cfg, states[|steps|], step);
    if NoFailure(states[|steps|]) { ProgressKeepsHealth(cfg, states[|steps|], step); }
  }

  lemma OneMoreStep(cfg: Config, states: seq<System>, steps: seq<SysStep>)
    returns (states': seq<System>, steps': seq<SysStep>)
    requires IsRun(cfg, states, steps) && states[|steps|].parent.Stopping? && GoesOn(cfg, states[|steps|])
    ensures IsRun(cfg, states', steps') && states <= states' && steps <= steps'
    ensures states'[|steps'|].parent.Stopping? && Work(states'[|steps'|]) < Work(states[|steps|])
    ensures NoFailure(states[|steps|]) ==> NoFailure(states'[|steps'|])
  {
    var s := states[|steps|];
    states', steps' := states, steps;
    if !CanProgress(cfg, s) {
      var w: nat, idle :| Idles(s, w, idle) && CanProgress(cfg, LoopApply(s, w, idle));
      assert Enabled(cfg, s, Loop(w, idle)) && Next(cfg, s, Loop(w, idle)) == LoopApply(s, w, idle);
      states', steps' := Append(cfg, states, steps, Loop(w, idle));
    }
    var step :| Enabled(cfg, states'[|steps'|], step) && Progress(states'[|steps'|], step);
    states', steps' := Append(cfg, states', steps', step);
  }

  lemma {:induction false} Settle(cfg: Config, states: seq<System>, steps: seq<SysStep>)
    returns (states': seq<System>, steps': seq<SysStep>)
    requires IsRun(cfg, states, steps) && states[|steps|].parent.Stopping?
    ensures IsRun(cfg, states', steps') && states <= states' && steps <= steps'
    ensures states'[|steps'|].parent.Stopping? && !GoesOn(cfg, states'[|steps'|])
    ensures NoFailure(states[|steps|]) ==> NoFailure(states'[|steps'|])
    decreases Work(states[|steps|])
  {
    states', steps' := states, steps;
    if GoesOn(cfg, states[|steps|]) {
      states', steps' := OneMoreStep(cfg, states, steps);
      states', steps' := Settle(cfg, states', steps');
    }
  }

  /** From every state of a shutdown the run can be continued to one in which it has come to rest. If no
      worker has failed, none need fail on the way, and the shutdown ends completed when no hint was
      missed, and starved otherwise. */
  lemma ShutdownSettles(cfg: Config, states: seq<System>, steps: seq<SysStep>)
    returns (states': seq<System>, steps': seq<SysStep>)
    requires IsRun(cfg, states, steps) && states[|steps|].parent.Stopping?
    ensures IsRun(cfg, states', steps') && states <= states' && steps <= steps'
    ensures states'[|steps'|].parent.Stopping? && !GoesOn(cfg, states'[|steps'|])
    ensures NoFailure(states[|steps|]) ==>
              var s := states'[|steps'|];
              NoFailure(s) && if s.missed == 0 then Joined(cfg, s) else Starved(cfg, s)
  {
    states', steps' := Settle(cfg, states, steps);
    if NoFailure(states[|steps|]) {
      var s := states'[|steps'|];
      assert NoQuit(s);
      NoQuitCount(s);
      ShutdownOutcome(cfg, states', steps', |steps'|);
      if s.missed == 0 && !Joined(cfg, s) { ShutdownNeverStuck(cfg, states', steps', |steps'|); }
    }
  }
}
