/** What every step keeps about the workers: slots, in-flight tasks, the connection pool and the
    reaction to a fatal failure. */
module Workers {
  import opened Pipeline

  /** A slot held between acquire and spawn. */
  function HeldSlot(k: Worker): nat { if k.phase.Acquired? then 1 else 0 }

  /** Every slot is free, held, or owned by a task that has not finished. */
  ghost predicate SlotsConserved(cfg: Config, k: Worker) {
    k.free + |k.inFlight| + HeldSlot(k) == cfg.concurrency
  }

  /** The pool is open from the start of the loop until the worker has stopped, and then no task is left. */
  ghost predicate PoolOK(k: Worker) {
    match k.phase
    case Starting => k.pool.Unopened? && k.inFlight == {}
    case Stopped => !k.pool.Open? && k.inFlight == {}
    case _ => k.pool.Open?
  }

  /** A worker with the fatal flag set spawns at most one more commit, and none once its loop has come
      round to the check. */
  ghost predicate FatalOK(k: Worker) {
    (!k.fatal ==> k.spawnsSinceFatal == 0)
    && k.spawnsSinceFatal <= 1
    && (k.phase.Getting? || k.phase.Pulled? || k.phase.Acquired? ==> k.spawnsSinceFatal == 0)
  }

  /** Why a worker is where it is: it leaves the loop on a hint or on a failure, and for good. */
  predicate DepartureOK(k: Worker) {
    match k.phase
    case Pulled(item) => k.departure == if item.Stop? then Hinted else Staying
    case Marking(leave) => k.departure.Staying? <==> !leave
    case Draining => !k.departure.Staying?
    case Stopped => !k.departure.Staying?
    case _ => k.departure.Staying?
  }

  ghost predicate WorkerOK(cfg: Config, k: Worker) {
    SlotsConserved(cfg, k) && PoolOK(k) && FatalOK(k) && DepartureOK(k)
  }

  /** `in_flight` is exactly the set of the worker's unfinished tasks. */
  ghost predicate InFlightOK(s: System) {
    && (forall t :: t in s.tasks ==> t < s.nextTask && s.tasks[t].worker < |s.workers|
                                     && t in s.workers[s.tasks[t].worker].inFlight)
    && (forall w, t :: 0 <= w < |s.workers| && t in s.workers[w].inFlight ==> t in s.tasks && s.tasks[t].worker == w)
  }

  ghost predicate WorkerInv(cfg: Config, s: System) {
    && |s.workers| == cfg.workers
    && (forall w :: 0 <= w < |s.workers| ==> WorkerOK(cfg, s.workers[w]))
    && InFlightOK(s)
  }

  lemma LoopKeepsWorker(cfg: Config, s: System, w: nat, step: LoopStep)
    requires LoopEnabled(s, w, step) && WorkerOK(cfg, s.workers[w]) && s.nextTask !in s.workers[w].inFlight
    ensures WorkerOK(cfg, LoopApply(s, w, step).workers[w])
  {
  }

  lemma LoopKeepsInFlight(s: System, w: nat, step: LoopStep)
    requires InFlightOK(s) && LoopEnabled(s, w, step)
    ensures InFlightOK(LoopApply(s, w, step)) && s.nextTask !in s.workers[w].inFlight
  {
    var s' := LoopApply(s, w, step);
    forall v, t | 0 <= v < |s'.workers| && t in s'.workers[v].inFlight
      ensures t in s'.tasks && s'.tasks[t].worker == v
    {
      if t in s.workers[v].inFlight { assert t in s.tasks && t < s.nextTask; }
    }
    assert s.nextTask in s.workers[w].inFlight ==> s.nextTask in s.tasks;
  }

  lemma RunKeepsWorker(cfg: Config, s: System, t: nat, step: JobStep)
    requires RunEnabled(s, t, step)
    requires WorkerOK(cfg, s.workers[s.tasks[t].worker]) && t in s.workers[s.tasks[t].worker].inFlight
    ensures WorkerOK(cfg, RunApply(s, t, step).workers[s.tasks[t].worker])
  {
  }

  lemma RunKeepsInFlight(s: System, t: nat, step: JobStep)
    requires InFlightOK(s) && RunEnabled(s, t, step)
    ensures InFlightOK(RunApply(s, t, step))
  {
    var s' := RunApply(s, t, step);
    forall v, u | 0 <= v < |s'.workers| && u in s'.workers[v].inFlight
      ensures u in s'.tasks && s'.tasks[u].worker == v
    {
      assert u in s.workers[v].inFlight;
      assert u in s.tasks && s.tasks[u].worker == v;
    }
    forall u | u in s'.tasks
      ensures u < s'.nextTask && s'.tasks[u].worker < |s'.workers| && u in s'.workers[s'.tasks[u].worker].inFlight
    {
      assert u in s.tasks && s'.tasks[u].worker == s.tasks[u].worker;
    }
  }

  lemma LoopKeepsWorkers(cfg: Config, s: System, w: nat, step: LoopStep)
    requires WorkerInv(cfg, s) && LoopEnabled(s, w, step)
    ensures WorkerInv(cfg, LoopApply(s, w, step))
  {
    LoopKeepsInFlight(s, w, step);
    LoopKeepsWorker(cfg, s, w, step);
    var s' := LoopApply(s, w, step);
    forall v | 0 <= v < |s'.workers| ensures WorkerOK(cfg, s'.workers[v]) {
      if v != w { assert s'.workers[v] == s.workers[v]; }
    }
  }

  lemma RunKeepsWorkers(cfg: Config, s: System, t: nat, step: JobStep)
    requires WorkerInv(cfg, s) && RunEnabled(s, t, step)
    ensures WorkerInv(cfg, RunApply(s, t, step))
  {
    RunKeepsInFlight(s, t, step);
    RunKeepsWorker(cfg, s, t, step);
    var s' := RunApply(s, t, step);
    forall v | 0 <= v < |s'.workers| ensures WorkerOK(cfg, s'.workers[v]) {
      if v != s.tasks[t].worker { assert s'.workers[v] == s.workers[v]; }
    }
  }

  lemma MainKeepsWorkers(cfg: Config, s: System, step: ParentStep)
    requires MainEnabled(cfg, s, step)
    ensures var s' := MainStep(cfg, s, step);
            s'.workers == s.workers && s'.tasks == s.tasks && s'.nextTask == s.nextTask && s'.rows == s.rows
  {
  }

  lemma NextKeepsWorkers(cfg: Config, s: System, step: SysStep)
    requires WorkerInv(cfg, s) && Enabled(cfg, s, step)
    ensures WorkerInv(cfg, Next(cfg, s, step))
  {
    match step
    case Submit(_, _) =>
    case Main(m) => MainKeepsWorkers(cfg, s, m);
    case Loop(w, l) => LoopKeepsWorkers(cfg, s, w, l);
    case Run(t, j) => RunKeepsWorkers(cfg, s, t, j);
  }

  lemma {:induction false} WorkersAlways(cfg: Config, states: seq<System>, steps: seq<SysStep>, i: nat)
    requires IsRun(cfg, states, steps) && i < |states|
    ensures WorkerInv(cfg, states[i])
  {
    if i > 0 {
      WorkersAlways(cfg, states, steps, i - 1);
      assert StepAt(cfg, states, steps, i - 1);
      NextKeepsWorkers(cfg, states[i - 1], steps[i - 1]);
    } else {
      assert forall w :: 0 <= w < |states[0].workers| ==> states[0].workers[w] == NewWorker(cfg);
    }
  }

  /** Slots are conserved in every reachable state, on every path. */
  lemma SlotConservation(cfg: Config, states: seq<System>, steps: seq<SysStep>, i: nat, w: nat)
    requires IsRun(cfg, states, steps) && i < |states| && w < cfg.workers
    ensures w < |states[i].workers| && SlotsConserved(cfg, states[i].workers[w])
  {
    WorkersAlways(cfg, states, steps, i);
    assert WorkerOK(cfg, states[i].workers[w]);
  }

  /** No task ever runs on a pool that is not open. */
  lemma TasksHaveOpenPool(cfg: Config, states: seq<System>, steps: seq<SysStep>, i: nat, t: nat)
    requires IsRun(cfg, states, steps) && i < |states| && t in states[i].tasks
    ensures states[i].tasks[t].worker < |states[i].workers|
            && states[i].workers[states[i].tasks[t].worker].pool.Open?
  {
    WorkersAlways(cfg, states, steps, i);
    var k := states[i].workers[states[i].tasks[t].worker];
    assert WorkerOK(cfg, k) && t in k.inFlight;
  }

  // ----- a fatal failure -----

  lemma FatalStays(cfg: Config, s: System, step: SysStep, w: nat)
    requires Enabled(cfg, s, step) && w < |s.workers| && s.workers[w].fatal
    ensures w < |Next(cfg, s, step).workers| && Next(cfg, s, step).workers[w].fatal
    ensures Next(cfg, s, step).workers[w].spawnsSinceFatal
         == s.workers[w].spawnsSinceFatal + if step == Loop(w, Spawn) then 1 else 0
  {
    if step.Main? { MainKeepsWorkers(cfg, s, step.main); }
  }

  lemma FatalStepInRun(cfg: Config, states: seq<System>, steps: seq<SysStep>, i: nat, w: nat)
    requires IsRun(cfg, states, steps) && i < |steps| && w < |states[i].workers| && states[i].workers[w].fatal
    ensures w < |states[i + 1].workers| && states[i + 1].workers[w].fatal
    ensures states[i + 1].workers[w].spawnsSinceFatal
         == states[i].workers[w].spawnsSinceFatal + if steps[i] == Loop(w, Spawn) then 1 else 0
  {
    assert StepAt(cfg, states, steps, i);
    FatalStays(cfg, states[i], steps[i], w);
  }

  /** A worker's fatal flag stays set, and its count of spawns only grows. */
  lemma {:induction false} FatalCountGrows(cfg: Config, states: seq<System>, steps: seq<SysStep>, i: nat, j: nat, w: nat)
    requires IsRun(cfg, states, steps) && i <= j < |states|
    requires w < |states[i].workers| && states[i].workers[w].fatal
    ensures w < |states[j].workers| && states[j].workers[w].fatal
    ensures states[j].workers[w].spawnsSinceFatal >= states[i].workers[w].spawnsSinceFatal
  {
    if i < j {
      FatalCountGrows(cfg, states, steps, i, j - 1, w);
      FatalStepInRun(cfg, states, steps, j - 1, w);
    }
  }

  /** A worker that spawns a commit with its fatal flag set never spawns another. */
  lemma OneSpawnAfterFatal(cfg: Config, states: seq<System>, steps: seq<SysStep>, i: nat, j: nat, w: nat)
    requires IsRun(cfg, states, steps) && i < j < |steps| && w < cfg.workers
    requires w < |states[i].workers| && states[i].workers[w].fatal && steps[i] == Loop(w, Spawn)
    ensures steps[j] != Loop(w, Spawn)
  {
    FatalStepInRun(cfg, states, steps, i, w);
    FatalCountGrows(cfg, states, steps, i + 1, j, w);
    WorkersAlways(cfg, states, steps, j);
    assert WorkerOK(cfg, states[j].workers[w]);
    assert StepAt(cfg, states, steps, j);
  }
}
