/** The graceful shutdown: one stop hint per worker found alive, a drain, and when that is enough. */
module Shutdown {
  import opened Pipeline
  import opened Workers
  import opened Accounting

  // ----- hints -----

  function IsStop(item: Item): nat { if item.Stop? then 1 else 0 }

  function HasHint(k: Worker): nat { if k.departure.Hinted? then 1 else 0 }

  /** A worker that has left its loop because of a failure. */
  function HasQuit(k: Worker): nat { if k.departure.Quit? then 1 else 0 }

  /** A worker that is still in its loop. */
  function IsStaying(k: Worker): nat { if k.departure.Staying? then 1 else 0 }

  function TookHint(w: nat): Pull -> nat {
    p => if p == Pull(w, Stop) then 1 else 0
  }

  /** How many hints worker `w` has pulled. */
  function HintsTaken(pulls: seq<Pull>, w: nat): nat { Sum(TookHint(w), pulls) }

  /** Every worker dealt with so far accounts for a queued hint, a taken hint, or a missed one. */
  ghost predicate HintsBalance(s: System) {
    match s.parent
    case Polling(_) => Sum(IsStop, s.queue) + Sum(HasHint, s.workers) + s.missed == 0
    case Stopping(next, due) =>
      Sum(IsStop, s.queue) + Sum(HasHint, s.workers) + s.missed == next
      && next <= |s.workers| && (due ==> next < |s.workers|)
  }

  /** Each worker has pulled as many hints as its departure says, and once all have left on a hint
      nothing was pulled after the last one. */
  ghost predicate HintsRecorded(s: System) {
    (forall w :: 0 <= w < |s.workers| ==> HintsTaken(s.pulls, w) == HasHint(s.workers[w]))
    && (AllHinted(s) ==> s.pulls != [] && s.pulls[|s.pulls| - 1].item.Stop?)
  }

  ghost predicate AllHinted(s: System) {
    s.workers != [] && forall w :: 0 <= w < |s.workers| ==> s.workers[w].departure.Hinted?
  }

  ghost predicate HintInv(s: System) { HintsBalance(s) && HintsRecorded(s) }

  lemma MainKeepsHints(cfg: Config, s: System, step: ParentStep)
    requires HintInv(s) && MainEnabled(cfg, s, step)
    ensures HintInv(MainStep(cfg, s, step))
  {
    MainKeepsWorkers(cfg, s, step);
    if step.PutCommit? { SumSnoc(IsStop, s.queue, Copy(s.parent.pending[0])); }
    if step.PutHint? { SumSnoc(IsStop, s.queue, Stop); }
    if step.OrphanPut? { SumSnoc(IsStop, s.queue, Copy(s.orphan.value)); }
  }

  lemma LoopKeepsBalance(cfg: Config, s: System, w: nat, step: LoopStep)
    requires WorkerInv(cfg, s) && HintsBalance(s) && LoopEnabled(s, w, step)
    ensures HintsBalance(LoopApply(s, w, step))
  {
    var s' := LoopApply(s, w, step);
    assert WorkerOK(cfg, s.workers[w]);
    SumUpdate(HasHint, s.workers, w, s'.workers[w]);
    assert s'.workers == s.workers[w := s'.workers[w]];
  }

  lemma LoopKeepsRecord(cfg: Config, s: System, w: nat, step: LoopStep)
    requires WorkerInv(cfg, s) && HintsRecorded(s) && LoopEnabled(s, w, step)
    ensures HintsRecorded(LoopApply(s, w, step))
  {
    var s' := LoopApply(s, w, step);
    var k, k' := s.workers[w], s'.workers[w];
    assert WorkerOK(cfg, k);
    assert s'.workers == s.workers[w := k'];
    if step.Get? {
      assert !AllHinted(s);
      forall v | 0 <= v < |s'.workers| ensures HintsTaken(s'.pulls, v) == HasHint(s'.workers[v]) {
        SumSnoc(TookHint(v), s.pulls, Pull(w, s.queue[0]));
      }
    } else {
      assert s'.pulls == s.pulls && HasHint(k') == HasHint(k);
      forall v | 0 <= v < |s'.workers| ensures HintsTaken(s'.pulls, v) == HasHint(s'.workers[v]) {
        assert HintsTaken(s.pulls, v) == HasHint(s.workers[v]);
      }
      if AllHinted(s') {
        forall v | 0 <= v < |s.workers| ensures s.workers[v].departure.Hinted? {
          assert s'.workers[v].departure.Hinted?;
        }
      }
    }
  }

  /** A step of a task touches none of the things the hints are counted in. */
  lemma RunTouchesNoHint(s: System, t: nat, step: JobStep)
    requires RunEnabled(s, t, step)
    ensures var s' := RunApply(s, t, step);
            && s'.pulls == s.pulls && s'.queue == s.queue && s'.parent == s.parent && s'.missed == s.missed
            && |s'.workers| == |s.workers|
            && s'.workers == s.workers[s.tasks[t].worker := s'.workers[s.tasks[t].worker]]
            && forall w :: 0 <= w < |s.workers| ==>
                 s'.workers[w].departure == s.workers[w].departure && s'.workers[w].phase == s.workers[w].phase
  {
  }

  lemma RunKeepsHints(s: System, t: nat, step: JobStep)
    requires HintInv(s) && RunEnabled(s, t, step)
    ensures HintInv(RunApply(s, t, step))
  {
    RunTouchesNoHint(s, t, step);
    var s', w := RunApply(s, t, step), s.tasks[t].worker;
    SumUpdate(HasHint, s.workers, w, s'.workers[w]);
    assert AllHinted(s') ==> AllHinted(s);
  }

  lemma NextKeepsHints(cfg: Config, s: System, step: SysStep)
    requires WorkerInv(cfg, s) && HintInv(s) && Enabled(cfg, s, step)
    ensures HintInv(Next(cfg, s, step))
  {
    match step
    case Submit(_, _) =>
    case Main(m) => MainKeepsHints(cfg, s, m);
    case Loop(w, l) => LoopKeepsBalance(cfg, s, w, l); LoopKeepsRecord(cfg, s, w, l);
    case Run(t, j) => RunKeepsHints(s, t, j);
  }

  lemma InitHints(cfg: Config, s: System)
    requires Init(cfg, s)
    ensures HintInv(s)
  {
    assert forall w :: 0 <= w < |s.workers| ==> s.workers[w] == NewWorker(cfg);
    SumZero(HasHint, s.workers);
  }

  lemma {:induction false} HintsAlways(cfg: Config, states: seq<System>, steps: seq<SysStep>, i: nat)
    requires IsRun(cfg, states, steps) && i < |states|
    ensures HintInv(states[i])
  {
    if i > 0 {
      HintsAlways(cfg, states, steps, i - 1);
      WorkersAlways(cfg, states, steps, i - 1);
      assert StepAt(cfg, states, steps, i - 1);
      NextKeepsHints(cfg, states[i - 1], steps[i - 1]);
    } else {
      InitHints(cfg, states[0]);
    }
  }

  // ----- enough hints, or not -----

  /** How many workers have left their loop because of a failure. */
  function Quits(s: System): nat { Sum(HasQuit, s.workers) }

  lemma {:induction false} EveryDeparture(ks: seq<Worker>)
    ensures Sum(IsStaying, ks) + Sum(HasHint, ks) + Sum(HasQuit, ks) == |ks|
  {
    if ks != [] { EveryDeparture(ks[1..]); }
  }

  /** The workers that are still to leave, together with those that left on a failure, are exactly as many
      as the hints in the queue, those still to be put, and those that were never put because their worker
      was already dead. */
  lemma HintSupply(cfg: Config, states: seq<System>, steps: seq<SysStep>, i: nat)
    requires IsRun(cfg, states, steps) && i < |states| && states[i].parent.Stopping?
    ensures var s := states[i];
            s.parent.next <= cfg.workers
            && Sum(IsStaying, s.workers) + Quits(s)
               == Sum(IsStop, s.queue) + (cfg.workers - s.parent.next) + s.missed
  {
    HintsAlways(cfg, states, steps, i);
    WorkersAlways(cfg, states, steps, i);
    EveryDeparture(states[i].workers);
  }

  ghost predicate AllStopped(s: System) {
    forall w :: 0 <= w < |s.workers| ==> s.workers[w].phase.Stopped?
  }

  /** `_stop_workers` has dealt with every worker, and every worker is gone. */
  ghost predicate Joined(cfg: Config, s: System) { s.parent == Stopping(cfg.workers, false) && AllStopped(s) }

  lemma StoppedMeansNoTask(cfg: Config, s: System)
    requires WorkerInv(cfg, s) && AllStopped(s)
    ensures s.tasks == map[]
  {
    forall w | 0 <= w < |s.workers| ensures s.workers[w].inFlight == {} { assert WorkerOK(cfg, s.workers[w]); }
    assert s.tasks.Keys == {};
  }

  /** A hint that was not put is missing for good, unless a failing worker makes up for it: with more
      misses than failures some worker has not stopped. */
  lemma MissedHintBlocksShutdown(cfg: Config, states: seq<System>, steps: seq<SysStep>, i: nat)
    requires IsRun(cfg, states, steps) && i < |states|
    requires states[i].parent.Stopping? && states[i].missed > Quits(states[i])
    ensures !AllStopped(states[i])
  {
    HintSupply(cfg, states, steps, i);
    WorkersAlways(cfg, states, steps, i);
    var s := states[i];
    SumZero(IsStaying, s.workers);
    var w :| 0 <= w < |s.workers| && IsStaying(s.workers[w]) != 0;
    assert WorkerOK(cfg, s.workers[w]);
  }

  lemma MissedStays(cfg: Config, s: System, step: SysStep)
    requires Enabled(cfg, s, step) && s.parent.Stopping?
    ensures Next(cfg, s, step).parent.Stopping? && Next(cfg, s, step).missed >= s.missed
  {
    if step.Run? { RunTouchesNoHint(s, step.task, step.job); }
  }

  lemma MissedStaysInRun(cfg: Config, states: seq<System>, steps: seq<SysStep>, i: nat)
    requires IsRun(cfg, states, steps) && i < |steps| && states[i].parent.Stopping?
    ensures states[i + 1].parent.Stopping? && states[i + 1].missed >= states[i].missed
  {
    assert StepAt(cfg, states, steps, i);
    MissedStays(cfg, states[i], steps[i]);
  }

  lemma {:induction false} MissedForever(cfg: Config, states: seq<System>, steps: seq<SysStep>, i: nat, j: nat)
    requires IsRun(cfg, states, steps) && i <= j < |states| && states[i].parent.Stopping?
    ensures states[j].parent.Stopping? && states[j].missed >= states[i].missed
  {
    if i < j {
      MissedForever(cfg, states, steps, i, j - 1);
      MissedStaysInRun(cfg, states, steps, j - 1);
    }
  }

  /** If workers are found dead at their check, the parent waits for as long as fewer workers than that
      have failed: in no such later state have all workers stopped. */
  lemma ShutdownHangs(cfg: Config, states: seq<System>, steps: seq<SysStep>, i: nat, j: nat)
    requires IsRun(cfg, states, steps) && i <= j < |states|
    requires states[i].parent.Stopping? && states[i].missed > Quits(states[j])
    ensures !AllStopped(states[j])
  {
    MissedForever(cfg, states, steps, i, j);
    MissedHintBlocksShutdown(cfg, states, steps, j);
  }

  /** When the shutdown is done, every worker that did not fail took exactly one hint and the others none,
      no task is in flight, no pool is open, the unfinished count is what is still queued, and the hints
      left in the queue and those never put are as many as the workers that failed. */
  lemma ShutdownComplete(cfg: Config, states: seq<System>, steps: seq<SysStep>, i: nat)
    requires IsRun(cfg, states, steps) && i < |states| && Joined(cfg, states[i])
    ensures var s := states[i];
            && s.tasks == map[] && s.unfinished == |s.queue|
            && Sum(IsStop, s.queue) + s.missed == Quits(s)
            && forall w :: 0 <= w < |s.workers| ==>
                 !s.workers[w].departure.Staying? && !s.workers[w].pool.Open?
                 && HintsTaken(s.pulls, w) == if s.workers[w].departure.Hinted? then 1 else 0
  {
    var s := states[i];
    WorkersAlways(cfg, states, steps, i);
    HintsAlways(cfg, states, steps, i);
    BooksAlways(cfg, states, steps, i);
    HintSupply(cfg, states, steps, i);
    forall w | 0 <= w < |s.workers|
      ensures IsStaying(s.workers[w]) == 0 && Unmarked(s.workers[w]) == 0
              && !s.workers[w].departure.Staying? && !s.workers[w].pool.Open?
    {
      assert WorkerOK(cfg, s.workers[w]);
    }
    SumZero(IsStaying, s.workers);
    SumZero(Unmarked, s.workers);
    StoppedMeansNoTask(cfg, s);
  }

  /** No worker has left its loop because of a failure. */
  ghost predicate NoQuit(s: System) {
    forall w :: 0 <= w < |s.workers| ==> !s.workers[w].departure.Quit?
  }

  lemma NoQuitCount(s: System)
    ensures NoQuit(s) <==> Quits(s) == 0
  {
    SumZero(HasQuit, s.workers);
  }

  /** When it is done and no worker failed, each took exactly one hint, none was missed and none is left
      over. Nothing is queued exactly when nothing was put after the last hint. */
  lemma CleanShutdown(cfg: Config, states: seq<System>, steps: seq<SysStep>, i: nat)
    requires IsRun(cfg, states, steps) && i < |states| && Joined(cfg, states[i]) && NoQuit(states[i])
    ensures var s := states[i];
            && s.missed == 0 && Stop !in s.queue
            && (forall w :: 0 <= w < |s.workers| ==> HintsTaken(s.pulls, w) == 1)
            && s.puts != [] && (s.queue == [] <==> s.puts[|s.puts| - 1] == Stop)
  {
    var s := states[i];
    ShutdownComplete(cfg, states, steps, i);
    NoQuitCount(s);
    WorkersAlways(cfg, states, steps, i);
    HintsAlways(cfg, states, steps, i);
    BooksAlways(cfg, states, steps, i);
    SumZero(IsStop, s.queue);
    assert AllHinted(s);
    LastPut(s);
  }

  lemma LastPut(s: System)
    requires s.puts == PulledItems(s.pulls) + s.queue && s.pulls != [] && s.pulls[|s.pulls| - 1].item.Stop?
    requires forall k :: 0 <= k < |s.queue| ==> IsStop(s.queue[k]) == 0
    ensures s.puts != [] && Stop !in s.queue && (s.queue == [] <==> s.puts[|s.puts| - 1] == Stop)
  {
  }

  // ----- failures -----

  lemma LoopQuits(cfg: Config, s: System, w: nat, step: LoopStep)
    requires WorkerInv(cfg, s) && LoopEnabled(s, w, step)
    ensures Quits(LoopApply(s, w, step)) >= Quits(s)
    ensures Quits(LoopApply(s, w, step)) == Quits(s) ==>
              (LoopApply(s, w, step).workers[w].departure.Quit? <==> s.workers[w].departure.Quit?)
  {
    var s' := LoopApply(s, w, step);
    assert WorkerOK(cfg, s.workers[w]);
    SumUpdate(HasQuit, s.workers, w, s'.workers[w]);
    assert s'.workers == s.workers[w := s'.workers[w]];
  }

  /** A worker that has failed has failed for good. */
  lemma QuitsGrow(cfg: Config, s: System, step: SysStep)
    requires WorkerInv(cfg, s) && Enabled(cfg, s, step)
    ensures Quits(Next(cfg, s, step)) >= Quits(s)
  {
    match step
    case Submit(_, _) =>
    case Main(m) => MainKeepsWorkers(cfg, s, m);
    case Loop(w, l) => LoopQuits(cfg, s, w, l);
    case Run(t, j) =>
      RunTouchesNoHint(s, t, j);
      SumUpdate(HasQuit, s.workers, s.tasks[t].worker, RunApply(s, t, j).workers[s.tasks[t].worker]);
  }
}
