/** What a task does next is decided by what it did last, and what a worker works on by what it pulled. */
module Tasks {
  import opened Domain
  import opened Protocol
  import opened Pipeline
  import opened Workers

  // ----- the claim -----

  /** A claim starts an attempt exactly when it returns on a queued row: the task is then at the beginning
      of its attempt, on a row that has just become PROCESSING. In every other case the task is through. */
  lemma WonClaimStartsAttempt(
    cfg: Config, states: seq<System>, steps: seq<SysStep>, i: nat, t: nat, c: Call, data: CommitData)
    requires Takes(cfg, states, steps, i, Run(t, Claim(c, data)))
    ensures t in states[i].tasks && t in states[i + 1].tasks
    ensures var id, job := states[i].tasks[t].commit, states[i + 1].tasks[t].job;
            && states[i + 1].tasks[t].commit == id
            && (job.Holding? <==> c.Returned? && id in states[i].rows && states[i].rows[id].data.status.InQueue?)
            && (job.Holding? ==> job.node == Node(Begin, data, [], []) && id in states[i + 1].rows
                                 && states[i + 1].rows[id].data.status.Processing?)
            && (!job.Holding? ==> job.Finishing?)
  {
  }

  // ----- what a task did last -----

  /** The last step of task `t` among the first `i` steps. */
  function LastOf(steps: seq<SysStep>, i: nat, t: nat): Option<JobStep>
    requires i <= |steps|
  {
    if i == 0 then None
    else if steps[i - 1].Run? && steps[i - 1].task == t then Some(steps[i - 1].job)
    else LastOf(steps, i - 1, t)
  }

  /** Where a task stands after its last step. */
  predicate Stands(job: Job, last: Option<JobStep>) {
    match last
    case None => job.Spawned?
    case Some(Claim(c, data)) =>
      if job.Holding? then job.node == Node(Begin, data, [], []) && c.Returned? else job.Finishing?
    case Some(Work(_, n)) => job == Holding(n)
    case Some(End(Normal)) => job.Finishing?
    case Some(End(Escaped(exc))) => if exc.Fatal? then job.Finishing? else job.Releasing?
    case Some(Release(_)) => job.Finishing?
    case Some(Finish) => false
  }

  /** In every run: a task that is still there stands where its last step left it. A normal or a fatal end
      of its attempt is followed by nothing but giving its slot back, and after any other exception the
      commit is given back first. */
  lemma {:induction false} TaskStandsAtLast(cfg: Config, states: seq<System>, steps: seq<SysStep>, i: nat, t: nat)
    requires IsRun(cfg, states, steps) && i < |states|
    ensures t in states[i].tasks ==> t < states[i].nextTask && Stands(states[i].tasks[t].job, LastOf(steps, i, t))
    ensures t >= states[i].nextTask ==> LastOf(steps, i, t) == None
  {
    if i > 0 {
      TaskStandsAtLast(cfg, states, steps, i - 1, t);
      assert StepAt(cfg, states, steps, i - 1);
      StandsStep(cfg, states[i - 1], steps[i - 1], t, LastOf(steps, i - 1, t));
    }
  }

  lemma StandsStep(cfg: Config, s: System, step: SysStep, t: nat, last: Option<JobStep>)
    requires Enabled(cfg, s, step)
    requires t in s.tasks ==> t < s.nextTask && Stands(s.tasks[t].job, last)
    requires t >= s.nextTask ==> last == None
    ensures var s', last' := Next(cfg, s, step), if step.Run? && step.task == t then Some(step.job) else last;
            && (t in s'.tasks ==> t < s'.nextTask && Stands(s'.tasks[t].job, last'))
            && (t >= s'.nextTask ==> last' == None)
  {
    match step
    case Submit(_, _) =>
    case Main(m) => MainKeepsWorkers(cfg, s, m);
    case Loop(_, l) => if l.Spawn? {}
    case Run(u, j) =>
  }

  // ----- the fatal flag -----

  /** Step `k` is the end of an attempt of worker `w` by an exception that stops the worker. */
  ghost predicate FatalEndAt(states: seq<System>, steps: seq<SysStep>, k: nat, w: nat)
    requires k < |steps| <= |states|
  {
    steps[k].Run? && steps[k].job == End(Escaped(Fatal)) && steps[k].task in states[k].tasks
    && states[k].tasks[steps[k].task].worker == w
  }

  /** A worker's fatal flag is set exactly when an attempt of one of its tasks has ended that way. */
  lemma {:induction false} FlagMeansFatalEnd(cfg: Config, states: seq<System>, steps: seq<SysStep>, i: nat, w: nat)
    requires IsRun(cfg, states, steps) && i < |states| && w < cfg.workers
    ensures |states[i].workers| == cfg.workers
    ensures states[i].workers[w].fatal <==> exists k :: 0 <= k < i && FatalEndAt(states, steps, k, w)
  {
    WorkerCount(cfg, states, steps, i);
    if i > 0 {
      FlagMeansFatalEnd(cfg, states, steps, i - 1, w);
      assert StepAt(cfg, states, steps, i - 1);
      FlagStep(cfg, states[i - 1], steps[i - 1], w);
      assert FatalEndAt(states, steps, i - 1, w)
        <==> steps[i - 1].Run? && steps[i - 1].job == End(Escaped(Fatal))
             && states[i - 1].tasks[steps[i - 1].task].worker == w;
    } else {
      assert states[0].workers[w] == NewWorker(cfg);
    }
  }

  lemma FlagStep(cfg: Config, s: System, step: SysStep, w: nat)
    requires Enabled(cfg, s, step) && w < |s.workers|
    ensures |Next(cfg, s, step).workers| == |s.workers|
    ensures Next(cfg, s, step).workers[w].fatal
       <==> s.workers[w].fatal
            || (step.Run? && step.job == End(Escaped(Fatal)) && s.tasks[step.task].worker == w)
  {
    if step.Main? { MainKeepsWorkers(cfg, s, step.main); }
  }

  // ----- the turns of a pull loop -----

  /** Worker `w` asks the queue for an item, whatever comes of it. */
  predicate AsksQueue(step: SysStep, w: nat) {
    step.Loop? && step.worker == w && (step.loop.Get? || step.loop.GetEmpty? || step.loop.GetRaised?)
  }

  lemma TurnStep(cfg: Config, s: System, step: SysStep, w: nat)
    requires Enabled(cfg, s, step) && w < |s.workers|
    ensures |Next(cfg, s, step).workers| == |s.workers|
    ensures AsksQueue(step, w) ==> s.workers[w].phase.Getting? && !Next(cfg, s, step).workers[w].phase.Getting?
    ensures !s.workers[w].phase.Getting? && Next(cfg, s, step).workers[w].phase.Getting? ==>
              step == Loop(w, Check) && !s.workers[w].fatal
  {
    if step.Main? { MainKeepsWorkers(cfg, s, step.main); }
  }

  lemma {:induction false} CheckedSince(cfg: Config, states: seq<System>, steps: seq<SysStep>, i: nat, j: nat, w: nat)
    requires IsRun(cfg, states, steps) && i <= j < |states| && w < cfg.workers
    requires w < |states[i].workers| && !states[i].workers[w].phase.Getting?
    requires w < |states[j].workers| && states[j].workers[w].phase.Getting?
    ensures exists k :: i <= k < j && steps[k] == Loop(w, Check) && w < |states[k].workers| && !states[k].workers[w].fatal
  {
    WorkerCount(cfg, states, steps, j - 1);
    assert StepAt(cfg, states, steps, j - 1);
    TurnStep(cfg, states[j - 1], steps[j - 1], w);
    if states[j - 1].workers[w].phase.Getting? { CheckedSince(cfg, states, steps, i, j - 1, w); }
  }

  /** Between any two requests of a worker to the queue it has found its fatal flag clear. */
  lemma EveryTurnChecks(cfg: Config, states: seq<System>, steps: seq<SysStep>, i: nat, j: nat, w: nat)
    requires IsRun(cfg, states, steps) && i < j < |steps| && w < cfg.workers
    requires AsksQueue(steps[i], w) && AsksQueue(steps[j], w)
    ensures exists k :: i < k < j && steps[k] == Loop(w, Check) && w < |states[k].workers| && !states[k].workers[w].fatal
  {
    WorkerCount(cfg, states, steps, i);
    WorkerCount(cfg, states, steps, i + 1);
    WorkerCount(cfg, states, steps, j);
    assert StepAt(cfg, states, steps, i) && StepAt(cfg, states, steps, j);
    TurnStep(cfg, states[i], steps[i], w);
    TurnStep(cfg, states[j], steps[j], w);
    CheckedSince(cfg, states, steps, i + 1, j, w);
  }

  // ----- from the queue to the task -----

  /** The commits whose copies worker `w` has pulled, in order. */
  function CopiesPulled(pulls: seq<Pull>, w: nat): seq<int> {
    if pulls == [] then []
    else
      var before, last := CopiesPulled(pulls[..|pulls| - 1], w), pulls[|pulls| - 1];
      if last.worker == w && last.item.Copy? then before + [last.item.id] else before
  }

  lemma CopiesPulledSnoc(pulls: seq<Pull>, p: Pull, w: nat)
    ensures CopiesPulled(pulls + [p], w)
         == CopiesPulled(pulls, w) + if p.worker == w && p.item.Copy? then [p.item.id] else []
  {
    assert (pulls + [p])[..|pulls|] == pulls;
  }

  /** What worker `w` has done with the copies it pulled: the commit of the task it spawned for each, or the
      commit it held a slot for when the spawn failed. */
  function Dispatched(states: seq<System>, steps: seq<SysStep>, i: nat, w: nat): seq<int>
    requires i <= |steps| && |states| == |steps| + 1
  {
    if i == 0 then []
    else
      var before, s, s', step := Dispatched(states, steps, i - 1, w), states[i - 1], states[i], steps[i - 1];
      if step == Loop(w, Spawn) && s.nextTask in s'.tasks && s'.tasks[s.nextTask].worker == w
      then before + [s'.tasks[s.nextTask].commit]
      else if step.Loop? && step.worker == w && step.loop.SpawnFailed? && w < |s.workers| && s.workers[w].phase.Acquired?
      then before + [s.workers[w].phase.id]
      else before
  }

  /** The copy a worker is holding: pulled, or with a slot acquired for it. */
  function InHand(k: Worker): seq<int> {
    match k.phase
    case Pulled(Copy(id)) => [id]
    case Acquired(id) => [id]
    case _ => []
  }

  /** In every run each worker turns the copies it pulled, in order and one by one, into tasks on the same
      commits, except for those whose spawn failed; at most the last one is still in hand. */
  lemma {:induction false} CopiesBecomeTasks(cfg: Config, states: seq<System>, steps: seq<SysStep>, i: nat, w: nat)
    requires IsRun(cfg, states, steps) && i < |states| && w < cfg.workers
    ensures |states[i].workers| == cfg.workers
    ensures CopiesPulled(states[i].pulls, w) == Dispatched(states, steps, i, w) + InHand(states[i].workers[w])
  {
    WorkerCount(cfg, states, steps, i);
    if i > 0 {
      CopiesBecomeTasks(cfg, states, steps, i - 1, w);
      CopiesStep(cfg, states, steps, i - 1, w);
    } else {
      NothingPulledYet(cfg, states[0], w);
    }
  }

  lemma NothingPulledYet(cfg: Config, s: System, w: nat)
    requires Init(cfg, s) && w < |s.workers|
    ensures CopiesPulled(s.pulls, w) == [] && InHand(s.workers[w]) == []
  {
    assert s.workers[w] == NewWorker(cfg);
  }

  lemma WorkerCount(cfg: Config, states: seq<System>, steps: seq<SysStep>, i: nat)
    requires IsRun(cfg, states, steps) && i < |states|
    ensures |states[i].workers| == cfg.workers
  {
    WorkersAlways(cfg, states, steps, i);
  }

  /** The copy worker `w` pulls in this step, and the copy it is done with. */
  function NowPulled(s: System, step: SysStep, w: nat): seq<int> {
    if step == Loop(w, Get) && s.queue != [] && s.queue[0].Copy? then [s.queue[0].id] else []
  }

  function NowDone(s: System, step: SysStep, w: nat): seq<int> {
    if step.Loop? && step.worker == w && (step.loop.Spawn? || step.loop.SpawnFailed?) && w < |s.workers|
    then InHand(s.workers[w]) else []
  }

  lemma StepPulls(cfg: Config, s: System, step: SysStep, w: nat)
    requires Enabled(cfg, s, step)
    ensures CopiesPulled(Next(cfg, s, step).pulls, w) == CopiesPulled(s.pulls, w) + NowPulled(s, step, w)
  {
    if step.Loop? && step.loop.Get? {
      CopiesPulledSnoc(s.pulls, Pull(step.worker, s.queue[0]), w);
    } else {
      assert Next(cfg, s, step).pulls == s.pulls;
    }
  }

  lemma StepKeepsHands(cfg: Config, s: System, step: SysStep, w: nat)
    requires Enabled(cfg, s, step) && w < |s.workers|
    ensures |Next(cfg, s, step).workers| == |s.workers|
    ensures InHand(s.workers[w]) + NowPulled(s, step, w) == NowDone(s, step, w) + InHand(Next(cfg, s, step).workers[w])
  {
    match step
    case Submit(_, _) =>
    case Main(m) => MainKeepsWorkers(cfg, s, m);
    case Loop(v, l) =>
      if v == w { LoopKeepsHands(cfg, s, w, l); } else { OtherLoop(s, v, l, w); }
    case Run(t, j) => RunKeepsPhase(s, t, j, w);
  }

  lemma LoopKeepsHands(cfg: Config, s: System, w: nat, step: LoopStep)
    requires LoopEnabled(s, w, step)
    ensures InHand(s.workers[w]) + NowPulled(s, Loop(w, step), w)
         == NowDone(s, Loop(w, step), w) + InHand(LoopApply(s, w, step).workers[w])
  {
  }

  lemma OtherLoop(s: System, v: nat, step: LoopStep, w: nat)
    requires LoopEnabled(s, v, step) && w < |s.workers| && v != w
    ensures var s' := LoopApply(s, v, step); |s'.workers| == |s.workers| && s'.workers[w] == s.workers[w]
  {
  }

  lemma RunKeepsPhase(s: System, t: nat, step: JobStep, w: nat)
    requires RunEnabled(s, t, step) && w < |s.workers|
    ensures var s' := RunApply(s, t, step); |s'.workers| == |s.workers| && s'.workers[w].phase == s.workers[w].phase
  {
  }

  lemma SpawnsWhatIsInHand(s: System, w: nat)
    requires LoopEnabled(s, w, Spawn)
    ensures var s' := LoopApply(s, w, Spawn);
            s.nextTask in s'.tasks && s'.tasks[s.nextTask].worker == w && [s'.tasks[s.nextTask].commit] == InHand(s.workers[w])
  {
  }

  lemma Regroup(pulled: seq<int>, now: seq<int>, gone: seq<int>, done: seq<int>, hand: seq<int>, hand': seq<int>)
    requires pulled == gone + hand && hand + now == done + hand'
    ensures pulled + now == gone + done + hand'
  {
    assert gone + hand + now == gone + (hand + now);
    assert gone + done + hand' == gone + (done + hand');
  }

  lemma DispatchedStep(cfg: Config, states: seq<System>, steps: seq<SysStep>, i: nat, w: nat)
    requires i < |steps| && |states| == |steps| + 1 && StepAt(cfg, states, steps, i) && w < |states[i].workers|
    ensures Dispatched(states, steps, i + 1, w) == Dispatched(states, steps, i, w) + NowDone(states[i], steps[i], w)
  {
    if steps[i] == Loop(w, Spawn) { SpawnsWhatIsInHand(states[i], w); }
  }

  lemma CopiesStep(cfg: Config, states: seq<System>, steps: seq<SysStep>, i: nat, w: nat)
    requires IsRun(cfg, states, steps) && i < |steps| && w < |states[i].workers|
    requires CopiesPulled(states[i].pulls, w) == Dispatched(states, steps, i, w) + InHand(states[i].workers[w])
    ensures w < |states[i + 1].workers|
    ensures CopiesPulled(states[i + 1].pulls, w)
         == Dispatched(states, steps, i + 1, w) + InHand(states[i + 1].workers[w])
  {
    assert StepAt(cfg, states, steps, i);
    var s, step := states[i], steps[i];
    StepPulls(cfg, s, step, w);
    StepKeepsHands(cfg, s, step, w);
    DispatchedStep(cfg, states, steps, i, w);
    Regroup(CopiesPulled(s.pulls, w), NowPulled(s, step, w), Dispatched(states, steps, i, w),
            NowDone(s, step, w), InHand(s.workers[w]), InHand(states[i + 1].workers[w]));
  }

  // ----- from the poll to the queue -----

  /** The commits chosen by the polls among the first `i` steps. */
  function Polled(steps: seq<SysStep>, i: nat): seq<int>
    requires i <= |steps|
  {
    if i == 0 then []
    else if steps[i - 1].Main? && steps[i - 1].main.Poll? then Polled(steps, i - 1) + steps[i - 1].main.chosen
    else Polled(steps, i - 1)
  }

  /** The commits whose copies have been put, in order. */
  function CopiesPut(puts: seq<Item>): seq<int> {
    if puts == [] then []
    else
      var before, last := CopiesPut(puts[..|puts| - 1]), puts[|puts| - 1];
      if last.Copy? then before + [last.id] else before
  }

  lemma CopiesPutSnoc(puts: seq<Item>, item: Item)
    ensures CopiesPut(puts + [item]) == CopiesPut(puts) + if item.Copy? then [item.id] else []
  {
    assert (puts + [item])[..|puts|] == puts;
  }

  function StillRunning(orphan: Option<int>): seq<int> {
    match orphan
    case Some(id) => [id]
    case None => []
  }

  /** Until the interruption, the copies put and those still to be put are exactly the commits polled, in
      order; after it the copies put, with the one put it left running, are the first of them. */
  ghost predicate PutsFollowPolls(s: System, polled: seq<int>) {
    match s.parent
    case Polling(pending) => s.orphan == None && CopiesPut(s.puts) + pending == polled
    case Stopping(_, _) => CopiesPut(s.puts) + StillRunning(s.orphan) <= polled
  }

  lemma {:induction false} PollsReachQueue(cfg: Config, states: seq<System>, steps: seq<SysStep>, i: nat)
    requires IsRun(cfg, states, steps) && i < |states|
    ensures PutsFollowPolls(states[i], Polled(steps, i))
  {
    if i > 0 {
      PollsReachQueue(cfg, states, steps, i - 1);
      assert StepAt(cfg, states, steps, i - 1);
      PollStep(cfg, states[i - 1], steps[i - 1], Polled(steps, i - 1));
    }
  }

  lemma OthersPutNothing(cfg: Config, s: System, step: SysStep)
    requires Enabled(cfg, s, step) && !step.Main?
    ensures var s' := Next(cfg, s, step); s'.puts == s.puts && s'.parent == s.parent && s'.orphan == s.orphan
  {
  }

  lemma PollStep(cfg: Config, s: System, step: SysStep, polled: seq<int>)
    requires Enabled(cfg, s, step) && PutsFollowPolls(s, polled)
    ensures PutsFollowPolls(Next(cfg, s, step), if step.Main? && step.main.Poll? then polled + step.main.chosen else polled)
  {
    if !step.Main? {
      OthersPutNothing(cfg, s, step);
    } else if s.parent.Polling? {
      PollingStep(cfg, s, step.main, polled);
    } else {
      StoppingStep(cfg, s, step.main);
    }
  }

  lemma PollingStep(cfg: Config, s: System, step: ParentStep, polled: seq<int>)
    requires MainEnabled(cfg, s, step) && PutsFollowPolls(s, polled) && s.parent.Polling?
    ensures PutsFollowPolls(MainStep(cfg, s, step), if step.Poll? then polled + step.chosen else polled)
  {
    var pending := s.parent.pending;
    if pending != [] {
      assert pending == [pending[0]] + pending[1..];
      assert CopiesPut(s.puts) + [pending[0]] + pending[1..] == polled;
    } else {
      assert CopiesPut(s.puts) + [] == CopiesPut(s.puts);
    }
    if step.PutCommit? { CopiesPutSnoc(s.puts, Copy(pending[0])); }
  }

  /** After the interruption nothing is lost and nothing repeated. */
  lemma StoppingStep(cfg: Config, s: System, step: ParentStep)
    requires MainEnabled(cfg, s, step) && s.parent.Stopping?
    ensures var s' := MainStep(cfg, s, step);
            s'.parent.Stopping?
            && CopiesPut(s'.puts) + StillRunning(s'.orphan) == CopiesPut(s.puts) + StillRunning(s.orphan)
  {
    if step.PutHint? { CopiesPutSnoc(s.puts, Stop); }
    if step.OrphanPut? { CopiesPutSnoc(s.puts, Copy(s.orphan.value)); }
  }

  /** The interruption leaves a put running exactly when one was, and from then on the copies put together
      with that one never change: a put left running is neither lost nor repeated. */
  lemma {:induction false} NothingLostAfterInterrupt(
    cfg: Config, states: seq<System>, steps: seq<SysStep>, i: nat, j: nat, running: bool)
    requires Takes(cfg, states, steps, i, Main(Interrupt(running))) && i < j < |states|
    ensures states[j].parent.Stopping? && states[i].parent.Polling?
    ensures CopiesPut(states[j].puts) + StillRunning(states[j].orphan)
         == CopiesPut(states[i].puts) + if running then states[i].parent.pending[..1] else []
  {
    if j == i + 1 {
      if running { assert states[i].parent.pending[..1] == [states[i].parent.pending[0]]; }
    } else {
      NothingLostAfterInterrupt(cfg, states, steps, i, j - 1, running);
      assert StepAt(cfg, states, steps, j - 1);
      if steps[j - 1].Main? {
        StoppingStep(cfg, states[j - 1], steps[j - 1].main);
      } else {
        OthersPutNothing(cfg, states[j - 1], steps[j - 1]);
      }
    }
  }
}
