/** The whole engine as a step system: the poller and its shutdown, the task queue, the workers'
    pull loops, their tasks, and the commits table they share. */
module Pipeline {
  import opened Domain
  import opened CommitTable
  import opened Protocol

  datatype Config = Config(workers: nat, concurrency: nat) {
    predicate Valid() { workers >= 1 && concurrency >= 1 }

    function TotalSlots(): nat { workers * concurrency }

    /** The bound of the task queue. */
    function Capacity(): nat { 2 * TotalSlots() }
  }

  /** An item of the task queue: a copy of a commit, or the stop hint. */
  datatype Item = Copy(id: int) | Stop

  datatype Pool = Unopened | Open | Closed

  /** Where a worker's pull loop stands. A worker holds a slot between `Acquired` and the spawn, and
      owes a `task_done` from `Pulled` to `Marking`. */
  datatype Phase =
    | Starting | Checking | Getting | Pulled(item: Item) | Acquired(id: int) | Marking(leave: bool)
    | Draining | Stopped

  /** Why a worker leaves its pull loop: not at all, on a stop hint, or on a failure. */
  datatype Departure = Staying | Hinted | Quit

  datatype Worker = Worker(
    phase: Phase, free: nat, inFlight: set<nat>, fatal: bool, pool: Pool,
    departure: Departure, spawnsSinceFatal: nat)

  /** Where a task stands: `Holding` is an attempt in progress. */
  datatype Job = Spawned | Holding(node: Node) | Releasing | Finishing

  datatype Task = Task(worker: nat, commit: int, job: Job)

  /** The parent process: putting the commits selected by the last poll, or asking the workers to stop.
      `due` says that worker `next` was found alive and its hint is being put. */
  datatype Parent = Polling(pending: seq<int>) | Stopping(next: nat, due: bool)

  datatype Pull = Pull(worker: nat, item: Item)

  datatype System = System(
    rows: Rows,
    queue: seq<Item>,
    unfinished: int,             // the queue's count of unmarked items
    parent: Parent,
    orphan: Option<int>,         // a put that the interruption left running in its thread
    missed: nat,                 // workers found dead when their hint was due
    workers: seq<Worker>,
    tasks: map<nat, Task>,       // tasks that have not finished
    nextTask: nat,
    puts: seq<Item>,             // everything ever put on the queue
    pulls: seq<Pull>)            // everything ever pulled from it

  datatype ParentStep =
    | Poll(chosen: seq<int>) | PutCommit | Interrupt(putRunning: bool) | Probe | PutHint | OrphanPut

  datatype LoopStep =
    | OpenPool(ok: bool) | Check | Get | GetEmpty | GetRaised(fatal: bool) | TakeHint | Acquire
    | Spawn | SpawnFailed(fatal: bool) | MarkDone | Drained

  datatype JobStep =
    | Claim(call: Call, data: CommitData) | Work(event: Event, node: Node) | End(exit: Exit)
    | Release(call: Call) | Finish

  datatype SysStep =
    | Submit(id: int, row: Row)          // the web application inserts a commit
    | Main(main: ParentStep)
    | Loop(worker: nat, loop: LoopStep)
    | Run(task: nat, job: JobStep)

  // ----- the parent -----

  predicate HasRoom(cfg: Config, s: System) { |s.queue| < cfg.Capacity() }

  predicate MainEnabled(cfg: Config, s: System, step: ParentStep) {
    match step
    case Poll(chosen) => s.parent == Polling([]) && forall id :: id in chosen ==> Claimable(s.rows, id)
    case PutCommit => s.parent.Polling? && s.parent.pending != [] && HasRoom(cfg, s)
    case Interrupt(putRunning) => s.parent.Polling? && (putRunning ==> s.parent.pending != [])
    case Probe => s.parent.Stopping? && !s.parent.due && s.parent.next < |s.workers|
    case PutHint => s.parent.Stopping? && s.parent.due && HasRoom(cfg, s)
    case OrphanPut => s.orphan.Some? && HasRoom(cfg, s)
  }

  function Enqueue(s: System, item: Item): System {
    s.(queue := s.queue + [item], unfinished := s.unfinished + 1, puts := s.puts + [item])
  }

  function MainStep(cfg: Config, s: System, step: ParentStep): System
    requires MainEnabled(cfg, s, step)
  {
    match step
    case Poll(chosen) => s.(parent := Polling(chosen))
    case PutCommit =>
      Enqueue(s, Copy(s.parent.pending[0])).(parent := Polling(s.parent.pending[1..]))
    case Interrupt(putRunning) =>
      s.(parent := Stopping(0, false), orphan := if putRunning then Some(s.parent.pending[0]) else None)
    case Probe =>
      if s.workers[s.parent.next].phase.Stopped?
      then s.(parent := Stopping(s.parent.next + 1, false), missed := s.missed + 1)
      else s.(parent := s.parent.(due := true))
    case PutHint => Enqueue(s, Stop).(parent := Stopping(s.parent.next + 1, false))
    case OrphanPut => Enqueue(s, Copy(s.orphan.value)).(orphan := None)
  }

  // ----- a worker's pull loop -----

  predicate LoopEnabled(s: System, w: nat, step: LoopStep) {
    w < |s.workers|
    && var k := s.workers[w];
    match step
    case OpenPool(_) => k.phase.Starting?
    case Check => k.phase.Checking?
    case Get => k.phase.Getting? && s.queue != []
    case GetEmpty => k.phase.Getting?
    case GetRaised(_) => k.phase.Getting?
    case TakeHint => k.phase == Pulled(Stop)
    case Acquire => k.phase.Pulled? && k.phase.item.Copy? && k.free > 0
    case Spawn => k.phase.Acquired?
    case SpawnFailed(_) => k.phase.Acquired?
    case MarkDone => k.phase.Marking?
    case Drained => k.phase.Draining? && k.inFlight == {}
  }

  function SetWorker(s: System, w: nat, k: Worker): System
    requires w < |s.workers|
  {
    s.(workers := s.workers[w := k])
  }

  function LoopApply(s: System, w: nat, step: LoopStep): System
    requires LoopEnabled(s, w, step)
  {
    var k := s.workers[w];
    match step
    case OpenPool(ok) =>
      SetWorker(s, w, if ok then k.(phase := Checking, pool := Open) else k.(phase := Stopped, departure := Quit))
    case Check =>
      SetWorker(s, w, if k.fatal then k.(phase := Draining, departure := Quit) else k.(phase := Getting))
    case Get =>
      var item := s.queue[0];
      SetWorker(s, w, k.(phase := Pulled(item), departure := if item.Stop? then Hinted else k.departure))
      .(queue := s.queue[1..], pulls := s.pulls + [Pull(w, item)])
    case GetEmpty => SetWorker(s, w, k.(phase := Checking))
    case GetRaised(fatal) =>
      SetWorker(s, w, if fatal then k.(phase := Draining, departure := Quit) else k.(phase := Checking))
    case TakeHint => SetWorker(s, w, k.(phase := Marking(true)))
    case Acquire => SetWorker(s, w, k.(phase := Acquired(k.phase.item.id), free := k.free - 1))
    case Spawn =>
      SetWorker(s, w, k.(phase := Marking(false), inFlight := k.inFlight + {s.nextTask},
                         spawnsSinceFatal := if k.fatal then k.spawnsSinceFatal + 1 else 0))
      .(tasks := s.tasks[s.nextTask := Task(w, k.phase.id, Spawned)], nextTask := s.nextTask + 1)
    case SpawnFailed(fatal) =>
      SetWorker(s, w, k.(phase := Marking(fatal), free := k.free + 1,
                         departure := if fatal then Quit else k.departure))
    case MarkDone =>
      SetWorker(s, w, k.(phase := if k.phase.leave then Draining else Checking))
      .(unfinished := s.unfinished - 1)
    case Drained => SetWorker(s, w, k.(phase := Stopped, pool := Closed))
  }

  // ----- a task -----

  predicate NotCancelled(c: Call) { c.Threw? ==> !c.exc.Cancelled? }

  ghost predicate RunEnabled(s: System, t: nat, step: JobStep) {
    t in s.tasks && s.tasks[t].worker < |s.workers|
    && var job := s.tasks[t].job;
    match step
    case Claim(c, _) => job.Spawned? && NotCancelled(c)
    case Work(e, n) => job.Holding? && Step(job.node, e, n)
    case End(exit) => job.Holding? && ExitOK(job.node.stage, exit) && exit != Escaped(Cancelled)
    case Release(c) => job.Releasing? && NotCancelled(c)
    case Finish => job.Finishing?
  }

  function SetJob(s: System, t: nat, job: Job): System
    requires t in s.tasks
  {
    s.(tasks := s.tasks[t := s.tasks[t].(job := job)])
  }

  function RunApply(s: System, t: nat, step: JobStep): System
    requires t in s.tasks && s.tasks[t].worker < |s.workers|
  {
    var task := s.tasks[t];
    var id, w := task.commit, task.worker;
    match step
    case Claim(c, data) =>
      // A claim that raises drops the copy, whether or not it took effect.
      var won := c.Returned? && Claimable(s.rows, id);
      SetJob(s, t, if won then Holding(Node(Begin, data, [], [])) else Finishing)
      .(rows := if c.Took() then Claimed(s.rows, id) else s.rows)
    case Work(e, n) =>
      SetJob(s, t, Holding(n))
      .(rows := if e.Db? && e.call.Took() then Applied(s.rows, id, e.op) else s.rows)
    case End(Normal) => SetJob(s, t, Finishing)
    case End(Escaped(exc)) =>
      if exc.Fatal?
      then SetWorker(SetJob(s, t, Finishing), w, s.workers[w].(fatal := true))
      else SetJob(s, t, Releasing)
    case Release(c) =>
      SetJob(s, t, Finishing).(rows := if c.Took() then Released(s.rows, id) else s.rows)
    case Finish =>
      var k := s.workers[w];
      SetWorker(s, w, k.(inFlight := k.inFlight - {t}, free := k.free + 1)).(tasks := s.tasks - {t})
  }

  // ----- runs -----

  ghost predicate Enabled(cfg: Config, s: System, step: SysStep) {
    match step
    case Submit(id, row) => id !in s.rows && row.data.status.InQueue?
    case Main(m) => MainEnabled(cfg, s, m)
    case Loop(w, l) => LoopEnabled(s, w, l)
    case Run(t, j) => RunEnabled(s, t, j)
  }

  ghost function Next(cfg: Config, s: System, step: SysStep): System
    requires Enabled(cfg, s, step)
  {
    match step
    case Submit(id, row) => s.(rows := s.rows[id := row])
    case Main(m) => MainStep(cfg, s, m)
    case Loop(w, l) => LoopApply(s, w, l)
    case Run(t, j) => RunApply(s, t, j)
  }

  function NewWorker(cfg: Config): Worker {
    Worker(Starting, cfg.concurrency, {}, false, Unopened, Staying, 0)
  }

  /** Any table may be there at the start, as long as PROCESSING rows have a start time. */
  ghost predicate Init(cfg: Config, s: System) {
    && (forall id :: id in s.rows ==> StartKnown(s.rows[id]))
    && s.queue == [] && s.unfinished == 0 && s.parent == Polling([]) && s.orphan == None && s.missed == 0
    && |s.workers| == cfg.workers && (forall w :: 0 <= w < |s.workers| ==> s.workers[w] == NewWorker(cfg))
    && s.tasks == map[] && s.nextTask == 0 && s.puts == [] && s.pulls == []
  }

  ghost predicate StepAt(cfg: Config, states: seq<System>, steps: seq<SysStep>, i: nat)
    requires i < |steps| && |states| == |steps| + 1
  {
    Enabled(cfg, states[i], steps[i]) && states[i + 1] == Next(cfg, states[i], steps[i])
  }

  /** The states and the steps of a run from any initial state. */
  ghost predicate IsRun(cfg: Config, states: seq<System>, steps: seq<SysStep>) {
    cfg.Valid() && |states| == |steps| + 1 && Init(cfg, states[0])
    && forall i :: 0 <= i < |steps| ==> StepAt(cfg, states, steps, i)
  }

  /** A run goes on with any step that is enabled in its last state. */
  lemma RunAppend(cfg: Config, states: seq<System>, steps: seq<SysStep>, step: SysStep)
    requires IsRun(cfg, states, steps) && Enabled(cfg, states[|steps|], step)
    ensures IsRun(cfg, states + [Next(cfg, states[|steps|], step)], steps + [step])
  {
    var states', steps' := states + [Next(cfg, states[|steps|], step)], steps + [step];
    forall i | 0 <= i < |steps'| ensures StepAt(cfg, states', steps', i) {
      if i < |steps| { assert StepAt(cfg, states, steps, i); }
    }
  }

  /** The i-th step of a run is `step`. (That it is enabled there follows from `IsRun`.) */
  ghost predicate Takes(cfg: Config, states: seq<System>, steps: seq<SysStep>, i: nat, step: SysStep) {
    IsRun(cfg, states, steps) && i < |steps| && steps[i] == step && StepAt(cfg, states, steps, i)
  }
}
