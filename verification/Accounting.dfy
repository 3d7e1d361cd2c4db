/** The task queue's books: what was put, what was pulled, what is still unmarked. */
module Accounting {
  import opened Pipeline
  import opened Workers

  // ----- sums over workers -----

  function Sum<T>(f: T -> nat, xs: seq<T>): nat {
    if xs == [] then 0 else f(xs[0]) + Sum(f, xs[1..])
  }

  lemma {:induction false} SumUpdate<T>(f: T -> nat, xs: seq<T>, i: nat, x: T)
    requires i < |xs|
    ensures Sum(f, xs[i := x]) + f(xs[i]) == Sum(f, xs) + f(x)
  {
    if i == 0 {
      assert xs[0 := x][1..] == xs[1..];
    } else {
      assert xs[i := x][1..] == xs[1..][i - 1 := x];
      SumUpdate(f, xs[1..], i - 1, x);
    }
  }

  lemma OneMore(n: nat, c: nat)
    ensures (n + 1) * c == n * c + c
  {
  }

  lemma {:induction false} SumBound<T>(f: T -> nat, xs: seq<T>, bound: nat)
    requires forall i :: 0 <= i < |xs| ==> f(xs[i]) <= bound
    ensures Sum(f, xs) <= |xs| * bound
  {
    if xs != [] {
      SumBound(f, xs[1..], bound);
      OneMore(|xs| - 1, bound);
    }
  }

  lemma {:induction false} SumZero<T>(f: T -> nat, xs: seq<T>)
    ensures Sum(f, xs) == 0 <==> forall i :: 0 <= i < |xs| ==> f(xs[i]) == 0
  {
    if xs != [] {
      SumZero(f, xs[1..]);
      assert forall i :: 0 < i < |xs| ==> xs[i] == xs[1..][i - 1];
      assert forall i :: 0 <= i < |xs[1..]| ==> xs[1..][i] == xs[i + 1];
    }
  }

  lemma {:induction false} SumSnoc<T>(f: T -> nat, xs: seq<T>, x: T)
    ensures Sum(f, xs + [x]) == Sum(f, xs) + f(x)
  {
    if xs != [] {
      assert (xs + [x])[1..] == xs[1..] + [x];
      SumSnoc(f, xs[1..], x);
    }
  }

  // ----- unfinished items -----

  /** A pulled item that its worker has not marked done yet. */
  function Unmarked(k: Worker): nat {
    if k.phase.Pulled? || k.phase.Acquired? || k.phase.Marking? then 1 else 0
  }

  function PulledItems(pulls: seq<Pull>): seq<Item> {
    seq(|pulls|, i requires 0 <= i < |pulls| => pulls[i].item)
  }

  /** What was put is what was pulled, in order, followed by what is queued; the unfinished count is
      what is queued plus what is pulled and unmarked; the queue respects its bound. */
  ghost predicate BooksOK(cfg: Config, s: System) {
    s.puts == PulledItems(s.pulls) + s.queue
    && s.unfinished == |s.queue| + Sum(Unmarked, s.workers)
    && |s.queue| <= cfg.Capacity()
  }

  lemma LoopKeepsBooks(cfg: Config, s: System, w: nat, step: LoopStep)
    requires BooksOK(cfg, s) && LoopEnabled(s, w, step)
    ensures BooksOK(cfg, LoopApply(s, w, step))
  {
    var s' := LoopApply(s, w, step);
    SumUpdate(Unmarked, s.workers, w, s'.workers[w]);
    assert s'.workers == s.workers[w := s'.workers[w]];
    if step.Get? {
      assert s.queue == [s.queue[0]] + s.queue[1..];
      assert PulledItems(s'.pulls) == PulledItems(s.pulls) + [s.queue[0]];
    }
  }

  lemma RunKeepsBooks(cfg: Config, s: System, t: nat, step: JobStep)
    requires BooksOK(cfg, s) && RunEnabled(s, t, step)
    ensures BooksOK(cfg, RunApply(s, t, step))
  {
    var s', w := RunApply(s, t, step), s.tasks[t].worker;
    SumUpdate(Unmarked, s.workers, w, s'.workers[w]);
    assert s'.workers == s.workers[w := s'.workers[w]];
    assert s'.queue == s.queue && s'.puts == s.puts && s'.pulls == s.pulls && s'.unfinished == s.unfinished;
  }

  lemma NextKeepsBooks(cfg: Config, s: System, step: SysStep)
    requires BooksOK(cfg, s) && Enabled(cfg, s, step)
    ensures BooksOK(cfg, Next(cfg, s, step))
  {
    match step
    case Submit(_, _) =>
    case Main(m) => MainKeepsWorkers(cfg, s, m);
    case Loop(w, l) => LoopKeepsBooks(cfg, s, w, l);
    case Run(t, j) => RunKeepsBooks(cfg, s, t, j);
  }

  lemma {:induction false} BooksAlways(cfg: Config, states: seq<System>, steps: seq<SysStep>, i: nat)
    requires IsRun(cfg, states, steps) && i < |states|
    ensures BooksOK(cfg, states[i])
  {
    if i > 0 {
      BooksAlways(cfg, states, steps, i - 1);
      assert StepAt(cfg, states, steps, i - 1);
      NextKeepsBooks(cfg, states[i - 1], steps[i - 1]);
    } else {
      var s := states[0];
      assert forall w :: 0 <= w < |s.workers| ==> s.workers[w] == NewWorker(cfg);
      SumZero(Unmarked, s.workers);
    }
  }

  /** Queue accounting in every reachable state: every put item is queued or was pulled by exactly one
      worker, in the order of the puts; the unfinished count is the queued items plus the pulled ones
      that are not marked done, so each pulled item, hints included, is marked exactly once. */
  lemma QueueAccounting(cfg: Config, states: seq<System>, steps: seq<SysStep>, i: nat)
    requires IsRun(cfg, states, steps) && i < |states|
    ensures var s := states[i];
            |s.puts| == |s.pulls| + |s.queue|
            && (forall k :: 0 <= k < |s.pulls| ==> s.puts[k] == s.pulls[k].item)
            && (forall k :: |s.pulls| <= k < |s.puts| ==> s.puts[k] == s.queue[k - |s.pulls|])
            && s.unfinished == |s.queue| + Sum(Unmarked, s.workers)
  {
    BooksAlways(cfg, states, steps, i);
  }

  // ----- how many commits are in flight -----

  /** The unfinished tasks of the first `n` workers. */
  function TasksBelow(s: System, n: nat): set<nat> {
    set t | t in s.tasks && s.tasks[t].worker < n
  }

  lemma TasksOfNext(s: System, w: nat)
    requires InFlightOK(s) && w < |s.workers|
    ensures TasksBelow(s, w + 1) == TasksBelow(s, w) + s.workers[w].inFlight
  {
  }

  lemma UnionBound(a: set<nat>, b: set<nat>)
    ensures |a + b| <= |a| + |b|
  {
  }

  function InFlightCount(k: Worker): nat { |k.inFlight| }

  function Occupied(k: Worker): nat { |k.inFlight| + HeldSlot(k) }

  lemma TasksAndSlots(cfg: Config, s: System)
    requires WorkerInv(cfg, s)
    ensures |s.tasks| + Sum(HeldSlot, s.workers) <= cfg.workers * cfg.concurrency
  {
    forall w | 0 <= w < |s.workers| ensures Occupied(s.workers[w]) <= cfg.concurrency {
      assert WorkerOK(cfg, s.workers[w]);
    }
    SumBound(Occupied, s.workers, cfg.concurrency);
    SumOccupied(s.workers);
    TasksWithinWorkers(s, |s.workers|);
    assert TasksBelow(s, |s.workers|) == s.tasks.Keys && s.workers[..|s.workers|] == s.workers;
    assert |s.tasks| == |s.tasks.Keys|;
  }

  lemma {:induction false} SumOccupied(ks: seq<Worker>)
    ensures Sum(Occupied, ks) == Sum(InFlightCount, ks) + Sum(HeldSlot, ks)
  {
    if ks != [] { SumOccupied(ks[1..]); }
  }

  lemma {:induction false} TasksWithinWorkers(s: System, n: nat)
    requires InFlightOK(s) && n <= |s.workers|
    ensures |TasksBelow(s, n)| <= Sum(InFlightCount, s.workers[..n])
  {
    if n == 0 {
      assert TasksBelow(s, 0) == {};
    } else {
      TasksWithinWorkers(s, n - 1);
      TasksOfNext(s, n - 1);
      UnionBound(TasksBelow(s, n - 1), s.workers[n - 1].inFlight);
      assert s.workers[..n] == s.workers[..n - 1] + [s.workers[n - 1]];
      SumSnoc(InFlightCount, s.workers[..n - 1], s.workers[n - 1]);
    }
  }

  /** The commits in flight over all workers never exceed the configured number of slots. */
  lemma InFlightBound(cfg: Config, states: seq<System>, steps: seq<SysStep>, i: nat)
    requires IsRun(cfg, states, steps) && i < |states|
    ensures |states[i].tasks| <= cfg.TotalSlots()
  {
    WorkersAlways(cfg, states, steps, i);
    TasksAndSlots(cfg, states[i]);
  }

  /** A commit waiting in a worker for a slot. */
  function Waiting(k: Worker): nat {
    if k.phase.Pulled? && k.phase.item.Copy? then 1 else 0
  }

  /** The commits queued, waiting for a slot, holding a slot or running never exceed 2NC + N + NC. */
  lemma PipelineBound(cfg: Config, states: seq<System>, steps: seq<SysStep>, i: nat)
    requires IsRun(cfg, states, steps) && i < |states|
    ensures var s := states[i];
            |s.queue| + Sum(Waiting, s.workers) + Sum(HeldSlot, s.workers) + |s.tasks|
            <= 2 * (cfg.workers * cfg.concurrency) + cfg.workers + cfg.workers * cfg.concurrency
  {
    var s := states[i];
    BooksAlways(cfg, states, steps, i);
    WorkersAlways(cfg, states, steps, i);
    SumBound(Waiting, s.workers, 1);
    TasksAndSlots(cfg, s);
  }
}
