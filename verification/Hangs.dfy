/** Two runs in which the shutdown gets stuck: one for want of a hint, one for want of room. */
module Hangs {
  import opened Domain
  import opened CommitTable
  import opened Pipeline
  import opened Shutdown
  import opened Drain

  // ----- a missed hint -----

  const RACE := Config(2, 1)

  function Race(parent: Parent, missed: nat, queue: seq<Item>, unfinished: int, first: Worker, second: Worker,
                puts: seq<Item>, pulls: seq<Pull>): System {
    System(map[], queue, unfinished, parent, None, missed, [first, second], map[], 0, puts, pulls)
  }

  function RaceSteps(): seq<SysStep> {
    [Loop(1, OpenPool(true)), Loop(1, Check), Main(Interrupt(false)), Main(Probe), Main(PutHint),
     Loop(1, Get), Loop(1, TakeHint), Loop(1, MarkDone), Loop(1, Drained), Main(Probe),
     Loop(0, OpenPool(true))]
  }

  function RaceStates(): seq<System> {
    var idle := NewWorker(RACE);
    var open := idle.(pool := Open, phase := Checking);
    var getting := open.(phase := Getting);
    var pulled := open.(phase := Pulled(Stop), departure := Hinted);
    var gone := pulled.(phase := Stopped, pool := Closed);
    var log := [Pull(1, Stop)];
    [Race(Polling([]), 0, [], 0, idle, idle, [], []),
     Race(Polling([]), 0, [], 0, idle, open, [], []),
     Race(Polling([]), 0, [], 0, idle, getting, [], []),
     Race(Stopping(0, false), 0, [], 0, idle, getting, [], []),
     Race(Stopping(0, true), 0, [], 0, idle, getting, [], []),
     Race(Stopping(1, false), 0, [Stop], 1, idle, getting, [Stop], []),
     Race(Stopping(1, false), 0, [], 1, idle, pulled, [Stop], log),
     Race(Stopping(1, false), 0, [], 1, idle, pulled.(phase := Marking(true)), [Stop], log),
     Race(Stopping(1, false), 0, [], 0, idle, pulled.(phase := Draining), [Stop], log),
     Race(Stopping(1, false), 0, [], 0, idle, gone, [Stop], log),
     Race(Stopping(2, false), 1, [], 0, idle, gone, [Stop], log),
     Race(Stopping(2, false), 1, [], 0, open, gone, [Stop], log)]
  }

  lemma RaceBegins(i: nat)
    requires i < 5
    ensures Enabled(RACE, RaceStates()[i], RaceSteps()[i])
    ensures RaceStates()[i + 1] == Next(RACE, RaceStates()[i], RaceSteps()[i])
  {
  }

  lemma RaceGoesOn(i: nat)
    requires 5 <= i < 8
    ensures Enabled(RACE, RaceStates()[i], RaceSteps()[i])
    ensures RaceStates()[i + 1] == Next(RACE, RaceStates()[i], RaceSteps()[i])
  {
  }

  lemma RaceEnds(i: nat)
    requires 8 <= i < 11
    ensures Enabled(RACE, RaceStates()[i], RaceSteps()[i])
    ensures RaceStates()[i + 1] == Next(RACE, RaceStates()[i], RaceSteps()[i])
  {
  }

  /** It does happen: with two workers, the second takes the hint put for the first and is gone before
      its own check. The parent then waits for the first, which finds its queue empty for ever. */
  lemma HintRace()
    ensures IsRun(RACE, RaceStates(), RaceSteps())
    ensures var s := RaceStates()[11];
            NoQuit(s) && s.missed == 1 && Starved(RACE, s) && !GoesOn(RACE, s)
  {
    var states, steps := RaceStates(), RaceSteps();
    assert Init(RACE, states[0]);
    forall i | 0 <= i < |steps| ensures StepAt(RACE, states, steps, i) {
      if i < 5 { RaceBegins(i); } else if i < 8 { RaceGoesOn(i); } else { RaceEnds(i); }
    }
    NoQuitCount(states[11]);
    ShutdownStuck(RACE, states, steps, 11);
  }

  // ----- a full queue -----

  const JAM := Config(1, 1)

  const QUEUED := Row(NoData(), [])
  const NO_ROWS: Rows := map[]
  const ONE_ROW: Rows := NO_ROWS[1 := QUEUED]
  const TWO_ROWS: Rows := ONE_ROW[2 := QUEUED]

  function Jam(rows: Rows, parent: Parent, queue: seq<Item>, worker: Worker, puts: seq<Item>): System {
    System(rows, queue, |queue|, parent, None, 0, [worker], map[], 0, puts, [])
  }

  /** Two queued commits are on the queue, which is full, when the only worker fails; it is still
      draining when the parent finds it alive. */
  function JamSteps(): seq<SysStep> {
    [Submit(1, QUEUED), Submit(2, QUEUED), Loop(0, OpenPool(true)), Loop(0, Check),
     Main(Poll([1, 2])), Main(PutCommit), Main(PutCommit), Loop(0, GetRaised(true)), Main(Interrupt(false)),
     Main(Probe), Loop(0, Drained)]
  }

  function JamStates(): seq<System> {
    var idle := NewWorker(JAM);
    var open := idle.(pool := Open, phase := Checking);
    var getting := open.(phase := Getting);
    var draining := open.(phase := Draining, departure := Quit);
    var gone := draining.(phase := Stopped, pool := Closed);
    var full := [Copy(1), Copy(2)];
    [Jam(NO_ROWS, Polling([]), [], idle, []),
     Jam(ONE_ROW, Polling([]), [], idle, []),
     Jam(TWO_ROWS, Polling([]), [], idle, []),
     Jam(TWO_ROWS, Polling([]), [], open, []),
     Jam(TWO_ROWS, Polling([]), [], getting, []),
     Jam(TWO_ROWS, Polling([1, 2]), [], getting, []),
     Jam(TWO_ROWS, Polling([2]), [Copy(1)], getting, [Copy(1)]),
     Jam(TWO_ROWS, Polling([]), full, getting, full),
     Jam(TWO_ROWS, Polling([]), full, draining, full),
     Jam(TWO_ROWS, Stopping(0, false), full, draining, full),
     Jam(TWO_ROWS, Stopping(0, true), full, draining, full),
     Jam(TWO_ROWS, Stopping(0, true), full, gone, full)]
  }

  lemma JamBegins(i: nat)
    requires i < 5
    ensures Enabled(JAM, JamStates()[i], JamSteps()[i])
    ensures JamStates()[i + 1] == Next(JAM, JamStates()[i], JamSteps()[i])
  {
  }

  /** The two puts that fill the queue. */
  lemma JamFills(i: nat)
    requires 5 <= i < 7
    ensures Enabled(JAM, JamStates()[i], JamSteps()[i])
    ensures JamStates()[i + 1] == Next(JAM, JamStates()[i], JamSteps()[i])
  {
    var none: seq<Item> := [];
    assert none + [Copy(1)] == [Copy(1)] && [Copy(1)] + [Copy(2)] == [Copy(1), Copy(2)];
    assert [1, 2][1..] == [2] && [2][1..] == [];
  }

  lemma JamEnds(i: nat)
    requires 7 <= i < 11
    ensures Enabled(JAM, JamStates()[i], JamSteps()[i])
    ensures JamStates()[i + 1] == Next(JAM, JamStates()[i], JamSteps()[i])
  {
  }

  /** It does happen, with no hint missed: the parent waits for room in a queue that nobody reads. */
  lemma FullQueueJam()
    ensures IsRun(JAM, JamStates(), JamSteps())
    ensures var s := JamStates()[11];
            s.missed == 0 && Quits(s) == 1 && Jammed(JAM, s) && !GoesOn(JAM, s)
  {
    var states, steps := JamStates(), JamSteps();
    assert Init(JAM, states[0]);
    forall i | 0 <= i < |steps| ensures StepAt(JAM, states, steps, i) {
      if i < 5 { JamBegins(i); } else if i < 7 { JamFills(i); } else { JamEnds(i); }
    }
    ShutdownStuck(JAM, states, steps, 11);
  }
}
