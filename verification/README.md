# Verified model of the run.codes compiler engine

The engine polls a database for submitted commits, hands them to worker processes over a bounded
queue, and each worker compiles and runs several commits at once, judges their output and writes the
results back. This project models that pipeline in Dafny and proves what it keeps in every run, with
every database call free to raise before or after it took effect.

| file | what it models |
|---|---|
| `Domain.dfy` | commits, rows, test cases, results, and how a foreign call can end |
| `Comparators.dfy`, `Verdicts.dfy` | the three file comparators, `diff`, one judged result per test case |
| `Scoring.dfy` | `count_if`, the score, the commit data an attempt writes |
| `CommitTable.dfy` | the statements on the commits table as atomic steps |
| `LogReading.dfy` | the log reader thread and `expect_message` |
| `Protocol.dfy` | an automaton for one attempt: which statement or message may come when, and what the row holds |
| `Attempt.dfy` | `process_commit` and `run` as imperative code that follows the automaton |
| `Outage.dfy` | an attempt that publishes a verdict and fails to store the results |
| `Pipeline.dfy` | the whole system as steps: parent process, queue, pull loops, tasks, table |
| `Claims.dfy`, `Workers.dfy`, `Accounting.dfy` | invariants of every run: claims and rows, slots and pools, queue books |
| `Histories.dfy` | what a task has done, read off a run of the system: its steps are an attempt |
| `Tasks.dfy` | how copies become tasks, what starts an attempt, what a task does after it |
| `Shutdown.dfy`, `Drain.dfy` | stop hints, when they are enough, how long a shutdown goes on and where it ends |
| `Hangs.dfy`, `Passing.dfy` | the two runs in which the shutdown gets stuck; a run in which a commit passes |
| `Refinement.dfy` | the attempt and the poller as parts of the system; `run_commit` as a whole |
| `Poller.dfy`, `CaseFiles.dfy`, `Sleeper.dfy` | duplicate suppression, the batched file lookup, the back-off timer |

The layers meet as follows. `Attempt` executes statement by statement; each statement and each expected
log message is recorded, and the record is a run of the automaton in `Protocol`. The system in `Pipeline`
lets a task that holds a claim take exactly the automaton's steps, interleaved with every other process.
The two views meet in both directions: the steps of a task in any run of the system are a run of the
automaton, and its row is what they made of the row it claimed (`Histories.TaskFollowsProtocol`); and a
recorded attempt can be played as steps of its task, event by event, with any steps of other processes in
between (`Refinement.AttemptAdvances`, `AttemptWaits`, `AttemptIsTaskRun`). During an attempt all other rows
may change at every statement (`Attempt.Interfere`); that its own row does not rests on
`Claims.ClaimIsExclusive` and `Claims.RowChange`.

## What the proofs bring out

Where the code does less than its comments or its setting suggest, the model follows the code and states
the exact condition.

- A shutdown can get stuck in two ways, and in no other (`Drain.ShutdownStuck`). The stop hints are shared,
  but they are put only for workers that are still alive when their turn comes
  (`src/rcc/__init__.py:90-93`). A worker that takes another one's hint and exits before its own check
  leaves one hint too few: if more hints are missed than workers fail, some worker goes round its idle loop
  for ever and the parent waits for it (`Hangs.HintRace`, `Drain.StarvedForever`). And a worker that has
  failed is alive while it drains, so a hint is put for it; if the queue is full and the last worker leaves
  without pulling anything, that put never returns (`Hangs.FullQueueJam`, `Drain.JammedForever`).
  `Drain.ShutdownOutcome` says where a shutdown ends from what can be counted: jammed when a hint is still
  due, starved when more hints were missed than workers failed, and otherwise done. While no worker has
  failed and no hint was missed it always goes on (`Drain.ShutdownNeverStuck`), and it can take only so many
  productive steps, however often idle workers poll in between (`Drain.ShutdownIsBounded`).
- A claim that raises is dropped "to be pulled again later" (`src/rcc/engine.py:923-927`). That holds exactly
  when the statement did not take effect; otherwise the row stays PROCESSING for good
  (`Claims.RaisedClaimStrands`).
- A failed attempt goes back to the queue exactly when its release takes effect on a row that still says
  PROCESSING; a row at COMPILING, COMPILED or RUNNING stays where it is (`Claims.ReleaseRetriesOrStrands`).
- `Sleeper` keeps to its maximum in exact arithmetic. In binary64 ten additions of 0.1 stay below 1, so
  exactly from the twelfth call on a sleep is longer than the maximum (`Sleeping.DefaultSleeperOvershoots`).
- `text_cmp2` rejects a file compared with itself exactly when it ends in a blank line
  (`Comparators.LooselyAgreeReflexive`).
- The final status is written before the results are stored (`src/rcc/engine.py:805-806`). A row that says
  COMPLETED or INCOMPLETE has the count and score of its attempt's results, but it holds those results exactly
  when their store took effect (`Protocol.VerdictNeedsStore`). Usually the gap closes by the end of the
  attempt (`Claims.NormalEndIsPermanent`). If both the store and the INTERNAL_ERROR write that should report
  it raise without effect, the attempt ends by an exception, no release or later copy reaches the row, and it
  stays COMPLETED without results for good (`Outage.VerdictWithoutResults`,
  `Histories.FailedVerdictIsPermanent`).

## Model

| member | source | states |
|---|---|---|
| Comparators.RstripCuts | src/rcc/cmp.py:21 | `rstrip` takes away a trailing run of spaces and all of it |
| Comparators.StripCuts | src/rcc/cmp.py:41-46 | `strip` leaves what stands between a leading and a trailing run of spaces, and that neither begins nor ends with one |
| Comparators.SplitAtSpace | src/rcc/cmp.py:50-51 | every space separates: the words before it, then the words after it |
| Comparators.SplitWord | src/rcc/cmp.py:50-51 | a word without spaces splits into itself |
| Comparators.SplitIntoWords | src/rcc/cmp.py:50-51 | only a blank string splits into nothing, and the pieces are words |
| Comparators.StripBlank | src/rcc/cmp.py:41-48 | `strip() == ""` holds exactly for lines made of spaces only |
| Comparators.TextCmp | src/rcc/cmp.py:10-25 | true exactly when both files decode, have as many lines, and agree line by line after stripping trailing space |
| Comparators.NextNonBlank | src/rcc/cmp.py:41-48 | the skipping loop stops at the first non-blank line or at the end, and loses no content |
| Comparators.SameTokens | src/rcc/cmp.py:52-54 | the `zip_longest` loop over tokens decides equality of the token lists |
| Comparators.ContentAppend | src/rcc/cmp.py:36-54 | the content of a file is that of its lines, one by one and in order |
| Comparators.ContentOfLine | src/rcc/cmp.py:41-51 | a line contributes its lower-cased words, a blank one nothing |
| Comparators.TextCmp2 | src/rcc/cmp.py:28-57 | true exactly when the non-blank lines agree in order as lower-cased token lists and neither file ends in a blank line |
| Comparators.LooselyAgreeReflexive | src/rcc/cmp.py:28-57 | a file passes with itself exactly when it does not end in a blank line |
| Comparators.LooselyAgreeSymmetric | src/rcc/cmp.py:28-57 | the relation `text_cmp2` decides is symmetric |
| Comparators.LooselyAgreeTransitive | src/rcc/cmp.py:28-57 | and transitive |
| Comparators.StrictImpliesLoose | src/rcc/cmp.py:10-57 | files that pass `text_cmp` pass `text_cmp2` exactly when they do not end in a blank line |
| Comparators.TooFarMeans | src/rcc/cmp.py:83 | two finite numbers are too far apart exactly when their difference exceeds the bound; a NaN never is; infinities when they differ |
| Comparators.TokenCloseMeans | src/rcc/cmp.py:81-87 | two tokens are compared as numbers when both are, and as text otherwise |
| Comparators.NumberCmp | src/rcc/cmp.py:60-93 | raises exactly on a negative bound; otherwise decides the line-by-line, token-by-token relation |
| Comparators.NumbersAgreeReflexive | src/rcc/cmp.py:68-91 | every decodable file agrees with itself |
| Comparators.NumbersAgreeSymmetric | src/rcc/cmp.py:68-91 | agreement within a bound is symmetric |
| Comparators.NumbersAgreeMonotone | src/rcc/cmp.py:68-91 | a larger bound accepts at least as much |
| Comparators.NumbersAgreeTriangle | src/rcc/cmp.py:68-91 | bounds add up along a chain of three files whose middle one holds no NaN |
| Comparators.NaNBreaksTriangle | src/rcc/cmp.py:85-90 | a NaN in the middle is close to everything, so there the law fails |
| Verdicts.Diff | src/rcc/engine.py:238-255 | for each output type exactly when the verdict is CORRECT, MALFORMED or INCORRECT; raises exactly on an unknown type and on a negative bound for numbers |
| Verdicts.MatchesMeans | src/rcc/engine.py:241-254 | which comparison each output type asks for, and with which bound |
| Verdicts.GradeSymmetric | src/rcc/engine.py:238-255 | the verdict is the same with the two files exchanged |
| Verdicts.CorrectTextIsTransitive | src/rcc/engine.py:241-243 | CORRECT on text files is transitive |
| Verdicts.CorrectTextMeetsLoose | src/rcc/engine.py:241-246 | a CORRECT text output would also pass the second comparison exactly when it does not end in a blank line |
| Verdicts.ProcessTestResults | src/rcc/engine.py:258-292 | INCORRECT on a signal or error output whatever the files say; otherwise CORRECT, MALFORMED or INCORRECT by comparing them; raises exactly when files are missing or cannot be graded |
| Verdicts.ProcessTestResultsBatch | src/rcc/engine.py:552-566 | one judged result per test case, in order, or the exception of the first case that raises |
| Verdicts.JudgedCorrect | src/rcc/engine.py:272-292 | a result is CORRECT exactly when its test case passes |
| Scoring.CountIfPositions | src/rcc/util.py:130-132 | the count is the number of positions at which the predicate holds |
| Scoring.CountCorrect | src/rcc/engine.py:604-607 | `corrects` is the number of CORRECT results |
| Scoring.ScoreIsShare | src/rcc/engine.py:608-612 | the score times the number of cases is ten times the number of correct ones, and ten without any case |
| Scoring.CorrectsBound | src/rcc/engine.py:604-607 | the count reaches the number of results exactly when all are CORRECT |
| Scoring.ScoreRange | src/rcc/engine.py:608-612 | the score lies between 0 and 10 and is 10 exactly when all results are CORRECT |
| Scoring.GradedCompleted | src/rcc/engine.py:604-616 | a graded commit holds the number of CORRECT results, ten times their share, and COMPLETED exactly when all are CORRECT, which is when the score is full; its other columns are as before |
| CommitTable.Table.Execute | src/rcc/provider/data/postgres.py:222-304 | no other row changes and none appears; when it takes effect, update replaces the columns and keeps the results, delete empties the results and keeps the columns, store appends results |
| CommitTable.Table.ClaimCommit | src/rcc/provider/data/postgres.py:307-334 | moves an IN_QUEUE row to PROCESSING with a start time, keeps everything else, and says whether it did |
| CommitTable.Table.ReleaseCommit | src/rcc/provider/data/postgres.py:337-354 | moves a PROCESSING row back to IN_QUEUE without start time and keeps everything else |
| CommitTable.ReleaseUndoesClaim | src/rcc/provider/data/postgres.py:337-344 | when releasing right after a claim restores the table |
| LogReading.PrefixShape | src/rcc/engine.py:366-378 | what a consumer has taken is stripped lines in order, with the sentinel at most once and last |
| LogReading.LogReader.ReadOne | src/rcc/engine.py:357-378 | one turn of the reader thread pushes the next stripped line, or the sentinel when the generator has stopped; on a closed loop it ends silently |
| LogReading.LogReader.Get | src/rcc/engine.py:353-355 | hands out the next item of the stream exactly when one is queued or arrives in time |
| LogReading.LogReader.ExpectMessage | src/rcc/engine.py:381-395 | succeeds exactly when the next item arrives in time and is the expected line; a timeout takes nothing, any other item is an error |
| Protocol.WriteKeepsRow | src/rcc/engine.py:656-805 | after a successful write the row is what the new stage says |
| Protocol.RaisedKeepsRow | src/rcc/engine.py:793-822 | after a statement that raised, effect or not, the row is out of the queue, and a verdict it shows is that of the attempt's results, stored completely or not at all |
| Protocol.RunKeepsRow | src/rcc/engine.py:719-822 | at every point of an attempt, after a failure too, the row and its results are what the stage says |
| Protocol.VerdictNeedsStore | src/rcc/engine.py:803-822 | whenever the row shows COMPLETED or INCOMPLETE its count, score and status are those of the attempt's results, which are stored exactly when the store took effect |
| Outage.VerdictWithoutResults | src/rcc/engine.py:803-822 | an attempt that ends by a retryable exception on a COMPLETED row with a full score and no results, which the release does not reach |
| Protocol.NeverQueued | src/rcc/engine.py:656-819 | no statement of an attempt writes IN_QUEUE |
| Protocol.StatusPath | src/rcc/engine.py:453-509 | from which status a row may come to each other status during one attempt |
| Protocol.WriteFollowsMessage | src/rcc/engine.py:457-506 | COMPILING, COMPILED, RUNNING and the verdict are written only right after the message they wait for |
| Protocol.RunMessages | src/rcc/engine.py:453-509 | a scored attempt has heard exactly the messages of its path, in order |
| Protocol.RunIsShort | src/rcc/engine.py:628-823 | an attempt has at most thirteen statements and messages |
| Protocol.CanMove | src/rcc/engine.py:628-823 | an attempt that neither can end normally nor was broken outside a handler can go on by an event in which nothing fails |
| Protocol.NormalEnd | src/rcc/engine.py:628-823 | on a normal return the row equals the commit in memory, with a final status and, unless INTERNAL_ERROR, the attempt's own results |
| Attempts.FirstErrorIsFirst | src/rcc/engine.py:77-86 | the raised error is the first in submission order; no error means every download succeeded |
| Attempts.Attempt.constructor | src/rcc/engine.py:931-932 | an attempt starts behind a won claim, on a PROCESSING row with a start time |
| Attempts.Attempt.UpdateCommit | src/rcc/provider/data/postgres.py:222-264 | writes the commit in memory and moves the attempt to the stage that follows |
| Attempts.Attempt.Expect | src/rcc/engine.py:457-506 | an expected message advances the stage only when the reader delivered it |
| Attempts.Attempt.CleanupTests | src/rcc/engine.py:619-625 | asked for only while no download is running; removes the work directory unless it raises |
| Attempts.Attempt.GatherDownloads | src/rcc/engine.py:175-178 | a batch has fully finished before its first error is raised |
| Attempts.Attempt.Prepare | src/rcc/engine.py:766-779 | whatever fails, no download is running afterwards; on success every file of the commit, the exercise and its test cases has arrived |
| Attempts.Attempt.Overlap | src/rcc/engine.py:707-758 | the overlapping prefetch: on every way out but a cancelled fetch the download has been awaited |
| Attempts.Attempt.Prefetch | src/rcc/engine.py:707-763 | goes on only with stale results deleted and PROCESSING written |
| Attempts.Attempt.Compile | src/rcc/engine.py:454-485 | after both messages: ERROR with the stripped compiler output exactly when that is not empty, otherwise COMPILED |
| Attempts.Attempt.Build | src/rcc/engine.py:453-491 | the write that closes the build leaves the commit rejected exactly when it is compilable and the compiler wrote something, and which columns it then has |
| Attempts.Attempt.Execution | src/rcc/engine.py:493-509 | RUNNING is written between the two messages of the execution |
| Attempts.Attempt.RunContainer | src/rcc/engine.py:408-524 | returns normally only after the messages of its path, with the commit rejected or run and every column determined; the container is removed exactly when the log was followed to its end, and a failure after the first event leaves it behind |
| Attempts.Attempt.FollowLog | src/rcc/engine.py:453-509 | the log is followed to its end exactly when nothing raises, by the messages of the commit's path |
| Attempts.Attempt.CloseContainer | src/rcc/engine.py:510-522 | the container is removed however the wait ends; only a failing wait that did not time out, or a failing kill, raises |
| Attempts.Attempt.RunTests | src/rcc/engine.py:527-549 | results for every test case unless compilation failed, and a log that begins with the expected messages |
| Attempts.Attempt.ComputeScore | src/rcc/engine.py:596-616 | the number of CORRECT results, ten times their share of the cases, COMPLETED exactly when all are; zero after a compilation error; no other column changes |
| Attempts.Attempt.FailAttempt | src/rcc/engine.py:780-786 | of the columns the attempt last wrote only the status changes, to INTERNAL_ERROR; the work directory goes exactly when the write succeeds, cleanup is configured and does not raise |
| Attempts.Attempt.PublishScore | src/rcc/engine.py:804-805 | the scored commit reaches the row |
| Attempts.Attempt.SaveResults | src/rcc/engine.py:802-822 | results stored after the score, output uploaded if there is any, and any later failure turned into INTERNAL_ERROR |
| Attempts.Attempt.StoredIsFinished | src/rcc/engine.py:803-823 | a stored attempt is finished: compiler verdict, results, count, score, status, downloads, log, container and work directory |
| Attempts.Attempt.HearCompilation | src/rcc/engine.py:454-469 | COMPILING is written between the two compilation messages and never before the first |
| Attempts.Attempt.SetUp | src/rcc/engine.py:643-690 | a storage failure keeps every column but the status, a failing work directory resets the commit first |
| Attempts.Attempt.ProcessCommit | src/rcc/engine.py:628-823 | every way out is allowed by the protocol; a normal one leaves the row finished: ERROR exactly when the compiler rejects the commit, COMPLETED exactly when every test case of the exercise passes, with the results, count and score that belong to it, after the calls of its path in order, with everything in place before the container starts and the work directory removed last; an exception that escapes is that of the last statement or of the cleanup; with the settings it needs present, it raises or ends at INTERNAL_ERROR exactly when some call on its way failed whose failure `run` does not handle itself; a download is left running exactly by a cancelled fetch or a raising write at line 763 |
| Claims.ClaimIsExclusive | src/rcc/engine.py:911-949 | in every reachable state at most one task holds a commit, and its row is then not IN_QUEUE |
| Claims.RowChange | src/rcc/provider/data/postgres.py:307-354 | a row changes only by its holder or by a claim, and goes back to IN_QUEUE only by its holder's release from PROCESSING, which gives up the claim |
| Claims.AbandonedForever | src/rcc/engine.py:921-930 | a row out of the queue and held by nobody never changes again, whatever copies are queued |
| Claims.NormalEndIsPermanent | src/rcc/engine.py:931-932 | after a normal end the row keeps the attempt's data and results for the rest of the run |
| Claims.FatalEndIsPermanent | src/rcc/engine.py:933-935 | a failure that stops the worker keeps the claim, and the row never changes again |
| Claims.ReleaseRetriesOrStrands | src/rcc/engine.py:936-946 | a release requeues the commit exactly when it takes effect on a PROCESSING row, and otherwise the row stays |
| Claims.RaisedClaimStrands | src/rcc/engine.py:921-927 | a raising claim leaves the commit queued exactly when it took no effect, and otherwise strands it |
| Claims.ProcessingHasStart | src/rcc/provider/data/postgres.py:315-317 | a PROCESSING row always has a start time |
| Tasks.WonClaimStartsAttempt | src/rcc/engine.py:921-932 | a claim starts an attempt exactly when it returns on a queued row; in every other case the task is through |
| Tasks.TaskStandsAtLast | src/rcc/engine.py:911-949 | in every run a task stands where its last step left it: after a retryable failure it gives the commit back, after a normal or fatal end only the slot |
| Tasks.FlagMeansFatalEnd | src/rcc/engine.py:933-935 | a worker's fatal flag is set exactly when an attempt of one of its tasks has ended by a non-retryable exception |
| Tasks.EveryTurnChecks | src/rcc/engine.py:953-967 | between any two requests of a worker to the queue it has found its fatal flag clear |
| Tasks.CopiesBecomeTasks | src/rcc/engine.py:953-990 | each worker turns the copies it pulls, in order and one by one, into tasks on the same commits, except where the spawn failed |
| Tasks.PollsReachQueue | src/rcc/__init__.py:200-216 | the copies put and those still to be put are the commits polled, in order; after an interruption a prefix of them |
| Tasks.NothingLostAfterInterrupt | src/rcc/__init__.py:210-216 | a put that the interruption left running is neither lost nor repeated |
| Passing.CommitPasses | src/rcc/engine.py:911-997 | a run in which a commit is submitted, polled, claimed, attempted and stored as COMPLETED |
| Workers.SlotConservation | src/rcc/engine.py:904-984 | free slots, held slots and unfinished tasks add up to the concurrency in every reachable state |
| Accounting.InFlightBound | src/rcc/config.py:141-144 | the commits in flight never exceed the total of slots |
| Workers.TasksHaveOpenPool | src/rcc/engine.py:951-997 | no task runs on a pool that is not open |
| Workers.OneSpawnAfterFatal | src/rcc/engine.py:951-990 | a worker that spawns with its fatal flag set never spawns again |
| Accounting.QueueAccounting | src/rcc/engine.py:953-991 | what was put is what was pulled, in order, plus what is queued; unfinished is queued plus pulled and unmarked |
| Accounting.PipelineBound | src/rcc/config.py:147-154 | commits queued, waiting, or in flight never exceed 2NC + N + NC |
| Histories.OthersKeepAttempt | src/rcc/engine.py:915-932 | no step of another process reaches a task in its attempt or its row |
| Histories.TaskFollowsProtocol | src/rcc/engine.py:921-932 | the steps of a task since its claim are a run of the attempt automaton, and its row is what they made of the row it claimed, whatever the other processes did in between |
| Histories.HolderWon | src/rcc/engine.py:921-932 | every attempt in progress was begun by a claim its task won (and by `Tasks.WonClaimStartsAttempt` every won claim begins one) |
| Histories.FailedVerdictIsPermanent | src/rcc/engine.py:933-946 | an attempt that ends by an exception on a COMPLETED or INCOMPLETE row leaves it for good, with the count and score of its results, and with these stored exactly when their store took effect |
| Shutdown.HintSupply | src/rcc/__init__.py:89-93 | workers still in their loop plus workers that failed are the queued hints plus those still to be put plus those missed |
| Shutdown.MissedHintBlocksShutdown | src/rcc/__init__.py:90-97 | with more missed hints than failed workers some worker has not stopped |
| Shutdown.ShutdownHangs | src/rcc/__init__.py:90-97 | and so it stays for as long as fewer workers have failed than hints were missed |
| Shutdown.ShutdownComplete | src/rcc/__init__.py:89-97 | when the parent has joined all workers, nothing is in flight, no pool is open, each worker took one hint unless it failed, and leftover and missed hints together are as many as failed workers |
| Shutdown.CleanShutdown | src/rcc/__init__.py:89-97 | and if none failed, no hint was missed, none is left, and the queue is empty exactly when nothing was put after the last hint |
| Shutdown.QuitsGrow | src/rcc/engine.py:953-990 | a worker that left its loop on a failure has left it for good |
| Drain.WorkFalls | src/rcc/engine.py:953-997 | during the shutdown no step raises a measure, and every productive one lowers it |
| Drain.ShutdownIsBounded | src/rcc/engine.py:953-997 | between any two states of a shutdown there are at most as many productive steps as the measure fell, however many empty polls lie between them |
| Drain.ShutdownStuck | src/rcc/__init__.py:89-97 | a shutdown that is not done cannot go on exactly when it is starved of a hint or jammed by a full queue |
| Drain.ShutdownOutcome | src/rcc/__init__.py:89-97 | where it comes to rest: jammed when a hint is due, starved when more hints were missed than workers failed, otherwise done |
| Drain.ShutdownNeverStuck | src/rcc/__init__.py:89-97 | with no worker failed and no hint missed it goes on until it is done |
| Drain.ShutdownSettles | src/rcc/__init__.py:89-97 | every shutdown can be continued until it comes to rest; with no failure that is a completed one when no hint was missed, and a starved one otherwise |
| Drain.JammedForever | src/rcc/__init__.py:92-93 | a jammed shutdown stays jammed |
| Drain.StarvedForever | src/rcc/__init__.py:95-97 | a starved shutdown stays starved, with no step that makes progress, until a worker fails |
| Hangs.HintRace | src/rcc/__init__.py:90-97 | a run with two workers in which a hint is missed and the shutdown starves |
| Hangs.FullQueueJam | src/rcc/__init__.py:90-93 | a run with one failing worker and a full queue in which no hint is missed and the shutdown jams |
| Refinement.DueCanBePolled | src/rcc/__init__.py:202-216 | what the poller selects is a choice the system allows |
| Refinement.EventIsStep | src/rcc/engine.py:931-932 | an event of an attempt is one enabled step of its task with the same effect on the row |
| Refinement.PlayedSoFar | src/rcc/engine.py:931-932 | a task whose steps so far are the first events of a recorded attempt stands where the attempt stood, and so does its row |
| Refinement.AttemptAdvances | src/rcc/engine.py:931-932 | the next event of a recorded attempt is an enabled step of its task, however many steps other processes have taken since the last |
| Refinement.AttemptWaits | src/rcc/engine.py:915-932 | a step of any other process leaves a played attempt where it is |
| Refinement.AttemptCanBePlayed | src/rcc/engine.py:931-932 | every run in which the attempt's task holds its claim can be continued by all the events still missing |
| Refinement.AttemptIsTaskRun | src/rcc/engine.py:931-949 | after all its events the task can end as the attempt did, with the attempt's row |
| Refinement.RunCommit | src/rcc/engine.py:911-949 | the slot is given back on every path; a won claim runs the attempt, whose end decides between processed, kept and given back, and what each leaves in the row and in the fatal flag; if nothing fails the commit is processed |
| Polling.Untracked | src/rcc/__init__.py:74 | exactly the fetched ids that are not tracked |
| Polling.UntrackedAppend | src/rcc/__init__.py:74 | selected commit by commit, in fetch order |
| Polling.UntrackedOne | src/rcc/__init__.py:74 | a commit is selected exactly when it is not tracked |
| Polling.Due | src/rcc/__init__.py:69-74 | exactly the fetched ids whose entry does not survive the pruning |
| Polling.Poller.SelectNewCommits | src/rcc/__init__.py:55-74 | keeps exactly the entries that are fetched and stamped at or after the cutoff, and selects the commits without one |
| Polling.Poller.PutAll | src/rcc/__init__.py:210-216 | puts the commits in order and stamps each one |
| Polling.Poller.Cycle | src/rcc/__init__.py:200-216 | after a successful cycle the tracked ids are the fetched ones, stamped at or after the cutoff |
| Polling.RememberAcrossFetch | src/rcc/__init__.py:69-73 | pruning forgets a put only if the fetch lacked its commit or its window had passed |
| Polling.RememberAcrossPut | src/rcc/__init__.py:215-216 | a put keeps all puts of one commit separated |
| Polling.PutsAreSeparated | src/rcc/__init__.py:58-68 | two puts of one commit have a fetch without it between them, or more than the window between their stamps |
| CaseFiles.GroupByCase | src/rcc/provider/data/postgres.py:424-428 | the dictionary holds for every case what a query for it alone would return |
| CaseFiles.FetchTestCases | src/rcc/provider/data/postgres.py:383-431 | every test case gets exactly its files, in order, or none |
| CaseFiles.FilesForAppend | src/rcc/provider/data/postgres.py:424-430 | a case's files are those of its rows, in the order they were returned |
| CaseFiles.FilesForRow | src/rcc/provider/data/postgres.py:424-428 | a row contributes its own path to its own case and nothing to others |
| CaseFiles.OtherRowsDoNotMatter | src/rcc/provider/data/postgres.py:402-410 | rows of other cases may be interleaved anywhere |
| CaseFiles.EveryRowHandedOnce | src/rcc/provider/data/postgres.py:420-430 | every returned row ends up with exactly one case |
| Sleeping.Sleeper.Create | src/rcc/util.py:93-108 | raises on a negative time or fewer than one step, and swaps times in the wrong order |
| Sleeping.Sleeper.Reset | src/rcc/util.py:110-111 | the schedule starts again from its first time |
| Sleeping.Sleeper.SleepTime | src/rcc/util.py:116-127 | the k-th increasing call returns min + (max - min) times the square of min(k, n)/n |
| Sleeping.AlphaClosedForm | src/rcc/util.py:122-126 | alpha after k guarded increments is min(k, n)/n |
| Sleeping.ScheduleRises | src/rcc/util.py:81-86 | times rise from the minimum to the maximum and reach it at call n |
| Sleeping.WithinMaximum | src/rcc/util.py:122-123 | a time keeps to the maximum exactly when alpha has not passed 1 or the two times coincide |
| Sleeping.GuardBound | src/rcc/util.py:122-127 | what the guard alone gives for inexact additions |
| Sleeping.TenTenthsFallShort | src/rcc/util.py:106-126 | in binary64 ten additions of 0.1 stay below 1, and an eleventh passes it |
| Sleeping.DefaultSleeperOvershoots | src/rcc/util.py:94-127 | so a default timer oversleeps exactly from the twelfth call on, unless its two times coincide |

## Left out

- Pull loops, tasks and the parent of the whole system are steps on values, not objects: their awaits interleave, so `process_commits`, `_stop_workers` and the loop of `main` have no imperative form here. `run_commit`, the attempt, the table, the log reader and the poller do.
- Cancellation in the middle of an await, a second Ctrl-C, `terminate()`, a worker process that dies: excluded steps. The one cancellation kept is a cancelled fetch of the test cases.
- Statements that take effect after they have raised, and a `queue.get` that raises after removing an item: assumed not to happen.
- Other writers of the commits table, apart from the insertion of new queued commits: assumed not to exist.
- Docker, S3, psycopg, sockets, SQL text, base64: only whether a call raises and its effect on the rows is kept. Times of start and end are kept as set or not set.
- Zip handling, output archives, the container's configuration file: a call that may raise. What the language table says of the source file, the exercise's test cases and the number of its files, the container's log, the compiler's error file and the files of each test case are inputs of an attempt (`Attempts.Inputs`).
- Which calls raise, how far the log thread has come and whether a wait is over are left open at every call; the columns `compiled_signal` and `compiled_message` are not kept.
- Characters and numbers: the whitespace predicate, lower-casing and `float()` are parameters; lower-casing is assumed to keep a trailing space where the two text relations are compared.
- Rounding of scores and of number comparisons: exact reals. `Sleeping` treats rounding separately.
- Configuration parsing and validation: the number of workers, the concurrency and the suppression window are parameters.
- Fairness and real time: where a shutdown can come to rest and how many productive steps it has are proved, not that it gets there by a given time.
- After `_stop_workers`: the interpreter's own wait for its executor threads, where a put that the interruption left running could also find a full queue.
- Sleeping.DefaultSleeperOvershoots: the additions to alpha are rounded as in binary64, the blend of the two times is exact.
