# A verified model of lsfmgr

lsfmgr submits, watches and kills batch jobs. Its difficult part is not any single function but how
several threads meet around one locked Store: the launch loop and the worker threads of a submit cycle,
retry timers, kills that raise barriers, pollers, callback fetchers that may hang, and a GUI thread
that receives everything late. This project models those machines in Dafny 4.11 and proves what they
keep over every interleaving. `dafny verify dfyconfig.toml` checks all of it.

## How it is modelled

- What the program updates in place is a class with the same fields (`SubmitContext`, `SubmitGate`,
  `KillScope`, `StatusLedger`, `FetchState`, `Querier`, `StatePacer`, `Scheduler`, `Database`,
  `HandlerService`, `CompletionTracker`, `JobsetTable`, `JobSetManager`, `Deliverer`, `JobMemory`). Every method is
  proved against a pure function of the old state, loops included.
- Those functions are the steps of a state machine in which every locked section, queued slot, timer
  firing and callback return is one action. An action whose guard fails changes nothing, so a run is
  simply any sequence of actions, and a theorem about all runs quantifies over all sequences.
- LSF, the status callback, the wrapper and the clock are adversaries: their answers are parameters of
  the actions. Times are integers.
- A job's execution is a number never used twice (its generation); a kill's scope carries a tag for the
  identity of its frozenset.
- Histories (signals sent, answers merged, looks taken) are kept as plain sequences, so that theorems
  can speak about order and about "exactly once".

| file | what it holds |
|---|---|
| `JobModel`, `Ledger`, `Latest` | job states, the dict-of-lists ledger, latest-of-several reports |
| `Submission`, `ResetLoop`, `SubmitCycle`, `SubmitCycleProofs`, `SubmitAttempts` | the context of one submit cycle, the reset loop of its launch, its threads, conservation and finished-last, attempts counted over runs |
| `Lifecycle`, `KillBarrier`, `KillBarrierProofs`, `KillEscape`, `KillSpares`, `SubmitRecords`, `RecordWrites` | gate, kills and all cycles of a jobset together; when a kill is complete; whom it spares; what the Store says then |
| `InternalStatus`, `LedgerOrder`, `FetchProtocol`, `StatusQueries` | the callback status source: ledger, out-of-order merging, single flight with takeover, a query from interest to answer |
| `Polling`, `LockTable`, `PollingRuns` | the LOST verdict of queries that come one by one, the self-cleaning lock table, and any number of queries contending for it |
| `StatusMerge`, `IdQueries` | merging and folding of answers, overlapping readers |
| `Chunks`, `Killing`, `KillChunks` | argument chunks, bkill answers, confirmation rounds, marking |
| `Pacing`, `Handlers`, `Completion`, `Delivery`, `Cleanup` | display dwell, handler queue, completion latch and tokens, delivery order, what is forgotten about deleted jobs |
| `Store`, `JobSets` | counters beside the records, batch transitions, all-or-nothing edits |
| `MockScheduler`, `SchedulerCapacity`, `SchedulerPlan` | the slot allocator that works from stale snapshots: limits over all runs, and what a tick decides |

## Where the promise and the code differ

- **No submission escapes a kill** (`lsfmgr/lifecycle.py:1-23`) is not true of every run. A failing
  attempt files its retry before its own `finally` block runs (`lsfmgr/submitter.py:133-144`,
  `lsfmgr/submitter.py:534-539`), the in-flight marks are a set of keys, and a retry may start at once.
  If the retry enters before the first thread leaves, that thread takes the retry's mark with it, and a
  kill that begins now finds the key quiet: `acquire()` returns True while the wrapper runs. `ARetryEscapes`
  is such a run. `NothingEscapesIffNoRetries` is the exact condition over all runs: the promise holds if and
  only if `max_retry` is 0. With retries, `OnlyAnOvertakenJobIsInside` shows that such an overtaken key
  is the only exception, and `NoneEntersAScopeThatIsHeld` that even then nothing new enters.
- **Range targets** (`id[m-n]`) are never confirmed by bkill's own output, because its lines name jobs and
  single elements (`lsfmgr/command.py:189-242`). `ConfirmableExactlyJobsAndElements`: some output confirms
  a target if and only if it is a whole job or one element. For the others `KillConfirm` says what becomes of
  them: they are left over, with every retry used up, if and only if no round that asked for them timed out
  with a re-query that showed them gone.
- **Kill progress** stays within 0 and the total, but it is not monotone: every round ends by reporting the
  total, and a retry starts again from what is closed (`lsfmgr/killer.py:511-517`).
  `ProgressFallsIffARetryIsSplit`: the reports never fall if and only if every retry round was one single
  bkill call. `ProgressCanFall` is a kill of two jobs that reports 1, 2, 1, 2.
- **Order of merged answers**: that late answers cannot undo newer ones is true, but of two answers that
  began at the same instant the one merged last wins. `OrderIsIrrelevantIffLatestAgree` is the exact
  condition: no completion order leaves another entry for an element if and only if nobody asked for its
  job or all answers that mention it with the latest start time say the same.
  `EqualStartsDoDependOnOrder` gives two answers that fail it, and `TwoFetchesMayStartTogether` a run of the
  fetch protocol with two outstanding fetches of one start time.

## Model

| member | source | states |
|---|---|---|
| `SubmitCycleProofs.Conservation` | `lsfmgr/submitter.py:832-861` | after any events of a submit cycle, done = succeeded + failed + cancelled, and done + units still to launch + units with a task + waiting retries = total; the retry ledger holds exactly the units that wait for a timer |
| `SubmitCycleProofs.EachOutcomeInItsClass` | `lsfmgr/submitter.py:832-861` | over every run each counter is the number of units counted with its own outcome |
| `SubmitCycleProofs.FinishedOnceAndLast` | `lsfmgr/submitter.py:882-926` | finished is sent at most once, only when every unit is counted, as the last signal and with the final counters; the jobs_changed batches before it are exactly what was buffered, in order and once each, whatever the throttle decides; while it is due some thread will still send it |
| `SubmitCycleProofs.StepKeeps` | `lsfmgr/submitter.py:114-203` | every single event keeps the invariant of the cycle: counters, ledger, in-flight set, signals and the end agree with the units |
| `SubmitCycleProofs.RunKeeps` | `lsfmgr/submitter.py:208-1017` | the invariant holds over every sequence of events |
| `SubmitCycleProofs.OpenHolds` | `lsfmgr/submitter.py:438-469` | a newly registered cycle, partly or wholly refused, satisfies the invariant |
| `SubmitCycleProofs.KeysStay` | `lsfmgr/submitter.py:332-402` | no event adds or loses a unit of work |
| `SubmitAttempts.AttemptsCountFailures` | `lsfmgr/submitter.py:641-681` | over every run of a cycle: the attempt that a waiting or running unit carries, and that the retry ledger holds, is the number of its failed wrapper calls so far, at most max_retry; the wrapper is called at most max_retry + 1 times for a job |
| `SubmitAttempts.GivesUpExactlyWhenUsedUp` | `lsfmgr/submitter.py:651-698` | over every run: a failed call leads to a retry exactly if this failure may be retried, at most max_retry calls have failed and neither job nor cycle is cancelled; and to SUBMIT_FAILED exactly if the record stands, the job is not cancelled, and the calls are used up, the failure is final or the cycle was cancelled |
| `SubmitAttempts.EveryRetryIsTold` | `lsfmgr/submitter.py:660-681` | over every run the retry states of a job that go into the batches are RETRY_WAIT and SUBMITTING in turn, once per call but the first: no retry begins unannounced, none is announced twice |
| `SubmitAttempts.UnitsAreCountedForAReason` | `lsfmgr/submitter.py:332-402` | a unit is counted as its task ended it; without a task it is counted as cancelled, and only a launch that fails counts what is left as failed |
| `SubmitAttempts.ProgressNeverFalls` | `lsfmgr/submitter.py:882-926` | over every run the progress a cycle reports is out of its total, never falls and never runs ahead of what is counted |
| `Submission.SubmitContext.EnterInflight` | `lsfmgr/submitter.py:526-532` | entering is refused exactly when the cycle or the key is cancelled, and otherwise lists the key, in one section |
| `Submission.SubmitContext.LeaveInflight` | `lsfmgr/submitter.py:534-539` | the key is taken out of the in-flight set, whoever put it in |
| `Submission.SubmitContext.CancelScope` | `lsfmgr/submitter.py:474-488` | cancels the whole cycle, or adds exactly the keys of the scope to the cancelled ones |
| `Submission.SubmitContext.AbortRetries` | `lsfmgr/submitter.py:571-586` | pops exactly the waiting retries the scope covers |
| `Submission.SubmitContext.ScheduleRetry` | `lsfmgr/submitter.py:765-771` | files the retry under its key |
| `Submission.SubmitContext.PopRetry` | `lsfmgr/submitter.py:776-780` | pops the retry if it is still there |
| `Submission.SubmitContext.Busy` | `lsfmgr/submitter.py:513-518` | one look of the wait: covered keys still in flight, none exactly when the scope is quiet |
| `Submission.SubmitContext.Count` | `lsfmgr/submitter.py:832-861` | one class and done move together, the changed records are buffered |
| `Submission.SubmitContext.NoteTransition` | `lsfmgr/submitter.py:863-880` | buffers a record without counting |
| `Submission.SubmitContext.EmitProgress` | `lsfmgr/submitter.py:882-898` | sends and empties the buffer only before the end and only if the throttle passes |
| `Submission.SubmitContext.FinishIfDone` | `lsfmgr/submitter.py:900-926` | the closing section: last progress, last batch, finished, in this order and once |
| `Submission.SubmitContext.FinishForced` | `lsfmgr/submitter.py:955-975` | a rejected or failed launch settles all remaining units in one class |
| `Submission.WaitScope` | `lsfmgr/submitter.py:490-524` | the wait of a kill: True exactly if the first look that is not (busy with time left) finds the scope quiet, at once for a scope without keys; False exactly if it finds it busy with no time left |
| `ResetLoop.ResetRecords` | `lsfmgr/submitter.py:332-402` | every key is either launched, in order, or counted as cancelled, the refused ones at the end; a launched record is a fresh execution without a trace of the old one but with the index, directory and user data of the job; a failing Store costs and reports its own key only; the ids to forget are exactly those the launched keys gave up |
| `Lifecycle.SubmitGate.Register` | `lsfmgr/lifecycle.py:71-95` | refuses exactly the keys a raised barrier covers; registers unless all keys of a non-empty cycle are refused; in one section |
| `Lifecycle.SubmitGate.Unregister` | `lsfmgr/lifecycle.py:97-104` | removes one registration of this very activity; idempotent |
| `Lifecycle.SubmitGate.BarrierUp` | `lsfmgr/lifecycle.py:112-116` | adds the barrier and hands over the activities of that moment |
| `Lifecycle.SubmitGate.BarrierDown` | `lsfmgr/lifecycle.py:118-120` | removes one barrier of this scope object and nothing else |
| `Lifecycle.KillScope.Begin` | `lsfmgr/lifecycle.py:156-165` | raises the barrier once and cancels the scope in every activity taken over, waiting retries included |
| `Lifecycle.KillScope.Release` | `lsfmgr/lifecycle.py:177-183` | lowers only its own barrier, and only if it raised one |
| `Lifecycle.RefusedByOneMore` | `lsfmgr/lifecycle.py:83-87` | each further barrier refuses exactly the keys it covers |
| `KillBarrierProofs.RunKeepsBarrier` | `lsfmgr/lifecycle.py:60-183` | over every interleaving of submissions, kills, timers and releases: the gate lists exactly the registered cycles and the raised barriers; a cycle a raised kill did not take over is finished or refuses the whole scope; what a kill has cancelled stays refused; what it has waited for stays quiet |
| `KillBarrierProofs.NextKeeps` | `lsfmgr/lifecycle.py:71-183` | one action keeps that invariant |
| `KillBarrierProofs.StepOnward` | `lsfmgr/submitter.py:474-539` | cancellation and the end of a cycle are final, and only a key that is not refused enters the in-flight set |
| `KillBarrierProofs.CycleMoveKeepsKill` | `lsfmgr/lifecycle.py:167-175` | whatever a cycle does next, a kill keeps all it holds over it, although the cycle may be unregistered already |
| `KillBarrierProofs.NewCycleKeepsKill` | `lsfmgr/lifecycle.py:78-95` | a cycle that registers under a raised barrier is shut out of its scope |
| `KillBarrierProofs.RaiseAgrees` | `lsfmgr/lifecycle.py:112-116` | when a barrier goes up, every cycle outside the activities is over or was turned away |
| `RecordWrites.AKillGetsOn` | `lsfmgr/lifecycle.py:156-175` | each step of its own brings acquire() nearer to its return, a wait at the latest when its time is up; it returns True unless some wait ran out of time |
| `RecordWrites.AReleaseLowersTheBarrier` | `lsfmgr/lifecycle.py:177-183` | a release takes exactly one barrier of its scope down |
| `KillEscape.OnlyAnOvertakenJobIsInside` | `lsfmgr/lifecycle.py:167-183` | between acquire() returning True and release(), in every cycle, a covered job is inside the submit section only if its own retry overtook an earlier thread, without retries never; and it is over or refused |
| `KillEscape.NoneEntersAScopeThatIsHeld` | `lsfmgr/lifecycle.py:71-95` | from such a state no action whatever, not a retry and not a new cycle, lets a covered job in or lists it as in flight |
| `KillEscape.NothingEscapesIffNoRetries` | `lsfmgr/submitter.py:133-144` | the promise 'no submission escapes a kill' holds over all runs if and only if max_retry is 0 |
| `KillEscape.ARetryEscapes` | `lsfmgr/submitter.py:776-785` | with retries: a concrete run in which acquire() returned True while the wrapper runs its second attempt |
| `KillSpares.OnlyTargetsAreRefused` | `lsfmgr/lifecycle.py:15-19` | over every run a job is refused by its submit cycle only if some kill or cancellation was aimed at that very job; a selective kill stops nothing else |
| `SubmitRecords.AcquiredKillSeesEveryId` | `lsfmgr/submitter.py:591-603` | when a kill has its scope, a covered job not overtaken by its retry is neither in the wrapper nor between wrapper and Store, and if it succeeded its record carries the id unless the record is gone or of another execution |
| `SubmitRecords.AcquiredKillResolvesEveryId` | `lsfmgr/killer.py:446-456` | resolving the keys after acquire() finds the id of every covered success whose record still stands for that execution |
| `SubmitRecords.NoRecordIsLeftSubmitting` | `lsfmgr/submitter.py:700-830` | a record in SUBMITTING or RETRY_WAIT always has a unit of the newest cycle at work on it; after finished none is left; also when a retry that is given up reads its record in one step and writes it in another |
| `SubmitRecords.EventMoves` | `lsfmgr/submitter.py:146-197` | per event and key: the record keeps its execution and id unless the reset starts a new one or the wrapper's id is written; success is counted only with the id written |
| `RecordWrites.EveryWriteIsRight` | `lsfmgr/submitter.py:591-830` | every step of a cycle writes the record exactly as the move of its unit says: a fresh execution at the reset, SUBMITTING and RETRY_WAIT around retries, id and PEND on success, SUBMIT_FAILED on giving up, CANCELLED for a submission withdrawn while open; and not at all when the unit stays |
| `RecordWrites.ThreadsEndOnce` | `lsfmgr/submitter.py:534-539` | a task that ends or hands over to a retry leaves exactly one thread to run its finally block, which leaves once; a counted unit is followed by one look for the end |
| `SubmitRecords.TaskEndsForAReason` | `lsfmgr/submitter.py:591-730` | success is counted only with the wrapper's id written as PEND, failure only for a refused attempt that may not be retried and with SUBMIT_FAILED written, cancellation only for a refused key or a vanished record, which is then in no submitting state |
| `SubmitRecords.RunKeepsRecords` | `lsfmgr/submitter.py:332-402` | over every interleaving with kills, polling, edits and deletions no id written by a submission is lost or overwritten within one execution |
| `SubmitRecords.EndedStepIsStill` | `lsfmgr/submitter.py:948-953` | late events of an ended cycle move no unit and write no record |
| `Ledger.Add` | `lsfmgr/util.py:68-70` | appends under the key, other keys untouched, no empty list appears |
| `Ledger.Remove` | `lsfmgr/util.py:73-83` | removes one occurrence, drops an emptied list, idempotent |
| `Ledger.RemoveFirstContents` | `lsfmgr/util.py:73-83` | as a multiset exactly one occurrence of the item goes |
| `InternalStatus.StatusLedger.RegisterInterest` | `lsfmgr/internal_status.py:520-524` | interest grows by the ids; True exactly when something was new |
| `InternalStatus.StatusLedger.Forget` | `lsfmgr/internal_status.py:444-460` | entries and interest of exactly these ids go |
| `InternalStatus.StatusLedger.MergeResponse` | `lsfmgr/internal_status.py:768-790` | the ledger after one answer, row by row, stays tidy |
| `InternalStatus.StatusLedger.RefreshRuntimes` | `lsfmgr/internal_status.py:792-815` | only running times of entries left out of the answer move |
| `InternalStatus.StatusLedger.Prune` | `lsfmgr/internal_status.py:830-849` | over elements: when a sweep runs, an element stays exactly if it is neither DONE nor EXIT or ended no longer ago than the retention, by its finish time or else by when it was seen; a job leaves ledger and interest with its last element; at most one sweep per interval |
| `InternalStatus.StatusLedger.StatusesByIds` | `lsfmgr/internal_status.py:417-436` | without a usable fetch every id is undecided and none absent; else every known element of each id, in order; StatusQueries says where the verdict on the fetch comes from |
| `InternalStatus.PrunedIsTidy` | `lsfmgr/internal_status.py:830-849` | after expiry the ledger keys still lie inside the interest, with non-empty element maps |
| `StatusQueries.OnlyOldEndsLeaveTheInterest` | `lsfmgr/internal_status.py:817-849` | in the composed system a job leaves the interest only when forgotten or when all its elements ended longer ago than the retention; one with an element on LSF is safe |
| `StatusQueries.OnlyOldEndsUnsettleAQuery` | `lsfmgr/internal_status.py:817-849` | a query counts on a job until it is forgotten or an element of it that ended that long ago goes |
| `StatusQueries.SweepsDropExactlyOldEnds` | `lsfmgr/internal_status.py:830-849` | a sweep drops exactly what ended long ago from ledger and interest |
| `StatusQueries.ForgottenIsGone` | `lsfmgr/internal_status.py:444-460` | forgetting takes jobs out of the interest, the ledger and what queries count on, and leaves the others |
| `LedgerOrder.AnswersKeepTheLedgerTidy` | `lsfmgr/internal_status.py:768-790` | answers never bring in a job nobody asked for or a job without elements |
| `LedgerOrder.LedgerHoldsTheLatestStarted` | `lsfmgr/internal_status.py:768-790` | each element holds the status of the latest-started answer that mentioned it; answers that leave it out do not touch it (running time aside) |
| `LedgerOrder.CompletionOrderDoesNotMatter` | `lsfmgr/internal_status.py:658-725` | with distinct start times any two completion orders of the same answers leave the same ledger up to running times |
| `LedgerOrder.OrderIsIrrelevantIffLatestAgree` | `lsfmgr/internal_status.py:768-790` | exactly when no completion order of these answers leaves another entry for an element: nobody asked for its job, or all answers that mention it with the latest start time say the same |
| `LedgerOrder.EqualStartsDoDependOnOrder` | `lsfmgr/internal_status.py:781-784` | equal start times can make the order matter: two answers for which it is not irrelevant |
| `LedgerOrder.MergeLookup` | `lsfmgr/internal_status.py:768-790` | one answer overwrites an element exactly if it mentions it and is not older than what is stored |
| `LedgerOrder.AnswerOnOneElement` | `lsfmgr/internal_status.py:768-815` | the whole effect of an answer on one element: what it mentions stands as it said, and of everything else only the running time of a started job on LSF moves, to the time since its start |
| `LedgerOrder.OnlyTheNewestMovesRuntimes` | `lsfmgr/internal_status.py:768-815` | over any answers running times move only with one that began no earlier than all merged before it |
| `Latest.ChoiceIgnoresOrder` | `lsfmgr/internal_status.py:781-784` | the latest of distinctly stamped reports does not depend on their order of arrival |
| `FetchProtocol.FetchState.StartFetch` | `lsfmgr/internal_status.py:613-633` | a new token, one more outstanding fetch; the backup callback is used exactly if the main one is outstanding |
| `FetchProtocol.FetchState.StartOrTakeover` | `lsfmgr/internal_status.py:564-591` | starts when idle, waits before the deadline, takes over after it, gives up at the cap |
| `FetchProtocol.FetchState.NoteOutcome` | `lsfmgr/internal_status.py:737-751` | a verdict not newer than the last one is dropped |
| `FetchProtocol.FetchState.FinishFetch` | `lsfmgr/internal_status.py:691-728` | success never moves the clock back; only the current token ends the fetch |
| `FetchProtocol.OutstandingFetchesAreBounded` | `lsfmgr/internal_status.py:564-633` | outstanding fetches + (1 if none is running) <= 3 in every run; the current fetch's thread exists; the count of outstanding main callbacks is exact |
| `FetchProtocol.TrueMeansFetched` | `lsfmgr/internal_status.py:526-560` | True on a fresh read: a fetch begun at or after the call has been merged; else one inside the refresh window or one merged since the call |
| `FetchProtocol.NobodyWaitsForNothing` | `lsfmgr/internal_status.py:593-611` | a reader not yet notified waits for a thread that exists |
| `FetchProtocol.HealthIsTheLatestVerdict` | `lsfmgr/internal_status.py:737-766` | the health shown is that of the latest-stamped outcome, in whatever order outcomes arrive |
| `FetchProtocol.FailedOnlyAfterTheBackup` | `lsfmgr/internal_status.py:658-725` | over every run a fetch counts as failed only when the backup callback has failed too, if there is one; the verdict noted says which callback answered |
| `FetchProtocol.FetchesBeginWhenDue` | `lsfmgr/internal_status.py:564-641` | over every run a new thread comes only when none is running or the running one had its whole wait; it skips the main callback exactly if a backup exists and a main callback is out |
| `FetchProtocol.LastFetchIsTheLatest` | `lsfmgr/internal_status.py:700-712` | over every run the time of the last fetch is that of the latest-started merged one; late answers never turn it back |
| `FetchProtocol.ReadersLeaveForAReason` | `lsfmgr/internal_status.py:540-611` | a reader leaves with True only on data of the age it asked for or, unless it insists, on a newer fetch that ended while it waited; with False only if closed, out of time, left without anything newer, or at the limit of threads |
| `FetchProtocol.FreshDataIsTaken` | `lsfmgr/internal_status.py:540-562` | a reader leaves with True as soon as it looks and data of its age is there |
| `FetchProtocol.AgeIsFixedOnArrival` | `lsfmgr/internal_status.py:526-542` | how old the data may be, and how long to wait, is fixed when the reader comes |
| `FetchProtocol.LateAndClosedReadersLeave` | `lsfmgr/internal_status.py:540-611` | a reader leaves when its time is up, and as soon as it looks once the source is closed |
| `FetchProtocol.OnlyNewerVerdictsCount` | `lsfmgr/internal_status.py:729-747` | the health shown changes only with an outcome stamped later than the one it shows |
| `FetchProtocol.TwoFetchesMayStartTogether` | `lsfmgr/internal_status.py:658-673` | such answers occur: a run in which a delayed thread and the one that took over from it carry the same start time |
| `StatusQueries.UndecidedExactlyWithoutFetch` | `lsfmgr/internal_status.py:417-436` | in every run with a reader of the fetch protocol: a query leaves all ids undecided exactly if its wait failed, timed out, gave up or was closed; a decided one is backed by a merged fetch of the age it required |
| `StatusQueries.NothingListedIsMissed` | `lsfmgr/internal_status.py:635-644` | interest is registered before the wait and captured after the callback: whatever a callback listed of an id it was parsed for, merged since the query registered and neither forgotten nor expired meanwhile, is in a decided answer, at least that new; and a query with new ids, or one that insists on new data, rests on a fetch that began no earlier, which was parsed for all its ids if it began later |
| `StatusQueries.FoundWasSaid` | `lsfmgr/internal_status.py:768-790` | every element of an answer is what some merged callback answer said of it, running time aside, parsed while its job was of interest |
| `StatusQueries.QueriesRunTheFetchProtocol` | `lsfmgr/internal_status.py:417-611` | every run of the composed system is, for the fetch, a run of the fetch protocol with the same steps, so its theorems hold here |
| `StatusQueries.NewJobsInsistOnNewData` | `lsfmgr/internal_status.py:417-436` | a query insists on new data if it was told to or if nobody had asked for one of its jobs before |
| `StatusQueries.AnswersAreWorkedIn` | `lsfmgr/internal_status.py:630-641` | what a callback lists is held with the interest as it is when it returns, and merged when its thread ends |
| `StatusQueries.MergedElementIsRight` | `lsfmgr/internal_status.py:768-815` | what merging makes of one element, running times included; they move only with an answer that began no earlier than the last fetch |
| `Polling.Querier.PopStreaks` | `lsfmgr/monitor.py:81-83` | takes out the streaks of one jobset |
| `Polling.Querier.SetStreaks` | `lsfmgr/monitor.py:85-103` | writes back only streaks of executions still stored and on LSF |
| `Polling.Querier.Forget` | `lsfmgr/monitor.py:105-128` | drops the streaks of ended executions of these keys, or all; those still tracked stay |
| `Polling.Querier.JudgeMissing` | `lsfmgr/monitor.py:306-367` | in plain arithmetic: a missing job gets a streak exactly if it was answered for and the time since its submission, else since its last update, has reached the grace, or there is no grace or no time; it is due for LOST exactly if its streak then reaches the threshold |
| `Polling.LostIsSound` | `lsfmgr/monitor.py:217-367` | over every run: a record becomes LOST only if it was missing from each of the last N judged cycles, answered, with its grace over at the time of each of these looks, and if the record still was what the cycle had read |
| `Polling.OthersOnlyLowerStreaks` | `lsfmgr/monitor.py:81-128` | forgets, removals, replacements and resubmissions never raise a streak |
| `Polling.LostExactlyWhenTheRunIsLong` | `lsfmgr/monitor.py:217-367` | over all runs, from any moment between two cycles: a record that nobody rewrites becomes LOST if and only if in some later judgement its unbroken run of misses (answered, past the grace, not seen) has reached N; the cycle of that judgement writes it, none before and none after |
| `Polling.OneCycleLooksAtAll` | `lsfmgr/monitor.py:217-304` | a cycle begins exactly if something is on LSF, looks at exactly what is, records what the query answered, and is then ready for the next |
| `Polling.ANewExecutionHasNoPast` | `lsfmgr/monitor.py:96-128` | over every run a resubmitted record has no streak and no look of its own execution, whatever a cycle under way still holds |
| `PollingRuns.QueriesComeOneByOne` | `lsfmgr/monitor.py:140-172` | however many threads query whatever jobsets, each jobset goes through what it would if its queries came one after the other: the run of contending threads is a run of `Polling` |
| `PollingRuns.LostIsSoundUnderContention` | `lsfmgr/monitor.py:140-383` | in such a run LOST is written only by the one thread that holds the lock of the jobset, and only if that execution was missing from each of the last N judgements, whichever threads made them |
| `PollingRuns.LostExactlyWhenDueUnderContention` | `lsfmgr/monitor.py:140-383` | and a record that nobody rewrites is LOST, whenever no query of its jobset is under way, if and only if its run of misses has reached N in some judgement: no judgement of a contending query is lost or counts twice |
| `PollingRuns.StreaksAreMovedAtomically` | `lsfmgr/monitor.py:306-351` | between taking the streaks out and writing them back, no move of anybody else reaches the streaks of the jobset, moves that query on, or adds a judgement |
| `PollingRuns.AcquiredQuery` | `lsfmgr/monitor.py:141-163` | a thread that finds the lock free gets it and begins its query there |
| `PollingRuns.QueryUnderTheLock` | `lsfmgr/monitor.py:217-304` | under the lock a query asks once and judges exactly what is on LSF once; nothing of another jobset moves |
| `PollingRuns.QueryOver` | `lsfmgr/monitor.py:141-163` | when its query is over a thread cannot ask again before it lets go of the lock, which it may do |
| `StatusMerge.MergesExactlyTheChanges` | `lsfmgr/monitor.py:386-419` | a poll writes exactly when the write would change the record, running time aside when it is not wanted |
| `StatusMerge.SecondLookIsQuiet` | `lsfmgr/monitor.py:386-419` | the same answer again changes nothing |
| `StatusMerge.NothingStoredIsLost` | `lsfmgr/monitor.py:386-419` | an answer without a value keeps the stored one; a known id is never replaced |
| `StatusMerge.WhatIsSaidIsTaken` | `lsfmgr/monitor.py:386-419` | what an answer says is what the record says afterwards; where it says nothing, what it said before |
| `StatusMerge.AggregateIsSound` | `lsfmgr/monitor.py:422-454` | a folded array is on LSF iff some element is, EXIT iff all ended and one failed, DONE iff all ended and none failed; its finish time appears only at the end and is the last |
| `StatusMerge.AggregateFields` | `lsfmgr/monitor.py:422-460` | the other fields of a folded array: an exit code only once all has ended and then of a failed element, the latest end, the earliest start, the longest running time, the clusters of some element |
| `LockTable.QueriesNeverOverlap` | `lsfmgr/monitor.py:140-163` | two queries of one jobset never overlap although their lock is deleted and made anew |
| `LockTable.EntryExactlyWhileUsed` | `lsfmgr/monitor.py:140-163` | a table entry exists exactly while a query of its jobset is under way, and all of them use the same lock |
| `IdQueries.QueryTable.Begin` | `lsfmgr/monitor.py:188-190` | one more reader for each id |
| `IdQueries.QueryTable.End` | `lsfmgr/monitor.py:193-215` | one reader less for each id; the last one clears the ids no record stands for |
| `IdQueries.NothingReadIsCleared` | `lsfmgr/monitor.py:174-215` | an id cleared at the end of a query is read by no other query under way |
| `IdQueries.TableIsEmptyWhenNobodyReads` | `lsfmgr/monitor.py:195-201` | without a query under way no reader count is left |
| `Chunks.ChunkArgs` | `lsfmgr/command.py:300-317` | the chunks concatenate to the input, are non-empty and within both limits, and none could take the next item; an error exactly for an item that fits no chunk |
| `Chunks.NoSplitUsesFewer` | `lsfmgr/command.py:300-317` | no other order-preserving split within the limits uses fewer chunks |
| `Chunks.BjobsByIds` | `lsfmgr/command.py:602-639` | every id is in the failed set exactly if it is in a failed or unasked chunk; the query ends early exactly at the first two failures in a row |
| `Killing.ParseBkill` | `lsfmgr/command.py:203-242` | from the lines alone: a job asked for as a whole is resolved exactly if some line of its id, elements included, is printed and none leaves it open, and accepted exactly if one of them is; otherwise a line counts only for exactly what it names |
| `Killing.ResolvedMeans` | `lsfmgr/command.py:203-242` | resolved exactly if some line resolves the target and none leaves it open |
| `Killing.ConfirmableExactlyJobsAndElements` | `lsfmgr/command.py:189-242` | some output confirms a target if and only if it is a whole job or one element; ranges and other forms never |
| `Killing.LineOrderDoesNotMatter` | `lsfmgr/command.py:203-242` | the order of the output lines has no influence |
| `Killing.CollectCalls` | `lsfmgr/command.py:741-810` | each chunk's lines are parsed against that chunk and the results united, whatever their order; a late chunk counts as unknown, not as failed; after each chunk the number of targets processed so far is reported |
| `Killing.ClassifyTargets` | `lsfmgr/command.py:128-156` | a row is hit by the classes exactly if some target names it |
| `Killing.JudgeTarget` | `lsfmgr/killer.py:581-605` | from the rows alone, branch by branch: a job is gone if its query did not fail and no row of it is on LSF; an element or a range only if no row is folded either; it counts as killed unless all its rows, one at least, are DONE |
| `Killing.GoneIsNotAlive` | `lsfmgr/killer.py:548-645` | the re-query after a timeout and the direct verification read rows alike: all targets gone leaves nobody alive, and a record of a whole job is alive exactly if the job is not shown gone |
| `Killing.ConfirmByQuery` | `lsfmgr/killer.py:548-608` | the same for every timed-out target |
| `Killing.KillConfirm` | `lsfmgr/killer.py:497-546` | at most max_retry + 1 rounds, each asked for exactly what was open; pending is requested minus resolved; only claimed and resolved targets are accepted; a target bkill cannot confirm is left over after every retry exactly if no round that asked for it was late with a re-query that showed it gone; what is reported is, round by round, the targets closed before plus those processed since |
| `Killing.ProgressStaysInRange` | `lsfmgr/killer.py:511-517` | over a whole kill every report lies between 0 and the total, and the last report of every round is the total |
| `Killing.BaseNeverFalls` | `lsfmgr/killer.py:511-523` | the count a round starts from never falls from round to round |
| `Killing.ProgressFallsIffARetryIsSplit` | `lsfmgr/killer.py:511-517` | the reports never fall if and only if no retry round was split into several bkill calls |
| `Killing.ProgressCanFall` | `lsfmgr/killer.py:511-517` | an input on which they do: two jobs, one per call, neither confirmed |
| `Killing.EveryKillIsChunked` | `lsfmgr/killer.py:509-535` | the rounds of every kill are as those three presume: each open target is in exactly one call, and only a kill with something left goes on |
| `KillChunks.ChunkedCallsAreInChunks` | `lsfmgr/command.py:764-810` | the chunks made of a list of the open targets, one call each, hand out every open target exactly once, in whatever order the calls complete |
| `Killing.RangesLeaveOnlyByRequery` | `lsfmgr/killer.py:512-532` | the same over any rounds: a range is still open if and only if no round was late on it and showed it gone |
| `Killing.ClosedAndClaimedExactly` | `lsfmgr/killer.py:512-532` | over all rounds a target is closed, and claimed, if and only if the parsed lines of some chunk or the rows of some re-query give the reason |
| `Killing.OpenIsWhatNoRoundClosed` | `lsfmgr/killer.py:512-532` | after any rounds the open targets are the requested ones minus what some round closed |
| `Killing.MarkKilled` | `lsfmgr/killer.py:373-425` | exactly the records whose target was accepted, that are not known alive and still are the planned job are written: ended as KILLED where the optimistic policy finds them on LSF, else only marked, keeping state and reason |
| `Killing.Verify` | `lsfmgr/killer.py:655-674` | the jobs of the kill still on LSF, less those the query failed for; a number only if it failed for none of them; nothing counts as alive if the query failed as a whole |
| `Killing.VerifyDirect` | `lsfmgr/killer.py:676-707` | without a jobset: a record counts as alive exactly if a listed row on LSF is named by a target and the record stands for it, a folded one for every row of its job; the number is that of the records, or of the rows if no record is known; none if the query did not answer for all |
| `Killing.VerificationIsHeard` | `lsfmgr/killer.py:300-315` | the verification counts if it was asked for or some target ended without a claim of this kill, and only then |
| `Killing.RunKill` | `lsfmgr/killer.py:273-325` | with or without a jobset: a record is written if and only if it still is the planned job, its target was closed and claimed by the lines and rows of some rounds, and the verification did not know it to be alive; it is ended or only marked as `MarkKilled` says; the unconfirmed count is the number of open targets |
| `Pacing.StatePacer.Push` | `lsfmgr/pacer.py:76-102` | each row's records pass, wait or replace the last waiting one; rows of other jobsets are at most pruned |
| `Pacing.StatePacer.PushOne` | `lsfmgr/pacer.py:81-98` | one record, one row; all other rows unchanged |
| `Pacing.StatePacer.Drain` | `lsfmgr/pacer.py:130-158` | every row whose dwell is over moves on by exactly one |
| `Pacing.StatePacer.Prune` | `lsfmgr/pacer.py:173-181` | above the threshold exactly the spent entries go |
| `Pacing.StatePacer.Forget` | `lsfmgr/pacer.py:104-116` | waiting and shown entries of exactly these rows go |
| `Pacing.StatePacer.Stop` | `lsfmgr/pacer.py:118-125` | every row gets its last waiting state, later pushes pass at once |
| `Pacing.StatePacer.NextDue` | `lsfmgr/pacer.py:160-171` | the timer is armed exactly while something waits, for the earliest |
| `Pacing.DelayedNeverDropped` | `lsfmgr/pacer.py:76-102` | over every run without forget and shutdown: what was sent followed by what waits equals what was pushed, up to repeats of a state; and each state was on show for dwell minus tolerance before the next one is sent, also across pruning |
| `Pacing.SpacedSpellsOut` | `lsfmgr/pacer.py:90-98` | a state that differs from the one sent before it comes at least dwell minus tolerance after that one was first sent |
| `Pacing.BatchIsARun` | `lsfmgr/pacer.py:76-102` | a batch is, for each row, the run of its own records in order, so what is proved of runs holds of batches |
| `Pacing.NothingWaitsWithoutNeed` | `lsfmgr/pacer.py:76-158` | a push waits exactly behind another one or while a different state still has its time; a tick that comes too early changes nothing |
| `Pacing.NewestIsLastPushed` | `lsfmgr/pacer.py:76-102` | over every run the newest record sent or waiting is, whole, the one pushed last: no update is lost to a state already shown or waiting |
| `Pacing.TicksShowWhatWaits` | `lsfmgr/pacer.py:130-158` | ticks that come in time show what waits, one state each, in order and complete |
| `Pacing.ShutdownShowsTheNewest` | `lsfmgr/pacer.py:118-158` | a shutdown after any run sends exactly the record pushed last to each row that waits, and nothing waits any more |
| `MockScheduler.Database.UpdateGuardedMany` | `mocklsf/db.py:166-187` | exactly the pairs whose compared columns are untouched are written, and reported |
| `MockScheduler.Database.UpdateIfStatIn` | `mocklsf/db.py:189-204` | the patch is written exactly if the current state is allowed |
| `MockScheduler.Database.Kill` | `mocklsf/cli.py:459-482` | a row that ended meanwhile is not revived, a forwarded job is left alone outside its cluster's context; reports exactly the writes |
| `MockScheduler.Database.Stop` | `mocklsf/cli.py:510-546` | only a running or pending row is suspended, as it is now and not as it was read |
| `MockScheduler.Database.Resume` | `mocklsf/cli.py:549-585` | only a suspended row is resumed; its planned end or pending time is moved on |
| `MockScheduler.Scheduler.ChooseHost` | `mocklsf/scheduler.py:41-58` | the loop finds the host of PickedHostIsRoomiest |
| `MockScheduler.PickedHostIsRoomiest` | `mocklsf/scheduler.py:41-58` | the host has room and no acceptable host has more; None exactly if none has room |
| `MockScheduler.FirstOfEqualsIsTaken` | `mocklsf/scheduler.py:51-58` | among hosts with equally much room the first one is taken |
| `MockScheduler.Scheduler.PlanAdvances` | `mocklsf/scheduler.py:72-92` | which active rows end, suspend or go on, from one reading |
| `MockScheduler.Scheduler.PlanDispatches` | `mocklsf/scheduler.py:100-129` | which pending rows start where, in dispatch order, within room, array limit and the limit of one tick |
| `MockScheduler.OrderedInOrder` | `mocklsf/scheduler.py:100-103` | the dispatch order has every pending row once: larger queue priority, then earlier submission, then smaller row id |
| `SchedulerPlan.TickMovesEveryRowRight` | `mocklsf/scheduler.py:69-94` | over any interleaving between reading and writing: an untouched row whose time is up ends, DONE with 0 or EXIT with another code, before that it is suspended exactly in its planned pause; a row touched meanwhile stays as it is |
| `SchedulerPlan.NobodyIsPassedOver` | `mocklsf/scheduler.py:100-129` | with the complete plan every pending job is started, or has not waited its time, or its array is full, or the tick is, or no host it may run on has room |
| `SchedulerPlan.OnlyPendingJobsStart` | `mocklsf/scheduler.py:100-129` | everybody started was pending and starts now on an acceptable host until run time and pause are over; no more than a tick may start |
| `SchedulerPlan.StartsAreWritten` | `mocklsf/scheduler.py:120-135` | after the write a planned job runs as planned if nobody touched it, and is left alone otherwise |
| `SchedulerPlan.ReportedPairsAreWritten` | `mocklsf/db.py:166-187` | a guarded batch reports exactly the pairs that found their row untouched |
| `SchedulerPlan.SubmissionsArrive` | `mocklsf/db.py:135-150` | fresh rows are appended whatever the tick is doing |
| `SchedulerPlan.AQuietTickDoesItsWork` | `mocklsf/scheduler.py:62-131` | a whole undisturbed tick: running rows move as they should, pending ones start or stay, all others stay; one that was considered and still waits has a reason, with all the tick has given away |
| `SchedulerPlan.SuspensionCostsNoTime` | `mocklsf/cli.py:510-570` | a running job stopped and resumed has as much time left as before and is otherwise unchanged |
| `SchedulerPlan.HoldingDelaysTheStart` | `mocklsf/cli.py:524-578` | a pending job stopped and resumed has as long to wait as before |
| `SchedulerPlan.StalePlansAreDropped` | `mocklsf/db.py:166-187` | a plan made before a kill, a stop, or a stop and resume writes nothing to that row |
| `SchedulerCapacity.CapacityHolds` | `mocklsf/scheduler.py:62-131` | under every interleaving of tick phases with bsub, bkill, bstop and bresume: the active CPUs of each host stay within its slots, the active elements of each array within its limit |
| `SchedulerCapacity.EndedRowsStay` | `mocklsf/db.py:166-204` | DONE and EXIT rows never change again, whatever stale snapshot is written |
| `SchedulerCapacity.WritingGainsAtMostTheClaim` | `mocklsf/db.py:166-187` | whatever part of a plan passes its guards, the load grows by at most what the plan claimed |
| `SchedulerCapacity.CommandCalmer` | `mocklsf/cli.py:459-585` | no user command raises any host's or array's load |
| `SchedulerCapacity.PlanAllFits` | `mocklsf/scheduler.py:95-129` | a plan made on a stale reading stays within slots and limits together with everything still running |
| `Handlers.HandlerService.AddHandler` | `lsfmgr/handlers.py:134-157` | a duplicate name is refused |
| `Handlers.HandlerService.RemoveHandler` | `lsfmgr/handlers.py:159-165` | the name is freed; marks of its runs stay |
| `Handlers.HandlerService.Rearm` | `lsfmgr/handlers.py:167-180` | progress of the keys starts again in every handler of the jobset |
| `Handlers.HandlerService.EvalRecord` | `lsfmgr/handlers.py:236-256` | queues a run exactly if the job is not over, not in flight and started or in a start or end state; the end state makes it the last |
| `Handlers.HandlerService.Pump` | `lsfmgr/handlers.py:296-302` | starts min(free workers, queued) workers |
| `Handlers.HandlerService.Fetch` | `lsfmgr/handlers.py:304-316` | the test for an empty queue and the leaving of the worker are one section |
| `Handlers.HandlerService.ClearInflight` | `lsfmgr/handlers.py:270-272` | the mark goes when the run ends |
| `Handlers.NeverTwiceAtOnce` | `lsfmgr/handlers.py:236-337` | at most one run per jobset, handler name and job is queued or running, also across removal and re-registration, and exactly those are marked |
| `Handlers.OneFinalRunPerReset` | `lsfmgr/handlers.py:236-256` | between two resets the runs of a handler for a job are orderly: the first on a start or end state, the last one final exactly on an end state, none after it |
| `Handlers.RunsAreQueuedByTheTurns` | `lsfmgr/handlers.py:236-257` | over every run what a look at a record queues follows from the runs since the reset: one run, final on an end state, exactly if none is in flight, none was final, no unwanted end came, and the state is an end state or goes on or starts |
| `Handlers.RearmStartsAgain` | `lsfmgr/handlers.py:167-180` | a reset starts the runs of the named jobs again in every registered handler of the jobset and nowhere else |
| `Handlers.AddedHandlerIsAsAsked` | `lsfmgr/handlers.py:134-157` | a new name is registered with its own start and end states and no past; a name in use stays as it is |
| `Handlers.QueueIsServed` | `lsfmgr/handlers.py:296-316` | at most 4 workers; outside a tick a non-empty queue always has one that will look at it |
| `Handlers.PumpFillsUp` | `lsfmgr/handlers.py:296-302` | after a pump all workers are busy or every queued run got a new one |
| `Completion.CompletionTracker.Stage` | `lsfmgr/completion.py:62-71` | an older callback is disarmed, the new submission waits for its confirmation |
| `Completion.CompletionTracker.Confirm` | `lsfmgr/completion.py:73-89` | only the own token confirms; arms the callback and opens the latch |
| `Completion.CompletionTracker.Discard` | `lsfmgr/completion.py:91-97` | only the own token discards |
| `Completion.CompletionTracker.Forget` | `lsfmgr/completion.py:169-174` | callback, pending submission and latch of the jobset go together |
| `Completion.CompletionTracker.Observe` | `lsfmgr/completion.py:108-152` | the notification is sent exactly if everything is over, not all of it by kills, the jobset is there and the end was not announced; the armed callback is handed out exactly if everything is over unless the announcement failed with the jobset; the latch opens exactly on something unfinished or a removal |
| `Completion.FinishedOncePerExecution` | `lsfmgr/completion.py:108-152` | between two jobset_finished there is a confirmation, an unfinished record or a removal |
| `Completion.FinishedOnlyWhenConclusive` | `lsfmgr/completion.py:108-152` | every jobset_finished, the first included, is sent on an observation in which all records ended, no submission and no covering kill is open, and not all were killed |
| `Completion.EveryEndIsAnnounced` | `lsfmgr/completion.py:108-152` | over every run: an observation that finds everything over, not all by kills, in a jobset still there, sends the notification if and only if this end was not noticed since the last confirmation, unfinished look or removal; afterwards it is noticed |
| `Completion.NoCallbackIsLost` | `lsfmgr/completion.py:56-170` | over every run the callback of a confirmed cycle waits, is held, has run, or has lapsed with the jobset or the manager, unless a newer submission or a removal came later |
| `Completion.TheWaitingCallbackIsHandedOut` | `lsfmgr/completion.py:133-170` | a waiting callback is handed out by the next observation that finds everything over in a jobset that is still there |
| `Completion.CallbackRunsOnceForItsOwnCycle` | `lsfmgr/completion.py:73-164` | a callback runs at most once and only after its own cycle was confirmed, also when a slot submits again during the notification |
| `Store.JobsetTable.PutRec` | `lsfmgr/store/memory.py:71-81` | the record is stored and the counts stay the exact histogram |
| `Store.JobsetTable.DropRec` | `lsfmgr/store/memory.py:83-91` | the record goes and the counts stay the exact histogram |
| `Store.JobsetTable.CountDel` | `lsfmgr/store/memory.py:93-103` | one less, and no key for an empty class |
| `Store.JobsetTable.AddJobs` | `lsfmgr/store/memory.py:132-154` | all or nothing; refused exactly for a missing jobset or a repeated key |
| `Store.JobsetTable.DeleteJobs` | `lsfmgr/store/memory.py:163-173` | exactly the named records go and are returned |
| `Store.JobsetTable.UpdateJob` | `lsfmgr/store/memory.py:183-218` | replaces an existing record with the next revision |
| `Store.JobsetTable.Transition` | `lsfmgr/store/memory.py:220-231` | guarded read-modify-write of one record |
| `Store.JobsetTable.TransitionMany` | `lsfmgr/store/memory.py:233-250` | the batch equals folding the single transition, and reports exactly the written records |
| `Store.JobsetTable.TransitionEach` | `lsfmgr/store/base.py:219-231` | the default batch has the same result |
| `Store.ReportIsTheHistory` | `lsfmgr/store/memory.py:220-253` | the report of a batch is the history of each record: revisions count up by one, and what stands afterwards is the last one reported |
| `Store.JobsetTable.Summary` | `lsfmgr/store/base.py:271-287` | the classes add up to the larger of intended count and records |
| `Store.TotalIsSize` | `lsfmgr/store/memory.py:105-113` | the incremental counts of all states sum to the number of records |
| `Store.SummaryAddsUp` | `lsfmgr/store/base.py:271-287` | missing records are counted as CREATED, no class is zero, the sum is the intended count if that is not smaller than the records |
| `JobSets.JobSetManager.CreateJobset` | `lsfmgr/jobset_core.py:195-208` | refuses a negative count or an existing jobset |
| `JobSets.JobSetManager.CreateJobs` | `lsfmgr/jobset_core.py:213-236` | all or nothing; the intended count only grows |
| `JobSets.JobSetManager.EditJobs` | `lsfmgr/jobset_core.py:238-301` | add, replace, upsert: succeeds exactly if the whole batch is allowed, else nothing changes; the intended count is the number of records |
| `JobSets.JobSetManager.Check` | `lsfmgr/jobset_core.py:264-289` | the whole batch is judged before any write |
| `JobSets.JobSetManager.RemoveJobs` | `lsfmgr/jobset_core.py:314-342` | succeeds exactly for existing, inactive or forced keys, else nothing changes |
| `JobSets.JobSetManager.ClearJobs` | `lsfmgr/jobset_core.py:344-351` | removes all or nothing |
| `JobSets.JobSetManager.SyncIntendedCount` | `lsfmgr/jobset_core.py:303-312` | the intended count becomes the number of records |
| `JobSets.JobSetManager.SummaryTotals` | `lsfmgr/store/base.py:246-248` | between operations the classes of the summary add up to its total |
| `JobSets.PutAllWrites` | `lsfmgr/jobset_core.py:291-300` | an edited key holds the new content, one revision on if it was replaced |
| `JobSets.PutAllLeavesOthers` | `lsfmgr/jobset_core.py:291-300` | no other record is touched by an edit |
| `Store.AddedExactly` | `lsfmgr/store/memory.py:132-154` | added records stand as given and nothing else changes |
| `JobModel.EveryStateHasItsPlace` | `lsfmgr/states.py:15-71` | every state is created, on its way, on LSF or over, exactly one of these; inactive is what is neither on its way nor on LSF |
| `Delivery.Deliverer.EmitJobs` | `lsfmgr/manager.py:1101-1122` | passes on exactly the snapshots of stored executions that are not older than the last one passed on |
| `Delivery.Deliverer.ForgetRevisions` | `lsfmgr/manager.py:874-881` | forgets the revisions of exactly the deleted keys |
| `Cleanup.JobMemory.ForgetTracking` | `lsfmgr/manager.py:850-862` | handlers of these keys start again, streaks of their ended executions and the given ids of the ledger go; other jobsets keep theirs |
| `Cleanup.JobMemory.ForgetPaced` | `lsfmgr/manager.py:864-882` | display, delivery and tracking are forgotten for exactly the deleted keys, and a later job under such a key finds nothing of the earlier one: no state on show or waiting, no revision, no handler progress, no streak |
| `Delivery.RowsNeverGoBack` | `lsfmgr/manager.py:1091-1122` | however late and shuffled results arrive, a row never goes back to an older execution or revision, also after deleting and re-adding its key |
| `Delivery.OnlyTheStoredExecutionIsDelivered` | `lsfmgr/manager.py:1091-1099` | nothing of an older execution passes once a newer one is stored |
| `Delivery.TheStoredRecordAlwaysPasses` | `lsfmgr/manager.py:1101-1117` | the filter never blocks the record that is stored |
| `Delivery.OnlyOvertakenSnapshotsAreDropped` | `lsfmgr/manager.py:1091-1130` | over every run each snapshot of the stored execution that arrives has been delivered or a newer one of this execution has |

## Left out

- SubmitCycleProofs.FinishedOnceAndLast: says that the last unit always leaves a thread about to send finished, not that the thread is scheduled; liveness is not modelled. The batch of reset records is sent directly before any task starts and does not go through the buffer.
- SubmitRecords.TaskEndsForAReason: leaves out retries given up by an abort, whose reason is the cancelled scope or a shutdown.
- ResetLoop.ResetRecords: takes what the Store answers at each turn, the fresh executions and the earlier records as parameters; among all other threads the same writes are the reset events of SubmitRecords.
- Submission.WaitScope: takes what it finds at each waking as a parameter; in the state machine the wait is one action for "quiet" and one for "timed out".
- Lifecycle.KillScope.Begin: is one call; the state machine splits it into raising, cancelling and aborting per activity, which is where other threads interleave.
- Killing.MarkKilled: takes what the Store holds at each of the two writes of a key as a parameter.
- Killing.RunKill: quiescing, which KillBarrier covers, and the list of changed records that the report carries, with the extra poll that fills it when there is no jobset, are left out. What LSF answers is a function of the round and of what is open.
- StatusQueries.NothingListedIsMissed: a fetch that carries the very clock tick of the call may have been parsed before the ids were of interest, and a query that may reuse an earlier fetch is promised no more than that fetch was parsed for; how old it may be says StatusQueries.UndecidedExactlyWithoutFetch.
- Killing.KillConfirm: the delay between rounds is left out, and the throttle, which passes some of the reports on.
- Chunks.BjobsByIds: takes the chunks and the answers; parsing of rows and the downgrade of the output format are not part of this model.
- LedgerOrder.OrderIsIrrelevantIffLatestAgree: is, like CompletionOrderDoesNotMatter, about a fixed interest set without expiry or forgetting in between, and leaves out running times, which depend on when the last answer arrived.
- Polling.LostIsSound: which rows answer for which record (exact element or folded array) is the adversary's choice here; the folding itself is StatusMerge.AggregateIsSound.
- Pacing.StatePacer.Drain: one tick is one step; a slot that forgets or replaces rows between two jobsets of one tick is not interleaved.
- Handlers.QueueIsServed: what the handler functions do, and the shutdown that drops intermediate runs, are left out.
- Completion.CompletionTracker.Observe: looks at one jobset through the facts it reads; how those facts are computed is left to the other modules.
- Store.JobsetTable.Transition: timestamps, and the outer dict from jobset id to table, are left out; the key-field check is replaced by a type without those fields.
- JobSets.JobSetManager.EditJobs: building records from commands, the orphan warnings and state changes by workers between the check and the write are left out.
- MockScheduler.Scheduler.PlanDispatches: the library's sort is a function here; that its result is in order with every row once is OrderedInOrder.
- Cleanup.JobMemory.ForgetPaced: the delivery filter is that of one jobset; pacer, handlers and poller are shared by all.
- SchedulerCapacity.CapacityHolds: assumes what bsub does, a fresh job id whose rows share one array limit.
- Slots of users that raise, a store that raises unexpected errors, and a fan-out that fails half way are assumed not to happen; so the crash path of a submit task is left out.
- Shutdown, atexit hooks and signal relays between objects.
- Subprocesses, wrappers and Qt timers themselves: only their order as actions is kept.
- Parsing of REST payloads, bjobs and bkill text, dates and zones; classified rows come in instead.
- Log text, samplers and the timing of the throttle, which is an arbitrary yes or no.
- Choosing submit targets and resolving job references: single-pass checks without state.
- The mock system's planning of run times, its event log and output files, and SQL.
