/** One submit cycle as the threads that drive it: the launch thread, its worker threads,
    the retry timer and whoever cancels. Each job of the cycle is one unit whose program
    counter is a Unit value; each event is one section that runs without interruption. */
module SubmitCycle {
  import opened JobModel
  import opened Submission

  /** How a unit ended. A success remembers the generation it was written on and the id. */
  datatype Outcome = Succeeded(gen: nat, jobId: nat) | Failed | Withdrawn {
    function Kind(): Kind {
      match this
      case Succeeded(_, _) => Success
      case Failed => Failure
      case Withdrawn => Cancellation
    }
  }

  datatype Unit =
    | Unlaunched                                   // the reset loop has not reached it
    | Reset                                        // record reset, task not yet queued
    | Queued(attempt: nat)                         // task waits in the pool
    | Entered(attempt: nat)                        // in inflight, SUBMITTING not yet written
    | Started(attempt: nat)                        // waits for a worker slot
    | Cleared(attempt: nat)                        // passed the last cancellation check
    | Wrapping(attempt: nat)                       // the wrapper runs
    | Returned(jobId: nat)                         // wrapper answered, id not yet in the Store
    | Refused(attempt: nat, retryable: bool)       // wrapper failed
    | Retrying(attempt: nat)                       // retry chosen, RETRY_WAIT not yet written
    | Marked(attempt: nat)                         // RETRY_WAIT written, not yet in the ledger
    | Pending(attempt: nat)                        // in the retry ledger
    | Firing(attempt: nat)                         // popped by the timer
    | Abandoned                                    // popped, to be finalised as cancelled
    | Inspected(waiting: bool)                     // the finaliser has read whether it is in RETRY_WAIT
    | Settled(outcome: Outcome, byTask: bool)      // ended, not yet counted
    | Counted(outcome: Outcome)
  {
    /** A task thread is between entering the submit section and ending its unit. */
    predicate InSection() {
      Entered? || Started? || Cleared? || Wrapping? || Returned? || Refused? || Retrying? || Marked?
    }

    /** Before any task of the unit exists. */
    predicate Unstarted() {
      Unlaunched? || Reset? || Counted?
    }

    predicate RetryPath() {
      Retrying? || Marked? || Pending? || Firing? || Abandoned? || Inspected?
    }
  }

  datatype Phase =
    | Born(refused: set<Key>, whole: bool)         // registered, refusal not yet applied
    | Armed                                        // refusal applied
    | Accepted                                     // handed to the coordinator
    | Launching(blocked: set<Key>)                 // the reset loop runs
    | Prepared                                     // tasks built, none queued
    | Launched
    | Closed                                       // ended without a launch
  {
    predicate BeforeReset() {
      Born? || Armed? || Accepted?
    }

    predicate BeforeTasks() {
      BeforeReset() || Launching? || Prepared?
    }
  }

  datatype Cycle = Cycle(
    ctx: Context,
    units: map<Key, Unit>,
    phase: Phase,
    registered: bool,          // the gate accepted the cycle and it has not been dropped
    leaving: multiset<Key>,    // task threads that ended their unit but not yet their finally block
    overtaken: set<Key>,       // keys whose retry entered while an earlier thread was still leaving
    checks: nat,               // threads that counted a unit and have yet to look for the end
    appended: seq<Note>)       // everything ever put into the buffer
  {
    function Put(k: Key, u: Unit): Cycle {
      this.(units := units[k := u])
    }

    function At(k: Key): Unit {
      if k in units then units[k] else Counted(Withdrawn)
    }

    predicate AllCounted() {
      forall k <- units :: units[k].Counted?
    }

    predicate NoneStarted() {
      forall k <- units :: units[k].Unstarted()
    }

    function Note(k: Key, st: JobState): Cycle {
      this.(ctx := ctx.Noting(Submission.Note(k, st)), appended := appended + [Submission.Note(k, st)])
    }

    /** Whether k can no longer enter the submit section of this cycle. */
    predicate Blocks(k: Key) {
      ctx.Refuses(k) || (phase.Born? && (phase.whole || k in phase.refused))
    }
  }

  function CountRest(units: map<Key, Unit>, o: Outcome): map<Key, Unit> {
    map k | k in units :: if units[k].Counted? then units[k] else Counted(o)
  }

  function CountBlocked(units: map<Key, Unit>): map<Key, Unit> {
    map k | k in units :: if units[k].Unlaunched? then Counted(Withdrawn) else units[k]
  }

  function Open(keys: set<Key>, refused: set<Key>, whole: bool): Cycle {
    Cycle(Start(|keys|), map k | k in keys :: Unlaunched, Born(refused, whole), !whole,
          multiset{}, {}, 0, [])
  }

  /** present says whether the record still exists; gen is the record's generation. */
  datatype Event =
    | Arm | Accept | Reject(emit: bool) | LaunchFail | Launch
    | ResetKey(k: Key, present: bool) | SkipBlocked | FanOut | Queue(k: Key) | FinishEmpty
    | Enter(k: Key) | BeginTask(k: Key, present: bool) | Clear(k: Key) | Wrap(k: Key)
    | WrapperDone(k: Key, jobId: nat) | WrapperFailed(k: Key, retryable: bool)
    | Record(k: Key, present: bool, gen: nat) | Decide(k: Key, present: bool)
    | MarkRetry(k: Key, present: bool) | Schedule(k: Key)
    | Fire(k: Key) | Requeue(k: Key) | Inspect(k: Key, waiting: bool) | Finalize(k: Key)
    | Count(k: Key, notes: seq<Note>) | FinishCheck | Emit(progress: bool, pass: bool) | Leave(k: Key)
    | Cancel(scope: Scope) | Abort(scope: Scope) | Drop

  function DoArm(c: Cycle): Cycle {
    if !c.phase.Born? then c
    else if c.phase.whole then c.(phase := Armed, ctx := c.ctx.(cancelEvent := true))
    else c.(phase := Armed, ctx := c.ctx.(cancelledKeys := c.ctx.cancelledKeys + c.phase.refused))
  }

  /** A cycle that is already cancelled when the submitter looks is settled, not launched;
      an accepted one may still be rejected by the pre_submit gate. */
  function DoReject(c: Cycle, emit: bool): Cycle {
    if (c.phase.Armed? && c.ctx.cancelEvent) || c.phase.Accepted? then
      c.(phase := Closed, ctx := c.ctx.Forcing(false, emit), units := CountRest(c.units, Withdrawn))
    else c
  }

  function DoLaunchFail(c: Cycle): Cycle {
    if c.phase.Accepted? || c.phase.Prepared? then
      c.(phase := Closed, ctx := c.ctx.Forcing(true, true),
         units := if c.ctx.finished then c.units else CountRest(c.units, Failed))
    else c
  }

  function DoResetKey(c: Cycle, k: Key, present: bool): Cycle {
    if c.phase.Launching? && c.At(k).Unlaunched? && k !in c.phase.blocked then
      if present then c.Put(k, Reset)
      else c.Put(k, Counted(Withdrawn)).(ctx := c.ctx.Counting(1, Cancellation, []), checks := c.checks + 1)
    else c
  }

  /** The refused keys are counted in one go, after the loop. */
  function DoSkipBlocked(c: Cycle): Cycle {
    if c.phase.Launching? && (forall k <- c.units :: c.units[k].Unlaunched? ==> k in c.phase.blocked) then
      var n := |set k | k in c.units && c.units[k].Unlaunched?|;
      c.(phase := Prepared, units := CountBlocked(c.units),
         ctx := c.ctx.Counting(n, Cancellation, []),
         checks := if n == 0 then c.checks else c.checks + 1)
    else c
  }

  function DoEnter(c: Cycle, k: Key): Cycle {
    if !c.At(k).Queued? then c
    else if c.ctx.Refuses(k) then c.Put(k, Settled(Withdrawn, true))
    else c.Put(k, Entered(c.At(k).attempt)).(
           ctx := c.ctx.Entering(k),
           overtaken := if c.leaving[k] > 0 then c.overtaken + {k} else c.overtaken)
  }

  function DoBeginTask(c: Cycle, k: Key, present: bool): Cycle {
    if !c.At(k).Entered? then c
    else if !present then c.Put(k, Settled(Withdrawn, true))
    else
      var d := c.Put(k, Started(c.At(k).attempt));
      if c.At(k).attempt > 0 then d.Note(k, Submitting) else d
  }

  function DoClear(c: Cycle, k: Key): Cycle {
    if !c.At(k).Started? then c
    else if c.ctx.Refuses(k) then c.Put(k, Settled(Withdrawn, true))
    else c.Put(k, Cleared(c.At(k).attempt))
  }

  function DoDecide(c: Cycle, k: Key, present: bool, maxRetry: nat): Cycle {
    if !c.At(k).Refused? then c
    else if k in c.ctx.cancelledKeys then c.Put(k, Settled(Withdrawn, true))
    else if c.At(k).retryable && c.At(k).attempt < maxRetry && !c.ctx.cancelEvent then
      c.Put(k, Retrying(c.At(k).attempt))
    else c.Put(k, Settled(if present then Failed else Withdrawn, true))
  }

  function DoMarkRetry(c: Cycle, k: Key, present: bool): Cycle {
    if !c.At(k).Retrying? then c
    else if !present then c.Put(k, Settled(Withdrawn, true))
    else c.Put(k, Marked(c.At(k).attempt)).Note(k, RetryWait)
  }

  /** The thread that schedules the retry still has its finally block to run. */
  function DoSchedule(c: Cycle, k: Key): Cycle {
    if !c.At(k).Marked? then c
    else c.Put(k, Pending(c.At(k).attempt + 1)).(
           ctx := c.ctx.Scheduling(k, c.At(k).attempt + 1), leaving := c.leaving + multiset{k})
  }

  function DoFire(c: Cycle, k: Key): Cycle {
    if k in c.ctx.pending then
      c.Put(k, Firing(c.ctx.pending[k])).(ctx := c.ctx.Popping(k))
    else c
  }

  function DoRequeue(c: Cycle, k: Key): Cycle {
    if !c.At(k).Firing? then c
    else if c.ctx.cancelEvent then c.Put(k, Abandoned)
    else c.Put(k, Queued(c.At(k).attempt))
  }

  function DoCount(c: Cycle, k: Key, notes: seq<Note>): Cycle {
    if !c.At(k).Settled? then c
    else
      var o := c.At(k).outcome;
      c.Put(k, Counted(o)).(
        ctx := c.ctx.Counting(1, o.Kind(), notes), appended := c.appended + notes,
        checks := c.checks + 1,
        leaving := if c.At(k).byTask then c.leaving + multiset{k} else c.leaving)
  }

  function DoAbort(c: Cycle, scope: Scope): Cycle {
    c.(ctx := c.ctx.Aborting(scope),
       units := map k | k in c.units :: if k in c.ctx.Abortable(scope) then Abandoned else c.units[k])
  }

  function DoAccept(c: Cycle): Cycle {
    if c.phase.Armed? && !c.ctx.cancelEvent then c.(phase := Accepted) else c
  }

  /** The reset loop works on the cancelled keys it saw at its start. */
  function DoLaunch(c: Cycle): Cycle {
    if c.phase.Accepted? then c.(phase := Launching(c.ctx.cancelledKeys)) else c
  }

  function DoFanOut(c: Cycle): Cycle {
    if c.phase.Prepared? then c.(phase := Launched) else c
  }

  function DoQueue(c: Cycle, k: Key): Cycle {
    if c.phase.Launched? && c.At(k).Reset? then c.Put(k, Queued(0)) else c
  }

  /** A launch without a single task ends the cycle itself. */
  function DoFinishEmpty(c: Cycle): Cycle {
    if c.phase.Launched? && c.AllCounted() then c.(ctx := c.ctx.Finishing(true)) else c
  }

  function DoWrap(c: Cycle, k: Key): Cycle {
    if c.At(k).Cleared? then c.Put(k, Wrapping(c.At(k).attempt)) else c
  }

  function DoWrapperDone(c: Cycle, k: Key, jobId: nat): Cycle {
    if c.At(k).Wrapping? then c.Put(k, Returned(jobId)) else c
  }

  function DoWrapperFailed(c: Cycle, k: Key, retryable: bool): Cycle {
    if c.At(k).Wrapping? then c.Put(k, Refused(c.At(k).attempt, retryable)) else c
  }

  function DoRecord(c: Cycle, k: Key, present: bool, gen: nat): Cycle {
    if c.At(k).Returned? then
      c.Put(k, Settled(if present then Succeeded(gen, c.At(k).jobId) else Withdrawn, true))
    else c
  }

  /** Giving a retry up reads the record first and writes it later. */
  function DoInspect(c: Cycle, k: Key, waiting: bool): Cycle {
    if c.At(k).Abandoned? then c.Put(k, Inspected(waiting)) else c
  }

  function DoFinalize(c: Cycle, k: Key): Cycle {
    if c.At(k).Inspected? then c.Put(k, Settled(Withdrawn, false)) else c
  }

  function DoFinishCheck(c: Cycle): Cycle {
    if c.checks > 0 then c.(ctx := c.ctx.Finishing(false), checks := c.checks - 1) else c
  }

  function DoEmit(c: Cycle, progress: bool, pass: bool): Cycle {
    c.(ctx := c.ctx.Emitting(progress, pass))
  }

  function DoLeave(c: Cycle, k: Key): Cycle {
    if c.leaving[k] > 0 then c.(ctx := c.ctx.Leaving(k), leaving := c.leaving - multiset{k}) else c
  }

  function DoCancel(c: Cycle, scope: Scope): Cycle {
    c.(ctx := c.ctx.Cancelling(scope))
  }

  function DoDrop(c: Cycle): Cycle {
    if c.ctx.finished then c.(registered := false) else c
  }

  /** An event whose guard fails changes nothing, so every event sequence is a run. */
  function Step(c: Cycle, e: Event, maxRetry: nat): Cycle {
    match e
    case Arm => DoArm(c)
    case Accept => DoAccept(c)
    case Reject(emit) => DoReject(c, emit)
    case LaunchFail => DoLaunchFail(c)
    case Launch => DoLaunch(c)
    case ResetKey(k, present) => DoResetKey(c, k, present)
    case SkipBlocked => DoSkipBlocked(c)
    case FanOut => DoFanOut(c)
    case Queue(k) => DoQueue(c, k)
    case FinishEmpty => DoFinishEmpty(c)
    case Enter(k) => DoEnter(c, k)
    case BeginTask(k, present) => DoBeginTask(c, k, present)
    case Clear(k) => DoClear(c, k)
    case Wrap(k) => DoWrap(c, k)
    case WrapperDone(k, jobId) => DoWrapperDone(c, k, jobId)
    case WrapperFailed(k, retryable) => DoWrapperFailed(c, k, retryable)
    case Record(k, present, gen) => DoRecord(c, k, present, gen)
    case Decide(k, present) => DoDecide(c, k, present, maxRetry)
    case MarkRetry(k, present) => DoMarkRetry(c, k, present)
    case Schedule(k) => DoSchedule(c, k)
    case Fire(k) => DoFire(c, k)
    case Requeue(k) => DoRequeue(c, k)
    case Inspect(k, waiting) => DoInspect(c, k, waiting)
    case Finalize(k) => DoFinalize(c, k)
    case Count(k, notes) => DoCount(c, k, notes)
    case FinishCheck => DoFinishCheck(c)
    case Emit(progress, pass) => DoEmit(c, progress, pass)
    case Leave(k) => DoLeave(c, k)
    case Cancel(scope) => DoCancel(c, scope)
    case Abort(scope) => DoAbort(c, scope)
    case Drop => DoDrop(c)
  }

  function Exec(c: Cycle, events: seq<Event>, maxRetry: nat): Cycle
    decreases |events|
  {
    if events == [] then c
    else Step(Exec(c, events[..|events| - 1], maxRetry), events[|events| - 1], maxRetry)
  }
}
