/** Which record writes go with which moves of a unit, and how a kill gets on: what SubmitRecords and
    KillBarrierProofs presume of a single step, said from the states before and after it. */
module RecordWrites {
  import opened JobModel
  import opened Submission
  import opened SubmitCycle
  import SubmitCycleProofs
  import opened SubmitAttempts
  import opened KillBarrier
  import Ledger

  function Lookup(store: map<Key, Rec>, k: Key): Option<Rec> {
    if k in store then Some(store[k]) else None
  }

  /** The record with another state, if there is one. */
  function InState(r: Option<Rec>, st: JobState): Option<Rec> {
    if r.Some? then Some(Rec(r.value.gen, r.value.jobId, st)) else None
  }

  /** A submission that is given up: CANCELLED while it is open, otherwise the record stays. */
  function Given(r: Option<Rec>): Option<Rec> {
    if r.Some? && r.value.state in {Submitting, RetryWait} then InState(r, Cancelled) else r
  }

  /** The record that goes with a move of its unit from u to v. It is written only when the unit moves. */
  ghost predicate WrittenRight(u: Unit, v: Unit, r: Option<Rec>, q: Option<Rec>, nextGen: nat) {
    if v == u then q == r
    else if v.Reset? then q == Some(Rec(nextGen, None, Submitting))
    else if v.Started? then q == InState(r, Submitting)
    else if v.Marked? then q == InState(r, RetryWait)
    else if u.Returned? && v.Settled? then
      r.Some? ==> q == Some(Rec(r.value.gen, Some(u.jobId), Pend)) && v.outcome == Succeeded(r.value.gen, u.jobId)
    else if u.Refused? && v.Settled? && v.outcome.Failed? then q == InState(r, SubmitFailed)
    else if u == Inspected(true) then q == InState(r, Cancelled)
    else if (u.Queued? || u.Started? || u.Refused?) && v.Settled? then q == Given(r)
    else if u.Reset? && v == Counted(Failed) then
      q == if r.Some? && r.value.state == Submitting then InState(r, SubmitFailed) else r
    else q == r
  }

  ghost predicate StepWritesRight(s: System, c: Cycle, e: Event, k: Key, maxRetry: nat) {
    var d := Step(c, Bind(s, e), maxRetry);
    WrittenRight(c.At(k), d.At(k), Lookup(s.store, k), Lookup(Write(s, e, c, d).store, k), s.nextGen)
  }

  lemma BookkeepingWrites(s: System, c: Cycle, e: Event, k: Key, maxRetry: nat)
    requires Bookkeeping(e)
    ensures StepWritesRight(s, c, e, k, maxRetry)
  {
  }

  lemma SweepingWrites(s: System, c: Cycle, e: Event, k: Key, maxRetry: nat)
    requires SubmitCycleProofs.LedgerAgrees(c) && SubmitCycleProofs.PhaseAgrees(c) && Sweeping(e)
    requires SubmitCycleProofs.EndAgrees(c)
    ensures StepWritesRight(s, c, e, k, maxRetry)
  {
  }

  lemma OthersRecordsStay(s: System, c: Cycle, e: Event, k: Key, maxRetry: nat)
    requires SubmitCycleProofs.LedgerAgrees(c) && !Bookkeeping(e) && !Sweeping(e) && e.k != k
    ensures StepWritesRight(s, c, e, k, maxRetry)
  {
    OthersStay(c, Bind(s, e), k, maxRetry);
  }

  lemma EnteringWrites(s: System, c: Cycle, e: Event, k: Key, maxRetry: nat)
    requires Entering(e) && e.k == k
    ensures StepWritesRight(s, c, e, k, maxRetry)
  {
  }

  lemma BeginningWrites(s: System, c: Cycle, e: Event, k: Key, maxRetry: nat)
    requires Beginning(e) && e.k == k
    ensures StepWritesRight(s, c, e, k, maxRetry)
  {
  }

  lemma CallingWrites(s: System, c: Cycle, e: Event, k: Key, maxRetry: nat)
    requires Calling(e) && e.k == k
    ensures StepWritesRight(s, c, e, k, maxRetry)
  {
  }

  lemma DecidingWrites(s: System, c: Cycle, e: Event, k: Key, maxRetry: nat)
    requires Deciding(e) && e.k == k
    ensures StepWritesRight(s, c, e, k, maxRetry)
  {
  }

  lemma FollowingWrites(s: System, c: Cycle, e: Event, k: Key, maxRetry: nat)
    requires SubmitCycleProofs.LedgerAgrees(c) && Following(e) && e.k == k
    ensures StepWritesRight(s, c, e, k, maxRetry)
  {
  }

  lemma ClosingWrites(s: System, c: Cycle, e: Event, k: Key, maxRetry: nat)
    requires Closing(e) && e.k == k
    ensures StepWritesRight(s, c, e, k, maxRetry)
  {
  }

  /** Every step of every cycle writes the record of a job exactly as the move of its unit says: a fresh
      execution in SUBMITTING at the reset, SUBMITTING and RETRY_WAIT around retries, the wrapper's id with
      PEND, SUBMIT_FAILED on giving up, CANCELLED for a submission that is withdrawn while it is open. */
  lemma EveryWriteIsRight(s: System, c: Cycle, e: Event, k: Key, maxRetry: nat)
    requires SubmitCycleProofs.LedgerAgrees(c) && SubmitCycleProofs.PhaseAgrees(c) && SubmitCycleProofs.EndAgrees(c)
    ensures StepWritesRight(s, c, e, k, maxRetry)
  {
    if Bookkeeping(e) {
      BookkeepingWrites(s, c, e, k, maxRetry);
    } else if Sweeping(e) {
      SweepingWrites(s, c, e, k, maxRetry);
    } else if e.k != k {
      OthersRecordsStay(s, c, e, k, maxRetry);
    } else if Entering(e) {
      EnteringWrites(s, c, e, k, maxRetry);
    } else if Beginning(e) {
      BeginningWrites(s, c, e, k, maxRetry);
    } else if Calling(e) {
      CallingWrites(s, c, e, k, maxRetry);
    } else if Deciding(e) {
      DecidingWrites(s, c, e, k, maxRetry);
    } else if Following(e) {
      FollowingWrites(s, c, e, k, maxRetry);
    } else {
      ClosingWrites(s, c, e, k, maxRetry);
    }
  }

  // ---------------------------------------------------------------------
  // How a kill gets on
  // ---------------------------------------------------------------------

  /** How many steps of its own a raised kill has before acquire() returns. */
  function StepsLeft(kill: Kill): nat {
    var n := |kill.acts|;
    match kill.pc
    case Idle => 0
    case Cancelling(i) => if i <= n then 2 * (n - i) + n + 2 else 0
    case Aborting(i) => if i < n then 2 * (n - i) - 1 + n + 2 else 0
    case Waiting(i, _) => if i <= n then n - i + 1 else 0
    case Acquired(_) => 0
    case Released => 0
  }

  /** The step a kill takes next; a wait that does not end well ends with its time. */
  function OwnStep(kill: Kill, i: nat, timeout: bool): Action {
    match kill.pc
    case Cancelling(_) => CancelNext(i)
    case Aborting(_) => AbortNext(i)
    case Waiting(j, _) => if timeout && j < |kill.acts| then Timeout(i) else WaitNext(i)
    case _ => Release(i)
  }

  /** Nothing blocks a kill for good: each step of its own brings acquire() nearer to its return, a wait at the
      latest when its time is up; it returns True unless some wait ran out of time; and releasing lowers one
      barrier of its scope. */
  lemma AKillGetsOn(s: System, i: nat, timeout: bool, maxRetry: nat)
    requires i < |s.kills|
    requires forall j :: 0 <= j < |s.kills[i].acts| ==> s.kills[i].acts[j] < |s.cycles|
    requires s.kills[i].Raised() && StepsLeft(s.kills[i]) > 0
    ensures var kill := s.kills[i];
            var t := Next(s, OwnStep(kill, i, timeout), maxRetry);
            var stuck := kill.pc.Waiting? && kill.pc.i < |kill.acts| && !timeout
                         && !s.cycles[kill.acts[kill.pc.i]].ctx.Quiet(kill.scope);
            && |t.kills| == |s.kills| && t.barriers == s.barriers
            && (if stuck then t == s else StepsLeft(t.kills[i]) == StepsLeft(kill) - 1 && t.kills[i].Raised())
            && (t.kills[i].pc.Acquired? ==> kill.pc.Waiting? && t.kills[i].pc.ok == kill.pc.ok)
            && (kill.pc.Waiting? && t.kills[i].pc.Waiting? && !stuck ==>
                  t.kills[i].pc.ok == (kill.pc.ok && !timeout))
            && (kill.pc.Cancelling? && t.kills[i].pc.Waiting? ==> t.kills[i].pc.ok)
  {
  }

  lemma AReleaseLowersTheBarrier(s: System, i: nat, maxRetry: nat)
    requires i < |s.kills| && (s.kills[i].pc.Waiting? || s.kills[i].pc.Acquired?)
    ensures var t := Next(s, Release(i), maxRetry);
            && t.kills == s.kills[i := s.kills[i].(pc := Released)] && t.cycles == s.cycles
            && t.barriers == Ledger.RemoveFirst(s.barriers, s.kills[i].scope)
            && (s.kills[i].scope in s.barriers ==>
                  multiset(t.barriers) == multiset(s.barriers) - multiset{s.kills[i].scope})
  {
    Ledger.RemoveFirstContents(s.barriers, s.kills[i].scope);
  }

  /** A task thread that ends its section leaves once, and looks for the end of the cycle once. */
  lemma ThreadsEndOnce(c: Cycle, k: Key, notes: seq<Note>, maxRetry: nat)
    ensures c.At(k).Marked? ==> Step(c, Schedule(k), maxRetry).leaving == c.leaving + multiset{k}
    ensures c.At(k).Settled? ==>
              var d := Step(c, Count(k, notes), maxRetry);
              d.checks == c.checks + 1
              && d.leaving == (if c.At(k).byTask then c.leaving + multiset{k} else c.leaving)
    ensures c.leaving[k] > 0 ==>
              var d := Step(c, Leave(k), maxRetry);
              d.leaving == c.leaving - multiset{k} && d.ctx.inflight == c.ctx.inflight - {k} && d.units == c.units
    ensures c.checks > 0 ==> Step(c, FinishCheck, maxRetry).checks == c.checks - 1
  {
  }
}
