/** How often the wrapper is called for one job, when a submit cycle gives up, and what the table is
    told about retries: all counted over the events of a run. */
module SubmitAttempts {
  import opened JobModel
  import opened Submission
  import opened SubmitCycle
  import SubmitCycleProofs

  /** How many calls of the wrapper for k failed during the run. */
  function Failures(c: Cycle, events: seq<Event>, k: Key, maxRetry: nat): nat
    decreases |events|
  {
    if events == [] then 0
    else
      var n := |events| - 1;
      var before := Exec(c, events[..n], maxRetry);
      var e := events[n];
      Failures(c, events[..n], k, maxRetry)
      + if e.WrapperFailed? && e.k == k && Step(before, e, maxRetry).At(k) != before.At(k) then 1 else 0
  }

  /** How many calls of the wrapper for k were begun. */
  function Calls(c: Cycle, events: seq<Event>, k: Key, maxRetry: nat): nat
    decreases |events|
  {
    if events == [] then 0
    else
      var n := |events| - 1;
      var before := Exec(c, events[..n], maxRetry);
      var e := events[n];
      Calls(c, events[..n], k, maxRetry)
      + if e.Wrap? && e.k == k && Step(before, e, maxRetry).At(k) != before.At(k) then 1 else 0
  }

  /** Whether LSF or the network may do better next time, as the latest failure said. */
  function LatestRetryable(c: Cycle, events: seq<Event>, k: Key, maxRetry: nat): bool
    decreases |events|
  {
    if events == [] then false
    else
      var n := |events| - 1;
      var before := Exec(c, events[..n], maxRetry);
      var e := events[n];
      if e.WrapperFailed? && e.k == k && Step(before, e, maxRetry).At(k) != before.At(k) then e.retryable
      else LatestRetryable(c, events[..n], k, maxRetry)
  }

  /** What a unit says about the failures and calls so far. */
  ghost predicate Tallies(u: Unit, failures: nat, calls: nat, maxRetry: nat) {
    match u
    case Unlaunched => failures == calls == 0
    case Reset => failures == calls == 0
    case Queued(a) => a == failures == calls <= maxRetry
    case Entered(a) => a == failures == calls <= maxRetry
    case Started(a) => a == failures == calls <= maxRetry
    case Cleared(a) => a == failures == calls <= maxRetry
    case Wrapping(a) => a == failures <= maxRetry && calls == failures + 1
    case Returned(_) => failures <= maxRetry && calls == failures + 1
    case Refused(a, _) => a + 1 == failures == calls && a <= maxRetry
    case Retrying(a) => a + 1 == failures == calls && a < maxRetry
    case Marked(a) => a + 1 == failures == calls && a < maxRetry
    case Pending(a) => a == failures == calls <= maxRetry
    case Firing(a) => a == failures == calls <= maxRetry
    case _ => failures <= calls <= failures + 1 && calls <= maxRetry + 1
  }

  /** Where one event may take a unit, and which retry states it puts into the batches. */
  ghost predicate Goes(u: Unit, v: Unit, e: Event, k: Key, says: seq<JobState>, maxRetry: nat) {
    if v == u then says == []
    else if e == Wrap(k) then u.Cleared? && v == Wrapping(u.attempt) && says == []
    else if e.WrapperFailed? && e.k == k then u.Wrapping? && v == Refused(u.attempt, e.retryable) && says == []
    else if v.Counted? then (u.Unlaunched? || u.Reset? || u.Settled?) && says == []
    else
      match u
      case Unlaunched => v.Reset? && says == []
      case Reset => v == Queued(0) && says == []
      case Queued(a) => (v == Entered(a) || v.Settled?) && says == []
      case Entered(a) =>
        (v == Started(a) && says == if a > 0 then [Submitting] else []) || (v.Settled? && says == [])
      case Started(a) => (v == Cleared(a) || v.Settled?) && says == []
      case Wrapping(_) => v.Returned? && says == []
      case Returned(_) => v.Settled? && says == []
      case Refused(a, _) => ((v == Retrying(a) && a < maxRetry) || v.Settled?) && says == []
      case Retrying(a) => (v == Marked(a) && says == [RetryWait]) || (v.Settled? && says == [])
      case Marked(a) => v == Pending(a + 1) && says == []
      case Pending(a) => (v == Firing(a) || v.Abandoned?) && says == []
      case Firing(a) => (v == Queued(a) || v.Abandoned?) && says == []
      case Abandoned => v.Inspected? && says == []
      case Inspected(_) => v.Settled? && says == []
      case _ => false
  }

  /** What an event says about the retries of k. */
  function Says(c: Cycle, e: Event, k: Key): seq<JobState> {
    if e.BeginTask? && e.k == k && c.At(k).Entered? && e.present && c.At(k).attempt > 0 then [Submitting]
    else if e.MarkRetry? && e.k == k && c.At(k).Retrying? && e.present then [RetryWait]
    else []
  }

  /** Events that move no unit. */
  predicate Bookkeeping(e: Event) {
    e.Arm? || e.Accept? || e.Launch? || e.FanOut? || e.FinishEmpty? || e.FinishCheck? || e.Emit? || e.Leave?
    || e.Cancel? || e.Drop?
  }

  /** Events that may move many units at once. */
  predicate Sweeping(e: Event) {
    e.Reject? || e.LaunchFail? || e.SkipBlocked? || e.Abort?
  }

  predicate Entering(e: Event) {
    e.ResetKey? || e.Queue? || e.Enter?
  }

  predicate Beginning(e: Event) {
    e.BeginTask? || e.Clear?
  }

  predicate Calling(e: Event) {
    e.Wrap? || e.WrapperDone? || e.WrapperFailed? || e.Record?
  }

  predicate Deciding(e: Event) {
    e.Decide? || e.MarkRetry? || e.Schedule?
  }

  predicate Following(e: Event) {
    e.Fire? || e.Requeue?
  }

  predicate Closing(e: Event) {
    e.Inspect? || e.Finalize? || e.Count?
  }

  lemma BookkeepingMovesNothing(c: Cycle, e: Event, maxRetry: nat)
    requires Bookkeeping(e)
    ensures Step(c, e, maxRetry).units == c.units
  {
  }

  lemma SweepingGoes(c: Cycle, e: Event, k: Key, maxRetry: nat)
    requires SubmitCycleProofs.LedgerAgrees(c) && Sweeping(e) && SubmitCycleProofs.PhaseAgrees(c)
    ensures Goes(c.At(k), Step(c, e, maxRetry).At(k), e, k, Says(c, e, k), maxRetry)
  {
  }

  lemma EnteringGoes(c: Cycle, e: Event, k: Key, maxRetry: nat)
    requires Entering(e) && e.k == k
    ensures Goes(c.At(k), Step(c, e, maxRetry).At(k), e, k, Says(c, e, k), maxRetry)
  {
  }

  lemma BeginningGoes(c: Cycle, e: Event, k: Key, maxRetry: nat)
    requires Beginning(e) && e.k == k
    ensures Goes(c.At(k), Step(c, e, maxRetry).At(k), e, k, Says(c, e, k), maxRetry)
  {
  }

  lemma CallingGoes(c: Cycle, e: Event, k: Key, maxRetry: nat)
    requires Calling(e) && e.k == k
    ensures Goes(c.At(k), Step(c, e, maxRetry).At(k), e, k, Says(c, e, k), maxRetry)
  {
  }

  lemma DecidingGoes(c: Cycle, e: Event, k: Key, maxRetry: nat)
    requires Deciding(e) && e.k == k
    ensures Goes(c.At(k), Step(c, e, maxRetry).At(k), e, k, Says(c, e, k), maxRetry)
  {
  }

  lemma FollowingGoes(c: Cycle, e: Event, k: Key, maxRetry: nat)
    requires SubmitCycleProofs.LedgerAgrees(c) && Following(e) && e.k == k
    ensures Goes(c.At(k), Step(c, e, maxRetry).At(k), e, k, Says(c, e, k), maxRetry)
  {
  }

  lemma ClosingGoes(c: Cycle, e: Event, k: Key, maxRetry: nat)
    requires Closing(e) && e.k == k
    ensures Goes(c.At(k), Step(c, e, maxRetry).At(k), e, k, Says(c, e, k), maxRetry)
  {
  }

  /** An event about one unit leaves the others. */
  lemma OthersStay(c: Cycle, e: Event, k: Key, maxRetry: nat)
    requires !Bookkeeping(e) && !Sweeping(e) && e.k != k
    requires SubmitCycleProofs.LedgerAgrees(c)
    ensures Step(c, e, maxRetry).At(k) == c.At(k)
  {
  }

  lemma StepGoes(c: Cycle, e: Event, k: Key, maxRetry: nat)
    requires SubmitCycleProofs.LedgerAgrees(c) && SubmitCycleProofs.PhaseAgrees(c)
    ensures Goes(c.At(k), Step(c, e, maxRetry).At(k), e, k, Says(c, e, k), maxRetry)
  {
    if Bookkeeping(e) {
      BookkeepingMovesNothing(c, e, maxRetry);
    } else if Sweeping(e) {
      SweepingGoes(c, e, k, maxRetry);
    } else if e.k != k {
      OthersStay(c, e, k, maxRetry);
    } else if Entering(e) {
      EnteringGoes(c, e, k, maxRetry);
    } else if Beginning(e) {
      BeginningGoes(c, e, k, maxRetry);
    } else if Calling(e) {
      CallingGoes(c, e, k, maxRetry);
    } else if Deciding(e) {
      DecidingGoes(c, e, k, maxRetry);
    } else if Following(e) {
      FollowingGoes(c, e, k, maxRetry);
    } else {
      ClosingGoes(c, e, k, maxRetry);
    }
  }

  lemma GoesTallies(u: Unit, v: Unit, e: Event, k: Key, says: seq<JobState>, failures: nat, calls: nat, maxRetry: nat)
    requires Goes(u, v, e, k, says, maxRetry) && Tallies(u, failures, calls, maxRetry)
    ensures Tallies(v, failures + (if e.WrapperFailed? && e.k == k && v != u then 1 else 0),
                    calls + (if e.Wrap? && e.k == k && v != u then 1 else 0), maxRetry)
  {
  }

  lemma {:induction false} RunTallies(keys: set<Key>, refused: set<Key>, whole: bool, events: seq<Event>, k: Key,
                                      maxRetry: nat)
    ensures var c := Open(keys, refused, whole);
            Tallies(Exec(c, events, maxRetry).At(k), Failures(c, events, k, maxRetry), Calls(c, events, k, maxRetry),
                    maxRetry)
    decreases |events|
  {
    var c := Open(keys, refused, whole);
    if events == [] {
    } else {
      var n := |events| - 1;
      RunTallies(keys, refused, whole, events[..n], k, maxRetry);
      SubmitCycleProofs.OpenHolds(keys, refused, whole, maxRetry);
      SubmitCycleProofs.RunKeeps(c, events[..n], maxRetry);
      var before := Exec(c, events[..n], maxRetry);
      StepGoes(before, events[n], k, maxRetry);
      GoesTallies(before.At(k), Step(before, events[n], maxRetry).At(k), events[n], k, Says(before, events[n], k),
                  Failures(c, events[..n], k, maxRetry), Calls(c, events[..n], k, maxRetry), maxRetry);
    }
  }

  /** The attempt a unit carries while it waits for or runs the wrapper. */
  function AttemptOf(u: Unit): Option<nat> {
    match u
    case Queued(a) => Some(a)
    case Entered(a) => Some(a)
    case Started(a) => Some(a)
    case Cleared(a) => Some(a)
    case Wrapping(a) => Some(a)
    case Pending(a) => Some(a)
    case Firing(a) => Some(a)
    case _ => None
  }

  /** In every run: the attempt a waiting or running unit carries, also in the retry ledger, is the
      number of its failed calls so far, and the wrapper is called at most maxRetry + 1 times. */
  lemma AttemptsCountFailures(keys: set<Key>, refused: set<Key>, whole: bool, events: seq<Event>, k: Key,
                              maxRetry: nat)
    ensures var c := Open(keys, refused, whole);
            var d := Exec(c, events, maxRetry);
            var failures, calls := Failures(c, events, k, maxRetry), Calls(c, events, k, maxRetry);
            && (AttemptOf(d.At(k)).Some? ==> AttemptOf(d.At(k)).value == failures <= maxRetry)
            && (k in d.ctx.pending ==> d.ctx.pending[k] == failures <= maxRetry)
            && failures <= calls <= failures + 1 && calls <= maxRetry + 1
  {
    var c := Open(keys, refused, whole);
    RunTallies(keys, refused, whole, events, k, maxRetry);
    SubmitCycleProofs.OpenHolds(keys, refused, whole, maxRetry);
    SubmitCycleProofs.RunKeeps(c, events, maxRetry);
  }

  /** What the latest failure said, after one more event. */
  lemma LatestSteps(c: Cycle, events: seq<Event>, k: Key, maxRetry: nat)
    requires events != []
    ensures var n := |events| - 1;
            var b := Exec(c, events[..n], maxRetry);
            var d := Step(b, events[n], maxRetry);
            && d == Exec(c, events, maxRetry)
            && LatestRetryable(c, events, k, maxRetry)
               == if events[n].WrapperFailed? && events[n].k == k && d.At(k) != b.At(k) then events[n].retryable
                  else LatestRetryable(c, events[..n], k, maxRetry)
  {
  }

  lemma {:induction false} RefusalIsLatest(c: Cycle, events: seq<Event>, k: Key, maxRetry: nat)
    requires SubmitCycleProofs.Inv(c, maxRetry) && !c.At(k).Refused?
    ensures var d := Exec(c, events, maxRetry);
            d.At(k).Refused? ==> d.At(k).retryable == LatestRetryable(c, events, k, maxRetry)
    decreases |events|
  {
    if events == [] {
    } else {
      var n := |events| - 1;
      RefusalIsLatest(c, events[..n], k, maxRetry);
      LatestSteps(c, events, k, maxRetry);
      SubmitCycleProofs.RunKeeps(c, events[..n], maxRetry);
      StepGoes(Exec(c, events[..n], maxRetry), events[n], k, maxRetry);
    }
  }

  /** One decision on a failed call. */
  lemma DecisionOnFailure(c: Cycle, k: Key, present: bool, maxRetry: nat)
    requires c.At(k).Refused?
    ensures var u := Step(c, Decide(k, present), maxRetry).At(k);
            var again := c.At(k).retryable && c.At(k).attempt < maxRetry && !c.ctx.cancelEvent;
            && (u.Retrying? <==> again && k !in c.ctx.cancelledKeys)
            && (u.Settled? <==> !u.Retrying?)
            && (u.Settled? ==> (u.outcome.Failed? <==> present && !again && k !in c.ctx.cancelledKeys)
                               && (u.outcome.Failed? || u.outcome.Withdrawn?))
  {
  }

  /** When a cycle gives a job up. After any run the decision on a failed call is to try again exactly
      if this failure is no final one, at most maxRetry calls have failed, and neither the job nor the
      cycle is cancelled. It is failure exactly if the record still stands, the job was not cancelled,
      and the calls are used up, the failure is final or the cycle was cancelled. */
  lemma GivesUpExactlyWhenUsedUp(keys: set<Key>, refused: set<Key>, whole: bool, events: seq<Event>, k: Key,
                                 present: bool, maxRetry: nat)
    requires Exec(Open(keys, refused, whole), events, maxRetry).At(k).Refused?
    ensures var c := Open(keys, refused, whole);
            var d := Exec(c, events, maxRetry);
            var u := Step(d, Decide(k, present), maxRetry).At(k);
            var again := LatestRetryable(c, events, k, maxRetry) && Failures(c, events, k, maxRetry) <= maxRetry
                         && !d.ctx.cancelEvent;
            && (u.Retrying? <==> again && k !in d.ctx.cancelledKeys)
            && (u.Settled? <==> !u.Retrying?)
            && (u.Settled? ==> (u.outcome.Failed? <==> present && !again && k !in d.ctx.cancelledKeys)
                               && (u.outcome.Failed? || u.outcome.Withdrawn?))
  {
    RunTallies(keys, refused, whole, events, k, maxRetry);
    SubmitCycleProofs.OpenHolds(keys, refused, whole, maxRetry);
    RefusalIsLatest(Open(keys, refused, whole), events, k, maxRetry);
    DecisionOnFailure(Exec(Open(keys, refused, whole), events, maxRetry), k, present, maxRetry);
  }

  // ---------------------------------------------------------------------
  // What the table is told
  // ---------------------------------------------------------------------

  predicate AboutRetries(st: JobState) {
    st.Submitting? || st.RetryWait?
  }

  /** The retry states of k in the notes, in order. */
  function Told(notes: seq<Note>, k: Key): seq<JobState> {
    if notes == [] then []
    else
      var last := notes[|notes| - 1];
      Told(notes[..|notes| - 1], k) + if last.key == k && AboutRetries(last.state) then [last.state] else []
  }

  /** n retries, each one announced and then begun. */
  function Rounds(n: nat): seq<JobState> {
    if n == 0 then [] else Rounds(n - 1) + [RetryWait, Submitting]
  }

  /** A counted unit comes with records that are over or on LSF, not waiting. */
  predicate CountsNoRetry(e: Event) {
    e.Count? ==> forall n <- e.notes :: !AboutRetries(n.state)
  }

  /** What may have been told about a unit that ended: all retries before its last call, and perhaps
      the next one. */
  predicate ToldAtEnd(told: seq<JobState>, calls: nat) {
    if calls == 0 then told == []
    else told == Rounds(calls - 1) || told == Rounds(calls - 1) + [RetryWait] || told == Rounds(calls)
  }

  predicate Announced(u: Unit, told: seq<JobState>, calls: nat) {
    match u
    case Unlaunched => told == []
    case Reset => told == []
    case Queued(a) => told == if a == 0 then [] else Rounds(a - 1) + [RetryWait]
    case Entered(a) => told == if a == 0 then [] else Rounds(a - 1) + [RetryWait]
    case Pending(a) => a > 0 && told == Rounds(a - 1) + [RetryWait]
    case Firing(a) => a > 0 && told == Rounds(a - 1) + [RetryWait]
    case Started(a) => told == Rounds(a)
    case Cleared(a) => told == Rounds(a)
    case Wrapping(a) => told == Rounds(a)
    case Refused(a, _) => told == Rounds(a)
    case Retrying(a) => told == Rounds(a)
    case Marked(a) => told == Rounds(a) + [RetryWait]
    case Returned(_) => calls > 0 && told == Rounds(calls - 1)
    case _ => ToldAtEnd(told, calls)
  }

  lemma {:induction false} ToldMore(notes: seq<Note>, more: seq<Note>, k: Key)
    requires forall n <- more :: n.key != k || !AboutRetries(n.state)
    ensures Told(notes + more, k) == Told(notes, k)
  {
    if more == [] {
      assert notes + more == notes;
    } else {
      var n := |more| - 1;
      ToldMore(notes, more[..n], k);
      assert (notes + more)[..|notes| + n] == notes + more[..n];
    }
  }

  lemma ToldOne(notes: seq<Note>, note: Note, k: Key)
    ensures Told(notes + [note], k)
         == Told(notes, k) + if note.key == k && AboutRetries(note.state) then [note.state] else []
  {
    assert (notes + [note])[..|notes|] == notes;
  }

  /** The notes of one event: a retry that begins, a retry that will come, a unit that is counted. */
  lemma NotesOfAnEvent(c: Cycle, e: Event, maxRetry: nat)
    ensures Step(c, e, maxRetry).appended == c.appended +
              if e.BeginTask? && c.At(e.k).Entered? && e.present && c.At(e.k).attempt > 0 then
                [Submission.Note(e.k, Submitting)]
              else if e.MarkRetry? && c.At(e.k).Retrying? && e.present then [Submission.Note(e.k, RetryWait)]
              else if e.Count? && c.At(e.k).Settled? then e.notes
              else []
  {
  }

  lemma ToldOfAnEvent(c: Cycle, e: Event, k: Key, maxRetry: nat)
    requires CountsNoRetry(e)
    ensures Told(Step(c, e, maxRetry).appended, k) == Told(c.appended, k) + Says(c, e, k)
  {
    NotesOfAnEvent(c, e, maxRetry);
    if e.BeginTask? && c.At(e.k).Entered? && e.present && c.At(e.k).attempt > 0 {
      ToldOne(c.appended, Submission.Note(e.k, Submitting), k);
    } else if e.MarkRetry? && c.At(e.k).Retrying? && e.present {
      ToldOne(c.appended, Submission.Note(e.k, RetryWait), k);
    } else if e.Count? && c.At(e.k).Settled? {
      ToldMore(c.appended, e.notes, k);
    } else {
      assert c.appended + [] == c.appended;
    }
  }

  lemma GoesAnnounced(u: Unit, v: Unit, e: Event, k: Key, says: seq<JobState>, told: seq<JobState>, failures: nat,
                      calls: nat, maxRetry: nat)
    requires Goes(u, v, e, k, says, maxRetry) && Tallies(u, failures, calls, maxRetry) && Announced(u, told, calls)
    ensures Announced(v, told + says, calls + if e.Wrap? && e.k == k && v != u then 1 else 0)
  {
    assert told + [] == told;
  }

  /** No retry is skipped or doubled, and while a call runs every one before it has been told. */
  predicate ToldExactly(u: Unit, told: seq<JobState>, calls: nat) {
    && ToldAtEnd(told, calls)
    && (u.Wrapping? || u.Returned? || u.Refused? ==> calls > 0 && told == Rounds(calls - 1))
  }

  lemma AnnouncedAtEnd(u: Unit, told: seq<JobState>, failures: nat, calls: nat, maxRetry: nat)
    requires Tallies(u, failures, calls, maxRetry) && Announced(u, told, calls)
    ensures ToldExactly(u, told, calls)
  {
  }

  lemma AnnouncedOneMore(c: Cycle, e: Event, k: Key, failures: nat, calls: nat, maxRetry: nat)
    requires SubmitCycleProofs.LedgerAgrees(c) && SubmitCycleProofs.PhaseAgrees(c) && CountsNoRetry(e)
    requires Tallies(c.At(k), failures, calls, maxRetry) && Announced(c.At(k), Told(c.appended, k), calls)
    ensures var d := Step(c, e, maxRetry);
            Announced(d.At(k), Told(d.appended, k), calls + if e.Wrap? && e.k == k && d.At(k) != c.At(k) then 1 else 0)
  {
    ToldOfAnEvent(c, e, k, maxRetry);
    StepGoes(c, e, k, maxRetry);
    GoesAnnounced(c.At(k), Step(c, e, maxRetry).At(k), e, k, Says(c, e, k), Told(c.appended, k), failures, calls,
                  maxRetry);
  }

  lemma {:induction false} RunAnnounced(keys: set<Key>, refused: set<Key>, whole: bool, events: seq<Event>,
                                        k: Key, maxRetry: nat)
    requires forall e <- events :: CountsNoRetry(e)
    ensures var c := Open(keys, refused, whole);
            var d := Exec(c, events, maxRetry);
            Announced(d.At(k), Told(d.appended, k), Calls(c, events, k, maxRetry))
    decreases |events|
  {
    var c := Open(keys, refused, whole);
    if events == [] {
    } else {
      var n := |events| - 1;
      var before := Exec(c, events[..n], maxRetry);
      RunAnnounced(keys, refused, whole, events[..n], k, maxRetry);
      RunTallies(keys, refused, whole, events[..n], k, maxRetry);
      SubmitCycleProofs.OpenHolds(keys, refused, whole, maxRetry);
      SubmitCycleProofs.RunKeeps(c, events[..n], maxRetry);
      AnnouncedOneMore(before, events[n], k, Failures(c, events[..n], k, maxRetry),
                       Calls(c, events[..n], k, maxRetry), maxRetry);
    }
  }

  /** No retry is begun unannounced and none is announced twice: over every run the retry states of a job
      that go into the batches are RETRY_WAIT and SUBMITTING in turn, once for each call but the first;
      while the last call runs exactly those. */
  lemma EveryRetryIsTold(keys: set<Key>, refused: set<Key>, whole: bool, events: seq<Event>, k: Key, maxRetry: nat)
    requires forall e <- events :: CountsNoRetry(e)
    ensures var c := Open(keys, refused, whole);
            var d := Exec(c, events, maxRetry);
            ToldExactly(d.At(k), Told(d.appended, k), Calls(c, events, k, maxRetry))
  {
    var c := Open(keys, refused, whole);
    var d := Exec(c, events, maxRetry);
    RunTallies(keys, refused, whole, events, k, maxRetry);
    RunAnnounced(keys, refused, whole, events, k, maxRetry);
    AnnouncedAtEnd(d.At(k), Told(d.appended, k), Failures(c, events, k, maxRetry), Calls(c, events, k, maxRetry),
                   maxRetry);
  }

  // ---------------------------------------------------------------------
  // Who is counted as what, and what progress says
  // ---------------------------------------------------------------------

  /** A unit is counted as its task ended it; without a task it is counted as withdrawn, and only a launch that
      fails counts what is left as failed. */
  ghost predicate CountedRight(u: Unit, v: Unit, e: Event, k: Key) {
    v.Counted? && v != u ==>
      if e.LaunchFail? then v.outcome.Failed?
      else if e.Reject? || e.SkipBlocked? || e == ResetKey(k, false) then v.outcome.Withdrawn?
      else e.Count? && e.k == k && u.Settled? && v.outcome == u.outcome
  }

  lemma UnitsAreCountedForAReason(c: Cycle, e: Event, k: Key, maxRetry: nat)
    requires SubmitCycleProofs.LedgerAgrees(c)
    ensures CountedRight(c.At(k), Step(c, e, maxRetry).At(k), e, k)
  {
    if Bookkeeping(e) {
      BookkeepingMovesNothing(c, e, maxRetry);
    } else if Sweeping(e) {
      SweepsCountRight(c, e, k, maxRetry);
    } else if e.k != k {
      OthersStay(c, e, k, maxRetry);
    } else if Entering(e) || Beginning(e) || Closing(e) {
      ClosingCountsRight(c, e, k, maxRetry);
    }
  }

  lemma SweepsCountRight(c: Cycle, e: Event, k: Key, maxRetry: nat)
    requires Sweeping(e)
    ensures CountedRight(c.At(k), Step(c, e, maxRetry).At(k), e, k)
  {
  }

  lemma ClosingCountsRight(c: Cycle, e: Event, k: Key, maxRetry: nat)
    requires Entering(e) || Beginning(e) || Closing(e)
    ensures CountedRight(c.At(e.k), Step(c, e, maxRetry).At(e.k), e, e.k)
  {
  }

  /** The progress signals of a cycle so far. */
  function ProgressOf(signals: seq<Signal>): seq<Signal> {
    if signals == [] then []
    else
      var last := signals[|signals| - 1];
      ProgressOf(signals[..|signals| - 1]) + if last.Progress? then [last] else []
  }

  /** They count up towards the total and never past what is done. */
  ghost predicate CountsUp(reports: seq<Signal>, total: nat, done: nat) {
    && (forall i :: 0 <= i < |reports| ==> reports[i].Progress? && reports[i].total == total && reports[i].done <= done)
    && (forall i, j :: 0 <= i < j < |reports| ==> reports[i].done <= reports[j].done)
  }

  lemma {:induction false} ProgressOfBoth(a: seq<Signal>, b: seq<Signal>)
    ensures ProgressOf(a + b) == ProgressOf(a) + ProgressOf(b)
  {
    if b == [] {
      assert a + b == a;
    } else {
      var n := |b| - 1;
      ProgressOfBoth(a, b[..n]);
      assert (a + b)[..|a| + n] == a + b[..n];
    }
  }

  lemma {:induction false} NoProgressIn(b: seq<Signal>)
    requires forall s <- b :: !s.Progress?
    ensures ProgressOf(b) == []
  {
    if b == [] {
    } else {
      NoProgressIn(b[..|b| - 1]);
      assert b[|b| - 1] in b;
    }
  }

  /** A step puts at most one progress signal out, before anything else it sends, and it says how many are
      done then. */
  ghost predicate Sends(c: Context, d: Context) {
    && d.total == c.total && c.done <= d.done && c.signals <= d.signals
    && (|d.signals| > |c.signals| && d.signals[|c.signals|].Progress? ==>
          d.signals[|c.signals|] == Progress(d.done, d.total) && d.done == c.done)
    && (forall j :: |c.signals| < j < |d.signals| ==> !d.signals[j].Progress?)
  }

  lemma EndingSends(c: Context, force: bool, failure: bool, emit: bool)
    requires c.done <= c.total
    ensures Sends(c, c.Finishing(force)) && Sends(c, c.Forcing(failure, emit))
  {
  }

  lemma EmittingSends(c: Context, progress: bool, pass: bool)
    ensures Sends(c, c.Emitting(progress, pass))
  {
  }

  ghost predicate SendsNothing(c: Cycle, e: Event, maxRetry: nat) {
    var d := Step(c, e, maxRetry);
    d.ctx.total == c.ctx.total && c.ctx.done <= d.ctx.done && d.ctx.signals == c.ctx.signals
  }

  lemma ControlSendsNothing(c: Cycle, e: Event, maxRetry: nat)
    requires (Bookkeeping(e) && !e.FinishEmpty? && !e.FinishCheck? && !e.Emit?) || e.SkipBlocked? || e.Abort?
    ensures SendsNothing(c, e, maxRetry)
  {
  }

  lemma PreparingSendsNothing(c: Cycle, e: Event, maxRetry: nat)
    requires Entering(e) || Beginning(e)
    ensures SendsNothing(c, e, maxRetry)
  {
  }

  lemma CallingSendsNothing(c: Cycle, e: Event, maxRetry: nat)
    requires Calling(e) || Deciding(e)
    ensures SendsNothing(c, e, maxRetry)
  {
  }

  lemma FollowingSendsNothing(c: Cycle, e: Event, maxRetry: nat)
    requires Following(e) || Closing(e)
    ensures SendsNothing(c, e, maxRetry)
  {
  }

  lemma StepSends(c: Cycle, e: Event, maxRetry: nat)
    requires SubmitCycleProofs.CountersAgree(c)
    ensures Sends(c.ctx, Step(c, e, maxRetry).ctx)
  {
    SubmitCycleProofs.DoneBound(c);
    if e.Reject? {
      EndingSends(c.ctx, false, false, e.emit);
    } else if e.LaunchFail? {
      EndingSends(c.ctx, false, true, true);
    } else if e.FinishEmpty? {
      EndingSends(c.ctx, true, false, false);
    } else if e.FinishCheck? {
      EndingSends(c.ctx, false, false, false);
    } else if e.Emit? {
      EmittingSends(c.ctx, e.progress, e.pass);
    } else if Entering(e) || Beginning(e) {
      PreparingSendsNothing(c, e, maxRetry);
    } else if Calling(e) || Deciding(e) {
      CallingSendsNothing(c, e, maxRetry);
    } else if Following(e) || Closing(e) {
      FollowingSendsNothing(c, e, maxRetry);
    } else {
      ControlSendsNothing(c, e, maxRetry);
    }
  }

  lemma ProgressOfSending(c: Context, d: Context)
    requires Sends(c, d) && CountsUp(ProgressOf(c.signals), c.total, c.done)
    ensures CountsUp(ProgressOf(d.signals), d.total, d.done)
  {
    var n := |c.signals|;
    var more := d.signals[n..];
    assert d.signals == c.signals + more;
    ProgressOfBoth(c.signals, more);
    if more != [] {
      FirstMayReport(more, d);
      LastReport(ProgressOf(c.signals), ProgressOf(more), c, d);
    } else {
      assert ProgressOf(more) == [] && ProgressOf(c.signals) + [] == ProgressOf(c.signals);
    }
  }

  lemma FirstMayReport(more: seq<Signal>, d: Context)
    requires more != [] && forall j :: 0 < j < |more| ==> !more[j].Progress?
    ensures ProgressOf(more) == if more[0].Progress? then [more[0]] else []
  {
    var rest := more[1..];
    assert more == [more[0]] + rest;
    ProgressOfBoth([more[0]], rest);
    NoProgressIn(rest);
    assert [more[0]][..0] == [];
  }

  lemma LastReport(reports: seq<Signal>, more: seq<Signal>, c: Context, d: Context)
    requires CountsUp(reports, c.total, c.done) && d.total == c.total && c.done <= d.done
    requires more == [] || (more == [Progress(d.done, d.total)] && d.done == c.done)
    ensures CountsUp(reports + more, d.total, d.done)
  {
  }

  /** Over every run: the progress a cycle reports is out of its total, never falls, and never runs ahead of what
      is counted. */
  lemma {:induction false} ProgressNeverFalls(keys: set<Key>, refused: set<Key>, whole: bool, events: seq<Event>,
                                              maxRetry: nat)
    ensures var c := Exec(Open(keys, refused, whole), events, maxRetry);
            c.ctx.total == |keys| && CountsUp(ProgressOf(c.ctx.signals), |keys|, c.ctx.done)
    decreases |events|
  {
    var c := Open(keys, refused, whole);
    if events == [] {
    } else {
      var n := |events| - 1;
      ProgressNeverFalls(keys, refused, whole, events[..n], maxRetry);
      SubmitCycleProofs.OpenHolds(keys, refused, whole, maxRetry);
      SubmitCycleProofs.RunKeeps(c, events[..n], maxRetry);
      StepSends(Exec(c, events[..n], maxRetry), events[n], maxRetry);
      ProgressOfSending(Exec(c, events[..n], maxRetry).ctx, Exec(c, events, maxRetry).ctx);
    }
  }
}
