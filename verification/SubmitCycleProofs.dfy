/** What every interleaving of one submit cycle keeps. */
module SubmitCycleProofs {
  import opened JobModel
  import opened Submission
  import opened SubmitCycle

  function CountedAs(units: map<Key, Unit>, kind: Kind): set<Key> {
    set k | k in units && units[k].Counted? && units[k].outcome.Kind() == kind
  }

  function Uncounted(units: map<Key, Unit>): set<Key> {
    set k | k in units && !units[k].Counted?
  }

  /** The records of all jobs_changed batches, in the order of emission. */
  function Published(signals: seq<Signal>): seq<Note> {
    if signals == [] then []
    else
      var last := signals[|signals| - 1];
      Published(signals[..|signals| - 1]) + (if last.JobsChanged? then last.batch else [])
  }

  ghost predicate CountersAgree(c: Cycle) {
    && c.ctx.total == |c.units|
    && c.ctx.succeeded == |CountedAs(c.units, Success)|
    && c.ctx.failed == |CountedAs(c.units, Failure)|
    && c.ctx.cancelled == |CountedAs(c.units, Cancellation)|
    && c.ctx.done == c.ctx.succeeded + c.ctx.failed + c.ctx.cancelled
  }

  ghost predicate LedgerAgrees(c: Cycle) {
    && (forall k <- c.ctx.pending :: k in c.units && c.units[k] == Pending(c.ctx.pending[k]))
    && (forall k <- c.units :: c.units[k].Pending? ==> k in c.ctx.pending)
  }

  ghost predicate PhaseAgrees(c: Cycle) {
    && (c.phase.BeforeReset() ==> forall k <- c.units :: c.units[k].Unlaunched?)
    && (c.phase.BeforeTasks() ==> c.NoneStarted() && c.ctx.inflight == {} && c.leaving == multiset{}
                                  && c.ctx.buffer == [] && c.appended == [])
    && (c.phase.Prepared? || c.phase.Launched? || c.phase.Closed? ==> forall k <- c.units :: !c.units[k].Unlaunched?)
    && (c.phase.Closed? ==> c.ctx.finished)
  }

  ghost predicate SectionCovered(c: Cycle) {
    && (forall k <- c.units :: c.units[k].InSection() && k !in c.overtaken ==> k in c.ctx.inflight && c.leaving[k] == 0)
    && (forall k <- c.ctx.inflight :: k in c.units)
  }

  ghost predicate NoRetryTrace(c: Cycle) {
    && (forall k <- c.units :: !c.units[k].RetryPath())
    && (forall k <- c.leaving :: k in c.units && c.units[k].Counted?)
    && c.overtaken == {}
  }

  ghost predicate EndAgrees(c: Cycle) {
    && (c.ctx.finished ==> c.AllCounted() && c.ctx.buffer == [])
    && (0 < c.ctx.total <= c.ctx.done && !c.ctx.finished ==> c.checks > 0)
  }

  predicate NoFinished(signals: seq<Signal>) {
    forall s <- signals :: !s.Finished?
  }

  /** finished is the last signal, fires once, and carries the final counters. */
  ghost predicate FinishedLast(c: Cycle) {
    var s := c.ctx.signals;
    && s != []
    && s[|s| - 1] == Finished(Report(c.ctx.total, c.ctx.succeeded, c.ctx.failed, c.ctx.cancelled))
    && NoFinished(s[..|s| - 1])
  }

  ghost predicate SignalsAgree(c: Cycle) {
    && c.appended == Published(c.ctx.signals) + c.ctx.buffer
    && (!c.ctx.finished ==> NoFinished(c.ctx.signals))
    && (c.ctx.finished ==> FinishedLast(c) || (c.phase.Closed? && NoFinished(c.ctx.signals)))
  }

  /** A cycle the gate turned away entirely stays cancelled until it is settled. */
  ghost predicate RegistrationAgrees(c: Cycle) {
    c.registered || c.ctx.finished || (c.phase.Born? && c.phase.whole) || (c.phase.Armed? && c.ctx.cancelEvent)
  }

  ghost predicate Inv(c: Cycle, maxRetry: nat) {
    && CountersAgree(c) && LedgerAgrees(c) && PhaseAgrees(c) && SectionCovered(c)
    && RegistrationAgrees(c) && EndAgrees(c) && SignalsAgree(c) && (maxRetry == 0 ==> NoRetryTrace(c))
  }

  // ---------------------------------------------------------------------
  // Counting
  // ---------------------------------------------------------------------

  lemma CountedMove(units: map<Key, Unit>, k: Key, u: Unit)
    requires k in units && !units[k].Counted? && !u.Counted?
    ensures |units[k := u]| == |units|
    ensures forall kind :: CountedAs(units[k := u], kind) == CountedAs(units, kind)
  {
    assert units[k := u].Keys == units.Keys;
    forall kind
      ensures CountedAs(units[k := u], kind) == CountedAs(units, kind)
    {
    }
  }

  lemma CountedOne(units: map<Key, Unit>, k: Key, o: Outcome)
    requires k in units && !units[k].Counted?
    ensures |units[k := Counted(o)]| == |units|
    ensures forall kind :: |CountedAs(units[k := Counted(o)], kind)|
                           == |CountedAs(units, kind)| + (if kind == o.Kind() then 1 else 0)
  {
    assert units[k := Counted(o)].Keys == units.Keys;
    forall kind
      ensures |CountedAs(units[k := Counted(o)], kind)|
          == |CountedAs(units, kind)| + (if kind == o.Kind() then 1 else 0)
    {
      if kind == o.Kind() {
        assert CountedAs(units[k := Counted(o)], kind) == CountedAs(units, kind) + {k};
      } else {
        assert CountedAs(units[k := Counted(o)], kind) == CountedAs(units, kind);
      }
    }
  }

  /** Every unit is in exactly one of the four classes. */
  lemma Partition(units: map<Key, Unit>)
    ensures |units| == |CountedAs(units, Success)| + |CountedAs(units, Failure)|
                       + |CountedAs(units, Cancellation)| + |Uncounted(units)|
  {
    var s, f, c, u :=
        CountedAs(units, Success), CountedAs(units, Failure), CountedAs(units, Cancellation), Uncounted(units);
    assert units.Keys == s + f + c + u;
    assert s !! f && (s + f) !! c && (s + f + c) !! u;
    assert |s + f + c + u| == |s + f + c| + |u|;
  }

  lemma DoneBound(c: Cycle)
    requires CountersAgree(c)
    ensures c.ctx.done + |Uncounted(c.units)| == c.ctx.total
    ensures c.ctx.done >= c.ctx.total <==> c.AllCounted()
  {
    Partition(c.units);
    if c.ctx.done >= c.ctx.total {
      assert Uncounted(c.units) == {};
      forall k <- c.units ensures c.units[k].Counted? {
        assert k !in Uncounted(c.units);
      }
    }
    if c.AllCounted() {
      assert Uncounted(c.units) == {};
    }
  }

  lemma CountedAll(units: map<Key, Unit>, o: Outcome)
    ensures |CountRest(units, o)| == |units|
    ensures forall kind :: |CountedAs(CountRest(units, o), kind)|
                           == |CountedAs(units, kind)| + (if kind == o.Kind() then |Uncounted(units)| else 0)
  {
    assert CountRest(units, o).Keys == units.Keys;
    forall kind
      ensures |CountedAs(CountRest(units, o), kind)|
          == |CountedAs(units, kind)| + (if kind == o.Kind() then |Uncounted(units)| else 0)
    {
      if kind == o.Kind() {
        assert CountedAs(CountRest(units, o), kind) == CountedAs(units, kind) + Uncounted(units);
      } else {
        assert CountedAs(CountRest(units, o), kind) == CountedAs(units, kind);
      }
    }
  }

  lemma CountedBlocked(units: map<Key, Unit>, waiting: set<Key>)
    requires waiting == set k | k in units && units[k].Unlaunched?
    ensures |CountBlocked(units)| == |units|
    ensures forall kind :: |CountedAs(CountBlocked(units), kind)|
                           == |CountedAs(units, kind)| + (if kind == Cancellation then |waiting| else 0)
  {
    assert CountBlocked(units).Keys == units.Keys;
    forall kind
      ensures |CountedAs(CountBlocked(units), kind)|
          == |CountedAs(units, kind)| + (if kind == Cancellation then |waiting| else 0)
    {
      if kind == Cancellation {
        assert CountedAs(CountBlocked(units), kind) == CountedAs(units, kind) + waiting;
      } else {
        assert CountedAs(CountBlocked(units), kind) == CountedAs(units, kind);
      }
    }
  }

  // ---------------------------------------------------------------------
  // Signals
  // ---------------------------------------------------------------------

  lemma PublishedOne(signals: seq<Signal>, s: Signal)
    ensures Published(signals + [s]) == Published(signals) + (if s.JobsChanged? then s.batch else [])
  {
    assert (signals + [s])[..|signals|] == signals;
  }

  lemma QuietSignal(signals: seq<Signal>, s: Signal, sent: bool)
    requires !s.JobsChanged? && !s.Finished?
    ensures var more := signals + (if sent then [s] else []);
            Published(more) == Published(signals) && (NoFinished(signals) ==> NoFinished(more))
  {
    PublishedOne(signals, s);
    assert signals + [] == signals;
  }

  lemma FlushedSignal(signals: seq<Signal>, c: Context)
    ensures var more := signals + c.Flush();
            Published(more) == Published(signals) + c.buffer && (NoFinished(signals) ==> NoFinished(more))
  {
    PublishedOne(signals, JobsChanged(c.buffer));
    assert signals + [] == signals;
  }

  lemma EmittingKeeps(c: Context, progress: bool, pass: bool)
    ensures var d := c.Emitting(progress, pass);
            Published(d.signals) + d.buffer == Published(c.signals) + c.buffer
    ensures NoFinished(c.signals) ==> NoFinished(c.Emitting(progress, pass).signals)
  {
    if !c.finished && pass {
      QuietSignal(c.signals, Progress(c.done, c.total), progress);
      FlushedSignal(c.signals + (if progress then [Progress(c.done, c.total)] else []), c);
      var d := c.Emitting(progress, pass);
      assert Published(d.signals) + [] == Published(d.signals);
    }
  }

  lemma FinishingKeeps(c: Context, force: bool)
    requires NoFinished(c.signals)
    requires !c.finished && (c.done >= c.total || force)
    ensures var d := c.Finishing(force);
            && d.finished && d.buffer == []
            && Published(d.signals) == Published(c.signals) + c.buffer
            && d.signals != [] && d.signals[|d.signals| - 1] == Finished(d.Summary())
            && NoFinished(d.signals[..|d.signals| - 1])
  {
    var mid := c.signals + (if c.done >= c.total then [Progress(c.total, c.total)] else []);
    QuietSignal(c.signals, Progress(c.total, c.total), c.done >= c.total);
    FlushedSignal(mid, c);
    LastSignal(mid + c.Flush(), Finished(c.Summary()));
    assert c.Finishing(force).signals == mid + c.Flush() + [Finished(c.Summary())];
  }

  lemma LastSignal(signals: seq<Signal>, s: Signal)
    requires s.Finished?
    ensures Published(signals + [s]) == Published(signals)
    ensures (signals + [s])[..|signals + [s]| - 1] == signals
  {
    PublishedOne(signals, s);
  }

  // ---------------------------------------------------------------------
  // One event
  // ---------------------------------------------------------------------

  /** A unit moves between two states that are neither counted nor in the retry ledger. */
  lemma MoveKeeps(c: Cycle, k: Key, u: Unit, maxRetry: nat)
    requires Inv(c, maxRetry) && k in c.units
    requires !c.units[k].Counted? && !c.units[k].Pending? && !u.Counted? && !u.Pending? && !u.Unlaunched?
    requires c.phase.BeforeTasks() ==> c.phase.Launching? && u.Reset?
    requires u.InSection() ==> c.units[k].InSection()
    requires maxRetry == 0 ==> !u.RetryPath()
    ensures Inv(c.Put(k, u), maxRetry)
  {
    CountedMove(c.units, k, u);
  }

  lemma NoteKeeps(c: Cycle, k: Key, st: JobState, maxRetry: nat)
    requires Inv(c, maxRetry) && k in c.units && !c.units[k].Counted? && !c.phase.BeforeTasks()
    ensures Inv(c.Note(k, st), maxRetry)
  {
    var d := c.Note(k, st);
    assert Published(c.ctx.signals) + (c.ctx.buffer + [Submission.Note(k, st)])
        == Published(c.ctx.signals) + c.ctx.buffer + [Submission.Note(k, st)];
    assert !c.AllCounted();
  }

  lemma MoveAndNote(c: Cycle, k: Key, u: Unit, st: JobState, maxRetry: nat)
    requires Inv(c, maxRetry) && k in c.units && c.units[k].InSection() && u.InSection()
    requires maxRetry == 0 ==> !u.RetryPath()
    ensures Inv(c.Put(k, u), maxRetry)
    ensures Inv(c.Put(k, u).Note(k, st), maxRetry)
  {
    MoveKeeps(c, k, u, maxRetry);
    NoteKeeps(c.Put(k, u), k, st, maxRetry);
  }

  lemma CountKeeps(c: Cycle, k: Key, notes: seq<Note>, maxRetry: nat)
    requires Inv(c, maxRetry)
    ensures Inv(DoCount(c, k, notes), maxRetry)
  {
    if c.At(k).Settled? {
      var d := DoCount(c, k, notes);
      SettledCounters(c, d, k);
      SettledUnits(c, d, k);
      assert !c.AllCounted();
      CountedSignals(c, d, notes);
    }
  }

  /** Counting one more unit of a cycle that is not over leaves its signals as they are. */
  lemma CountedSignals(c: Cycle, d: Cycle, notes: seq<Note>)
    requires EndAgrees(c) && SignalsAgree(c) && RegistrationAgrees(c) && !c.AllCounted()
    requires d.ctx.signals == c.ctx.signals && d.ctx.buffer == c.ctx.buffer + notes && d.appended == c.appended + notes
    requires d.ctx.finished == c.ctx.finished && d.checks > 0 && d.phase == c.phase && d.registered == c.registered
    requires d.ctx.cancelEvent == c.ctx.cancelEvent
    ensures EndAgrees(d) && SignalsAgree(d) && RegistrationAgrees(d)
  {
    assert Published(c.ctx.signals) + (c.ctx.buffer + notes) == Published(c.ctx.signals) + c.ctx.buffer + notes;
  }

  lemma SettledCounters(c: Cycle, d: Cycle, k: Key)
    requires CountersAgree(c) && k in c.units && c.units[k].Settled?
    requires d.units == c.units[k := Counted(c.units[k].outcome)] && d.ctx.total == c.ctx.total
    requires d.ctx.done == c.ctx.done + 1
    requires var kind := c.units[k].outcome.Kind();
             && d.ctx.succeeded == c.ctx.succeeded + (if kind.Success? then 1 else 0)
             && d.ctx.failed == c.ctx.failed + (if kind.Failure? then 1 else 0)
             && d.ctx.cancelled == c.ctx.cancelled + (if kind.Cancellation? then 1 else 0)
    ensures CountersAgree(d)
  {
    CountedOne(c.units, k, c.units[k].outcome);
  }

  lemma SettledUnits(c: Cycle, d: Cycle, k: Key)
    requires LedgerAgrees(c) && PhaseAgrees(c) && SectionCovered(c)
    requires k in c.units && c.units[k].Settled? && d.units == c.units[k := Counted(c.units[k].outcome)]
    requires d.leaving == c.leaving || d.leaving == c.leaving + multiset{k}
    requires d.phase == c.phase && d.overtaken == c.overtaken
    requires d.ctx.inflight == c.ctx.inflight && d.ctx.pending == c.ctx.pending && d.ctx.finished == c.ctx.finished
    ensures LedgerAgrees(d) && PhaseAgrees(d) && SectionCovered(d)
    ensures NoRetryTrace(c) ==> NoRetryTrace(d)
  {
    SettledSection(c, d, k);
  }

  lemma SettledSection(c: Cycle, d: Cycle, k: Key)
    requires SectionCovered(c) && k in c.units && c.units[k].Settled?
    requires d.units == c.units[k := Counted(c.units[k].outcome)]
    requires d.leaving == c.leaving || d.leaving == c.leaving + multiset{k}
    requires d.overtaken == c.overtaken && d.ctx.inflight == c.ctx.inflight
    ensures SectionCovered(d)
    ensures NoRetryTrace(c) ==> NoRetryTrace(d)
  {
  }

  lemma ResetKeeps(c: Cycle, k: Key, present: bool, maxRetry: nat)
    requires Inv(c, maxRetry)
    ensures Inv(DoResetKey(c, k, present), maxRetry)
  {
    if c.phase.Launching? && c.At(k).Unlaunched? && k !in c.phase.blocked {
      if present {
        MoveKeeps(c, k, Reset, maxRetry);
      } else {
        VanishKeeps(c, k, maxRetry);
      }
    }
  }

  lemma VanishKeeps(c: Cycle, k: Key, maxRetry: nat)
    requires Inv(c, maxRetry) && c.phase.Launching? && k in c.units && c.units[k].Unlaunched?
    ensures Inv(c.Put(k, Counted(Withdrawn)).(ctx := c.ctx.Counting(1, Cancellation, []), checks := c.checks + 1),
        maxRetry)
  {
    var d := c.Put(k, Counted(Withdrawn)).(ctx := c.ctx.Counting(1, Cancellation, []), checks := c.checks + 1);
    CountedOne(c.units, k, Withdrawn);
    VanishedUnits(c, d, k);
    assert !c.AllCounted();
    CountedSignals(c, d, []);
  }

  lemma VanishedUnits(c: Cycle, d: Cycle, k: Key)
    requires LedgerAgrees(c) && PhaseAgrees(c) && SectionCovered(c) && c.phase.Launching?
    requires k in c.units && c.units[k].Unlaunched? && d.units == c.units[k := Counted(Withdrawn)]
    requires d.leaving == c.leaving && d.phase == c.phase && d.overtaken == c.overtaken && d.appended == c.appended
    requires d.ctx == c.ctx.(done := d.ctx.done, cancelled := d.ctx.cancelled)
    ensures LedgerAgrees(d) && PhaseAgrees(d) && SectionCovered(d)
    ensures NoRetryTrace(c) ==> NoRetryTrace(d)
  {
  }

  lemma SkipKeeps(c: Cycle, maxRetry: nat)
    requires Inv(c, maxRetry)
    ensures Inv(DoSkipBlocked(c), maxRetry)
  {
    if c.phase.Launching? && (forall k <- c.units :: c.units[k].Unlaunched? ==> k in c.phase.blocked) {
      var waiting := set k | k in c.units && c.units[k].Unlaunched?;
      var d := DoSkipBlocked(c);
      SkipUnits(c, d);
      if waiting == {} {
        assert forall k <- c.units :: k !in waiting;
        RelabelKeeps(c, d, maxRetry);
      } else {
        SkipCounters(c, d, waiting);
        SkipSignals(c, d, waiting);
      }
    }
  }

  lemma SkipSignals(c: Cycle, d: Cycle, waiting: set<Key>)
    requires EndAgrees(c) && SignalsAgree(c) && RegistrationAgrees(c) && c.phase.Launching?
    requires waiting == (set k | k in c.units && c.units[k].Unlaunched?) && waiting != {}
    requires d.phase.Prepared? && d.appended == c.appended && d.checks > 0 && d.registered == c.registered
    requires d.ctx == c.ctx.Counting(|waiting|, Cancellation, [])
    ensures EndAgrees(d) && SignalsAgree(d) && RegistrationAgrees(d)
  {
    var k :| k in waiting;
    assert !c.AllCounted();
    assert c.ctx.buffer + [] == c.ctx.buffer;
  }

  lemma SkipCounters(c: Cycle, d: Cycle, waiting: set<Key>)
    requires CountersAgree(c) && waiting == set k | k in c.units && c.units[k].Unlaunched?
    requires d.units == CountBlocked(c.units) && d.ctx == c.ctx.Counting(|waiting|, Cancellation, [])
    ensures CountersAgree(d)
  {
    CountedBlocked(c.units, waiting);
  }

  lemma SkipUnits(c: Cycle, d: Cycle)
    requires LedgerAgrees(c) && PhaseAgrees(c) && SectionCovered(c) && c.phase.Launching?
    requires d.phase.Prepared? && d.units == CountBlocked(c.units) && d.appended == c.appended
    requires d.leaving == c.leaving && d.overtaken == c.overtaken
    requires d.ctx.inflight == c.ctx.inflight && d.ctx.pending == c.ctx.pending && d.ctx.buffer == c.ctx.buffer
    ensures LedgerAgrees(d) && PhaseAgrees(d) && SectionCovered(d)
    ensures (forall k <- c.units :: !c.units[k].Unlaunched?) ==> d.units == c.units
    ensures NoRetryTrace(c) ==> NoRetryTrace(d)
  {
  }

  lemma ForcingKeeps(c: Cycle, d: Cycle, failure: bool, emit: bool, maxRetry: nat)
    requires Inv(c, maxRetry) && c.phase.BeforeTasks() && !c.ctx.finished
    requires d == c.(phase := Closed, ctx := c.ctx.Forcing(failure, emit),
                     units := CountRest(c.units, if failure then Failed else Withdrawn))
    ensures Inv(d, maxRetry)
  {
    ForcedCounters(c, d, failure, emit);
    ForcedSignals(c.ctx, failure, emit);
    ForcedUnits(c, d);
  }

  lemma ForcedUnits(c: Cycle, d: Cycle)
    requires LedgerAgrees(c) && PhaseAgrees(c) && SectionCovered(c) && c.phase.BeforeTasks()
    requires d.phase.Closed? && d.ctx.finished && d.units.Keys == c.units.Keys && d.AllCounted()
    requires d.leaving == c.leaving && d.overtaken == c.overtaken
    requires d.ctx.inflight == c.ctx.inflight && d.ctx.pending == c.ctx.pending
    ensures LedgerAgrees(d) && PhaseAgrees(d) && SectionCovered(d)
    ensures NoRetryTrace(c) ==> NoRetryTrace(d)
  {
  }

  lemma ForcedCounters(c: Cycle, d: Cycle, failure: bool, emit: bool)
    requires CountersAgree(c) && !c.ctx.finished
    requires d.units == CountRest(c.units, if failure then Failed else Withdrawn)
    requires d.ctx == c.ctx.Forcing(failure, emit)
    ensures CountersAgree(d)
  {
    CountedAll(c.units, if failure then Failed else Withdrawn);
    DoneBound(c);
  }

  lemma ForcedSignals(c: Context, failure: bool, emit: bool)
    requires !c.finished && NoFinished(c.signals)
    ensures var d := c.Forcing(failure, emit);
            && Published(d.signals) == Published(c.signals) && d.buffer == c.buffer
            && (if emit then d.signals == c.signals + [Finished(d.Summary())] else d.signals == c.signals)
            && (emit ==> d.signals[..|d.signals| - 1] == c.signals)
  {
    PublishedOne(c.signals, Finished(c.Forcing(failure, emit).Summary()));
  }

  lemma FinishKeeps(c: Cycle, force: bool, checks: nat, maxRetry: nat)
    requires Inv(c, maxRetry)
    requires force ==> c.AllCounted()
    requires c.checks <= checks + 1
    requires force ==> checks == c.checks && c.phase.Launched?
    ensures Inv(c.(ctx := c.ctx.Finishing(force), checks := checks), maxRetry)
  {
    DoneBound(c);
    if !c.ctx.finished && (c.ctx.done >= c.ctx.total || force) {
      FinishedSignals(c, c.(ctx := c.ctx.Finishing(force), checks := checks), force);
      FinishedFrame(c, c.(ctx := c.ctx.Finishing(force), checks := checks));
    } else {
      CheckedOff(c, c.(checks := checks));
    }
  }

  lemma FinishedSignals(c: Cycle, d: Cycle, force: bool)
    requires SignalsAgree(c) && !c.ctx.finished && c.AllCounted() && (c.ctx.done >= c.ctx.total || force)
    requires d == c.(ctx := c.ctx.Finishing(force), checks := d.checks)
    ensures SignalsAgree(d) && EndAgrees(d)
  {
    FinishingKeeps(c.ctx, force);
    assert Published(d.ctx.signals) + [] == Published(d.ctx.signals);
  }

  lemma CheckedOff(c: Cycle, d: Cycle)
    requires CountersAgree(c) && LedgerAgrees(c) && PhaseAgrees(c) && SectionCovered(c)
    requires RegistrationAgrees(c) && EndAgrees(c) && SignalsAgree(c)
    requires d == c.(checks := d.checks) && (d.ctx.finished || d.ctx.done < d.ctx.total)
    ensures CountersAgree(d) && LedgerAgrees(d) && PhaseAgrees(d) && SectionCovered(d)
    ensures RegistrationAgrees(d) && EndAgrees(d) && SignalsAgree(d)
    ensures NoRetryTrace(c) ==> NoRetryTrace(d)
  {
  }

  lemma FinishedFrame(c: Cycle, d: Cycle)
    requires CountersAgree(c) && LedgerAgrees(c) && PhaseAgrees(c) && SectionCovered(c) && !c.phase.Closed?
    requires d == c.(ctx := c.ctx.(finished := true, buffer := [], signals := d.ctx.signals), checks := d.checks)
    ensures CountersAgree(d) && LedgerAgrees(d) && PhaseAgrees(d) && SectionCovered(d) && RegistrationAgrees(d)
    ensures NoRetryTrace(c) ==> NoRetryTrace(d)
  {
  }

  lemma EnterKeeps(c: Cycle, k: Key, maxRetry: nat)
    requires Inv(c, maxRetry)
    ensures Inv(DoEnter(c, k), maxRetry)
  {
    if c.At(k).Queued? {
      if c.ctx.Refuses(k) {
        MoveKeeps(c, k, Settled(Withdrawn, true), maxRetry);
      } else {
        CountedMove(c.units, k, Entered(c.units[k].attempt));
        assert !c.AllCounted();
        EnteredUnits(c, DoEnter(c, k), k);
      }
    }
  }

  lemma EnteredUnits(c: Cycle, d: Cycle, k: Key)
    requires LedgerAgrees(c) && PhaseAgrees(c) && SectionCovered(c)
    requires c.At(k).Queued? && !c.ctx.Refuses(k) && d == DoEnter(c, k)
    ensures LedgerAgrees(d) && PhaseAgrees(d) && SectionCovered(d)
    ensures NoRetryTrace(c) ==> NoRetryTrace(d)
  {
    assert c.leaving[k] > 0 ==> k in c.leaving;
  }

  lemma ScheduleKeeps(c: Cycle, k: Key, maxRetry: nat)
    requires Inv(c, maxRetry)
    ensures Inv(DoSchedule(c, k), maxRetry)
  {
    if c.At(k).Marked? {
      CountedMove(c.units, k, Pending(c.units[k].attempt + 1));
    }
  }

  lemma FireKeeps(c: Cycle, k: Key, maxRetry: nat)
    requires Inv(c, maxRetry)
    ensures Inv(DoFire(c, k), maxRetry)
  {
    if k in c.ctx.pending {
      CountedMove(c.units, k, Firing(c.ctx.pending[k]));
    }
  }

  lemma AbortKeeps(c: Cycle, scope: Scope, maxRetry: nat)
    requires Inv(c, maxRetry)
    ensures Inv(DoAbort(c, scope), maxRetry)
  {
    var d := DoAbort(c, scope);
    if c.ctx.Abortable(scope) == {} {
      assert d.units == c.units;
    } else {
      var k :| k in c.ctx.Abortable(scope);
      assert c.units[k].Pending?;
      AbortCounters(c, scope);
      AbortLedger(c, scope);
      AbortSection(c, scope);
    }
  }

  lemma AbortLedger(c: Cycle, scope: Scope)
    requires LedgerAgrees(c)
    ensures LedgerAgrees(DoAbort(c, scope))
    ensures PhaseAgrees(c) ==> PhaseAgrees(DoAbort(c, scope))
  {
  }

  lemma AbortSection(c: Cycle, scope: Scope)
    requires SectionCovered(c)
    ensures SectionCovered(DoAbort(c, scope))
  {
  }

  lemma AbortCounters(c: Cycle, scope: Scope)
    requires LedgerAgrees(c) && CountersAgree(c)
    ensures CountersAgree(DoAbort(c, scope))
  {
    var d := DoAbort(c, scope);
    assert |d.units| == |c.units| by {
      assert d.units.Keys == c.units.Keys;
    }
    forall kind ensures CountedAs(d.units, kind) == CountedAs(c.units, kind) {
      forall k ensures k in CountedAs(d.units, kind) <==> k in CountedAs(c.units, kind) {
      }
    }
  }

  lemma LeaveKeeps(c: Cycle, k: Key, maxRetry: nat)
    requires Inv(c, maxRetry)
    ensures Inv(DoLeave(c, k), maxRetry)
  {
    var d := DoLeave(c, k);
    assert forall x :: d.leaving[x] <= c.leaving[x];
  }

  lemma EmitKeeps(c: Cycle, progress: bool, pass: bool, maxRetry: nat)
    requires Inv(c, maxRetry)
    ensures Inv(DoEmit(c, progress, pass), maxRetry)
  {
    EmittingKeeps(c.ctx, progress, pass);
  }

  lemma RejectKeeps(c: Cycle, emit: bool, maxRetry: nat)
    requires Inv(c, maxRetry)
    ensures Inv(DoReject(c, emit), maxRetry)
  {
    if (c.phase.Armed? && c.ctx.cancelEvent) || c.phase.Accepted? {
      if c.ctx.finished {
        assert c.units == map[];
        assert CountRest(c.units, Withdrawn) == c.units;
      } else {
        ForcingKeeps(c, DoReject(c, emit), false, emit, maxRetry);
      }
    }
  }

  lemma LaunchFailKeeps(c: Cycle, maxRetry: nat)
    requires Inv(c, maxRetry)
    ensures Inv(DoLaunchFail(c), maxRetry)
  {
    if (c.phase.Accepted? || c.phase.Prepared?) && !c.ctx.finished {
      ForcingKeeps(c, DoLaunchFail(c), true, true, maxRetry);
    }
  }

  lemma BeginTaskKeeps(c: Cycle, k: Key, present: bool, maxRetry: nat)
    requires Inv(c, maxRetry)
    ensures Inv(DoBeginTask(c, k, present), maxRetry)
  {
    if c.At(k).Entered? {
      if present {
        MoveAndNote(c, k, Started(c.units[k].attempt), Submitting, maxRetry);
      } else {
        MoveKeeps(c, k, Settled(Withdrawn, true), maxRetry);
      }
    }
  }

  lemma MarkRetryKeeps(c: Cycle, k: Key, present: bool, maxRetry: nat)
    requires Inv(c, maxRetry)
    ensures Inv(DoMarkRetry(c, k, present), maxRetry)
  {
    if c.At(k).Retrying? {
      if present {
        MoveAndNote(c, k, Marked(c.units[k].attempt), RetryWait, maxRetry);
      } else {
        MoveKeeps(c, k, Settled(Withdrawn, true), maxRetry);
      }
    }
  }

  lemma DecideKeeps(c: Cycle, k: Key, present: bool, maxRetry: nat)
    requires Inv(c, maxRetry)
    ensures Inv(DoDecide(c, k, present, maxRetry), maxRetry)
  {
    if c.At(k).Refused? {
      MoveKeeps(c, k, DoDecide(c, k, present, maxRetry).units[k], maxRetry);
    }
  }

  lemma ClearKeeps(c: Cycle, k: Key, maxRetry: nat)
    requires Inv(c, maxRetry)
    ensures Inv(DoClear(c, k), maxRetry)
  {
    if c.At(k).Started? {
      MoveKeeps(c, k, DoClear(c, k).units[k], maxRetry);
    }
  }

  lemma WrapperKeeps(c: Cycle, k: Key, u: Unit, maxRetry: nat)
    requires Inv(c, maxRetry) && k in c.units && c.units[k].InSection() && !u.Counted? && !u.Pending?
    requires !u.RetryPath() && !u.Unlaunched?
    ensures Inv(c.Put(k, u), maxRetry)
  {
    MoveKeeps(c, k, u, maxRetry);
  }

  lemma RequeueKeeps(c: Cycle, k: Key, maxRetry: nat)
    requires Inv(c, maxRetry)
    ensures Inv(DoRequeue(c, k), maxRetry)
  {
    if c.At(k).Firing? {
      MoveKeeps(c, k, DoRequeue(c, k).units[k], maxRetry);
    }
  }

  lemma InspectKeeps(c: Cycle, k: Key, waiting: bool, maxRetry: nat)
    requires Inv(c, maxRetry)
    ensures Inv(DoInspect(c, k, waiting), maxRetry)
  {
    if c.At(k).Abandoned? {
      MoveKeeps(c, k, Inspected(waiting), maxRetry);
    }
  }

  lemma FinalizeKeeps(c: Cycle, k: Key, maxRetry: nat)
    requires Inv(c, maxRetry)
    ensures Inv(DoFinalize(c, k), maxRetry)
  {
    if c.At(k).Inspected? {
      MoveKeeps(c, k, Settled(Withdrawn, false), maxRetry);
    }
  }

  lemma QueueKeeps(c: Cycle, k: Key, maxRetry: nat)
    requires Inv(c, maxRetry)
    ensures Inv(DoQueue(c, k), maxRetry)
  {
    if c.phase.Launched? && c.At(k).Reset? {
      MoveKeeps(c, k, Queued(0), maxRetry);
    }
  }

  lemma CancelKeeps(c: Cycle, scope: Scope, maxRetry: nat)
    requires Inv(c, maxRetry)
    ensures Inv(DoCancel(c, scope), maxRetry)
  {
  }

  lemma RelabelKeeps(c: Cycle, d: Cycle, maxRetry: nat)
    requires Inv(c, maxRetry) && PhaseAgrees(d) && RegistrationAgrees(d)
    requires d.units == c.units && d.leaving == c.leaving && d.overtaken == c.overtaken
    requires d.checks == c.checks && d.appended == c.appended
    requires d.ctx == c.ctx.(cancelEvent := d.ctx.cancelEvent, cancelledKeys := d.ctx.cancelledKeys)
    requires c.phase.Closed? <==> d.phase.Closed?
    ensures Inv(d, maxRetry)
  {
  }

  lemma ArmKeeps(c: Cycle, maxRetry: nat)
    requires Inv(c, maxRetry)
    ensures Inv(DoArm(c), maxRetry)
  {
    var d := DoArm(c);
    if c.phase.Born? {
      assert PhaseAgrees(d);
      RelabelKeeps(c, d, maxRetry);
    }
  }

  lemma AcceptKeeps(c: Cycle, maxRetry: nat)
    requires Inv(c, maxRetry)
    ensures Inv(DoAccept(c), maxRetry)
  {
  }

  lemma DropKeeps(c: Cycle, maxRetry: nat)
    requires Inv(c, maxRetry)
    ensures Inv(DoDrop(c), maxRetry)
  {
  }

  lemma LaunchKeeps(c: Cycle, maxRetry: nat)
    requires Inv(c, maxRetry)
    ensures Inv(DoLaunch(c), maxRetry)
  {
  }

  lemma FanOutKeeps(c: Cycle, maxRetry: nat)
    requires Inv(c, maxRetry)
    ensures Inv(DoFanOut(c), maxRetry)
  {
  }

  predicate LaunchEvent(e: Event) {
    e.Arm? || e.Accept? || e.Reject? || e.LaunchFail? || e.Launch? || e.ResetKey? || e.SkipBlocked?
    || e.FanOut? || e.Queue? || e.FinishEmpty?
  }

  predicate TaskEvent(e: Event) {
    e.Enter? || e.BeginTask? || e.Clear? || e.Decide? || e.MarkRetry? || e.Schedule?
  }

  predicate WrapperEvent(e: Event) {
    e.Wrap? || e.WrapperDone? || e.WrapperFailed? || e.Record?
  }

  lemma LaunchStepKeeps(c: Cycle, e: Event, maxRetry: nat)
    requires Inv(c, maxRetry) && LaunchEvent(e)
    ensures Inv(Step(c, e, maxRetry), maxRetry)
  {
    match e
    case Arm => ArmKeeps(c, maxRetry);
    case Accept => AcceptKeeps(c, maxRetry);
    case Reject(emit) => RejectKeeps(c, emit, maxRetry);
    case LaunchFail => LaunchFailKeeps(c, maxRetry);
    case Launch => LaunchKeeps(c, maxRetry);
    case ResetKey(k, present) => ResetKeeps(c, k, present, maxRetry);
    case SkipBlocked => SkipKeeps(c, maxRetry);
    case FanOut => FanOutKeeps(c, maxRetry);
    case Queue(k) => QueueKeeps(c, k, maxRetry);
    case FinishEmpty =>
      if c.phase.Launched? && c.AllCounted() { FinishKeeps(c, true, c.checks, maxRetry); }
  }

  lemma TaskStepKeeps(c: Cycle, e: Event, maxRetry: nat)
    requires Inv(c, maxRetry) && (e.Enter? || e.BeginTask? || e.Clear?)
    ensures Inv(Step(c, e, maxRetry), maxRetry)
  {
    if e.Enter? {
      EnterKeeps(c, e.k, maxRetry);
    } else if e.BeginTask? {
      BeginTaskKeeps(c, e.k, e.present, maxRetry);
    } else {
      ClearKeeps(c, e.k, maxRetry);
    }
  }

  lemma RefusedStepKeeps(c: Cycle, e: Event, maxRetry: nat)
    requires Inv(c, maxRetry) && (e.Decide? || e.MarkRetry? || e.Schedule?)
    ensures Inv(Step(c, e, maxRetry), maxRetry)
  {
    if e.Decide? {
      DecideKeeps(c, e.k, e.present, maxRetry);
    } else if e.MarkRetry? {
      MarkRetryKeeps(c, e.k, e.present, maxRetry);
    } else {
      ScheduleKeeps(c, e.k, maxRetry);
    }
  }

  lemma WrapKeeps(c: Cycle, k: Key, maxRetry: nat)
    requires Inv(c, maxRetry)
    ensures Inv(DoWrap(c, k), maxRetry)
  {
    if c.At(k).Cleared? {
      WrapperKeeps(c, k, Wrapping(c.units[k].attempt), maxRetry);
    }
  }

  lemma WrapperDoneKeeps(c: Cycle, k: Key, jobId: nat, maxRetry: nat)
    requires Inv(c, maxRetry)
    ensures Inv(DoWrapperDone(c, k, jobId), maxRetry)
  {
    if c.At(k).Wrapping? {
      WrapperKeeps(c, k, Returned(jobId), maxRetry);
    }
  }

  lemma WrapperFailedKeeps(c: Cycle, k: Key, retryable: bool, maxRetry: nat)
    requires Inv(c, maxRetry)
    ensures Inv(DoWrapperFailed(c, k, retryable), maxRetry)
  {
    if c.At(k).Wrapping? {
      WrapperKeeps(c, k, Refused(c.units[k].attempt, retryable), maxRetry);
    }
  }

  lemma WrapperStepKeeps(c: Cycle, e: Event, maxRetry: nat)
    requires Inv(c, maxRetry) && (e.Wrap? || e.WrapperDone? || e.WrapperFailed?)
    ensures Inv(Step(c, e, maxRetry), maxRetry)
  {
    if e.Wrap? {
      WrapKeeps(c, e.k, maxRetry);
    } else if e.WrapperDone? {
      WrapperDoneKeeps(c, e.k, e.jobId, maxRetry);
    } else {
      WrapperFailedKeeps(c, e.k, e.retryable, maxRetry);
    }
  }

  lemma RecordKeeps(c: Cycle, k: Key, present: bool, gen: nat, maxRetry: nat)
    requires Inv(c, maxRetry)
    ensures Inv(DoRecord(c, k, present, gen), maxRetry)
  {
    if c.At(k).Returned? {
      WrapperKeeps(c, k, DoRecord(c, k, present, gen).units[k], maxRetry);
    }
  }

  predicate RetryEvent(e: Event) {
    e.Fire? || e.Requeue? || e.Inspect? || e.Finalize? || e.Abort? || e.Cancel?
  }

  lemma RetryStepKeeps(c: Cycle, e: Event, maxRetry: nat)
    requires Inv(c, maxRetry) && (e.Fire? || e.Requeue?)
    ensures Inv(Step(c, e, maxRetry), maxRetry)
  {
    if e.Fire? {
      FireKeeps(c, e.k, maxRetry);
    } else {
      RequeueKeeps(c, e.k, maxRetry);
    }
  }

  lemma GiveUpStepKeeps(c: Cycle, e: Event, maxRetry: nat)
    requires Inv(c, maxRetry) && (e.Inspect? || e.Finalize?)
    ensures Inv(Step(c, e, maxRetry), maxRetry)
  {
    if e.Inspect? {
      InspectKeeps(c, e.k, e.waiting, maxRetry);
    } else {
      FinalizeKeeps(c, e.k, maxRetry);
    }
  }

  lemma CancelStepKeeps(c: Cycle, e: Event, maxRetry: nat)
    requires Inv(c, maxRetry) && (e.Cancel? || e.Abort?)
    ensures Inv(Step(c, e, maxRetry), maxRetry)
  {
    match e
    case Cancel(scope) => CancelKeeps(c, scope, maxRetry);
    case Abort(scope) => AbortKeeps(c, scope, maxRetry);
  }

  lemma FinishCheckKeeps(c: Cycle, maxRetry: nat)
    requires Inv(c, maxRetry)
    ensures Inv(DoFinishCheck(c), maxRetry)
  {
    if c.checks > 0 {
      FinishKeeps(c, false, c.checks - 1, maxRetry);
    }
  }

  lemma ReportStepKeeps(c: Cycle, e: Event, maxRetry: nat)
    requires Inv(c, maxRetry) && (e.FinishCheck? || e.Emit?)
    ensures Inv(Step(c, e, maxRetry), maxRetry)
  {
    match e
    case FinishCheck => FinishCheckKeeps(c, maxRetry);
    case Emit(progress, pass) => EmitKeeps(c, progress, pass, maxRetry);
  }

  lemma ControlStepKeeps(c: Cycle, e: Event, maxRetry: nat)
    requires Inv(c, maxRetry) && (e.Leave? || e.Drop?)
    ensures Inv(Step(c, e, maxRetry), maxRetry)
  {
    match e
    case Leave(k) => LeaveKeeps(c, k, maxRetry);
    case Drop => DropKeeps(c, maxRetry);
  }

  lemma StepKeeps(c: Cycle, e: Event, maxRetry: nat)
    requires Inv(c, maxRetry)
    ensures Inv(Step(c, e, maxRetry), maxRetry)
  {
    if LaunchEvent(e) {
      LaunchStepKeeps(c, e, maxRetry);
    } else if e.Enter? || e.BeginTask? || e.Clear? {
      TaskStepKeeps(c, e, maxRetry);
    } else if TaskEvent(e) {
      RefusedStepKeeps(c, e, maxRetry);
    } else if e.Record? {
      RecordKeeps(c, e.k, e.present, e.gen, maxRetry);
    } else if WrapperEvent(e) {
      WrapperStepKeeps(c, e, maxRetry);
    } else if e.Cancel? || e.Abort? {
      CancelStepKeeps(c, e, maxRetry);
    } else if e.Inspect? || e.Finalize? {
      GiveUpStepKeeps(c, e, maxRetry);
    } else if RetryEvent(e) {
      RetryStepKeeps(c, e, maxRetry);
    } else if e.Count? {
      CountKeeps(c, e.k, e.notes, maxRetry);
    } else if e.FinishCheck? || e.Emit? {
      ReportStepKeeps(c, e, maxRetry);
    } else {
      ControlStepKeeps(c, e, maxRetry);
    }
  }

  // ---------------------------------------------------------------------
  // Whole runs
  // ---------------------------------------------------------------------

  lemma OpenHolds(keys: set<Key>, refused: set<Key>, whole: bool, maxRetry: nat)
    ensures Inv(Open(keys, refused, whole), maxRetry)
  {
    var c := Open(keys, refused, whole);
    assert c.units.Keys == keys;
    assert forall kind :: CountedAs(c.units, kind) == {};
  }

  lemma {:induction false} RunKeeps(c: Cycle, events: seq<Event>, maxRetry: nat)
    requires Inv(c, maxRetry)
    ensures Inv(Exec(c, events, maxRetry), maxRetry)
    decreases |events|
  {
    if events == [] {
    } else {
      RunKeeps(c, events[..|events| - 1], maxRetry);
      StepKeeps(Exec(c, events[..|events| - 1], maxRetry), events[|events| - 1], maxRetry);
    }
  }

  // ---------------------------------------------------------------------
  // Main results
  // ---------------------------------------------------------------------

  /** Units the launch loop still holds. */
  function Waiting(units: map<Key, Unit>): set<Key> {
    set k | k in units && (units[k].Unlaunched? || units[k].Reset?)
  }

  /** Units with a task in the pool, a task thread, or a popped retry. */
  function Busy(units: map<Key, Unit>): set<Key> {
    set k | k in units && !units[k].Unlaunched? && !units[k].Reset? && !units[k].Counted? && !units[k].Pending?
  }

  /** In every reachable state the counters account for every unit exactly once, and the
      retry ledger holds exactly the units that wait for their timer. */
  lemma {:induction false} Conservation(keys: set<Key>, refused: set<Key>, whole: bool, events: seq<Event>,
                                        maxRetry: nat)
    ensures var c := Exec(Open(keys, refused, whole), events, maxRetry);
            && c.ctx.done == c.ctx.succeeded + c.ctx.failed + c.ctx.cancelled
            && c.ctx.done + |Waiting(c.units)| + |Busy(c.units)| + |c.ctx.pending| == c.ctx.total == |keys|
            && c.ctx.succeeded == |CountedAs(c.units, Success)|
            && c.ctx.failed == |CountedAs(c.units, Failure)|
            && c.ctx.pending.Keys == set k | k in c.units && c.units[k].Pending?
  {
    var c := Exec(Open(keys, refused, whole), events, maxRetry);
    OpenHolds(keys, refused, whole, maxRetry);
    RunKeeps(Open(keys, refused, whole), events, maxRetry);
    KeysStay(Open(keys, refused, whole), events, maxRetry);
    assert Open(keys, refused, whole).units.Keys == keys;
    assert |c.units| == |c.units.Keys|;
    OpenUnits(c);
  }

  /** Each counter counts its own outcomes: successes, failures and withdrawals. */
  lemma EachOutcomeInItsClass(keys: set<Key>, refused: set<Key>, whole: bool, events: seq<Event>, maxRetry: nat)
    ensures var c := Exec(Open(keys, refused, whole), events, maxRetry);
            && c.ctx.succeeded == |set k | k in c.units && c.units[k].Counted? && c.units[k].outcome.Succeeded?|
            && c.ctx.failed == |set k | k in c.units && c.units[k].Counted? && c.units[k].outcome.Failed?|
            && c.ctx.cancelled == |set k | k in c.units && c.units[k].Counted? && c.units[k].outcome.Withdrawn?|
  {
    OpenHolds(keys, refused, whole, maxRetry);
    RunKeeps(Open(keys, refused, whole), events, maxRetry);
    OutcomesByKind(Exec(Open(keys, refused, whole), events, maxRetry).units);
  }

  lemma OutcomesByKind(units: map<Key, Unit>)
    ensures CountedAs(units, Success) == set k | k in units && units[k].Counted? && units[k].outcome.Succeeded?
    ensures CountedAs(units, Failure) == set k | k in units && units[k].Counted? && units[k].outcome.Failed?
    ensures CountedAs(units, Cancellation) == set k | k in units && units[k].Counted? && units[k].outcome.Withdrawn?
  {
  }

  lemma OpenUnits(c: Cycle)
    requires CountersAgree(c) && LedgerAgrees(c)
    ensures c.ctx.done + |Waiting(c.units)| + |Busy(c.units)| + |c.ctx.pending| == c.ctx.total
    ensures c.ctx.pending.Keys == set k | k in c.units && c.units[k].Pending?
  {
    DoneBound(c);
    var waiting, busy := Waiting(c.units), Busy(c.units);
    OpenClasses(c);
    assert waiting !! busy && (waiting + busy) !! c.ctx.pending.Keys;
    SizesAdd(waiting, busy, c.ctx.pending.Keys);
  }

  lemma OpenClasses(c: Cycle)
    requires LedgerAgrees(c)
    ensures c.ctx.pending.Keys == set k | k in c.units && c.units[k].Pending?
    ensures Uncounted(c.units) == Waiting(c.units) + Busy(c.units) + c.ctx.pending.Keys
  {
  }

  lemma SizesAdd(a: set<Key>, b: set<Key>, c: set<Key>)
    requires a !! b && (a + b) !! c
    ensures |a + b + c| == |a| + |b| + |c|
  {
    assert |a + b + c| == |a + b| + |c|;
  }

  lemma StepKeys(c: Cycle, e: Event, maxRetry: nat)
    requires Inv(c, maxRetry)
    ensures Step(c, e, maxRetry).units.Keys == c.units.Keys
  {
    if LaunchEvent(e) {
      LaunchKeys(c, e, maxRetry);
    } else if TaskEvent(e) || WrapperEvent(e) {
      TaskKeys(c, e, maxRetry);
    } else {
      ControlKeys(c, e, maxRetry);
    }
  }

  lemma LaunchKeys(c: Cycle, e: Event, maxRetry: nat)
    requires LaunchEvent(e)
    ensures Step(c, e, maxRetry).units.Keys == c.units.Keys
  {
  }

  lemma TaskKeys(c: Cycle, e: Event, maxRetry: nat)
    requires TaskEvent(e) || WrapperEvent(e)
    ensures Step(c, e, maxRetry).units.Keys == c.units.Keys
  {
  }

  lemma ControlKeys(c: Cycle, e: Event, maxRetry: nat)
    requires LedgerAgrees(c) && !LaunchEvent(e) && !TaskEvent(e) && !WrapperEvent(e)
    ensures Step(c, e, maxRetry).units.Keys == c.units.Keys
  {
  }

  lemma {:induction false} KeysStay(c: Cycle, events: seq<Event>, maxRetry: nat)
    requires Inv(c, maxRetry)
    ensures Exec(c, events, maxRetry).units.Keys == c.units.Keys
    decreases |events|
  {
    if events == [] {
    } else {
      RunKeeps(c, events[..|events| - 1], maxRetry);
      KeysStay(c, events[..|events| - 1], maxRetry);
      StepKeys(Exec(c, events[..|events| - 1], maxRetry), events[|events| - 1], maxRetry);
    }
  }

  function FinishedCount(signals: seq<Signal>): nat {
    if signals == [] then 0
    else FinishedCount(signals[..|signals| - 1]) + (if signals[|signals| - 1].Finished? then 1 else 0)
  }

  lemma {:induction false} NoFinishedCount(signals: seq<Signal>)
    requires NoFinished(signals)
    ensures FinishedCount(signals) == 0
  {
    if signals == [] {
    } else {
      NoFinishedCount(signals[..|signals| - 1]);
    }
  }

  /** finished fires at most once over a whole run, only when every unit is counted, as the
      last signal and with the final counters; a rejected gate that was told not to report
      is the only end without it. Nothing that was appended to the buffer is lost, repeated
      or published after it, whatever the throttle decided. And while all units are counted
      but finished is still to come, some thread is on its way to emit it. */
  lemma {:induction false} FinishedOnceAndLast(keys: set<Key>, refused: set<Key>, whole: bool, events: seq<Event>,
                                               maxRetry: nat)
    ensures var c := Exec(Open(keys, refused, whole), events, maxRetry);
            && FinishedCount(c.ctx.signals) <= 1
            && (FinishedCount(c.ctx.signals) == 1
                <==> c.ctx.finished && !(c.phase.Closed? && NoFinished(c.ctx.signals)))
            && (FinishedCount(c.ctx.signals) == 1 ==>
                  c.AllCounted() && c.ctx.done == c.ctx.total
                  && c.ctx.signals[|c.ctx.signals| - 1]
                     == Finished(Report(|keys|, c.ctx.succeeded, c.ctx.failed, c.ctx.cancelled)))
            && c.appended == Published(c.ctx.signals) + c.ctx.buffer
            && (c.ctx.finished ==> c.appended == Published(c.ctx.signals))
            && (0 < |keys| && c.AllCounted() && !c.ctx.finished ==> c.checks > 0)
  {
    var c := Exec(Open(keys, refused, whole), events, maxRetry);
    OpenHolds(keys, refused, whole, maxRetry);
    RunKeeps(Open(keys, refused, whole), events, maxRetry);
    Conservation(keys, refused, whole, events, maxRetry);
    DoneBound(c);
    if NoFinished(c.ctx.signals) {
      NoFinishedCount(c.ctx.signals);
    } else {
      NoFinishedCount(c.ctx.signals[..|c.ctx.signals| - 1]);
    }
  }

}
