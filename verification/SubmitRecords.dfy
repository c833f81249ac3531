/** What the Store says about the jobs of a jobset while submit cycles, kills, polling and
    edits interleave: no job id is lost, and no record is left in a submitting state. */
module SubmitRecords {
  import opened JobModel
  import opened Submission
  import opened SubmitCycle
  import opened SubmitCycleProofs
  import opened KillBarrier
  import opened KillBarrierProofs
  import opened KillEscape

  function Lookup(store: map<Key, Rec>, k: Key): Option<Rec> {
    if k in store then Some(store[k]) else None
  }

  /** The unit ended with a job id; its outcome names the execution the id was written on. */
  predicate Won(u: Unit) {
    (u.Settled? || u.Counted?) && u.outcome.Succeeded?
  }

  /** The record is reset and the unit has not ended. */
  predicate Live(u: Unit) {
    !u.Unlaunched? && !u.Settled? && !u.Counted?
  }

  /** Which units may stand behind a record in a submitting state. */
  predicate Behind(u: Unit, st: JobState) {
    && (st.Submitting? ==> Live(u) && !u.Marked? && !u.Pending? && !u.Firing? && !u.Abandoned? && !u.Inspected?)
    && (st.RetryWait? ==> u.Marked? || u.Pending? || u.Firing? || u.Abandoned? || u == Inspected(true)
                          || u.Queued? || u.Entered?)
  }

  predicate BehindRecord(u: Unit, r: Option<Rec>) {
    r.None? || Behind(u, r.value.state)
  }

  /** What one event does to one key: the record keeps its execution and its id unless the
      reset loop starts a new execution or the wrapper's id is written. */
  ghost predicate Moves(u: Unit, r: Option<Rec>, v: Unit, q: Option<Rec>, gen: nat, gen': nat) {
    && gen <= gen'
    && (r.None? <==> q.None?)
    && (Live(v) ==> Live(u) || (u.Unlaunched? && q.Some? && q.value.gen == gen && gen < gen'))
    && (r.Some? ==>
          || (q.value.gen == r.value.gen && q.value.jobId == r.value.jobId)
          || (q.value.gen == gen && gen < gen' && Live(v))
          || (q.value.gen == r.value.gen && Live(u) && Won(v)
              && v.outcome == Succeeded(r.value.gen, q.value.jobId.GetOr(0))
              && q.value.jobId.Some?))
    && (Won(v) ==>
          || (Won(u) && v.outcome == u.outcome)
          || (Live(u) && r.Some? && v.outcome.gen == r.value.gen == q.value.gen
              && q.value.jobId == Some(v.outcome.jobId)))
    && (BehindRecord(u, r) ==> BehindRecord(v, q))
  }

  ghost predicate AllMove(s: System, before: Cycle, t: System, after: Cycle) {
    forall k :: Moves(before.At(k), Lookup(s.store, k), after.At(k), Lookup(t.store, k), s.nextGen, t.nextGen)
  }

  function Stepped(s: System, c: Cycle, e: Event, maxRetry: nat): Cycle {
    Step(c, Bind(s, e), maxRetry)
  }

  lemma ResetMoves(s: System, c: Cycle, e: Event, maxRetry: nat)
    requires PhaseAgrees(c) && (e.ResetKey?)
    ensures var d := Stepped(s, c, e, maxRetry); AllMove(s, c, Write(s, e, c, d), d)
  {
  }

  lemma SkipMoves(s: System, c: Cycle, e: Event, maxRetry: nat)
    requires PhaseAgrees(c) && (e.SkipBlocked? || e.Queue?)
    ensures var d := Stepped(s, c, e, maxRetry); AllMove(s, c, Write(s, e, c, d), d)
  {
  }

  lemma LaunchMoves(s: System, c: Cycle, e: Event, maxRetry: nat)
    requires PhaseAgrees(c) && (e.Arm? || e.Accept? || e.Launch? || e.FanOut? || e.FinishEmpty?)
    ensures var d := Stepped(s, c, e, maxRetry); AllMove(s, c, Write(s, e, c, d), d)
  {
  }

  lemma EndMoves(s: System, c: Cycle, e: Event, maxRetry: nat)
    requires PhaseAgrees(c) && EndAgrees(c) && (e.Reject? || e.LaunchFail?)
    ensures var d := Stepped(s, c, e, maxRetry); AllMove(s, c, Write(s, e, c, d), d)
  {
  }

  lemma EnterMoves(s: System, c: Cycle, e: Event, maxRetry: nat)
    requires e.Enter?
    ensures var d := Stepped(s, c, e, maxRetry); AllMove(s, c, Write(s, e, c, d), d)
  {
  }

  lemma ClearMoves(s: System, c: Cycle, e: Event, maxRetry: nat)
    requires e.Clear?
    ensures var d := Stepped(s, c, e, maxRetry); AllMove(s, c, Write(s, e, c, d), d)
  {
  }

  lemma BeginMoves(s: System, c: Cycle, e: Event, maxRetry: nat)
    requires e.BeginTask?
    ensures var d := Stepped(s, c, e, maxRetry); AllMove(s, c, Write(s, e, c, d), d)
  {
  }

  lemma MarkMoves(s: System, c: Cycle, e: Event, maxRetry: nat)
    requires e.MarkRetry?
    ensures var d := Stepped(s, c, e, maxRetry); AllMove(s, c, Write(s, e, c, d), d)
  {
  }

  lemma DecideMoves(s: System, c: Cycle, e: Event, maxRetry: nat)
    requires e.Decide?
    ensures var d := Stepped(s, c, e, maxRetry); AllMove(s, c, Write(s, e, c, d), d)
  {
    var d := Stepped(s, c, e, maxRetry);
    if !c.At(e.k).Refused? {
      assert d == c;
    } else {
      assert d.At(e.k).Retrying? || (d.At(e.k).Settled? && !d.At(e.k).outcome.Succeeded?);
    }
  }

  lemma WrapperMoves(s: System, c: Cycle, e: Event, maxRetry: nat)
    requires e.Wrap? || e.WrapperDone? || e.WrapperFailed?
    ensures var d := Stepped(s, c, e, maxRetry); AllMove(s, c, Write(s, e, c, d), d)
  {
  }

  lemma RecordMoves(s: System, c: Cycle, e: Event, maxRetry: nat)
    requires e.Record?
    ensures var d := Stepped(s, c, e, maxRetry); AllMove(s, c, Write(s, e, c, d), d)
  {
  }

  lemma AbortMoves(s: System, c: Cycle, e: Event, maxRetry: nat)
    requires LedgerAgrees(c) && (e.Abort?)
    ensures var d := Stepped(s, c, e, maxRetry); AllMove(s, c, Write(s, e, c, d), d)
  {
  }

  lemma ScheduleMoves(s: System, c: Cycle, e: Event, maxRetry: nat)
    requires e.Schedule?
    ensures var d := Stepped(s, c, e, maxRetry); AllMove(s, c, Write(s, e, c, d), d)
  {
  }

  lemma RequeueMoves(s: System, c: Cycle, e: Event, maxRetry: nat)
    requires e.Requeue?
    ensures var d := Stepped(s, c, e, maxRetry); AllMove(s, c, Write(s, e, c, d), d)
  {
  }

  lemma FireMoves(s: System, c: Cycle, e: Event, maxRetry: nat)
    requires LedgerAgrees(c) && e.Fire?
    ensures var d := Stepped(s, c, e, maxRetry); AllMove(s, c, Write(s, e, c, d), d)
  {
  }

  lemma FinalizeMoves(s: System, c: Cycle, e: Event, maxRetry: nat)
    requires e.Inspect? || e.Finalize?
    ensures var d := Stepped(s, c, e, maxRetry); AllMove(s, c, Write(s, e, c, d), d)
  {
  }

  lemma CountMoves(s: System, c: Cycle, e: Event, maxRetry: nat)
    requires e.Count? || e.FinishCheck? || e.Emit?
    ensures var d := Stepped(s, c, e, maxRetry); AllMove(s, c, Write(s, e, c, d), d)
  {
  }

  lemma CancelMoves(s: System, c: Cycle, e: Event, maxRetry: nat)
    requires e.Leave? || e.Cancel? || e.Drop?
    ensures var d := Stepped(s, c, e, maxRetry); AllMove(s, c, Write(s, e, c, d), d)
  {
  }

  lemma EventMoves(s: System, c: Cycle, e: Event, maxRetry: nat)
    requires LedgerAgrees(c) && PhaseAgrees(c) && EndAgrees(c)
    ensures var d := Stepped(s, c, e, maxRetry); AllMove(s, c, Write(s, e, c, d), d)
  {
    if LaunchEvent(e) {
      LaunchEventMoves(s, c, e, maxRetry);
    } else if e.Enter? {
      EnterMoves(s, c, e, maxRetry);
    } else if e.Clear? {
      ClearMoves(s, c, e, maxRetry);
    } else if e.BeginTask? {
      BeginMoves(s, c, e, maxRetry);
    } else if e.MarkRetry? {
      MarkMoves(s, c, e, maxRetry);
    } else if e.Decide? {
      DecideMoves(s, c, e, maxRetry);
    } else if e.Record? {
      RecordMoves(s, c, e, maxRetry);
    } else if WrapperEvent(e) {
      WrapperMoves(s, c, e, maxRetry);
    } else if e.Abort? {
      AbortMoves(s, c, e, maxRetry);
    } else if e.Schedule? {
      ScheduleMoves(s, c, e, maxRetry);
    } else if e.Requeue? {
      RequeueMoves(s, c, e, maxRetry);
    } else if e.Fire? {
      FireMoves(s, c, e, maxRetry);
    } else if e.Inspect? || e.Finalize? {
      FinalizeMoves(s, c, e, maxRetry);
    } else if e.Count? || e.FinishCheck? || e.Emit? {
      CountMoves(s, c, e, maxRetry);
    } else {
      CancelMoves(s, c, e, maxRetry);
    }
  }

  lemma LaunchEventMoves(s: System, c: Cycle, e: Event, maxRetry: nat)
    requires PhaseAgrees(c) && EndAgrees(c) && LaunchEvent(e)
    ensures var d := Stepped(s, c, e, maxRetry); AllMove(s, c, Write(s, e, c, d), d)
  {
    if e.ResetKey? {
      ResetMoves(s, c, e, maxRetry);
    } else if e.SkipBlocked? || e.Queue? {
      SkipMoves(s, c, e, maxRetry);
    } else if e.Reject? || e.LaunchFail? {
      EndMoves(s, c, e, maxRetry);
    } else {
      LaunchMoves(s, c, e, maxRetry);
    }
  }

  // ---------------------------------------------------------------------
  // What an outcome means
  // ---------------------------------------------------------------------

  /** A task thread ends its unit in this class only for this reason, and the record says so. */
  ghost predicate Justified(s: System, c: Cycle, k: Key, o: Outcome, store: map<Key, Rec>, maxRetry: nat) {
    match o
    case Succeeded(gen, jobId) =>
      c.At(k) == Returned(jobId) && k in s.store && gen == s.store[k].gen
          && Lookup(store, k) == Some(Rec(gen, Some(jobId), Pend))
    case Failed =>
      && c.At(k).Refused? && k !in c.ctx.cancelledKeys && k in store && store[k].state.SubmitFailed?
      && (!c.At(k).retryable || c.At(k).attempt >= maxRetry || c.ctx.cancelEvent)
    case Withdrawn =>
      k !in s.store || (c.ctx.Refuses(k) && k in store && !store[k].state.Submitting? && !store[k].state.RetryWait?)
  }

  lemma TaskEndsForAReason(s: System, c: Cycle, e: Event, k: Key, maxRetry: nat)
    requires !LaunchEvent(e) && Live(c.At(k)) && !c.At(k).Inspected? && Stepped(s, c, e, maxRetry).At(k).Settled?
    ensures var d := Stepped(s, c, e, maxRetry);
            d.At(k).byTask && Justified(s, c, k, d.At(k).outcome, Write(s, e, c, d).store, maxRetry)
  {
    if e.Enter? || e.Clear? || e.BeginTask? {
      StartEndsForAReason(s, c, e, k, maxRetry);
    } else if e.Decide? || e.MarkRetry? {
      FailureEndsForAReason(s, c, e, k, maxRetry);
    } else if e.Record? {
    } else if TaskEvent(e) || WrapperEvent(e) {
    } else {
      ControlEndsNothing(c, e, k, maxRetry);
    }
  }

  lemma StartEndsForAReason(s: System, c: Cycle, e: Event, k: Key, maxRetry: nat)
    requires e.Enter? || e.Clear? || e.BeginTask?
    requires Live(c.At(k)) && Stepped(s, c, e, maxRetry).At(k).Settled?
    ensures var d := Stepped(s, c, e, maxRetry);
            d.At(k).byTask && Justified(s, c, k, d.At(k).outcome, Write(s, e, c, d).store, maxRetry)
  {
  }

  lemma FailureEndsForAReason(s: System, c: Cycle, e: Event, k: Key, maxRetry: nat)
    requires e.Decide? || e.MarkRetry?
    requires Live(c.At(k)) && Stepped(s, c, e, maxRetry).At(k).Settled?
    ensures var d := Stepped(s, c, e, maxRetry);
            d.At(k).byTask && Justified(s, c, k, d.At(k).outcome, Write(s, e, c, d).store, maxRetry)
  {
  }

  lemma ControlEndsNothing(c: Cycle, e: Event, k: Key, maxRetry: nat)
    requires !LaunchEvent(e) && !TaskEvent(e) && !WrapperEvent(e)
    requires Live(c.At(k)) && !c.At(k).Inspected?
    ensures !Step(c, e, maxRetry).At(k).Settled?
  {
  }

  // ---------------------------------------------------------------------
  // The invariant over whole runs
  // ---------------------------------------------------------------------

  /** The unit of k in the newest cycle. */
  function Newest(cycles: seq<Cycle>, k: Key): Unit {
    if cycles == [] then Counted(Withdrawn) else cycles[|cycles| - 1].At(k)
  }

  /** A record of the execution an id was written on carries that id. */
  predicate Carries(r: Option<Rec>, o: Outcome, nextGen: nat)
    requires o.Succeeded?
  {
    o.gen < nextGen && (r.Some? && r.value.gen == o.gen ==> r.value.jobId == Some(o.jobId))
  }

  ghost predicate RecordsAgree(s: System) {
    && (forall k <- s.store :: s.store[k].gen < s.nextGen && Behind(Newest(s.cycles, k), s.store[k].state))
    && (forall c: nat, k :: c < |s.cycles| && Won(s.cycles[c].At(k)) ==>
          Carries(Lookup(s.store, k), s.cycles[c].At(k).outcome, s.nextGen))
    && (forall c: nat, k ::
          c < |s.cycles| - 1 && Won(s.cycles[c].At(k)) && Live(Newest(s.cycles, k)) && k in s.store ==>
            s.store[k].gen != s.cycles[c].At(k).outcome.gen)
  }

  /** The newest cycle takes a step that moves every key as Moves allows. */
  lemma NewestMoveKeeps(s: System, t: System)
    requires RecordsAgree(s) && s.cycles != [] && |t.cycles| == |s.cycles|
    requires forall c :: 0 <= c < |s.cycles| - 1 ==> t.cycles[c] == s.cycles[c]
    requires AllMove(s, s.cycles[|s.cycles| - 1], t, t.cycles[|t.cycles| - 1])
    ensures RecordsAgree(t)
  {
    var n := |s.cycles| - 1;
    forall k ensures k in t.store ==> t.store[k].gen < t.nextGen && Behind(Newest(t.cycles, k), t.store[k].state) {
      assert Moves(s.cycles[n].At(k), Lookup(s.store, k), t.cycles[n].At(k), Lookup(t.store, k), s.nextGen, t.nextGen);
    }
    forall c: nat, k | c < |t.cycles| && Won(t.cycles[c].At(k))
      ensures Carries(Lookup(t.store, k), t.cycles[c].At(k).outcome, t.nextGen)
      ensures c < n && Live(Newest(t.cycles, k)) && k in t.store ==> t.store[k].gen != t.cycles[c].At(k).outcome.gen
    {
      assert Moves(s.cycles[n].At(k), Lookup(s.store, k), t.cycles[n].At(k), Lookup(t.store, k), s.nextGen, t.nextGen);
      if c < n {
        assert Won(s.cycles[c].At(k));
      }
    }
  }

  /** An ended cycle moves no unit and writes no record any more. */
  lemma EndedStepIsStill(s: System, c: Cycle, e: Event, maxRetry: nat)
    requires c.AllCounted() && LedgerAgrees(c) && PhaseAgrees(c)
    ensures var d := Stepped(s, c, e, maxRetry);
            d.units == c.units && Write(s, e, c, d).store == s.store && Write(s, e, c, d).nextGen == s.nextGen
  {
    if LaunchEvent(e) {
      EndedLaunchIsStill(s, c, e, maxRetry);
    } else if TaskEvent(e) || WrapperEvent(e) {
      EndedTaskIsStill(s, c, e, maxRetry);
    } else if e.Abort? {
      EndedAbortIsStill(s, c, e, maxRetry);
    } else if e.Fire? || e.Requeue? || e.Inspect? || e.Finalize? {
      EndedRetryIsStill(s, c, e, maxRetry);
    } else {
      EndedControlIsStill(s, c, e, maxRetry);
    }
  }

  lemma EndedLaunchIsStill(s: System, c: Cycle, e: Event, maxRetry: nat)
    requires c.AllCounted() && PhaseAgrees(c) && LaunchEvent(e)
    ensures var d := Stepped(s, c, e, maxRetry);
            d.units == c.units && Write(s, e, c, d).store == s.store && Write(s, e, c, d).nextGen == s.nextGen
  {
    assert forall o :: CountRest(c.units, o) == c.units;
    assert CountBlocked(c.units) == c.units;
  }

  lemma EndedTaskIsStill(s: System, c: Cycle, e: Event, maxRetry: nat)
    requires c.AllCounted() && (TaskEvent(e) || WrapperEvent(e))
    ensures var d := Stepped(s, c, e, maxRetry);
            d.units == c.units && Write(s, e, c, d).store == s.store && Write(s, e, c, d).nextGen == s.nextGen
  {
  }

  lemma EndedAbortIsStill(s: System, c: Cycle, e: Event, maxRetry: nat)
    requires c.AllCounted() && LedgerAgrees(c) && e.Abort?
    ensures var d := Stepped(s, c, e, maxRetry);
            d.units == c.units && Write(s, e, c, d).store == s.store && Write(s, e, c, d).nextGen == s.nextGen
  {
    assert forall k :: k in c.ctx.pending ==> c.At(k).Pending?;
    assert forall k :: k !in c.ctx.Abortable(e.scope);
  }

  lemma EndedRetryIsStill(s: System, c: Cycle, e: Event, maxRetry: nat)
    requires c.AllCounted() && LedgerAgrees(c) && (e.Fire? || e.Requeue? || e.Inspect? || e.Finalize?)
    ensures var d := Stepped(s, c, e, maxRetry);
            d.units == c.units && Write(s, e, c, d).store == s.store && Write(s, e, c, d).nextGen == s.nextGen
  {
    assert forall k :: k in c.ctx.pending ==> c.At(k).Pending?;
  }

  lemma EndedControlIsStill(s: System, c: Cycle, e: Event, maxRetry: nat)
    requires c.AllCounted()
    requires e.Cancel? || !(LaunchEvent(e) || TaskEvent(e) || WrapperEvent(e) || RetryEvent(e))
    ensures var d := Stepped(s, c, e, maxRetry);
            d.units == c.units && Write(s, e, c, d).store == s.store && Write(s, e, c, d).nextGen == s.nextGen
  {
  }

  lemma SameUnitsKeep(s: System, t: System)
    requires RecordsAgree(s) && t.store == s.store && t.nextGen == s.nextGen && |t.cycles| == |s.cycles|
    requires forall c :: 0 <= c < |s.cycles| ==> t.cycles[c].units == s.cycles[c].units
    ensures RecordsAgree(t)
  {
    forall c: nat, k | c < |s.cycles| ensures t.cycles[c].At(k) == s.cycles[c].At(k) {
    }
    assert forall k :: Newest(t.cycles, k) == Newest(s.cycles, k);
  }

  lemma InCycleKeepsRecords(s: System, i: nat, e: Event, maxRetry: nat)
    requires RecordsAgree(s) && CyclesAgree(s, maxRetry)
    ensures RecordsAgree(DoInCycle(s, i, e, maxRetry))
  {
    if i < |s.cycles| {
      assert Inv(s.cycles[i], maxRetry);
      if i == |s.cycles| - 1 {
        NewestEventKeepsRecords(s, i, e, maxRetry);
      } else {
        assert s.cycles[i].ctx.finished;
        EndedEventKeepsRecords(s, i, e, maxRetry);
      }
    }
  }

  lemma NewestEventKeepsRecords(s: System, i: nat, e: Event, maxRetry: nat)
    requires RecordsAgree(s) && i == |s.cycles| - 1
    requires LedgerAgrees(s.cycles[i]) && PhaseAgrees(s.cycles[i]) && EndAgrees(s.cycles[i])
    ensures RecordsAgree(DoInCycle(s, i, e, maxRetry))
  {
    EventMoves(s, s.cycles[i], e, maxRetry);
    InCycleMoves(s, i, e, maxRetry);
    NewestMoveKeeps(s, DoInCycle(s, i, e, maxRetry));
  }

  lemma EndedEventKeepsRecords(s: System, i: nat, e: Event, maxRetry: nat)
    requires RecordsAgree(s) && i < |s.cycles| && s.cycles[i].AllCounted()
    requires LedgerAgrees(s.cycles[i]) && PhaseAgrees(s.cycles[i])
    ensures RecordsAgree(DoInCycle(s, i, e, maxRetry))
  {
    EndedStepIsStill(s, s.cycles[i], e, maxRetry);
    InCycleMoves(s, i, e, maxRetry);
    SameUnitsKeep(s, DoInCycle(s, i, e, maxRetry));
  }

  lemma SubmitKeepsRecords(s: System, keys: set<Key>, maxRetry: nat)
    requires RecordsAgree(s) && CyclesAgree(s, maxRetry)
    ensures RecordsAgree(DoSubmit(s, keys))
  {
    var t := DoSubmit(s, keys);
    if t != s {
      var n := |s.cycles|;
      if n > 0 {
        assert Inv(s.cycles[n - 1], maxRetry) && s.cycles[n - 1].ctx.finished;
        assert EndAgrees(s.cycles[n - 1]);
      }
      NewCycleKeepsRecords(s, t, t.cycles[n]);
    }
  }

  lemma NewCycleKeepsRecords(s: System, t: System, c: Cycle)
    requires RecordsAgree(s) && t.store == s.store && t.nextGen == s.nextGen && t.cycles == s.cycles + [c]
    requires forall k <- c.units :: c.units[k].Unlaunched?
    requires s.cycles == [] || s.cycles[|s.cycles| - 1].AllCounted()
    ensures RecordsAgree(t)
  {
    var n := |s.cycles|;
    assert forall k :: !Live(Newest(t.cycles, k)) && !Live(Newest(s.cycles, k));
    forall x: nat, k | x < |t.cycles| && Won(t.cycles[x].At(k))
      ensures Carries(Lookup(t.store, k), t.cycles[x].At(k).outcome, t.nextGen)
    {
      assert x < n && Won(s.cycles[x].At(k));
    }
  }

  lemma EnvironmentKeepsRecords(s: System, a: Action)
    requires RecordsAgree(s)
    ensures RecordsAgree(DoEnvironment(s, a))
  {
    var t := DoEnvironment(s, a);
    forall c: nat, k | c < |t.cycles| && Won(t.cycles[c].At(k))
      ensures Carries(Lookup(t.store, k), t.cycles[c].At(k).outcome, t.nextGen)
      ensures c < |t.cycles| - 1 && Live(Newest(t.cycles, k)) && k in t.store ==>
          t.store[k].gen != t.cycles[c].At(k).outcome.gen
    {
      assert Won(s.cycles[c].At(k));
      assert Carries(Lookup(s.store, k), s.cycles[c].At(k).outcome, s.nextGen);
    }
  }

  /** Cancelling and aborting on behalf of a kill are events of the cycle. */
  lemma KillStepIsAnEvent(s: System, i: nat, cancel: bool, maxRetry: nat)
    requires i < |s.kills| && (if cancel then s.kills[i].pc.Cancelling? else s.kills[i].pc.Aborting?)
    requires s.kills[i].pc.i < |s.kills[i].acts| && s.kills[i].acts[s.kills[i].pc.i] < |s.cycles|
    ensures var c := s.kills[i].acts[s.kills[i].pc.i];
            var e := if cancel then Cancel(s.kills[i].scope) else Abort(s.kills[i].scope);
            var t := if cancel then DoCancelNext(s, i) else DoAbortNext(s, i);
            t.cycles == s.cycles[c := Step(s.cycles[c], e, maxRetry)] && t.store == s.store && t.nextGen == s.nextGen
  {
  }

  lemma EventKeepsRecords(s: System, c: nat, e: Event, t: System, maxRetry: nat)
    requires RecordsAgree(s) && CyclesAgree(s, maxRetry) && c < |s.cycles| && (e.Cancel? || e.Abort?)
    requires t.cycles == s.cycles[c := Step(s.cycles[c], e, maxRetry)] && t.store == s.store && t.nextGen == s.nextGen
    ensures RecordsAgree(t)
  {
    InCycleKeepsRecords(s, c, e, maxRetry);
    InCycleMoves(s, c, e, maxRetry);
    SameUnitsKeep(DoInCycle(s, c, e, maxRetry), t);
  }

  lemma KillStepKeepsRecords(s: System, i: nat, cancel: bool, maxRetry: nat)
    requires RecordsAgree(s) && CyclesAgree(s, maxRetry)
    ensures RecordsAgree(if cancel then DoCancelNext(s, i) else DoAbortNext(s, i))
  {
    var t := if cancel then DoCancelNext(s, i) else DoAbortNext(s, i);
    if i < |s.kills| && (if cancel then s.kills[i].pc.Cancelling? else s.kills[i].pc.Aborting?)
       && s.kills[i].pc.i < |s.kills[i].acts| && s.kills[i].acts[s.kills[i].pc.i] < |s.cycles| {
      KillStepIsAnEvent(s, i, cancel, maxRetry);
      EventKeepsRecords(s, s.kills[i].acts[s.kills[i].pc.i],
                        if cancel then Cancel(s.kills[i].scope) else Abort(s.kills[i].scope), t, maxRetry);
    } else {
      SameUnitsKeep(s, t);
    }
  }

  lemma {:induction false} RunKeepsRecords(actions: seq<Action>, maxRetry: nat)
    ensures RecordsAgree(After(actions, maxRetry))
    decreases |actions|
  {
    if actions == [] {
    } else {
      var before := actions[..|actions| - 1];
      RunKeepsRecords(before, maxRetry);
      RunKeepsBarrier(before, maxRetry);
      NextKeepsRecords(After(before, maxRetry), actions[|actions| - 1], maxRetry);
    }
  }

  lemma KillBookkeepingIsStill(s: System, a: Action, maxRetry: nat)
    requires a.NewKill? || a.Raise? || a.WaitNext? || a.Timeout? || a.Release?
    ensures var t := Next(s, a, maxRetry); t.cycles == s.cycles && t.store == s.store && t.nextGen == s.nextGen
  {
  }

  lemma NextKeepsRecords(s: System, a: Action, maxRetry: nat)
    requires RecordsAgree(s) && CyclesAgree(s, maxRetry)
    ensures RecordsAgree(Next(s, a, maxRetry))
  {
    if a.Submit? {
      SubmitKeepsRecords(s, a.keys, maxRetry);
    } else if a.InCycle? {
      InCycleKeepsRecords(s, a.i, a.e, maxRetry);
    } else if a.CancelNext? || a.AbortNext? {
      KillStepKeepsRecords(s, a.i, a.CancelNext?, maxRetry);
    } else if a.NewKill? || a.Raise? || a.WaitNext? || a.Timeout? || a.Release? {
      KillBookkeepingIsStill(s, a, maxRetry);
      SameUnitsKeep(s, Next(s, a, maxRetry));
    } else {
      EnvironmentKeepsRecords(s, a);
    }
  }

  // ---------------------------------------------------------------------
  // Main results
  // ---------------------------------------------------------------------

  /** When a kill has its scope, a covered key whose wrapper returned an id (and that was not
      overtaken by its own retry) has that id in its record, unless the record was deleted
      or belongs to another execution by now. */
  lemma {:induction false} AcquiredKillSeesEveryId(actions: seq<Action>, maxRetry: nat, i: nat, c: nat, k: Key)
    requires var s := After(actions, maxRetry);
             && i < |s.kills| && s.kills[i].pc == Acquired(true) && s.kills[i].scope.Covers(k)
             && c < |s.cycles| && k in s.cycles[c].units && k !in s.cycles[c].overtaken
    ensures var s := After(actions, maxRetry); var u := s.cycles[c].units[k];
            && !u.Wrapping? && !u.Returned?
            && (Won(u) && k in s.store && s.store[k].gen == u.outcome.gen ==> s.store[k].jobId == Some(u.outcome.jobId))
  {
    var s := After(actions, maxRetry);
    OnlyAnOvertakenJobIsInside(actions, maxRetry, i, c, k);
    RunKeepsRecords(actions, maxRetry);
    assert Won(s.cycles[c].At(k)) ==> Carries(Lookup(s.store, k), s.cycles[c].At(k).outcome, s.nextGen);
  }

  /** The ids a kill finds when it resolves its keys after acquire(). */
  function ResolveKeys(store: map<Key, Rec>, scope: Scope): set<nat> {
    set k | k in store && scope.Covers(k) && store[k].jobId.Some? :: store[k].jobId.value
  }

  /** So the kill aims at every covered job whose submission returned an id: the only ones it
      misses are those whose record is gone or stands for another execution. */
  lemma {:induction false} AcquiredKillResolvesEveryId(actions: seq<Action>, maxRetry: nat, i: nat, c: nat, k: Key)
    requires var s := After(actions, maxRetry);
             && i < |s.kills| && s.kills[i].pc == Acquired(true) && s.kills[i].scope.Covers(k)
             && c < |s.cycles| && k in s.cycles[c].units && Won(s.cycles[c].units[k])
             && k in s.store && s.store[k].gen == s.cycles[c].units[k].outcome.gen
    ensures var s := After(actions, maxRetry);
            s.cycles[c].units[k].outcome.jobId in ResolveKeys(s.store, s.kills[i].scope)
  {
    var s := After(actions, maxRetry);
    RunKeepsRecords(actions, maxRetry);
    assert Carries(Lookup(s.store, k), s.cycles[c].At(k).outcome, s.nextGen);
    assert k in s.store && s.kills[i].scope.Covers(k) && s.store[k].jobId.Some?;
  }

  /** A record in a submitting state always has a unit of the newest cycle working on it; so
      once the newest cycle has finished, none is left. */
  lemma {:induction false} NoRecordIsLeftSubmitting(actions: seq<Action>, maxRetry: nat, k: Key)
    requires k in After(actions, maxRetry).store
    ensures var s := After(actions, maxRetry); var st := s.store[k].state;
            && (st.Submitting? || st.RetryWait? ==> Live(Newest(s.cycles, k)))
            && (s.Idle() ==> !st.Submitting? && !st.RetryWait?)
  {
    var s := After(actions, maxRetry);
    RunKeepsRecords(actions, maxRetry);
    RunKeepsBarrier(actions, maxRetry);
    if s.cycles != [] {
      assert Inv(s.cycles[|s.cycles| - 1], maxRetry);
    }
  }
}
