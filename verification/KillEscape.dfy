/** Exactly when a kill that acquired its scope leaves no submission running. */
module KillEscape {
  import opened JobModel
  import opened Submission
  import opened SubmitCycle
  import opened SubmitCycleProofs
  import opened KillBarrier
  import opened KillBarrierProofs

  /** While a kill holds its scope, no covered job is inside the submit section of any cycle. */
  ghost predicate NothingEscapes(s: System) {
    forall i, c, k ::
      && 0 <= i < |s.kills| && s.kills[i].pc == Acquired(true)
      && 0 <= c < |s.cycles| && k in s.cycles[c].units && s.kills[i].scope.Covers(k)
      ==> !s.cycles[c].units[k].InSection()
  }

  lemma AcquiredShutsOut(kill: Kill, cycles: seq<Cycle>, c: nat)
    requires KillAgrees(kill, cycles) && kill.pc == Acquired(true) && c < |cycles|
    ensures ShutOut(cycles[c], kill.scope)
  {
    if c in kill.acts {
      var j: nat :| j < |kill.acts| && kill.acts[j] == c;
      assert cycles[kill.acts[j]].ctx.Quiet(kill.scope);
      assert forall k :: kill.scope.Covers(k) ==> cycles[kill.acts[j]].ctx.Refuses(k);
    }
  }

  lemma InsideMeansOvertaken(c: Cycle, scope: Scope, k: Key)
    requires EndAgrees(c) && SectionCovered(c) && ShutOut(c, scope) && k in c.units && scope.Covers(k)
    ensures c.units[k].InSection() ==> k in c.overtaken
    ensures c.units[k].Counted? || c.Blocks(k)
  {
  }

  /** Between acquire() and release(), in the old cycles, through a retry and in cycles
      registered meanwhile: a covered job is inside the submit section only if its retry had
      entered it before an earlier thread of the same job left (lsfmgr/submitter.py:141-144). */
  lemma {:induction false} OnlyAnOvertakenJobIsInside(actions: seq<Action>, maxRetry: nat, i: nat, c: nat, k: Key)
    requires var s := After(actions, maxRetry);
             i < |s.kills| && s.kills[i].pc == Acquired(true) && s.kills[i].scope.Covers(k)
             && c < |s.cycles| && k in s.cycles[c].units
    ensures var u := After(actions, maxRetry).cycles[c].units[k];
            && (u.InSection() ==> k in After(actions, maxRetry).cycles[c].overtaken)
            && (maxRetry == 0 ==> !u.InSection())
    ensures After(actions, maxRetry).cycles[c].units[k].Counted? || After(actions, maxRetry).cycles[c].Blocks(k)
  {
    var s := After(actions, maxRetry);
    RunKeepsBarrier(actions, maxRetry);
    assert KillAgrees(s.kills[i], s.cycles);
    assert Inv(s.cycles[c], maxRetry);
    AcquiredShutsOut(s.kills[i], s.cycles, c);
    InsideMeansOvertaken(s.cycles[c], s.kills[i].scope, k);
    assert maxRetry == 0 ==> NoRetryTrace(s.cycles[c]);
  }

  /** And whatever happens next, none enters. */
  lemma {:induction false} NoneEntersAScopeThatIsHeld(actions: seq<Action>, maxRetry: nat, i: nat, c: nat, k: Key,
                                                      a: Action)
    requires var s := After(actions, maxRetry);
             i < |s.kills| && s.kills[i].pc == Acquired(true) && s.kills[i].scope.Covers(k)
             && c < |s.cycles| && k in s.cycles[c].units
    ensures var s := After(actions, maxRetry); var t := Next(s, a, maxRetry);
            && c < |t.cycles| && k in t.cycles[c].units
            && (k in t.cycles[c].ctx.inflight ==> k in s.cycles[c].ctx.inflight)
            && (t.cycles[c].units[k].InSection() ==> s.cycles[c].units[k].InSection())
  {
    var s := After(actions, maxRetry);
    OnlyAnOvertakenJobIsInside(actions, maxRetry, i, c, k);
    RunKeepsBarrier(actions, maxRetry);
    NextStaysOutside(s, a, c, k, maxRetry);
  }

  predicate MovesACycle(a: Action) {
    a.Submit? || a.InCycle? || a.CancelNext? || a.AbortNext?
  }

  lemma OtherActionsMoveNoCycle(s: System, a: Action, maxRetry: nat)
    requires !MovesACycle(a)
    ensures Next(s, a, maxRetry).cycles == s.cycles
  {
  }

  lemma InCycleMoves(s: System, i: nat, e: Event, maxRetry: nat)
    requires i < |s.cycles|
    ensures DoInCycle(s, i, e, maxRetry).cycles == s.cycles[i := Step(s.cycles[i], Bind(s, e), maxRetry)]
  {
  }

  predicate MovedBy(s: System, t: System, c: nat, e: Event, maxRetry: nat) {
    && c < |s.cycles| && c < |t.cycles|
    && (t.cycles[c] == s.cycles[c] || t.cycles[c] == Step(s.cycles[c], e, maxRetry))
  }

  lemma InCycleMoved(s: System, i: nat, e: Event, c: nat, maxRetry: nat)
    requires c < |s.cycles|
    ensures MovedBy(s, DoInCycle(s, i, e, maxRetry), c, Bind(s, e), maxRetry)
  {
    if i < |s.cycles| {
      InCycleMoves(s, i, e, maxRetry);
    }
  }

  lemma CancelMoved(s: System, i: nat, c: nat, maxRetry: nat)
    requires i < |s.kills| && c < |s.cycles|
    ensures MovedBy(s, DoCancelNext(s, i), c, Cancel(s.kills[i].scope), maxRetry)
  {
  }

  lemma AbortMoved(s: System, i: nat, c: nat, maxRetry: nat)
    requires i < |s.kills| && c < |s.cycles|
    ensures MovedBy(s, DoAbortNext(s, i), c, Abort(s.kills[i].scope), maxRetry)
  {
  }

  /** Cycles are only ever moved by their own events. */
  lemma NextMovesByEvents(s: System, a: Action, c: nat, maxRetry: nat) returns (e: Event)
    requires c < |s.cycles|
    ensures MovedBy(s, Next(s, a, maxRetry), c, e, maxRetry)
  {
    e := Drop;
    if !MovesACycle(a) {
      OtherActionsMoveNoCycle(s, a, maxRetry);
    } else if a.InCycle? {
      e := Bind(s, a.e);
      InCycleMoved(s, a.i, a.e, c, maxRetry);
    } else if a.Submit? {
    } else if a.i < |s.kills| && a.CancelNext? {
      e := Cancel(s.kills[a.i].scope);
      CancelMoved(s, a.i, c, maxRetry);
    } else if a.i < |s.kills| {
      e := Abort(s.kills[a.i].scope);
      AbortMoved(s, a.i, c, maxRetry);
    }
  }

  lemma StaysOutside(c: Cycle, e: Event, k: Key, maxRetry: nat)
    requires LedgerAgrees(c) && k in c.units && (c.units[k].Counted? || c.Blocks(k))
    requires PhaseAgrees(c)
    ensures var d := Step(c, e, maxRetry);
            k in d.units && (d.units[k].InSection() ==> c.units[k].InSection())
  {
    if LaunchEvent(e) {
      LaunchKeys(c, e, maxRetry);
      LaunchStaysOutside(c, e, k, maxRetry);
    } else if e.Enter? {
      EnterStaysOutside(c, k, e.k);
    } else if TaskEvent(e) || WrapperEvent(e) {
      TaskKeys(c, e, maxRetry);
      TaskStaysOutside(c, e, k, maxRetry);
    } else {
      ControlKeys(c, e, maxRetry);
      ControlStaysOutside(c, e, k, maxRetry);
    }
  }

  lemma LaunchStaysOutside(c: Cycle, e: Event, k: Key, maxRetry: nat)
    requires LaunchEvent(e) && k in c.units && k in Step(c, e, maxRetry).units
    ensures Step(c, e, maxRetry).units[k].InSection() ==> c.units[k].InSection()
  {
  }

  lemma TaskStaysOutside(c: Cycle, e: Event, k: Key, maxRetry: nat)
    requires (TaskEvent(e) || WrapperEvent(e)) && !e.Enter? && k in c.units && k in Step(c, e, maxRetry).units
    ensures Step(c, e, maxRetry).units[k].InSection() ==> c.units[k].InSection()
  {
  }

  lemma EnterStaysOutside(c: Cycle, k: Key, x: Key)
    requires PhaseAgrees(c) && k in c.units && (c.units[k].Counted? || c.Blocks(k))
    ensures k in DoEnter(c, x).units && (DoEnter(c, x).units[k].InSection() ==> c.units[k].InSection())
  {
  }

  lemma ControlStaysOutside(c: Cycle, e: Event, k: Key, maxRetry: nat)
    requires !LaunchEvent(e) && !TaskEvent(e) && !WrapperEvent(e)
    requires k in c.units && k in Step(c, e, maxRetry).units
    ensures Step(c, e, maxRetry).units[k].InSection() ==> c.units[k].InSection()
  {
  }

  lemma NextStaysOutside(s: System, a: Action, c: nat, k: Key, maxRetry: nat)
    requires Barrier(s, maxRetry) && c < |s.cycles| && k in s.cycles[c].units
    requires s.cycles[c].units[k].Counted? || s.cycles[c].Blocks(k)
    ensures var t := Next(s, a, maxRetry);
            && c < |t.cycles| && k in t.cycles[c].units
            && (k in t.cycles[c].ctx.inflight ==> k in s.cycles[c].ctx.inflight)
            && (t.cycles[c].units[k].InSection() ==> s.cycles[c].units[k].InSection())
  {
    var e := NextMovesByEvents(s, a, c, maxRetry);
    assert Inv(s.cycles[c], maxRetry);
    StaysOutside(s.cycles[c], e, k, maxRetry);
    StaysUnlisted(s.cycles[c], e, k, maxRetry);
  }

  lemma StaysUnlisted(c: Cycle, e: Event, k: Key, maxRetry: nat)
    requires Inv(c, maxRetry) && k in c.units && (c.units[k].Counted? || c.Blocks(k))
    ensures k in Step(c, e, maxRetry).ctx.inflight ==> k in c.ctx.inflight
  {
    if e.Enter? {
    } else {
      StepOnward(c, e, maxRetry);
      OnlyEnterLists(c, e, maxRetry);
    }
  }

  lemma OnlyEnterLists(c: Cycle, e: Event, maxRetry: nat)
    requires !e.Enter?
    ensures Step(c, e, maxRetry).ctx.inflight <= c.ctx.inflight
  {
    if LaunchEvent(e) {
      LaunchListsNothing(c, e, maxRetry);
    } else if TaskEvent(e) || WrapperEvent(e) {
      TaskListsNothing(c, e, maxRetry);
    } else {
      ControlListsNothing(c, e, maxRetry);
    }
  }

  lemma LaunchListsNothing(c: Cycle, e: Event, maxRetry: nat)
    requires LaunchEvent(e)
    ensures Step(c, e, maxRetry).ctx.inflight == c.ctx.inflight
  {
  }

  lemma TaskListsNothing(c: Cycle, e: Event, maxRetry: nat)
    requires (TaskEvent(e) || WrapperEvent(e)) && !e.Enter?
    ensures Step(c, e, maxRetry).ctx.inflight == c.ctx.inflight
  {
  }

  lemma ControlListsNothing(c: Cycle, e: Event, maxRetry: nat)
    requires !LaunchEvent(e) && !TaskEvent(e) && !WrapperEvent(e)
    ensures Step(c, e, maxRetry).ctx.inflight <= c.ctx.inflight
  {
  }

  // ---------------------------------------------------------------------
  // The run that escapes
  // ---------------------------------------------------------------------

  ghost predicate Reached(s: System, maxRetry: nat) {
    exists actions :: After(actions, maxRetry) == s
  }

  lemma ReachNext(s: System, a: Action, maxRetry: nat)
    requires Reached(s, maxRetry)
    ensures Reached(Next(s, a, maxRetry), maxRetry)
  {
    var actions :| After(actions, maxRetry) == s;
    assert (actions + [a])[..|actions|] == actions;
    assert After(actions + [a], maxRetry) == Next(s, a, maxRetry);
  }

  /** One registered cycle over the single key k, nothing killed yet. */
  ghost predicate Alone(s: System, c: Cycle, k: Key, maxRetry: nat) {
    && Reached(s, maxRetry)
    && s.cycles == [c] && s.activities == [0] && s.barriers == [] && s.kills == []
    && k in s.store && c.units.Keys == {k} && c.registered
  }

  lemma AloneNext(s: System, c: Cycle, k: Key, e: Event, maxRetry: nat) returns (t: System)
    requires Alone(s, c, k, maxRetry) && Inv(c, maxRetry) && !e.Drop? && Bind(s, e) == e
    ensures Alone(t, Step(c, e, maxRetry), k, maxRetry) && Inv(Step(c, e, maxRetry), maxRetry)
    ensures t.store.Keys == s.store.Keys
  {
    t := Next(s, InCycle(0, e), maxRetry);
    ReachNext(s, InCycle(0, e), maxRetry);
    StepKeeps(c, e, maxRetry);
    StepKeys(c, e, maxRetry);
    StepOnward(c, e, maxRetry);
    WriteKeepsGate(s, e, c, Step(c, e, maxRetry));
    WriteKeepsKeys(s, e, c, Step(c, e, maxRetry));
  }

  lemma WriteKeepsKeys(s: System, e: Event, before: Cycle, after: Cycle)
    ensures Write(s, e, before, after).store.Keys == s.store.Keys
  {
  }

  /** Events that find the record of k in the Store. */
  predicate Plain(e: Event, k: Key) {
    match e
    case ResetKey(x, present) => x == k && present
    case BeginTask(x, present) => x == k && present
    case Decide(x, present) => x == k && present
    case MarkRetry(x, present) => x == k && present
    case Record(_, _, _) => false
    case Inspect(_, _) => false
    case Drop => false
    case _ => true
  }

  /** Some events bring a cycle over {k} to c. */
  ghost predicate Driven(c: Cycle, k: Key, maxRetry: nat) {
    exists events :: (forall e <- events :: Plain(e, k)) && Exec(Open({k}, {}, false), events, maxRetry) == c
  }

  lemma Drive(c: Cycle, k: Key, e: Event, maxRetry: nat) returns (d: Cycle)
    requires Driven(c, k, maxRetry) && Plain(e, k)
    ensures d == Step(c, e, maxRetry) && Driven(d, k, maxRetry)
  {
    var events :| (forall e <- events :: Plain(e, k)) && Exec(Open({k}, {}, false), events, maxRetry) == c;
    d := Step(c, e, maxRetry);
    assert (events + [e])[..|events|] == events;
    assert Exec(Open({k}, {}, false), events + [e], maxRetry) == d;
  }

  lemma SubmitOne(k: Key, maxRetry: nat) returns (s: System)
    ensures Alone(s, Open({k}, {}, false), k, maxRetry) && Inv(Open({k}, {}, false), maxRetry)
  {
    assert After([], maxRetry) == Init();
    ReachNext(Init(), PutRecord(k), maxRetry);
    var t := Next(Init(), PutRecord(k), maxRetry);
    assert t.RefusedBy({k}) == {};
    s := Next(t, Submit({k}), maxRetry);
    ReachNext(t, Submit({k}), maxRetry);
    OpenHolds({k}, {}, false, maxRetry);
  }

  lemma PlainBinds(s: System, e: Event, k: Key)
    requires Plain(e, k) && k in s.store
    ensures Bind(s, e) == e && !e.Drop?
  {
  }

  /** What a cycle can do alone, it can do inside the system. */
  lemma {:induction false} DrivenAlone(k: Key, events: seq<Event>, maxRetry: nat) returns (s: System)
    requires forall e <- events :: Plain(e, k)
    ensures Alone(s, Exec(Open({k}, {}, false), events, maxRetry), k, maxRetry)
    ensures Inv(Exec(Open({k}, {}, false), events, maxRetry), maxRetry)
    decreases |events|
  {
    if events == [] {
      s := SubmitOne(k, maxRetry);
    } else {
      var n := |events| - 1;
      assert forall e <- events[..n] :: e in events;
      s := DrivenAlone(k, events[..n], maxRetry);
      PlainBinds(s, events[n], k);
      s := AloneNext(s, Exec(Open({k}, {}, false), events[..n], maxRetry), k, events[n], maxRetry);
    }
  }

  lemma AcceptOne(k: Key, maxRetry: nat) returns (c: Cycle)
    ensures Driven(c, k, maxRetry) && c.units == map[k := Unlaunched]
    ensures Quiescent(c) && c.leaving == multiset{} && c.ctx.inflight == {} && c.phase == Launching({})
  {
    assert Exec(Open({k}, {}, false), [], maxRetry) == Open({k}, {}, false);
    c := Drive(Open({k}, {}, false), k, Arm, maxRetry);
    c := Drive(c, k, Accept, maxRetry);
    c := Drive(c, k, Launch, maxRetry);
  }

  lemma LaunchOne(k: Key, maxRetry: nat) returns (c: Cycle)
    ensures Driven(c, k, maxRetry) && c.units == map[k := Queued(0)]
    ensures Quiescent(c) && c.leaving == multiset{} && c.ctx.inflight == {}
  {
    c := ResetOne(k, maxRetry);
    c := Drive(c, k, FanOut, maxRetry);
    c := Drive(c, k, Queue(k), maxRetry);
  }

  lemma ResetOne(k: Key, maxRetry: nat) returns (c: Cycle)
    ensures Driven(c, k, maxRetry) && c.units == map[k := Reset] && c.phase.Prepared?
    ensures Quiescent(c) && c.leaving == multiset{} && c.ctx.inflight == {}
  {
    c := AcceptOne(k, maxRetry);
    c := Drive(c, k, ResetKey(k, true), maxRetry);
    assert c.units == map[k := Reset];
    SkipNothing(c);
    c := Drive(c, k, SkipBlocked, maxRetry);
  }

  lemma SkipNothing(c: Cycle)
    requires c.phase.Launching? && forall k <- c.units :: c.units[k].Reset?
    ensures DoSkipBlocked(c) == c.(phase := Prepared)
  {
    assert CountBlocked(c.units) == c.units;
    assert (set k | k in c.units && c.units[k].Unlaunched?) == {};
  }

  /** Nothing cancelled and no retry waiting. */
  predicate Quiescent(c: Cycle) {
    !c.ctx.cancelEvent && c.ctx.cancelledKeys == {} && c.ctx.pending == map[]
  }

  /** From the pool to the wrapper, on either attempt. */
  lemma RunToWrapper(c0: Cycle, k: Key, maxRetry: nat) returns (c: Cycle)
    requires Driven(c0, k, maxRetry) && c0.units.Keys == {k} && c0.units[k].Queued? && Quiescent(c0)
    ensures Driven(c, k, maxRetry) && c.units.Keys == {k} && Quiescent(c)
    ensures c.units[k] == Wrapping(c0.units[k].attempt) && c.leaving == c0.leaving
    ensures c.ctx.inflight == c0.ctx.inflight + {k}
  {
    c := EnterSection(c0, k, maxRetry);
    c := Drive(c, k, Clear(k), maxRetry);
    c := Drive(c, k, Wrap(k), maxRetry);
  }

  lemma EnterSection(c0: Cycle, k: Key, maxRetry: nat) returns (c: Cycle)
    requires Driven(c0, k, maxRetry) && c0.units.Keys == {k} && c0.units[k].Queued? && Quiescent(c0)
    ensures Driven(c, k, maxRetry) && c.units.Keys == {k} && Quiescent(c)
    ensures c.units[k] == Started(c0.units[k].attempt) && c.leaving == c0.leaving
    ensures c.ctx.inflight == c0.ctx.inflight + {k}
  {
    c := Drive(c0, k, Enter(k), maxRetry);
    assert c.units.Keys == {k} && c.units[k] == Entered(c0.units[k].attempt);
    c := Drive(c, k, BeginTask(k, true), maxRetry);
  }

  lemma FailOnce(c0: Cycle, k: Key, maxRetry: nat) returns (c: Cycle)
    requires maxRetry > 0 && Driven(c0, k, maxRetry) && c0.units.Keys == {k}
    requires c0.units[k] == Wrapping(0) && Quiescent(c0)
    ensures Driven(c, k, maxRetry) && c.units.Keys == {k} && Quiescent(c)
    ensures c.units[k] == Marked(0) && c.leaving == c0.leaving && c.ctx.inflight == c0.ctx.inflight
  {
    c := Drive(c0, k, WrapperFailed(k, true), maxRetry);
    assert c == c0.Put(k, Refused(0, true));
    c := ChooseRetry(c, k, maxRetry);
    c := Drive(c, k, MarkRetry(k, true), maxRetry);
  }

  lemma ChooseRetry(c0: Cycle, k: Key, maxRetry: nat) returns (c: Cycle)
    requires maxRetry > 0 && Driven(c0, k, maxRetry) && c0.units.Keys == {k}
    requires c0.units[k] == Refused(0, true) && Quiescent(c0)
    ensures Driven(c, k, maxRetry) && c == c0.Put(k, Retrying(0)) && c.units.Keys == {k}
  {
    c := Drive(c0, k, Decide(k, true), maxRetry);
  }

  /** The wrapper fails, the retry is scheduled and its timer fires at once. */
  lemma FailAndRequeue(c0: Cycle, k: Key, maxRetry: nat) returns (c: Cycle)
    requires maxRetry > 0 && Driven(c0, k, maxRetry) && c0.units.Keys == {k}
    requires c0.units[k] == Wrapping(0) && Quiescent(c0) && c0.leaving == multiset{}
    ensures Driven(c, k, maxRetry) && c.units.Keys == {k} && Quiescent(c)
    ensures c.units[k] == Queued(1) && c.leaving == multiset{k} && c.ctx.inflight == c0.ctx.inflight
  {
    c := FailOnce(c0, k, maxRetry);
    c := FileRetry(c, k, maxRetry);
    c := TimerFires(c, k, maxRetry);
  }

  lemma FileRetry(c0: Cycle, k: Key, maxRetry: nat) returns (c: Cycle)
    requires Driven(c0, k, maxRetry) && c0.units.Keys == {k} && c0.units[k] == Marked(0)
    requires Quiescent(c0) && c0.leaving == multiset{}
    ensures Driven(c, k, maxRetry) && c.units.Keys == {k} && c.units[k] == Pending(1)
    ensures c.ctx.pending == map[k := 1] && !c.ctx.cancelEvent && c.ctx.cancelledKeys == {}
    ensures c.leaving == multiset{k} && c.ctx.inflight == c0.ctx.inflight
  {
    c := Drive(c0, k, Schedule(k), maxRetry);
  }

  lemma TimerFires(c0: Cycle, k: Key, maxRetry: nat) returns (c: Cycle)
    requires Driven(c0, k, maxRetry) && c0.units.Keys == {k} && c0.units[k] == Pending(1)
    requires c0.ctx.pending == map[k := 1] && !c0.ctx.cancelEvent && c0.ctx.cancelledKeys == {}
    ensures Driven(c, k, maxRetry) && c.units.Keys == {k} && Quiescent(c)
    ensures c.units[k] == Queued(1) && c.leaving == c0.leaving && c.ctx.inflight == c0.ctx.inflight
  {
    c := Drive(c0, k, Fire(k), maxRetry);
    assert c == c0.Put(k, Firing(1)).(ctx := c0.ctx.Popping(k)) && c.ctx.pending == map[];
    c := Drive(c, k, Requeue(k), maxRetry);
  }

  /** The second attempt runs in the wrapper while the first thread's finally block has
      already taken the key out of inflight. */
  lemma WrapperUnlisted(k: Key, maxRetry: nat) returns (c: Cycle)
    requires maxRetry > 0
    ensures Driven(c, k, maxRetry) && c.units.Keys == {k}
    ensures c.units[k] == Wrapping(1) && c.ctx.inflight == {} && c.ctx.pending == map[]
  {
    c := LaunchOne(k, maxRetry);
    c := RunToWrapper(c, k, maxRetry);
    c := FailAndRequeue(c, k, maxRetry);
    c := RunToWrapper(c, k, maxRetry);
    c := Drive(c, k, Leave(k), maxRetry);
  }

  lemma KillTheWholeJobset(s0: System, c0: Cycle, k: Key, maxRetry: nat) returns (s: System)
    requires Alone(s0, c0, k, maxRetry) && c0.ctx.inflight == {} && c0.ctx.pending == map[]
    ensures Reached(s, maxRetry) && |s.cycles| == 1 && s.cycles[0].units == c0.units
    ensures |s.kills| == 1 && s.kills[0].pc == Acquired(true) && s.kills[0].scope == Whole
  {
    ReachNext(s0, NewKill(Whole), maxRetry);
    s := Next(s0, NewKill(Whole), maxRetry);
    ReachNext(s, Raise(0), maxRetry);
    s := Next(s, Raise(0), maxRetry);
    ReachNext(s, CancelNext(0), maxRetry);
    s := Next(s, CancelNext(0), maxRetry);
    ReachNext(s, AbortNext(0), maxRetry);
    var t := s;
    s := Next(s, AbortNext(0), maxRetry);
    assert t.cycles[0].ctx.Abortable(Whole) == {};
    assert s.cycles[0].units == c0.units;
    ReachNext(s, CancelNext(0), maxRetry);
    s := Next(s, CancelNext(0), maxRetry);
    ReachNext(s, WaitNext(0), maxRetry);
    s := Next(s, WaitNext(0), maxRetry);
    ReachNext(s, WaitNext(0), maxRetry);
    s := Next(s, WaitNext(0), maxRetry);
  }

  /** With retries enabled a wrapper can still be running when acquire() returns True. */
  lemma ARetryEscapes(k: Key, maxRetry: nat) returns (actions: seq<Action>)
    requires maxRetry > 0
    ensures var s := After(actions, maxRetry);
            && |s.kills| == 1 && s.kills[0].pc == Acquired(true) && s.kills[0].scope == Whole
            && |s.cycles| == 1 && k in s.cycles[0].units && s.cycles[0].units[k] == Wrapping(1)
  {
    var c := WrapperUnlisted(k, maxRetry);
    var events :| (forall e <- events :: Plain(e, k)) && Exec(Open({k}, {}, false), events, maxRetry) == c;
    var s := DrivenAlone(k, events, maxRetry);
    var t := KillTheWholeJobset(s, c, k, maxRetry);
    actions :| After(actions, maxRetry) == t;
  }

  /** The barrier holds over every run if and only if submissions are never retried. */
  lemma NothingEscapesIffNoRetries(maxRetry: nat)
    ensures (forall actions :: NothingEscapes(After(actions, maxRetry))) <==> maxRetry == 0
  {
    if maxRetry == 0 {
      forall actions ensures NothingEscapes(After(actions, maxRetry)) {
        var s := After(actions, maxRetry);
        forall i, c, k |
          && 0 <= i < |s.kills| && s.kills[i].pc == Acquired(true)
          && 0 <= c < |s.cycles| && k in s.cycles[c].units && s.kills[i].scope.Covers(k)
          ensures !s.cycles[c].units[k].InSection()
        {
          OnlyAnOvertakenJobIsInside(actions, maxRetry, i, c, k);
        }
      }
    } else {
      var k := Key("a");
      var actions := ARetryEscapes(k, maxRetry);
      var s := After(actions, maxRetry);
      assert s.cycles[0].units[k].InSection() && s.kills[0].scope.Covers(k);
      assert !NothingEscapes(s);
    }
  }
}
