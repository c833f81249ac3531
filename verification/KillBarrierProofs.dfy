/** A kill that has acquired its scope leaves no submission behind. */
module KillBarrierProofs {
  import opened JobModel
  import opened Ledger
  import opened Submission
  import opened SubmitCycle
  import opened SubmitCycleProofs
  import opened KillBarrier

  // ---------------------------------------------------------------------
  // What one cycle never takes back
  // ---------------------------------------------------------------------

  /** Cancellation and the end of a cycle are final, and only a key that the cycle does
      not refuse enters the submit section. */
  ghost predicate Onward(c: Cycle, e: Event, d: Cycle) {
    && d.units.Keys == c.units.Keys
    && (forall k :: c.Blocks(k) ==> d.Blocks(k))
    && (forall k :: c.ctx.Refuses(k) ==> d.ctx.Refuses(k))
    && (forall k :: k in d.ctx.inflight && k !in c.ctx.inflight ==> !c.Blocks(k))
    && (c.ctx.finished ==> d.ctx.finished)
    && (d.registered != c.registered ==> e.Drop? && c.registered && c.ctx.finished)
  }

  lemma StartOnward(c: Cycle, e: Event, maxRetry: nat)
    requires LedgerAgrees(c) && PhaseAgrees(c) && (e.Arm? || e.Accept? || e.Reject? || e.LaunchFail? || e.Launch?)
    ensures Onward(c, e, Step(c, e, maxRetry))
  {
  }

  lemma LaunchOnward(c: Cycle, e: Event, maxRetry: nat)
    requires LedgerAgrees(c) && PhaseAgrees(c)
        && (e.ResetKey? || e.SkipBlocked? || e.FanOut? || e.Queue? || e.FinishEmpty?)
    ensures Onward(c, e, Step(c, e, maxRetry))
  {
  }

  lemma EnterOnward(c: Cycle, k: Key)
    requires LedgerAgrees(c) && PhaseAgrees(c)
    ensures Onward(c, Enter(k), DoEnter(c, k))
  {
  }

  lemma BeginOnward(c: Cycle, e: Event, maxRetry: nat)
    requires LedgerAgrees(c) && PhaseAgrees(c) && (e.BeginTask? || e.MarkRetry?)
    ensures Onward(c, e, Step(c, e, maxRetry))
  {
  }

  lemma TaskOnward(c: Cycle, e: Event, maxRetry: nat)
    requires LedgerAgrees(c) && PhaseAgrees(c) && (e.Clear? || e.Decide?)
    ensures Onward(c, e, Step(c, e, maxRetry))
  {
  }

  lemma ScheduleOnward(c: Cycle, e: Event, maxRetry: nat)
    requires LedgerAgrees(c) && PhaseAgrees(c) && e.Schedule?
    ensures Onward(c, e, Step(c, e, maxRetry))
  {
  }

  lemma WrapperOnward(c: Cycle, e: Event, maxRetry: nat)
    requires LedgerAgrees(c) && PhaseAgrees(c) && WrapperEvent(e)
    ensures Onward(c, e, Step(c, e, maxRetry))
  {
  }

  lemma AbortOnward(c: Cycle, e: Event, maxRetry: nat)
    requires LedgerAgrees(c) && PhaseAgrees(c) && (e.Abort?)
    ensures Onward(c, e, Step(c, e, maxRetry))
  {
  }

  lemma FireOnward(c: Cycle, e: Event, maxRetry: nat)
    requires LedgerAgrees(c) && PhaseAgrees(c) && e.Fire?
    ensures Onward(c, e, Step(c, e, maxRetry))
  {
  }

  lemma RequeueOnward(c: Cycle, e: Event, maxRetry: nat)
    requires LedgerAgrees(c) && PhaseAgrees(c) && e.Requeue?
    ensures Onward(c, e, Step(c, e, maxRetry))
  {
  }

  lemma FinalizeOnward(c: Cycle, e: Event, maxRetry: nat)
    requires LedgerAgrees(c) && PhaseAgrees(c) && (e.Inspect? || e.Finalize?)
    ensures Onward(c, e, Step(c, e, maxRetry))
  {
  }

  lemma CountOnward(c: Cycle, e: Event, maxRetry: nat)
    requires LedgerAgrees(c) && PhaseAgrees(c) && (e.Count?)
    ensures Onward(c, e, Step(c, e, maxRetry))
  {
  }

  lemma ReportOnward(c: Cycle, e: Event, maxRetry: nat)
    requires LedgerAgrees(c) && PhaseAgrees(c) && (e.FinishCheck? || e.Emit?)
    ensures Onward(c, e, Step(c, e, maxRetry))
  {
  }

  lemma CancelOnward(c: Cycle, e: Event, maxRetry: nat)
    requires LedgerAgrees(c) && PhaseAgrees(c) && (e.Cancel? || e.Drop?)
    ensures Onward(c, e, Step(c, e, maxRetry))
  {
  }

  lemma LeaveOnward(c: Cycle, k: Key)
    requires LedgerAgrees(c) && PhaseAgrees(c)
    ensures Onward(c, Leave(k), DoLeave(c, k))
  {
  }

  lemma StepOnward(c: Cycle, e: Event, maxRetry: nat)
    requires Inv(c, maxRetry)
    ensures Onward(c, e, Step(c, e, maxRetry))
  {
    if e.Arm? || e.Accept? || e.Reject? || e.LaunchFail? || e.Launch? {
      StartOnward(c, e, maxRetry);
    } else if LaunchEvent(e) {
      LaunchOnward(c, e, maxRetry);
    } else if e.Enter? {
      EnterOnward(c, e.k);
    } else if e.BeginTask? || e.MarkRetry? {
      BeginOnward(c, e, maxRetry);
    } else if e.Schedule? {
      ScheduleOnward(c, e, maxRetry);
    } else if TaskEvent(e) {
      TaskOnward(c, e, maxRetry);
    } else if WrapperEvent(e) {
      WrapperOnward(c, e, maxRetry);
    } else if e.Abort? {
      AbortOnward(c, e, maxRetry);
    } else if e.Fire? {
      FireOnward(c, e, maxRetry);
    } else if e.Requeue? {
      RequeueOnward(c, e, maxRetry);
    } else if e.Inspect? || e.Finalize? {
      FinalizeOnward(c, e, maxRetry);
    } else if e.Leave? {
      LeaveOnward(c, e.k);
    } else if e.Cancel? || e.Drop? {
      CancelOnward(c, e, maxRetry);
    } else if e.Count? {
      CountOnward(c, e, maxRetry);
    } else {
      ReportOnward(c, e, maxRetry);
    }
  }

  // ---------------------------------------------------------------------
  // The invariant of the barrier protocol
  // ---------------------------------------------------------------------

  function Weight(kill: Kill, scope: Scope): nat {
    if kill.Raised() && kill.scope == scope then 1 else 0
  }

  /** How many raised kills carry this very scope object. */
  function RaisedWith(kills: seq<Kill>, scope: Scope): nat {
    if kills == [] then 0
    else RaisedWith(kills[..|kills| - 1], scope) + Weight(kills[|kills| - 1], scope)
  }

  /** A cycle a kill did not take over: it is over, or everything in scope is shut out of it. */
  ghost predicate ShutOut(c: Cycle, scope: Scope) {
    c.ctx.finished || forall k <- c.units :: scope.Covers(k) ==> c.Blocks(k) && k !in c.ctx.inflight
  }

  ghost predicate KillAgrees(kill: Kill, cycles: seq<Cycle>) {
    && (forall j :: 0 <= j < |kill.acts| ==> kill.acts[j] < |cycles|)
    && kill.CancelledActs() <= |kill.acts| && kill.WaitedActs() <= |kill.acts|
    && (kill.Raised() ==>
          && (forall j, k :: 0 <= j < kill.CancelledActs() && kill.scope.Covers(k) ==>
              cycles[kill.acts[j]].ctx.Refuses(k))
          && (kill.InTime() ==> forall j :: 0 <= j < kill.WaitedActs() ==> cycles[kill.acts[j]].ctx.Quiet(kill.scope))
          && (forall c :: 0 <= c < |cycles| && c !in kill.acts ==> ShutOut(cycles[c], kill.scope)))
  }

  ghost predicate GateAgrees(s: System) {
    && (forall c: nat :: multiset(s.activities)[c] == if c < |s.cycles| && s.cycles[c].registered then 1 else 0)
    && (forall scope :: multiset(s.barriers)[scope] == RaisedWith(s.kills, scope))
  }

  ghost predicate CyclesAgree(s: System, maxRetry: nat) {
    && (forall c :: 0 <= c < |s.cycles| ==> Inv(s.cycles[c], maxRetry))
    && (forall c :: 0 <= c < |s.cycles| - 1 ==> s.cycles[c].ctx.finished)
  }

  ghost predicate Barrier(s: System, maxRetry: nat) {
    && GateAgrees(s) && CyclesAgree(s, maxRetry)
    && (forall i :: 0 <= i < |s.kills| ==> KillAgrees(s.kills[i], s.cycles))
  }

  // ---------------------------------------------------------------------
  // Scopes of raised kills
  // ---------------------------------------------------------------------

  lemma {:induction false} RaisedUpdate(kills: seq<Kill>, i: nat, kill: Kill, scope: Scope)
    requires i < |kills|
    ensures RaisedWith(kills[i := kill], scope) + Weight(kills[i], scope)
         == RaisedWith(kills, scope) + Weight(kill, scope)
  {
    var n := |kills| - 1;
    if i == n {
      assert kills[i := kill][..n] == kills[..n];
    } else {
      RaisedUpdate(kills[..n], i, kill, scope);
      assert kills[i := kill][..n] == kills[..n][i := kill];
    }
  }

  lemma RaisedMember(kills: seq<Kill>, i: nat)
    requires i < |kills| && kills[i].Raised()
    ensures RaisedWith(kills, kills[i].scope) > 0
  {
    RaisedUpdate(kills, i, kills[i].(pc := Idle), kills[i].scope);
  }

  lemma RaisedAppend(kills: seq<Kill>, kill: Kill, scope: Scope)
    requires !kill.Raised()
    ensures RaisedWith(kills + [kill], scope) == RaisedWith(kills, scope)
  {
    assert (kills + [kill])[..|kills|] == kills;
  }

  // ---------------------------------------------------------------------
  // One action
  // ---------------------------------------------------------------------

  /** One cycle moves on; every kill keeps what it holds. */
  lemma CycleMoveKeepsKill(kill: Kill, cycles: seq<Cycle>, i: nat, e: Event, d: Cycle)
    requires i < |cycles| && KillAgrees(kill, cycles) && Onward(cycles[i], e, d)
    ensures KillAgrees(kill, cycles[i := d])
  {
    if kill.Raised() {
      var after := cycles[i := d];
      forall j | 0 <= j < kill.WaitedActs() && kill.InTime()
        ensures after[kill.acts[j]].ctx.Quiet(kill.scope)
      {
        assert cycles[kill.acts[j]].ctx.Quiet(kill.scope);
        if kill.acts[j] == i {
          forall k <- d.ctx.inflight ensures !kill.scope.Covers(k) {
            assert kill.scope.Covers(k) ==> cycles[kill.acts[j]].ctx.Refuses(k);
            assert kill.scope.Covers(k) ==> cycles[i].Blocks(k);
          }
        }
      }
      forall c | 0 <= c < |after| && c !in kill.acts
        ensures ShutOut(after[c], kill.scope)
      {
        assert ShutOut(cycles[c], kill.scope);
      }
    }
  }

  lemma CycleMoveKeeps(s: System, i: nat, e: Event, t: System, maxRetry: nat)
    requires Barrier(s, maxRetry) && i < |s.cycles|
    requires t.cycles == s.cycles[i := Step(s.cycles[i], e, maxRetry)]
    requires t.kills == s.kills
    ensures CyclesAgree(t, maxRetry)
    ensures forall x :: 0 <= x < |t.kills| ==> KillAgrees(t.kills[x], t.cycles)
  {
    StepKeeps(s.cycles[i], e, maxRetry);
    StepOnward(s.cycles[i], e, maxRetry);
    forall x | 0 <= x < |t.kills| ensures KillAgrees(t.kills[x], t.cycles) {
      CycleMoveKeepsKill(s.kills[x], s.cycles, i, e, t.cycles[i]);
    }
  }

  lemma WriteKeepsGate(s: System, e: Event, before: Cycle, after: Cycle)
    ensures var t := Write(s, e, before, after);
            t.cycles == s.cycles && t.activities == s.activities && t.barriers == s.barriers && t.kills == s.kills
  {
  }

  lemma InCycleKeeps(s: System, i: nat, e: Event, maxRetry: nat)
    requires Barrier(s, maxRetry)
    ensures Barrier(DoInCycle(s, i, e, maxRetry), maxRetry)
  {
    if i < |s.cycles| {
      var f := Bind(s, e);
      var t := DoInCycle(s, i, e, maxRetry);
      WriteKeepsGate(s, e, s.cycles[i], Step(s.cycles[i], f, maxRetry));
      CycleMoveKeeps(s, i, f, t, maxRetry);
      InCycleGate(s, i, e, maxRetry);
    }
  }

  /** What a cycle's move leaves of the gate: only its own registration may go. */
  lemma InCycleParts(s: System, i: nat, e: Event, d: Cycle, maxRetry: nat)
    requires i < |s.cycles| && d == Step(s.cycles[i], Bind(s, e), maxRetry)
    ensures var t := DoInCycle(s, i, e, maxRetry); var before := s.cycles[i];
            && t.cycles == s.cycles[i := d] && t.barriers == s.barriers && t.kills == s.kills
            && t.activities == (if e.Drop? && before.registered && !d.registered then RemoveFirst(s.activities, i)
                                else s.activities)
  {
    WriteKeepsGate(s, e, s.cycles[i], d);
  }

  lemma OnlyADropUnregisters(s: System, c: Cycle, e: Event, maxRetry: nat)
    requires Inv(c, maxRetry)
    ensures !e.Drop? ==> Step(c, Bind(s, e), maxRetry).registered == c.registered
    ensures Step(c, Bind(s, e), maxRetry).registered ==> c.registered
  {
    StepOnward(c, Bind(s, e), maxRetry);
  }

  lemma InCycleGate(s: System, i: nat, e: Event, maxRetry: nat)
    requires GateAgrees(s) && i < |s.cycles| && Inv(s.cycles[i], maxRetry)
    ensures GateAgrees(DoInCycle(s, i, e, maxRetry))
  {
    InCycleParts(s, i, e, Step(s.cycles[i], Bind(s, e), maxRetry), maxRetry);
    OnlyADropUnregisters(s, s.cycles[i], e, maxRetry);
    GateAfterAMove(s, i, e.Drop?, DoInCycle(s, i, e, maxRetry));
  }

  lemma GateAfterAMove(s: System, i: nat, drop: bool, t: System)
    requires GateAgrees(s) && i < |s.cycles| == |t.cycles|
    requires t.cycles == s.cycles[i := t.cycles[i]] && t.barriers == s.barriers && t.kills == s.kills
    requires var before, d := s.cycles[i], t.cycles[i];
             && (!drop ==> d.registered == before.registered) && (d.registered ==> before.registered)
             && t.activities == (if drop && before.registered && !d.registered then RemoveFirst(s.activities, i)
                                 else s.activities)
    ensures GateAgrees(t)
  {
    RemoveFirstContents(s.activities, i);
    DropGate(s, i, t.cycles[i], t.activities);
  }

  lemma DropGate(s: System, i: nat, d: Cycle, activities: seq<nat>)
    requires GateAgrees(s) && i < |s.cycles|
    requires if s.cycles[i].registered && !d.registered
             then multiset(activities) == multiset(s.activities) - multiset{i}
             else activities == s.activities && d.registered == s.cycles[i].registered
    ensures var cycles := s.cycles[i := d];
            forall c: nat :: multiset(activities)[c] == if c < |cycles| && cycles[c].registered then 1 else 0
  {
  }

  lemma PutCycleGate(s: System, i: nat, d: Cycle)
    requires GateAgrees(s) && i < |s.cycles| && d.registered == s.cycles[i].registered
    ensures GateAgrees(s.PutCycle(i, d))
  {
  }

  lemma NewCycleKeepsKill(kill: Kill, s: System, keys: set<Key>, c: Cycle)
    requires KillAgrees(kill, s.cycles) && (kill.Raised() ==> kill.scope in s.barriers)
    requires c == Open(keys, s.RefusedBy(keys), s.RefusedBy(keys) == keys)
    ensures KillAgrees(kill, s.cycles + [c])
  {
    if kill.Raised() {
      assert ShutOut(c, kill.scope);
      assert forall i :: 0 <= i < |s.cycles| ==> (s.cycles + [c])[i] == s.cycles[i];
    }
  }

  lemma SubmitKeeps(s: System, keys: set<Key>, maxRetry: nat)
    requires Barrier(s, maxRetry)
    ensures Barrier(DoSubmit(s, keys), maxRetry)
  {
    var t := DoSubmit(s, keys);
    if t != s {
      var c := Open(keys, s.RefusedBy(keys), s.RefusedBy(keys) == keys);
      SubmitKills(s, keys, c);
      OpenHolds(keys, s.RefusedBy(keys), s.RefusedBy(keys) == keys, maxRetry);
      SubmitCycles(s, c, t, maxRetry);
      SubmitGate(s, c, t);
    }
  }

  lemma AppendedInv(cycles: seq<Cycle>, c: Cycle, i: nat, maxRetry: nat)
    requires i <= |cycles| && (i < |cycles| ==> Inv(cycles[i], maxRetry)) && Inv(c, maxRetry)
    ensures Inv((cycles + [c])[i], maxRetry)
  {
    if i < |cycles| {
      assert (cycles + [c])[i] == cycles[i];
    } else {
      assert (cycles + [c])[i] == c;
    }
  }

  lemma AppendedInvs(cycles: seq<Cycle>, c: Cycle, maxRetry: nat)
    requires Inv(c, maxRetry) && forall i :: 0 <= i < |cycles| ==> Inv(cycles[i], maxRetry)
    ensures forall i :: 0 <= i < |cycles + [c]| ==> Inv((cycles + [c])[i], maxRetry)
  {
    forall i | 0 <= i < |cycles + [c]| ensures Inv((cycles + [c])[i], maxRetry) {
      AppendedInv(cycles, c, i, maxRetry);
    }
  }

  lemma SubmitCycles(s: System, c: Cycle, t: System, maxRetry: nat)
    requires CyclesAgree(s, maxRetry) && s.Idle() && Inv(c, maxRetry)
    requires t.cycles == s.cycles + [c]
    ensures CyclesAgree(t, maxRetry)
  {
    AppendedInvs(s.cycles, c, maxRetry);
    EarlierFinished(s.cycles, c);
  }

  lemma EarlierFinished(cycles: seq<Cycle>, c: Cycle)
    requires cycles == [] || cycles[|cycles| - 1].ctx.finished
    requires forall i :: 0 <= i < |cycles| - 1 ==> cycles[i].ctx.finished
    ensures forall i :: 0 <= i < |cycles + [c]| - 1 ==> (cycles + [c])[i].ctx.finished
  {
  }

  lemma SubmitKills(s: System, keys: set<Key>, c: Cycle)
    requires GateAgrees(s) && forall i :: 0 <= i < |s.kills| ==> KillAgrees(s.kills[i], s.cycles)
    requires c == Open(keys, s.RefusedBy(keys), s.RefusedBy(keys) == keys)
    ensures forall x :: 0 <= x < |s.kills| ==> KillAgrees(s.kills[x], s.cycles + [c])
  {
    forall x | 0 <= x < |s.kills| ensures KillAgrees(s.kills[x], s.cycles + [c]) {
      if s.kills[x].Raised() {
        RaisedMember(s.kills, x);
        assert multiset(s.barriers)[s.kills[x].scope] > 0;
      }
      NewCycleKeepsKill(s.kills[x], s, keys, c);
    }
  }

  lemma SubmitGate(s: System, c: Cycle, t: System)
    requires GateAgrees(s) && t.cycles == s.cycles + [c] && t.kills == s.kills && t.barriers == s.barriers
    requires t.activities == if c.registered then s.activities + [|s.cycles|] else s.activities
    ensures GateAgrees(t)
  {
  }

  // -- moves of one kill ------------------------------------------------

  lemma SwapKill(s: System, i: nat, kill: Kill, barriers: seq<Scope>, maxRetry: nat)
    requires Barrier(s, maxRetry) && i < |s.kills| && KillAgrees(kill, s.cycles)
    requires forall scope :: multiset(barriers)[scope] + Weight(s.kills[i], scope)
                          == multiset(s.barriers)[scope] + Weight(kill, scope)
    ensures Barrier(s.(kills := s.kills[i := kill], barriers := barriers), maxRetry)
  {
    var t := s.(kills := s.kills[i := kill], barriers := barriers);
    forall scope ensures multiset(t.barriers)[scope] == RaisedWith(t.kills, scope) {
      RaisedUpdate(s.kills, i, kill, scope);
    }
  }

  lemma TurnedAway(c: Cycle, scope: Scope)
    requires RegistrationAgrees(c) && PhaseAgrees(c) && !c.registered
    ensures ShutOut(c, scope)
  {
  }

  lemma RaiseAgrees(s: System, kill: Kill, maxRetry: nat)
    requires GateAgrees(s) && CyclesAgree(s, maxRetry) && kill.pc == Cancelling(0) && kill.acts == s.activities
    ensures KillAgrees(kill, s.cycles)
  {
    forall j | 0 <= j < |s.activities| ensures s.activities[j] < |s.cycles| {
      assert multiset(s.activities)[s.activities[j]] > 0;
    }
    forall c | 0 <= c < |s.cycles| && c !in s.activities
      ensures ShutOut(s.cycles[c], kill.scope)
    {
      assert multiset(s.activities)[c] == 0;
      assert Inv(s.cycles[c], maxRetry);
      TurnedAway(s.cycles[c], kill.scope);
    }
  }

  /** At the moment the barrier goes up, a cycle outside the activities is over or was
      turned away entirely. */
  lemma RaiseKeeps(s: System, i: nat, maxRetry: nat)
    requires Barrier(s, maxRetry)
    ensures Barrier(DoRaise(s, i), maxRetry)
  {
    if i < |s.kills| && s.kills[i].pc.Idle? {
      var kill := s.kills[i].(pc := Cancelling(0), acts := s.activities);
      RaiseAgrees(s, kill, maxRetry);
      SwapKill(s, i, kill, s.barriers + [kill.scope], maxRetry);
    }
  }

  lemma CancelledAct(kill: Kill, cycles: seq<Cycle>, d: Cycle)
    requires kill.pc.Cancelling? && kill.pc.i < |kill.acts| && KillAgrees(kill, cycles)
    requires Onward(cycles[kill.acts[kill.pc.i]], Cancel(kill.scope), d)
    requires forall k :: kill.scope.Covers(k) ==> d.ctx.Refuses(k)
    ensures KillAgrees(kill.(pc := Aborting(kill.pc.i)), cycles[kill.acts[kill.pc.i] := d])
  {
    CycleMoveKeepsKill(kill, cycles, kill.acts[kill.pc.i], Cancel(kill.scope), d);
  }

  lemma PutCycleKeeps(s: System, i: nat, e: Event, d: Cycle, maxRetry: nat)
    requires Barrier(s, maxRetry) && i < |s.cycles| && Inv(d, maxRetry)
    requires Onward(s.cycles[i], e, d) && d.registered == s.cycles[i].registered
    ensures Barrier(s.PutCycle(i, d), maxRetry)
  {
    PutCycleGate(s, i, d);
    forall x | 0 <= x < |s.kills| ensures KillAgrees(s.kills[x], s.PutCycle(i, d).cycles) {
      CycleMoveKeepsKill(s.kills[x], s.cycles, i, e, d);
    }
  }

  lemma CancelActKeeps(s: System, i: nat, c: nat, d: Cycle, maxRetry: nat)
    requires Barrier(s, maxRetry) && i < |s.kills| && s.kills[i].pc.Cancelling?
    requires s.kills[i].pc.i < |s.kills[i].acts| && s.kills[i].acts[s.kills[i].pc.i] == c && c < |s.cycles|
    requires Inv(d, maxRetry) && d.registered == s.cycles[c].registered
    requires Onward(s.cycles[c], Cancel(s.kills[i].scope), d)
    requires forall k :: s.kills[i].scope.Covers(k) ==> d.ctx.Refuses(k)
    ensures Barrier(s.PutCycle(c, d).PutKill(i, s.kills[i].(pc := Aborting(s.kills[i].pc.i))), maxRetry)
  {
    PutCycleKeeps(s, c, Cancel(s.kills[i].scope), d, maxRetry);
    CancelledAct(s.kills[i], s.cycles, d);
    SwapKill(s.PutCycle(c, d), i, s.kills[i].(pc := Aborting(s.kills[i].pc.i)), s.barriers, maxRetry);
  }

  lemma CancelNextKeeps(s: System, i: nat, maxRetry: nat)
    requires Barrier(s, maxRetry)
    ensures Barrier(DoCancelNext(s, i), maxRetry)
  {
    if i < |s.kills| && s.kills[i].pc.Cancelling? {
      var kill := s.kills[i];
      if kill.pc.i < |kill.acts| {
        var c := kill.acts[kill.pc.i];
        CancelStep(s.cycles[c], kill.scope, maxRetry);
        CancelActKeeps(s, i, c, DoCancel(s.cycles[c], kill.scope), maxRetry);
      } else {
        SwapKill(s, i, kill.(pc := Waiting(0, true)), s.barriers, maxRetry);
      }
    }
  }

  lemma CancelStep(c: Cycle, scope: Scope, maxRetry: nat)
    requires Inv(c, maxRetry)
    ensures Inv(DoCancel(c, scope), maxRetry)
    ensures Onward(c, Cancel(scope), DoCancel(c, scope)) && DoCancel(c, scope).registered == c.registered
    ensures forall k :: scope.Covers(k) ==> DoCancel(c, scope).ctx.Refuses(k)
  {
    CancelKeeps(c, scope, maxRetry);
    CancelOnward(c, Cancel(scope), maxRetry);
  }

  lemma AbortStep(c: Cycle, scope: Scope, maxRetry: nat)
    requires Inv(c, maxRetry)
    ensures Inv(DoAbort(c, scope), maxRetry)
    ensures Onward(c, Abort(scope), DoAbort(c, scope)) && DoAbort(c, scope).registered == c.registered
  {
    AbortKeeps(c, scope, maxRetry);
    AbortOnward(c, Abort(scope), maxRetry);
  }

  lemma AbortActKeeps(s: System, i: nat, c: nat, d: Cycle, maxRetry: nat)
    requires Barrier(s, maxRetry) && i < |s.kills| && s.kills[i].pc.Aborting? && c < |s.cycles|
    requires Inv(d, maxRetry) && d.registered == s.cycles[c].registered
    requires Onward(s.cycles[c], Abort(s.kills[i].scope), d)
    ensures Barrier(s.PutCycle(c, d).PutKill(i, s.kills[i].(pc := Cancelling(s.kills[i].pc.i + 1))), maxRetry)
  {
    PutCycleKeeps(s, c, Abort(s.kills[i].scope), d, maxRetry);
    assert KillAgrees(s.kills[i], s.PutCycle(c, d).cycles);
    SwapKill(s.PutCycle(c, d), i, s.kills[i].(pc := Cancelling(s.kills[i].pc.i + 1)), s.barriers, maxRetry);
  }

  lemma AbortNextKeeps(s: System, i: nat, maxRetry: nat)
    requires Barrier(s, maxRetry)
    ensures Barrier(DoAbortNext(s, i), maxRetry)
  {
    if i < |s.kills| && s.kills[i].pc.Aborting? {
      var kill := s.kills[i];
      var c := kill.acts[kill.pc.i];
      AbortStep(s.cycles[c], kill.scope, maxRetry);
      AbortActKeeps(s, i, c, DoAbort(s.cycles[c], kill.scope), maxRetry);
    }
  }

  lemma WaitKeeps(s: System, i: nat, maxRetry: nat)
    requires Barrier(s, maxRetry)
    ensures Barrier(DoWaitNext(s, i), maxRetry)
    ensures Barrier(DoTimeout(s, i), maxRetry)
  {
    if i < |s.kills| && s.kills[i].pc.Waiting? {
      WaitedAgrees(s.kills[i], s.cycles);
      SwapKill(s, i, DoWaitNext(s, i).kills[i], s.barriers, maxRetry);
      SwapKill(s, i, DoTimeout(s, i).kills[i], s.barriers, maxRetry);
    }
  }

  lemma WaitedAgrees(kill: Kill, cycles: seq<Cycle>)
    requires kill.pc.Waiting? && KillAgrees(kill, cycles)
    ensures kill.pc.i == |kill.acts| ==> KillAgrees(kill.(pc := Acquired(kill.pc.ok)), cycles)
    ensures kill.pc.i < |kill.acts| ==> KillAgrees(kill.(pc := Waiting(kill.pc.i + 1, false)), cycles)
    ensures kill.pc.i < |kill.acts| && cycles[kill.acts[kill.pc.i]].ctx.Quiet(kill.scope)
            ==> KillAgrees(kill.(pc := Waiting(kill.pc.i + 1, kill.pc.ok)), cycles)
  {
  }

  lemma ReleaseKeeps(s: System, i: nat, maxRetry: nat)
    requires Barrier(s, maxRetry)
    ensures Barrier(DoRelease(s, i), maxRetry)
  {
    if i < |s.kills| && (s.kills[i].pc.Waiting? || s.kills[i].pc.Acquired?) {
      var kill := s.kills[i];
      RaisedMember(s.kills, i);
      RemoveFirstContents(s.barriers, kill.scope);
      SwapKill(s, i, kill.(pc := Released), RemoveFirst(s.barriers, kill.scope), maxRetry);
    }
  }

  lemma NewKillKeeps(s: System, scope: Scope, maxRetry: nat)
    requires Barrier(s, maxRetry)
    ensures Barrier(s.(kills := s.kills + [Kill(scope, Idle, [])]), maxRetry)
  {
    var kill := Kill(scope, Idle, []);
    var t := s.(kills := s.kills + [kill]);
    forall x ensures multiset(t.barriers)[x] == RaisedWith(t.kills, x) {
      RaisedAppend(s.kills, kill, x);
    }
  }

  lemma EnvironmentKeeps(s: System, a: Action, maxRetry: nat)
    requires Barrier(s, maxRetry)
    ensures Barrier(DoEnvironment(s, a), maxRetry)
  {
    EnvironmentIsApart(s, a);
    StoreIsApart(s, DoEnvironment(s, a), maxRetry);
  }

  lemma EnvironmentIsApart(s: System, a: Action)
    ensures var t := DoEnvironment(s, a);
            t.cycles == s.cycles && t.kills == s.kills && t.activities == s.activities && t.barriers == s.barriers
  {
  }

  lemma StoreIsApart(s: System, t: System, maxRetry: nat)
    requires Barrier(s, maxRetry)
    requires t.cycles == s.cycles && t.kills == s.kills && t.activities == s.activities && t.barriers == s.barriers
    ensures Barrier(t, maxRetry)
  {
  }

  lemma KillMoveKeeps(s: System, a: Action, maxRetry: nat)
    requires Barrier(s, maxRetry)
    requires a.NewKill? || a.Raise? || a.WaitNext? || a.Timeout? || a.Release?
    ensures Barrier(Next(s, a, maxRetry), maxRetry)
  {
    if a.NewKill? {
      NewKillKeeps(s, a.scope, maxRetry);
    } else if a.Raise? {
      RaiseKeeps(s, a.i, maxRetry);
    } else if a.WaitNext? || a.Timeout? {
      WaitKeeps(s, a.i, maxRetry);
    } else {
      ReleaseKeeps(s, a.i, maxRetry);
    }
  }

  lemma NextKeeps(s: System, a: Action, maxRetry: nat)
    requires Barrier(s, maxRetry)
    ensures Barrier(Next(s, a, maxRetry), maxRetry)
  {
    if a.Submit? {
      SubmitKeeps(s, a.keys, maxRetry);
    } else if a.InCycle? {
      InCycleKeeps(s, a.i, a.e, maxRetry);
    } else if a.CancelNext? {
      CancelNextKeeps(s, a.i, maxRetry);
    } else if a.AbortNext? {
      AbortNextKeeps(s, a.i, maxRetry);
    } else if a.NewKill? || a.Raise? || a.WaitNext? || a.Timeout? || a.Release? {
      KillMoveKeeps(s, a, maxRetry);
    } else {
      EnvironmentKeeps(s, a, maxRetry);
    }
  }

  lemma InitHolds(maxRetry: nat)
    ensures Barrier(Init(), maxRetry)
  {
    assert multiset(Init().activities) == multiset{};
    assert multiset(Init().barriers) == multiset{};
  }

  lemma {:induction false} RunKeepsBarrier(actions: seq<Action>, maxRetry: nat)
    ensures Barrier(After(actions, maxRetry), maxRetry)
    decreases |actions|
  {
    if actions == [] {
      InitHolds(maxRetry);
    } else {
      RunKeepsBarrier(actions[..|actions| - 1], maxRetry);
      NextKeeps(After(actions[..|actions| - 1], maxRetry), actions[|actions| - 1], maxRetry);
    }
  }
}
