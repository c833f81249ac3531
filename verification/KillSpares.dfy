/** A kill stops only what it aims at: the submissions of all other jobs go on. */
module KillSpares {
  import opened JobModel
  import opened Ledger
  import opened Submission
  import opened SubmitCycle
  import opened SubmitCycleProofs
  import opened KillBarrier
  import opened KillBarrierProofs
  import opened KillEscape

  /** The action is a kill or a cancellation aimed at k. */
  predicate AimsAt(a: Action, k: Key) {
    || (a.NewKill? && a.scope.Covers(k))
    || (a.InCycle? && a.e.Cancel? && a.e.scope.Covers(k))
  }

  /** Nothing in the system is aimed at k, and no cycle refuses it. */
  ghost predicate Spared(s: System, k: Key) {
    && (forall i :: 0 <= i < |s.kills| ==> !s.kills[i].scope.Covers(k))
    && (forall b <- s.barriers :: !b.Covers(k))
    && (forall c :: 0 <= c < |s.cycles| && k in s.cycles[c].units ==> !s.cycles[c].Blocks(k))
  }

  lemma EventSpares(c: Cycle, e: Event, k: Key, maxRetry: nat)
    requires LedgerAgrees(c) && !c.Blocks(k) && !(e.Cancel? && e.scope.Covers(k))
    ensures !Step(c, e, maxRetry).Blocks(k)
  {
    if LaunchEvent(e) {
      LaunchSpares(c, e, k, maxRetry);
    } else if TaskEvent(e) || WrapperEvent(e) {
      TaskSpares(c, e, k, maxRetry);
    } else {
      ControlSpares(c, e, k, maxRetry);
    }
  }

  lemma LaunchSpares(c: Cycle, e: Event, k: Key, maxRetry: nat)
    requires LaunchEvent(e) && !c.Blocks(k)
    ensures !Step(c, e, maxRetry).Blocks(k)
  {
  }

  lemma TaskSpares(c: Cycle, e: Event, k: Key, maxRetry: nat)
    requires (TaskEvent(e) || WrapperEvent(e)) && !c.Blocks(k)
    ensures !Step(c, e, maxRetry).Blocks(k)
  {
  }

  lemma ControlSpares(c: Cycle, e: Event, k: Key, maxRetry: nat)
    requires !LaunchEvent(e) && !TaskEvent(e) && !WrapperEvent(e) && !c.Blocks(k) && !(e.Cancel? && e.scope.Covers(k))
    ensures !Step(c, e, maxRetry).Blocks(k)
  {
  }

  lemma CycleSpares(s: System, i: nat, e: Event, t: System, k: Key, maxRetry: nat)
    requires Spared(s, k) && i < |s.cycles| && Inv(s.cycles[i], maxRetry) && !(e.Cancel? && e.scope.Covers(k))
    requires t.cycles == s.cycles[i := Step(s.cycles[i], e, maxRetry)] && t.barriers == s.barriers
        && |t.kills| == |s.kills|
    requires forall x :: 0 <= x < |s.kills| ==> t.kills[x].scope == s.kills[x].scope
    ensures Spared(t, k)
  {
    StepKeys(s.cycles[i], e, maxRetry);
    if k in s.cycles[i].units {
      EventSpares(s.cycles[i], e, k, maxRetry);
    }
  }

  lemma SubmitSpares(s: System, keys: set<Key>, k: Key)
    requires Spared(s, k)
    ensures Spared(DoSubmit(s, keys), k)
  {
    var t := DoSubmit(s, keys);
    if t != s {
      assert k !in s.RefusedBy(keys);
      var c := Open(keys, s.RefusedBy(keys), s.RefusedBy(keys) == keys);
      assert t.cycles == s.cycles + [c];
      assert k in c.units ==> !c.Blocks(k);
    }
  }

  lemma KillMoveSpares(s: System, a: Action, k: Key, maxRetry: nat)
    requires Spared(s, k) && (a.Raise? || a.WaitNext? || a.Timeout?)
    ensures Spared(Next(s, a, maxRetry), k)
  {
  }

  lemma ReleaseSpares(s: System, i: nat, k: Key)
    requires Spared(s, k)
    ensures Spared(DoRelease(s, i), k)
  {
    if i < |s.kills| {
      RemoveFirstContents(s.barriers, s.kills[i].scope);
    }
  }

  lemma KillStepShape(s: System, i: nat, cancel: bool, maxRetry: nat)
    requires i < |s.kills| && (if cancel then s.kills[i].pc.Cancelling? else s.kills[i].pc.Aborting?)
    requires s.kills[i].pc.i < |s.kills[i].acts| && s.kills[i].acts[s.kills[i].pc.i] < |s.cycles|
    ensures var c := s.kills[i].acts[s.kills[i].pc.i];
            var e := if cancel then Cancel(s.kills[i].scope) else Abort(s.kills[i].scope);
            var t := if cancel then DoCancelNext(s, i) else DoAbortNext(s, i);
            && t.cycles == s.cycles[c := Step(s.cycles[c], e, maxRetry)] && t.barriers == s.barriers
            && |t.kills| == |s.kills| && forall x :: 0 <= x < |s.kills| ==> t.kills[x].scope == s.kills[x].scope
  {
  }

  lemma KillStepSpares(s: System, i: nat, cancel: bool, k: Key, maxRetry: nat)
    requires Spared(s, k) && CyclesAgree(s, maxRetry)
    ensures Spared(if cancel then DoCancelNext(s, i) else DoAbortNext(s, i), k)
  {
    var t := if cancel then DoCancelNext(s, i) else DoAbortNext(s, i);
    if i < |s.kills| && (if cancel then s.kills[i].pc.Cancelling? else s.kills[i].pc.Aborting?) {
      var kill := s.kills[i];
      if kill.pc.i < |kill.acts| && kill.acts[kill.pc.i] < |s.cycles| {
        KillStepShape(s, i, cancel, maxRetry);
        assert Inv(s.cycles[kill.acts[kill.pc.i]], maxRetry);
        CycleSpares(s, kill.acts[kill.pc.i], if cancel then Cancel(kill.scope) else Abort(kill.scope), t, k, maxRetry);
      }
    }
  }

  lemma NextSpares(s: System, a: Action, k: Key, maxRetry: nat)
    requires Spared(s, k) && CyclesAgree(s, maxRetry) && !AimsAt(a, k)
    ensures Spared(Next(s, a, maxRetry), k)
  {
    if a.Submit? {
      SubmitSpares(s, a.keys, k);
    } else if a.InCycle? {
      if a.i < |s.cycles| {
        InCycleSpares(s, a.i, a.e, k, maxRetry);
      }
    } else if a.CancelNext? || a.AbortNext? {
      KillStepSpares(s, a.i, a.CancelNext?, k, maxRetry);
    } else if a.Release? {
      ReleaseSpares(s, a.i, k);
    } else if a.Raise? || a.WaitNext? || a.Timeout? {
      KillMoveSpares(s, a, k, maxRetry);
    } else {
      OtherMoveSpares(s, a, k, maxRetry);
    }
  }

  lemma InCycleSpares(s: System, i: nat, e: Event, k: Key, maxRetry: nat)
    requires Spared(s, k) && CyclesAgree(s, maxRetry) && i < |s.cycles| && !(e.Cancel? && e.scope.Covers(k))
    ensures Spared(DoInCycle(s, i, e, maxRetry), k)
  {
    assert Inv(s.cycles[i], maxRetry);
    InCycleMoves(s, i, e, maxRetry);
    WriteKeepsGate(s, e, s.cycles[i], Step(s.cycles[i], Bind(s, e), maxRetry));
    CycleSpares(s, i, Bind(s, e), DoInCycle(s, i, e, maxRetry), k, maxRetry);
  }

  lemma OtherMoveSpares(s: System, a: Action, k: Key, maxRetry: nat)
    requires Spared(s, k) && !AimsAt(a, k) && !MovesACycle(a)
    requires !a.Raise? && !a.WaitNext? && !a.Timeout? && !a.Release?
    ensures Spared(Next(s, a, maxRetry), k)
  {
  }

  lemma {:induction false} RunSpares(actions: seq<Action>, k: Key, maxRetry: nat)
    requires forall a <- actions :: !AimsAt(a, k)
    ensures Spared(After(actions, maxRetry), k)
    decreases |actions|
  {
    if actions == [] {
    } else {
      var n := |actions| - 1;
      assert forall a <- actions[..n] :: a in actions;
      RunSpares(actions[..n], k, maxRetry);
      RunKeepsBarrier(actions[..n], maxRetry);
      NextSpares(After(actions[..n], maxRetry), actions[n], k, maxRetry);
    }
  }

  /** However many kills run beside it, a job is refused by its submit cycle only if some kill or
      cancellation was aimed at that very job. */
  lemma {:induction false} OnlyTargetsAreRefused(actions: seq<Action>, maxRetry: nat, c: nat, k: Key)
    requires c < |After(actions, maxRetry).cycles| && k in After(actions, maxRetry).cycles[c].units
    requires After(actions, maxRetry).cycles[c].Blocks(k)
    ensures exists a <- actions :: AimsAt(a, k)
  {
    if forall a <- actions :: !AimsAt(a, k) {
      RunSpares(actions, k, maxRetry);
    }
  }
}
