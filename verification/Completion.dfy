/** The one owner of "this jobset is done" (lsfmgr/completion.py): the notification latch, the
    callback to run at the end, and the submissions that are accepted but not yet confirmed. */
module Completion {
  import opened JobModel

  /** An accepted submission; its token identifies the cycle. */
  datatype Arm = Arm(token: nat, hasPost: bool, pollInterval: Option<int>)

  /** The tracker as far as one jobset is concerned; armed names the cycle of the callback. */
  datatype Slot = Slot(armed: Option<nat>, pending: Option<Arm>, latched: bool)

  /** What an observation of a jobset finds. */
  datatype Seen = Seen(terminal: bool, killed: bool)
  datatype Observation = Observation(shutdown: bool, submitting: bool, gone: bool, records: seq<Seen>,
                                     killOpen: bool, summaryGone: bool)
  {
    predicate AllTerminal() {
      records != [] && forall r <- records :: r.terminal
    }

    predicate AllKilled() {
      forall r <- records :: r.killed
    }

    /** The records are all over and nothing is left that may still change them. */
    predicate Conclusive() {
      && !shutdown && !submitting && !gone && !killOpen
      && |records| > 0 && forall i :: 0 <= i < |records| ==> records[i].terminal
    }
  }

  datatype Verdict = Verdict(slot: Slot, emit: bool, callback: Option<nat>)

  function Staging(s: Slot, arm: Arm): Slot {
    s.(armed := None, pending := Some(arm))
  }

  function Confirming(s: Slot, token: nat): Slot {
    if s.pending.Some? && s.pending.value.token == token then
      Slot(if s.pending.value.hasPost then Some(token) else s.armed, None, false)
    else s
  }

  function Discarding(s: Slot, token: nat): Slot {
    if s.pending.Some? && s.pending.value.token == token then s.(pending := None) else s
  }

  function Observing(s: Slot, o: Observation): Verdict {
    if o.shutdown || o.submitting then Verdict(s, false, None)
    else if o.gone then Verdict(s.(armed := None, latched := false), false, None)
    else if !o.AllTerminal() then Verdict(s.(latched := false), false, None)
    else if o.killOpen then Verdict(s, false, None)
    else if o.AllKilled() || s.latched then Verdict(s.(armed := None, latched := true), false, s.armed)
    else if o.summaryGone then Verdict(s.(armed := None), false, None)
    else Verdict(s.(armed := None, latched := true), true, s.armed)
  }

  predicate KilledByUs(o: Observation) {
    forall i :: 0 <= i < |o.records| ==> o.records[i].killed
  }

  /** What an observation must lead to. The end is announced exactly if everything is over, not all
      of it by kills, the jobset is still there and the end was not announced before. The callback that
      is armed is handed out exactly if everything is over, unless the announcement failed because the
      jobset went. The latch opens when something is seen unfinished or the jobset is gone. */
  ghost predicate ObservedRight(before: Slot, o: Observation, after: Slot, emit: bool, callback: Option<nat>) {
    && (emit <==> o.Conclusive() && !KilledByUs(o) && !o.summaryGone && !before.latched)
    && (callback == if o.Conclusive() && (KilledByUs(o) || before.latched || !o.summaryGone) then before.armed
                    else None)
    && after.pending == before.pending
    && (after.armed == if o.Conclusive() || (o.gone && !o.shutdown && !o.submitting) then None else before.armed)
    && (after.latched <==>
          if o.shutdown || o.submitting then before.latched
          else !o.gone && (forall i :: 0 <= i < |o.records| ==> o.records[i].terminal) && o.records != []
               && (before.latched || (!o.killOpen && (KilledByUs(o) || !o.summaryGone))))
  }

  lemma ObservingIsRight(s: Slot, o: Observation)
    ensures var v := Observing(s, o); ObservedRight(s, o, v.slot, v.emit, v.callback)
  {
    assert forall r :: r in o.records <==> exists i :: 0 <= i < |o.records| && o.records[i] == r;
  }

  class CompletionTracker {
    var post: map<string, nat>
    var pending: map<string, Arm>
    var latch: set<string>

    function SlotOf(jobset: string): Slot
      reads this
    {
      Slot(if jobset in post then Some(post[jobset]) else None,
           if jobset in pending then Some(pending[jobset]) else None, jobset in latch)
    }

    constructor ()
      ensures forall js :: SlotOf(js) == Slot(None, None, false)
    {
      post, pending, latch := map[], map[], {};
    }

    method Stage(jobset: string, arm: Arm)
      modifies this
      ensures SlotOf(jobset) == Staging(old(SlotOf(jobset)), arm)
      ensures SlotOf(jobset) == Slot(None, Some(arm), jobset in old(latch))
      ensures forall js :: js != jobset ==> SlotOf(js) == old(SlotOf(js))
    {
      post := post - {jobset};
      pending := pending[jobset := arm];
    }

    /** None for a stale signal of another cycle. */
    method Confirm(jobset: string, token: nat) returns (arm: Option<Arm>)
      modifies this
      ensures SlotOf(jobset) == Confirming(old(SlotOf(jobset)), token)
      ensures arm.Some? ==> pending == old(pending) - {jobset} && latch == old(latch) - {jobset}
                            && post == (if arm.value.hasPost then old(post)[jobset := token] else old(post))
      ensures arm.None? ==> pending == old(pending) && latch == old(latch) && post == old(post)
      ensures arm == if jobset in old(pending) && old(pending)[jobset].token == token then Some(old(pending)[jobset])
                     else None
      ensures forall js :: js != jobset ==> SlotOf(js) == old(SlotOf(js))
    {
      if jobset !in pending || pending[jobset].token != token {
        return None;
      }
      var found := pending[jobset];
      pending := pending - {jobset};
      latch := latch - {jobset};
      if found.hasPost {
        post := post[jobset := token];
      }
      arm := Some(found);
    }

    method Discard(jobset: string, token: nat)
      modifies this
      ensures SlotOf(jobset) == Discarding(old(SlotOf(jobset)), token)
      ensures jobset in pending <==> jobset in old(pending) && old(pending)[jobset].token != token
      ensures forall js :: js != jobset ==> SlotOf(js) == old(SlotOf(js))
    {
      if jobset in pending && pending[jobset].token == token {
        pending := pending - {jobset};
      }
    }

    method Forget(jobset: string)
      modifies this
      ensures SlotOf(jobset) == Slot(None, None, false)
      ensures forall js :: js != jobset ==> SlotOf(js) == old(SlotOf(js))
    {
      post := post - {jobset};
      pending := pending - {jobset};
      latch := latch - {jobset};
    }

    /** The part of maybe_finish up to the notification; the callback it took out is run after
        the slots of the notification have returned. */
    method Observe(jobset: string, o: Observation) returns (emit: bool, callback: Option<nat>)
      modifies this
      ensures var v := Observing(old(SlotOf(jobset)), o);
              SlotOf(jobset) == v.slot && emit == v.emit && callback == v.callback
      ensures ObservedRight(old(SlotOf(jobset)), o, SlotOf(jobset), emit, callback)
      ensures forall js :: js != jobset ==> SlotOf(js) == old(SlotOf(js))
    {
      emit, callback := false, None;
      ObservingIsRight(SlotOf(jobset), o);
      if o.shutdown || o.submitting {
        return;
      }
      if o.gone {
        post := post - {jobset};
        latch := latch - {jobset};
        return;
      }
      if !o.AllTerminal() {
        latch := latch - {jobset};
        return;
      }
      if o.killOpen {
        return;
      }
      var found := if jobset in post then Some(post[jobset]) else None;
      post := post - {jobset};
      if o.AllKilled() {
        latch := latch + {jobset};
      }
      if jobset !in latch {
        if o.summaryGone {
          return;
        }
        latch := latch + {jobset};
        emit := true;
      }
      callback := found;
    }
  }

  // ---------------------------------------------------------------------
  // Runs of one jobset
  // ---------------------------------------------------------------------

  /** What happened, in order. */
  datatype Mark =
    | Staged(token: nat, hasPost: bool) | Confirmed(token: nat) | SawOpen | Removed
    | Finished(observation: Observation) | SawKilled | Ran(token: nat) | Lapsed(token: nat)
  {
    predicate Reopens() {
      Confirmed? || SawOpen? || Removed?
    }

    /** The end of an execution was noticed, by announcing it or silently after a kill of everything. */
    predicate Settles() {
      Finished? || SawKilled?
    }
  }

  /** held: callbacks taken out by observations whose notification slots have not returned. */
  datatype System = System(slot: Slot, held: seq<nat>, next: nat, history: seq<Mark>)

  datatype Action =
    | Stage(hasPost: bool, poll: Option<int>) | Confirm(token: nat) | Discard(token: nat) | Forget
    | Observe(o: Observation) | Return(i: nat, shutdown: bool)

  function Log(s: System, m: Mark): System {
    s.(history := s.history + [m])
  }

  function DoObserve(s: System, o: Observation): System {
    var v := Observing(s.slot, o);
    var t := s.(slot := v.slot, held := if v.callback.Some? then s.held + [v.callback.value] else s.held);
    if v.emit then Log(t, Finished(o))
    else if !o.shutdown && !o.submitting && o.gone then Log(t, Removed)
    else if !o.shutdown && !o.submitting && !o.AllTerminal() then Log(t, SawOpen)
    else if o.Conclusive() && KilledByUs(o) then Log(t, SawKilled)
    else if v.slot.armed != s.slot.armed && v.callback.None? then Log(t, Lapsed(s.slot.armed.value))
    else t
  }

  /** The slots may do anything in between, also submit again. */
  function DoReturn(s: System, i: nat, shutdown: bool): System {
    if i < |s.held| then
      var t := s.(held := s.held[..i] + s.held[i + 1..]);
      Log(t, if shutdown then Lapsed(s.held[i]) else Ran(s.held[i]))
    else s
  }

  function Next(s: System, a: Action): System {
    match a
    case Stage(hasPost, poll) =>
      Log(s.(slot := Staging(s.slot, Arm(s.next, hasPost, poll)), next := s.next + 1), Staged(s.next, hasPost))
    case Confirm(token) =>
      var t := s.(slot := Confirming(s.slot, token));
      if s.slot.pending.Some? && s.slot.pending.value.token == token then Log(t, Confirmed(token)) else t
    case Discard(token) => s.(slot := Discarding(s.slot, token))
    case Forget => Log(s.(slot := Slot(None, None, false)), Removed)
    case Observe(o) => DoObserve(s, o)
    case Return(i, shutdown) => DoReturn(s, i, shutdown)
  }

  function After(actions: seq<Action>): System {
    if actions == [] then System(Slot(None, None, false), [], 0, [])
    else Next(After(actions[..|actions| - 1]), actions[|actions| - 1])
  }

  /** Something that may reopen the jobset lies at or after position from. */
  ghost predicate Reopened(history: seq<Mark>, from: nat, to: nat) {
    exists j :: from <= j < to <= |history| && history[j].Reopens()
  }

  ghost predicate Uses(history: seq<Mark>, held: seq<nat>, armed: Option<nat>, token: nat) {
    Ran(token) in history || token in held || armed == Some(token)
  }

  ghost predicate LatchAgrees(s: System) {
    && (forall i, j :: 0 <= i < j < |s.history| && s.history[i].Finished? && s.history[j].Finished? ==>
        Reopened(s.history, i + 1, j))
    && (!s.slot.latched ==> forall i :: 0 <= i < |s.history| && s.history[i].Finished? ==>
        Reopened(s.history, i + 1, |s.history|))
    && (forall i :: 0 <= i < |s.history| && s.history[i].Finished? ==>
          s.history[i].observation.Conclusive() && !KilledByUs(s.history[i].observation))
  }

  /** Every callback in use belongs to a cycle that was staged and confirmed. */
  ghost predicate OriginsAgree(s: System) {
    && (forall t: nat :: Uses(s.history, s.held, s.slot.armed, t) ==>
          Confirmed(t) in s.history && Staged(t, true) in s.history)
    && (forall t: nat :: Confirmed(t) in s.history ==> t < s.next)
    && (s.slot.pending.Some? ==>
          s.slot.pending.value.token < s.next && Confirmed(s.slot.pending.value.token) !in s.history
          && Staged(s.slot.pending.value.token, s.slot.pending.value.hasPost) in s.history)
    && (forall i :: 0 <= i < |s.history| && s.history[i].Ran? ==> Confirmed(s.history[i].token) in s.history[..i])
  }

  /** A callback waits, is held or has run: one of them, once. */
  ghost predicate PlacesAgree(s: System) {
    && (s.slot.armed.Some? ==> s.slot.armed.value !in s.held && Ran(s.slot.armed.value) !in s.history)
    && (forall i, j :: 0 <= i < j < |s.held| ==> s.held[i] != s.held[j])
    && (forall i :: 0 <= i < |s.held| ==> Ran(s.held[i]) !in s.history)
    && (forall i, j :: 0 <= i < j < |s.history| && s.history[i].Ran? ==> s.history[i] != s.history[j])
  }

  lemma ReopenedLater(history: seq<Mark>, m: Mark, from: nat, to: nat)
    requires Reopened(history, from, to)
    ensures Reopened(history + [m], from, to) && Reopened(history + [m], from, |history| + 1)
  {
    var j :| from <= j < to <= |history| && history[j].Reopens();
    assert (history + [m])[j] == history[j];
  }

  /** One more mark that is no notification. */
  lemma LogKeepsLatch(s: System, slot: Slot, m: Mark, t: System)
    requires LatchAgrees(s) && !m.Finished? && t.slot == slot && t.history == s.history + [m]
    requires !slot.latched ==> !s.slot.latched || m.Confirmed? || m.SawOpen? || m.Removed?
    ensures LatchAgrees(t)
  {
    var h, n := s.history, |s.history|;
    forall i, j | 0 <= i < j < |t.history| && t.history[i].Finished? && t.history[j].Finished?
      ensures Reopened(t.history, i + 1, j)
    {
      assert h[i].Finished? && h[j].Finished?;
      ReopenedLater(h, m, i + 1, j);
    }
    forall i | 0 <= i < |t.history| && t.history[i].Finished? && !slot.latched
      ensures Reopened(t.history, i + 1, |t.history|)
    {
      assert t.history[n] == m && h[i].Finished?;
      if !s.slot.latched {
        ReopenedLater(h, m, i + 1, n);
      }
    }
  }

  lemma FinishKeepsLatch(s: System, o: Observation, t: System)
    requires LatchAgrees(s) && !s.slot.latched && t.slot.latched && t.history == s.history + [Finished(o)]
    requires o.Conclusive() && !KilledByUs(o)
    ensures LatchAgrees(t)
  {
    var h, n := s.history, |s.history|;
    forall i, j | 0 <= i < j < |t.history| && t.history[i].Finished? && t.history[j].Finished?
      ensures Reopened(t.history, i + 1, j)
    {
      assert h[i].Finished?;
      if j < n {
        ReopenedLater(h, Finished(o), i + 1, j);
      } else {
        ReopenedLater(h, Finished(o), i + 1, n);
      }
    }
  }

  lemma NextKeepsLatch(s: System, a: Action)
    requires LatchAgrees(s)
    ensures LatchAgrees(Next(s, a))
  {
    var t := Next(s, a);
    match a
    case Stage(hasPost, poll) => LogKeepsLatch(s, t.slot, Staged(s.next, hasPost), t);
    case Confirm(token) =>
      if t.history != s.history { LogKeepsLatch(s, t.slot, Confirmed(token), t); }
    case Discard(token) =>
    case Forget => LogKeepsLatch(s, t.slot, Removed, t);
    case Observe(o) => ObserveKeepsLatch(s, o);
    case Return(i, shutdown) =>
      if i < |s.held| { LogKeepsLatch(s, t.slot, if shutdown then Lapsed(s.held[i]) else Ran(s.held[i]), t); }
  }

  lemma ObserveKeepsLatch(s: System, o: Observation)
    requires LatchAgrees(s)
    ensures LatchAgrees(DoObserve(s, o))
  {
    var t := DoObserve(s, o);
    if Observing(s.slot, o).emit {
      FinishKeepsLatch(s, o, t);
    } else if t.history != s.history {
      LogKeepsLatch(s, t.slot, t.history[|s.history|], t);
    }
  }

  lemma LogKeepsOrigins(s: System, m: Mark, slot: Slot, next: nat)
    requires OriginsAgree(s) && !m.Ran? && s.next <= next
    requires slot.armed.Some? ==>
               || slot.armed == s.slot.armed
               || (m == Confirmed(slot.armed.value) && Staged(slot.armed.value, true) in s.history)
    requires m.Confirmed? ==> slot.pending.None? && s.slot.pending.Some? && s.slot.pending.value.token == m.token
    requires m.Staged? ==> m.token == s.next < next
    requires slot.pending.Some? ==>
               || slot.pending == s.slot.pending
               || m == Staged(slot.pending.value.token, slot.pending.value.hasPost)
    ensures OriginsAgree(System(slot, s.held, next, s.history + [m]))
  {
    var t := System(slot, s.held, next, s.history + [m]);
    forall i | 0 <= i < |t.history| && t.history[i].Ran? ensures Confirmed(t.history[i].token) in t.history[..i] {
      assert t.history[..i] == s.history[..i];
    }
    forall x: nat | Uses(t.history, t.held, t.slot.armed, x)
      ensures Confirmed(x) in t.history && Staged(x, true) in t.history
    {
      assert Uses(s.history, s.held, s.slot.armed, x) || (m == Confirmed(x) && Staged(x, true) in s.history);
    }
  }

  lemma NextKeepsOrigins(s: System, a: Action)
    requires OriginsAgree(s)
    ensures OriginsAgree(Next(s, a))
  {
    var t := Next(s, a);
    match a
    case Stage(hasPost, poll) => LogKeepsOrigins(s, Staged(s.next, hasPost), t.slot, t.next);
    case Confirm(token) =>
      if t.history != s.history { LogKeepsOrigins(s, Confirmed(token), t.slot, t.next); }
    case Discard(token) =>
    case Forget => LogKeepsOrigins(s, Removed, t.slot, t.next);
    case Observe(o) => ObserveKeepsOrigins(s, o);
    case Return(i, shutdown) => ReturnKeepsOrigins(s, i, shutdown);
  }

  lemma TakingOutKeepsOrigins(s: System, slot: Slot, held: seq<nat>)
    requires OriginsAgree(s) && slot.pending == s.slot.pending && (slot.armed.Some? ==> slot.armed == s.slot.armed)
    requires forall x <- held :: x in s.held || s.slot.armed == Some(x)
    ensures OriginsAgree(s.(slot := slot, held := held))
  {
    forall x: nat | Uses(s.history, held, slot.armed, x)
      ensures Confirmed(x) in s.history && Staged(x, true) in s.history
    {
      assert Uses(s.history, s.held, s.slot.armed, x);
    }
  }

  lemma ObserveKeepsOrigins(s: System, o: Observation)
    requires OriginsAgree(s)
    ensures OriginsAgree(DoObserve(s, o))
  {
    var t := DoObserve(s, o);
    TakingOutKeepsOrigins(s, t.slot, t.held);
    var mid := s.(slot := t.slot, held := t.held);
    if t.history != s.history {
      LogKeepsOrigins(mid, t.history[|s.history|], t.slot, t.next);
    }
  }

  lemma ReturnKeepsOrigins(s: System, i: nat, shutdown: bool)
    requires OriginsAgree(s)
    ensures OriginsAgree(DoReturn(s, i, shutdown))
  {
    if i < |s.held| {
      var t := DoReturn(s, i, shutdown);
      TakingOutKeepsOrigins(s, s.slot, t.held);
      assert Uses(s.history, s.held, s.slot.armed, s.held[i]);
      if !shutdown {
        forall j | 0 <= j < |t.history| && t.history[j].Ran? ensures Confirmed(t.history[j].token) in t.history[..j] {
          assert t.history[..j] == s.history[..j];
        }
        forall x: nat | Uses(t.history, t.held, t.slot.armed, x)
          ensures Confirmed(x) in t.history && Staged(x, true) in t.history
        {
          assert Uses(s.history, s.held, s.slot.armed, x);
        }
      }
    }
  }

  lemma NextKeepsPlaces(s: System, a: Action)
    requires PlacesAgree(s) && OriginsAgree(s)
    ensures PlacesAgree(Next(s, a))
  {
    match a
    case Confirm(token) =>
      if s.slot.pending.Some? && s.slot.pending.value.token == token {
        assert !Uses(s.history, s.held, s.slot.armed, token);
      }
    case Observe(o) => ObserveKeepsPlaces(s, o);
    case Return(i, shutdown) => ReturnKeepsPlaces(s, i, shutdown);
    case _ =>
  }

  lemma ObserveKeepsPlaces(s: System, o: Observation)
    requires PlacesAgree(s)
    ensures PlacesAgree(DoObserve(s, o))
  {
  }

  lemma ReturnKeepsPlaces(s: System, i: nat, shutdown: bool)
    requires PlacesAgree(s)
    ensures PlacesAgree(DoReturn(s, i, shutdown))
  {
    if i < |s.held| {
      var held := s.held[..i] + s.held[i + 1..];
      assert forall x <- held :: x in s.held && x != s.held[i];
      HeldOutKeepsPlaces(s, s.held[i], held, shutdown);
    }
  }

  lemma HeldOutKeepsPlaces(s: System, x: nat, held: seq<nat>, shutdown: bool)
    requires PlacesAgree(s) && x in s.held && (forall y <- held :: y in s.held && y != x)
    requires forall i, j :: 0 <= i < j < |held| ==> held[i] != held[j]
    ensures PlacesAgree(s.(held := held)) && PlacesAgree(Log(s.(held := held), Ran(x)))
  {
    forall i | 0 <= i < |held| ensures Ran(held[i]) !in s.history && held[i] != x {
      assert held[i] in held;
    }
  }

  lemma {:induction false} RunKeeps(actions: seq<Action>)
    ensures LatchAgrees(After(actions)) && OriginsAgree(After(actions)) && PlacesAgree(After(actions))
    decreases |actions|
  {
    if actions == [] {
    } else {
      RunKeeps(actions[..|actions| - 1]);
      NextKeepsLatch(After(actions[..|actions| - 1]), actions[|actions| - 1]);
      NextKeepsOrigins(After(actions[..|actions| - 1]), actions[|actions| - 1]);
      NextKeepsPlaces(After(actions[..|actions| - 1]), actions[|actions| - 1]);
    }
  }

  /** The latest execution of the jobset was noticed as ended. */
  ghost predicate Noticed(history: seq<Mark>) {
    exists i :: 0 <= i < |history| && history[i].Settles() && forall j :: i < j < |history| ==> !history[j].Reopens()
  }

  lemma NoticedOneMore(history: seq<Mark>, m: Mark)
    ensures Noticed(history + [m]) <==> m.Settles() || (Noticed(history) && !m.Reopens())
  {
    var more, n := history + [m], |history|;
    if m.Settles() {
      assert more[n].Settles();
    } else if Noticed(history) && !m.Reopens() {
      var i :| 0 <= i < n && history[i].Settles() && forall j :: i < j < n ==> !history[j].Reopens();
      assert more[i].Settles() && forall j :: i < j < n + 1 ==> !more[j].Reopens();
    }
    if Noticed(more) && !m.Settles() {
      var i :| 0 <= i < n + 1 && more[i].Settles() && forall j :: i < j < n + 1 ==> !more[j].Reopens();
      assert i < n && history[i] == more[i];
      forall j | i < j < n ensures !history[j].Reopens() {
        assert history[j] == more[j];
      }
      assert !more[n].Reopens();
    }
  }

  /** What one observation puts into the history. */
  lemma MarkOfObservation(s: System, o: Observation)
    ensures var t := DoObserve(s, o); var live := !o.shutdown && !o.submitting;
            t.history == s.history +
              if o.Conclusive() && KilledByUs(o) then [SawKilled]
              else if o.Conclusive() && !o.summaryGone && !s.slot.latched then [Finished(o)]
              else if live && o.gone then [Removed]
              else if live && !o.AllTerminal() then [SawOpen]
              else if o.Conclusive() && !s.slot.latched && s.slot.armed.Some? then [Lapsed(s.slot.armed.value)]
              else []
  {
    ObservingIsRight(s.slot, o);
  }

  lemma NextKeepsNoticed(s: System, a: Action)
    requires s.slot.latched <==> Noticed(s.history)
    ensures Next(s, a).slot.latched <==> Noticed(Next(s, a).history)
  {
    var t := Next(s, a);
    if a.Observe? {
      MarkOfObservation(s, a.o);
      ObservingIsRight(s.slot, a.o);
    }
    assert s.history + [] == s.history;
    if t.history != s.history {
      assert t.history == s.history + [t.history[|s.history|]];
      NoticedOneMore(s.history, t.history[|s.history|]);
    }
  }

  /** Over every run: an observation that finds everything over, not all of it by kills, in a jobset
      that is still there, sends the notification if and only if the end of this execution was not
      noticed yet; and afterwards it is noticed. What reopens it is a confirmed submission, an unfinished
      record or a removal, nothing else. */
  lemma {:induction false} EveryEndIsAnnounced(actions: seq<Action>, o: Observation)
    requires o.Conclusive() && !KilledByUs(o) && !o.summaryGone
    ensures var before, after := After(actions).history, After(actions + [Observe(o)]).history;
            && after == before + (if Noticed(before) then [] else [Finished(o)])
            && Noticed(after)
  {
    var s := After(actions);
    LatchIsNotice(actions);
    MarkOfObservation(s, o);
    assert (actions + [Observe(o)])[..|actions|] == actions;
    LatchIsNotice(actions + [Observe(o)]);
    ObservingIsRight(s.slot, o);
  }

  lemma {:induction false} LatchIsNotice(actions: seq<Action>)
    ensures After(actions).slot.latched <==> Noticed(After(actions).history)
    decreases |actions|
  {
    if actions == [] {
    } else {
      LatchIsNotice(actions[..|actions| - 1]);
      NextKeepsNoticed(After(actions[..|actions| - 1]), actions[|actions| - 1]);
    }
  }

  /** Every notification, the first included, was sent on records that were all terminal and not
      all killed, with no submission and no covering kill under way. */
  lemma {:induction false} FinishedOnlyWhenConclusive(actions: seq<Action>, j: nat)
    requires j < |After(actions).history| && After(actions).history[j].Finished?
    ensures var o := After(actions).history[j].observation;
            o.Conclusive() && !KilledByUs(o)
  {
    RunKeeps(actions);
  }

  /** Between two notifications a new cycle was confirmed, or an unfinished record was seen, or
      the jobset was removed. */
  lemma {:induction false} FinishedOncePerExecution(actions: seq<Action>, i: nat, j: nat)
    requires var h := After(actions).history; i < j < |h| && h[i].Finished? && h[j].Finished?
    ensures var h := After(actions).history;
            exists x :: i < x < j && (h[x].Confirmed? || h[x].SawOpen? || h[x].Removed?)
  {
    RunKeeps(actions);
    var h := After(actions).history;
    assert Reopened(h, i + 1, j);
  }

  /** A callback runs at most once, and only if the very cycle it was staged with was confirmed
      before, also when a slot of the notification submits again. */
  lemma {:induction false} CallbackRunsOnceForItsOwnCycle(actions: seq<Action>, i: nat)
    requires i < |After(actions).history| && After(actions).history[i].Ran?
    ensures var h := After(actions).history;
            && Staged(h[i].token, true) in h && Confirmed(h[i].token) in h[..i]
            && forall j :: 0 <= j < |h| && h[j] == h[i] ==> j == i
  {
    RunKeeps(actions);
    var s := After(actions);
    assert s.history[i] == Ran(s.history[i].token);
  }

  // ---------------------------------------------------------------------
  // No callback is lost
  // ---------------------------------------------------------------------

  ghost predicate StagedOnce(s: System) {
    && (forall t: nat, b: bool :: Staged(t, b) in s.history ==> t < s.next && Staged(t, !b) !in s.history)
    && (s.slot.pending.Some? ==> s.slot.armed.None?)
  }

  lemma NextKeepsStagedOnce(s: System, a: Action)
    requires StagedOnce(s)
    ensures StagedOnce(Next(s, a))
  {
    assert forall m: Mark :: m.Staged? && m in Next(s, a).history ==>
        m in s.history || (a.Stage? && m == Staged(s.next, a.hasPost));
  }

  /** Where the callback of a confirmed cycle may be. */
  ghost predicate Placed(s: System, token: nat) {
    s.slot.armed == Some(token) || token in s.held || Ran(token) in s.history || Lapsed(token) in s.history
  }

  /** A newer submission or a removal came after position i. */
  ghost predicate DisarmedAfter(history: seq<Mark>, i: nat) {
    exists j :: i < j < |history| && (history[j].Staged? || history[j].Removed?)
  }

  ghost predicate CallbacksAgree(s: System) {
    forall i :: 0 <= i < |s.history| && s.history[i].Confirmed? && Staged(s.history[i].token, true) in s.history ==>
      Placed(s, s.history[i].token) || DisarmedAfter(s.history, i)
  }

  lemma StillDisarmed(history: seq<Mark>, m: Mark, i: nat)
    requires DisarmedAfter(history, i) || (i < |history| && (m.Staged? || m.Removed?))
    ensures DisarmedAfter(history + [m], i)
  {
    var more := history + [m];
    if DisarmedAfter(history, i) {
      var j :| i < j < |history| && (history[j].Staged? || history[j].Removed?);
      assert more[j] == history[j];
    } else {
      assert more[|history|] == m;
    }
  }

  /** One step takes a callback from one place to the next, or disarms it and says so. */
  lemma NextKeepsPlaced(s: System, a: Action, token: nat)
    requires StagedOnce(s) && Placed(s, token)
    ensures var t := Next(s, a);
            Placed(t, token) || (|t.history| == |s.history| + 1 && t.history[..|s.history|] == s.history
                                 && (t.history[|s.history|].Staged? || t.history[|s.history|].Removed?))
  {
    var t := Next(s, a);
    if a.Observe? {
      MarkOfObservation(s, a.o);
      ObservingIsRight(s.slot, a.o);
    }
    if a.Return? && a.i < |s.held| {
      assert forall x <- s.held :: x == s.held[a.i] || x in t.held;
    }
  }

  lemma ConfirmedIsPlaced(s: System, token: nat)
    requires StagedOnce(s) && OriginsAgree(s) && s.slot.pending.Some? && s.slot.pending.value.token == token
    requires Staged(token, true) in s.history
    ensures Placed(Next(s, Confirm(token)), token)
  {
    assert Staged(token, s.slot.pending.value.hasPost) in s.history;
  }

  lemma NextKeepsCallbacks(s: System, a: Action)
    requires StagedOnce(s) && OriginsAgree(s) && CallbacksAgree(s)
    ensures CallbacksAgree(Next(s, a))
  {
    var t := Next(s, a);
    var n := |s.history|;
    forall i | 0 <= i < |t.history| && t.history[i].Confirmed? && Staged(t.history[i].token, true) in t.history
      ensures Placed(t, t.history[i].token) || DisarmedAfter(t.history, i)
    {
      var token := t.history[i].token;
      HistoryGrows(s, a);
      if i == n {
        ConfirmedIsPlaced(s, token);
      } else {
        assert Confirmed(token) in s.history;
        if DisarmedAfter(s.history, i) {
          if t.history != s.history {
            StillDisarmed(s.history, t.history[n], i);
          }
        } else {
          NextKeepsPlaced(s, a, token);
          if !Placed(t, token) {
            StillDisarmed(s.history, t.history[n], i);
          }
        }
      }
    }
  }

  /** A step adds at most one mark; a confirmation is one of the cycle that was pending. */
  lemma HistoryGrows(s: System, a: Action)
    ensures var t := Next(s, a);
            t.history == s.history || t.history == s.history + [t.history[|s.history|]]
    ensures var t := Next(s, a);
            |t.history| > |s.history| && t.history[|s.history|].Confirmed? ==>
              a == Confirm(t.history[|s.history|].token) && s.slot.pending.Some?
              && s.slot.pending.value.token == a.token
    ensures var t := Next(s, a);
            forall m: Mark :: m.Staged? && m in t.history && m !in s.history ==> a.Stage? && m.token == s.next
  {
    if a.Observe? {
      MarkOfObservation(s, a.o);
    }
  }

  lemma {:induction false} RunKeepsCallbacks(actions: seq<Action>)
    ensures StagedOnce(After(actions)) && CallbacksAgree(After(actions))
    decreases |actions|
  {
    if actions == [] {
    } else {
      var before := actions[..|actions| - 1];
      RunKeepsCallbacks(before);
      RunKeeps(before);
      NextKeepsStagedOnce(After(before), actions[|actions| - 1]);
      NextKeepsCallbacks(After(before), actions[|actions| - 1]);
    }
  }

  /** The callback of a confirmed cycle is never lost: over every run it waits, is held, has run, has
      lapsed because the jobset or the manager went away, or a newer submission or a removal came later. */
  lemma {:induction false} NoCallbackIsLost(actions: seq<Action>, i: nat)
    requires var h := After(actions).history;
             i < |h| && h[i].Confirmed? && Staged(h[i].token, true) in h
    ensures var s := After(actions);
            Placed(s, s.history[i].token) || DisarmedAfter(s.history, i)
  {
    RunKeepsCallbacks(actions);
  }

  /** And one that waits is handed out by the next observation that finds everything over in a jobset that
      is still there. */
  lemma TheWaitingCallbackIsHandedOut(s: System, o: Observation)
    requires o.Conclusive() && !o.summaryGone && s.slot.armed.Some?
    ensures var t := Next(s, Observe(o)); t.slot.armed.None? && t.held == s.held + [s.slot.armed.value]
  {
    ObservingIsRight(s.slot, o);
  }
}
