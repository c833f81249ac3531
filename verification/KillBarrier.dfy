/** The submit gate, the kills that raise barriers over it, and every cycle of one jobset
    running together (lsfmgr/lifecycle.py, lsfmgr/submitter.py, quiesce in lsfmgr/killer.py). */
module KillBarrier {
  import opened JobModel
  import opened Ledger
  import Lifecycle
  import opened Submission
  import opened SubmitCycle

  datatype KillPc =
    | Idle
    | Cancelling(i: nat)                 // next: cancel the i-th activity taken over
    | Aborting(i: nat)                   // next: abort its waiting retries
    | Waiting(i: nat, ok: bool)          // next: wait for the i-th activity
    | Acquired(ok: bool)                 // acquire() returned ok
    | Released

  datatype Kill = Kill(scope: Scope, pc: KillPc, acts: seq<nat>) {
    predicate Raised() {
      !pc.Idle? && !pc.Released?
    }

    /** How many activities have had their submissions cancelled. */
    function CancelledActs(): nat {
      match pc
      case Idle => 0
      case Cancelling(i) => i
      case Aborting(i) => i + 1
      case _ => |acts|
    }

    function WaitedActs(): nat {
      match pc
      case Waiting(i, _) => i
      case Acquired(_) => |acts|
      case _ => 0
    }

    /** No wait has timed out so far. */
    predicate InTime() {
      (pc.Waiting? || pc.Acquired?) && pc.ok
    }
  }

  datatype Rec = Rec(gen: nat, jobId: Option<nat>, state: JobState)

  datatype System = System(
    cycles: seq<Cycle>,
    activities: seq<nat>,          // gate ledger: registered cycles
    barriers: seq<Scope>,          // gate ledger: one entry per raised kill
    kills: seq<Kill>,
    store: map<Key, Rec>,
    nextGen: nat)
  {
    predicate Idle() {
      cycles == [] || cycles[|cycles| - 1].ctx.finished
    }

    function RefusedBy(keys: set<Key>): set<Key> {
      Lifecycle.RefusedBy(barriers, keys)
    }

    function PutKill(i: nat, k: Kill): System
      requires i < |kills|
    {
      this.(kills := kills[i := k])
    }

    function PutCycle(i: nat, c: Cycle): System
      requires i < |cycles|
    {
      this.(cycles := cycles[i := c])
    }

    function PutState(k: Key, st: JobState): System {
      if k in store then this.(store := store[k := store[k].(state := st)]) else this
    }
  }

  datatype Action =
    | Submit(keys: set<Key>)
    | InCycle(i: nat, e: Event)
    | NewKill(scope: Scope)
    | Raise(i: nat) | CancelNext(i: nat) | AbortNext(i: nat) | WaitNext(i: nat) | Timeout(i: nat)
    | Release(i: nat)
    | DeleteRecord(k: Key)               // a forced removal
    | PutRecord(k: Key)                  // an added or replaced record: a new execution
    | Observe(k: Key, st: JobState)      // polling or kill marking a job that is on LSF
    | DeclareLost(k: Key)                // detect_lost on a submission without an id

  /** Events read the Store: whether the record exists, which execution it belongs to, and whether
      it waits for a retry. */
  function Bind(s: System, e: Event): Event {
    match e
    case ResetKey(k, _) => ResetKey(k, k in s.store)
    case BeginTask(k, _) => BeginTask(k, k in s.store)
    case Record(k, _, _) => Record(k, k in s.store, if k in s.store then s.store[k].gen else 0)
    case Decide(k, _) => Decide(k, k in s.store)
    case MarkRetry(k, _) => MarkRetry(k, k in s.store)
    case Inspect(k, _) => Inspect(k, k in s.store && s.store[k].state.RetryWait?)
    case _ => e
  }

  /** The record write that goes with an event, decided by how the unit moved. */
  function Write(s: System, e: Event, before: Cycle, after: Cycle): System {
    match e
    case ResetKey(k, _) =>
      if before.At(k).Unlaunched? && after.At(k).Reset? && k in s.store then
        s.(store := s.store[k := Rec(s.nextGen, None, Submitting)], nextGen := s.nextGen + 1)
      else s
    case LaunchFail =>
      if after.phase.Closed? && before.phase.Prepared? then
        s.(store := map k | k in s.store ::
          if before.At(k).Reset? && s.store[k].state.Submitting? then s.store[k].(state := SubmitFailed)
          else s.store[k])
      else s
    case BeginTask(k, _) =>
      if after.At(k).Started? && before.At(k).Entered? then s.PutState(k, Submitting) else s
    case Record(k, _, _) =>
      if before.At(k).Returned? && k in s.store then
        s.(store := s.store[k := s.store[k].(jobId := Some(before.At(k).jobId), state := Pend)])
      else s
    case MarkRetry(k, _) =>
      if before.At(k).Retrying? && after.At(k).Marked? then s.PutState(k, RetryWait) else s
    case Decide(k, _) =>
      if !before.At(k).Refused? || !after.At(k).Settled? then s
      else if k in before.ctx.cancelledKeys then MarkCancelled(s, k)
      else s.PutState(k, SubmitFailed)
    case Enter(k) => if before.At(k).Queued? && after.At(k).Settled? then MarkCancelled(s, k) else s
    case Clear(k) => if before.At(k).Started? && after.At(k).Settled? then MarkCancelled(s, k) else s
    case Finalize(k) =>
      if before.At(k).Inspected? && before.At(k).waiting then s.PutState(k, Cancelled) else s
    case _ => s
  }

  /** CANCELLED only while the submission is still open. */
  function MarkCancelled(s: System, k: Key): System {
    if k in s.store && (s.store[k].state.Submitting? || s.store[k].state.RetryWait?) then
      s.PutState(k, Cancelled)
    else s
  }

  function DoSubmit(s: System, keys: set<Key>): System {
    if keys != {} && s.Idle() && (forall k <- keys :: k in s.store && s.store[k].state.IsInactive()) then
      var refused := s.RefusedBy(keys);
      var whole := refused == keys;
      s.(cycles := s.cycles + [Open(keys, refused, whole)],
         activities := if whole then s.activities else s.activities + [|s.cycles|])
    else s
  }

  function DoInCycle(s: System, i: nat, e: Event, maxRetry: nat): System {
    if i < |s.cycles| then
      var before := s.cycles[i];
      var after := Step(before, Bind(s, e), maxRetry);
      var t := Write(s, e, before, after).(cycles := s.cycles[i := after]);
      if e.Drop? && before.registered && !after.registered then
        t.(activities := RemoveFirst(s.activities, i))
      else t
    else s
  }

  /** The barrier goes up and the current activities are taken over in one locked section. */
  function DoRaise(s: System, i: nat): System {
    if i < |s.kills| && s.kills[i].pc.Idle? then
      s.(barriers := s.barriers + [s.kills[i].scope],
         kills := s.kills[i := s.kills[i].(pc := Cancelling(0), acts := s.activities)])
    else s
  }

  function DoCancelNext(s: System, i: nat): System {
    if i < |s.kills| && s.kills[i].pc.Cancelling? then
      var kill := s.kills[i];
      var j := kill.pc.i;
      if j < |kill.acts| then
        if kill.acts[j] < |s.cycles| then
          s.PutCycle(kill.acts[j], DoCancel(s.cycles[kill.acts[j]], kill.scope)).PutKill(i, kill.(pc := Aborting(j)))
        else s
      else s.PutKill(i, kill.(pc := Waiting(0, true)))
    else s
  }

  function DoAbortNext(s: System, i: nat): System {
    if i < |s.kills| && s.kills[i].pc.Aborting? then
      var kill := s.kills[i];
      var j := kill.pc.i;
      if j < |kill.acts| && kill.acts[j] < |s.cycles| then
        s.PutCycle(kill.acts[j], DoAbort(s.cycles[kill.acts[j]], kill.scope)).PutKill(i, kill.(pc := Cancelling(j + 1)))
      else s
    else s
  }

  function DoWaitNext(s: System, i: nat): System {
    if i < |s.kills| && s.kills[i].pc.Waiting? then
      var kill := s.kills[i];
      var j := kill.pc.i;
      if j < |kill.acts| then
        if kill.acts[j] < |s.cycles| && s.cycles[kill.acts[j]].ctx.Quiet(kill.scope) then
          s.PutKill(i, kill.(pc := Waiting(j + 1, kill.pc.ok)))
        else s
      else s.PutKill(i, kill.(pc := Acquired(kill.pc.ok)))
    else s
  }

  function DoTimeout(s: System, i: nat): System {
    if i < |s.kills| && s.kills[i].pc.Waiting? && s.kills[i].pc.i < |s.kills[i].acts| then
      s.PutKill(i, s.kills[i].(pc := Waiting(s.kills[i].pc.i + 1, false)))
    else s
  }

  function DoRelease(s: System, i: nat): System {
    if i < |s.kills| && (s.kills[i].pc.Waiting? || s.kills[i].pc.Acquired?) then
      s.PutKill(i, s.kills[i].(pc := Released)).(barriers := RemoveFirst(s.barriers, s.kills[i].scope))
    else s
  }

  function DoEnvironment(s: System, a: Action): System {
    match a
    case DeleteRecord(k) => s.(store := s.store - {k})
    case PutRecord(k) => s.(store := s.store[k := Rec(s.nextGen, None, Created)], nextGen := s.nextGen + 1)
    case Observe(k, st) =>
      if k in s.store && s.store[k].state.IsOnLsf() && (st.IsOnLsf() || st.Done? || st.Exit? || st.Lost?) then
        s.PutState(k, st)
      else s
    case DeclareLost(k) =>
      if k in s.store && s.store[k].state.Submitting? && s.store[k].jobId.None? then s.PutState(k, Lost) else s
    case _ => s
  }

  function Next(s: System, a: Action, maxRetry: nat): System {
    match a
    case Submit(keys) => DoSubmit(s, keys)
    case InCycle(i, e) => DoInCycle(s, i, e, maxRetry)
    case NewKill(scope) => s.(kills := s.kills + [Kill(scope, Idle, [])])
    case Raise(i) => DoRaise(s, i)
    case CancelNext(i) => DoCancelNext(s, i)
    case AbortNext(i) => DoAbortNext(s, i)
    case WaitNext(i) => DoWaitNext(s, i)
    case Timeout(i) => DoTimeout(s, i)
    case Release(i) => DoRelease(s, i)
    case _ => DoEnvironment(s, a)
  }

  function Init(): System {
    System([], [], [], [], map[], 0)
  }

  /** The state after any sequence of actions; an action whose guard fails is skipped. */
  function After(actions: seq<Action>, maxRetry: nat): System {
    if actions == [] then Init()
    else Next(After(actions[..|actions| - 1], maxRetry), actions[|actions| - 1], maxRetry)
  }
}
