/** The bookkeeping of one submit cycle (_SubmitContext in lsfmgr/submitter.py): every
    function of Context is one section run under ctx.lock or ctx.retry_lock, and the
    class below performs the same section in place. */
module Submission {
  import opened JobModel

  /** What a kill or a cancel aims at: the whole jobset, or the keys of one scope object.
      The tag stands for the identity of the frozenset that a KillScope carries. */
  datatype Scope = Whole | Only(tag: nat, keys: set<Key>) {
    predicate Covers(k: Key) {
      Whole? || k in keys
    }
  }

  datatype Kind = Success | Failure | Cancellation

  /** A record snapshot travelling in a jobs_changed batch. */
  datatype Note = Note(key: Key, state: JobState)

  datatype Report = Report(total: nat, succeeded: nat, failed: nat, cancelled: nat)

  datatype Signal =
    | Progress(done: nat, total: nat)
    | JobsChanged(batch: seq<Note>)
    | Finished(report: Report)

  datatype Context = Context(
    total: nat, done: nat, succeeded: nat, failed: nat, cancelled: nat,
    cancelEvent: bool, cancelledKeys: set<Key>, inflight: set<Key>,
    pending: map<Key, nat>,
    finished: bool, buffer: seq<Note>, signals: seq<Signal>)
  {
    predicate Refuses(k: Key) {
      cancelEvent || k in cancelledKeys
    }

    function Entering(k: Key): Context {
      if Refuses(k) then this else this.(inflight := inflight + {k})
    }

    function Leaving(k: Key): Context {
      this.(inflight := inflight - {k})
    }

    function Cancelling(scope: Scope): Context {
      match scope
      case Whole => this.(cancelEvent := true)
      case Only(_, keys) => this.(cancelledKeys := cancelledKeys + keys)
    }

    /** The retries an abort over the scope takes out of the ledger. */
    function Abortable(scope: Scope): set<Key> {
      set k | k in pending && scope.Covers(k)
    }

    function Aborting(scope: Scope): Context {
      this.(pending := pending - Abortable(scope))
    }

    function Scheduling(k: Key, attempt: nat): Context {
      this.(pending := pending[k := attempt])
    }

    function Popping(k: Key): Context {
      this.(pending := pending - {k})
    }

    /** No covered key is inside the submit section any more. */
    predicate Quiet(scope: Scope) {
      forall k <- inflight :: !scope.Covers(k)
    }

    function Counting(n: nat, kind: Kind, notes: seq<Note>): Context {
      if n == 0 then this
      else this.(done := done + n,
                 succeeded := if kind.Success? then succeeded + n else succeeded,
                 failed := if kind.Failure? then failed + n else failed,
                 cancelled := if kind.Cancellation? then cancelled + n else cancelled,
                 buffer := buffer + notes)
    }

    function Noting(note: Note): Context {
      this.(buffer := buffer + [note])
    }

    function Flush(): seq<Signal> {
      if buffer != [] then [JobsChanged(buffer)] else []
    }

    /** pass is the throttle's verdict; progress is false when nothing was counted. */
    function Emitting(progress: bool, pass: bool): Context {
      if finished || !pass then this
      else this.(buffer := [],
                 signals := signals + (if progress then [Progress(done, total)] else []) + Flush())
    }

    function Summary(): Report {
      Report(total, succeeded, failed, cancelled)
    }

    function Finishing(force: bool): Context {
      if finished || (done < total && !force) then this
      else this.(finished := true, buffer := [],
                 signals := signals + (if done >= total then [Progress(total, total)] else [])
                 + Flush() + [Finished(Summary())])
    }

    function Remaining(): nat {
      if done <= total then total - done else 0
    }

    /** The tail shared by a rejected gate and a failed launch. */
    function Forcing(failure: bool, emit: bool): Context {
      if finished then this
      else
        var c := this.(finished := true, done := total,
                       failed := if failure then failed + Remaining() else failed,
                       cancelled := if failure then cancelled else cancelled + Remaining());
        if emit then c.(signals := signals + [Finished(c.Summary())]) else c
    }
  }

  function Start(total: nat): Context {
    Context(total, 0, 0, 0, 0, false, {}, {}, map[], false, [], [])
  }

  class SubmitContext {
    const total: nat
    var done: nat
    var succeeded: nat
    var failed: nat
    var cancelled: nat
    var cancelEvent: bool
    var cancelledKeys: set<Key>
    var inflight: set<Key>
    var pending: map<Key, nat>
    var finished: bool
    var buffer: seq<Note>
    /** What the connected slots have received, in order. */
    var signals: seq<Signal>

    function View(): Context
      reads this
    {
      Context(total, done, succeeded, failed, cancelled, cancelEvent, cancelledKeys, inflight,
              pending, finished, buffer, signals)
    }

    constructor (total: nat)
      ensures View() == Start(total)
    {
      this.total := total;
      done, succeeded, failed, cancelled := 0, 0, 0, 0;
      cancelEvent, cancelledKeys, inflight, pending := false, {}, {}, map[];
      finished, buffer, signals := false, [], [];
    }

    method EnterInflight(k: Key) returns (entered: bool)
      modifies this
      ensures entered == !old(View()).Refuses(k)
      ensures View() == old(View()).Entering(k)
    {
      if cancelEvent || k in cancelledKeys {
        return false;
      }
      inflight := inflight + {k};
      return true;
    }

    method LeaveInflight(k: Key)
      modifies this
      ensures View() == old(View()).Leaving(k)
    {
      if k in inflight {
        inflight := inflight - {k};
      } else {
        assert inflight - {k} == inflight;
      }
    }

    method CancelScope(scope: Scope)
      modifies this
      ensures View() == old(View()).Cancelling(scope)
    {
      match scope
      case Whole => cancelEvent := true;
      case Only(_, keys) => cancelledKeys := cancelledKeys + keys;
    }

    /** Pops every covered retry; exactly the popped ones are returned for finalisation. */
    method AbortRetries(scope: Scope) returns (popped: set<Key>)
      modifies this
      ensures popped == old(View()).Abortable(scope)
      ensures View() == old(View()).Aborting(scope)
    {
      ghost var before := pending;
      popped := {};
      if scope.Whole? {
        popped := pending.Keys;
        pending := map[];
        assert before - popped == map[];
        return;
      }
      var left := scope.keys;
      while left != {}
        invariant left <= scope.keys
        invariant popped == set k | k in before && k in scope.keys - left
        invariant pending == before - popped
        invariant View() == old(View()).(pending := pending)
      {
        var k :| k in left;
        if k in pending {
          pending := pending - {k};
          popped := popped + {k};
        }
        left := left - {k};
      }
    }

    method ScheduleRetry(k: Key, attempt: nat)
      modifies this
      ensures View() == old(View()).Scheduling(k, attempt)
    {
      pending := pending[k := attempt];
    }

    /** The timer's side of the ledger: whoever pops the entry owns the retry. */
    method PopRetry(k: Key) returns (attempt: Option<nat>)
      modifies this
      ensures attempt == if k in old(pending) then Some(old(pending)[k]) else None
      ensures View() == old(View()).Popping(k)
    {
      if k in pending {
        attempt := Some(pending[k]);
        pending := pending - {k};
      } else {
        attempt := None;
        assert pending - {k} == pending;
      }
    }

    method Busy(scope: Scope) returns (busy: set<Key>)
      ensures busy == {} <==> View().Quiet(scope)
      ensures forall k <- busy :: k in inflight && scope.Covers(k)
    {
      busy := set k | k in inflight && scope.Covers(k);
      if exists k :: k in inflight && scope.Covers(k) {
        var k :| k in inflight && scope.Covers(k);
        assert k in busy;
      }
    }

    method Count(n: nat, kind: Kind, notes: seq<Note>)
      modifies this
      ensures View() == old(View()).Counting(n, kind, notes)
    {
      if n == 0 {
        return;
      }
      done := done + n;
      match kind {
        case Success => succeeded := succeeded + n;
        case Failure => failed := failed + n;
        case Cancellation => cancelled := cancelled + n;
      }
      buffer := buffer + notes;
    }

    method NoteTransition(note: Note)
      modifies this
      ensures View() == old(View()).Noting(note)
    {
      buffer := buffer + [note];
    }

    method EmitProgress(progress: bool, pass: bool)
      modifies this
      ensures View() == old(View()).Emitting(progress, pass)
    {
      if finished || !pass {
        return;
      }
      var batch := buffer;
      buffer := [];
      if progress {
        signals := signals + [Progress(done, total)];
      }
      if batch != [] {
        signals := signals + [JobsChanged(batch)];
      }
    }

    method FinishIfDone(force: bool)
      modifies this
      ensures View() == old(View()).Finishing(force)
    {
      if finished || (done < total && !force) {
        return;
      }
      finished := true;
      var batch := buffer;
      buffer := [];
      if done >= total {
        signals := signals + [Progress(total, total)];
      }
      if batch != [] {
        signals := signals + [JobsChanged(batch)];
      }
      signals := signals + [Finished(Report(total, succeeded, failed, cancelled))];
    }

    method FinishForced(failure: bool, emit: bool)
      requires done <= total
      modifies this
      ensures View() == old(View()).Forcing(failure, emit)
    {
      if finished {
        return;
      }
      finished := true;
      var remaining := total - done;
      done := total;
      if failure {
        failed := failed + remaining;
      } else {
        cancelled := cancelled + remaining;
      }
      if emit {
        signals := signals + [Finished(Report(total, succeeded, failed, cancelled))];
      }
    }
  }

  /** What the waiting thread finds when it holds the lock. */
  datatype Look = Look(inflight: set<Key>, now: int) {
    predicate Busy(scope: Scope) {
      exists k <- inflight :: scope.Covers(k)
    }
  }

  /** The looks before the i-th found the scope busy with time left. */
  predicate StillWaiting(looks: seq<Look>, i: nat, scope: Scope, deadline: int)
    requires i <= |looks|
  {
    forall j :: 0 <= j < i ==> looks[j].Busy(scope) && looks[j].now < deadline
  }

  /** Waits, look by look, until the scope is quiet or the time is up; a scope without keys is quiet
      at once. The result is None while it still waits. */
  method WaitScope(scope: Scope, looks: seq<Look>, deadline: int) returns (quiet: Option<bool>)
    ensures quiet == Some(true) <==>
              (scope.Only? && scope.keys == {})
              || exists i :: 0 <= i < |looks| && StillWaiting(looks, i, scope, deadline) && !looks[i].Busy(scope)
    ensures quiet == Some(false) <==>
              exists i :: 0 <= i < |looks| && StillWaiting(looks, i, scope, deadline)
                          && looks[i].Busy(scope) && looks[i].now >= deadline
  {
    if scope.Only? && scope.keys == {} {
      return Some(true);
    }
    for i := 0 to |looks|
      invariant StillWaiting(looks, i, scope, deadline)
    {
      var busy := set k | k in looks[i].inflight && scope.Covers(k);
      if busy == {} {
        assert forall k <- looks[i].inflight :: scope.Covers(k) ==> k in busy;
        return Some(true);
      }
      var k :| k in busy;
      if looks[i].now >= deadline {
        return Some(false);
      }
    }
    quiet := None;
  }
}
