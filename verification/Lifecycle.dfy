/** The submit gate and the scope of one kill (lsfmgr/lifecycle.py), in place. Each method
    is one section under the gate's lock. An activity is the context of a registered cycle. */
module Lifecycle {
  import opened JobModel
  import opened Ledger
  import opened Submission

  /** The keys that some raised barrier covers. */
  function RefusedBy(scopes: seq<Scope>, keys: set<Key>): set<Key> {
    set k | k in keys && exists s <- scopes :: s.Covers(k)
  }

  lemma RefusedByOneMore(scopes: seq<Scope>, s: Scope, keys: set<Key>)
    ensures RefusedBy(scopes + [s], keys) == RefusedBy(scopes, keys) + (set k | k in keys && s.Covers(k))
  {
    forall k | k in keys && s.Covers(k) ensures k in RefusedBy(scopes + [s], keys) {
      assert s in scopes + [s];
    }
  }

  class SubmitGate {
    var activities: map<string, seq<SubmitContext>>
    var barriers: map<string, seq<Scope>>

    ghost predicate Valid()
      reads this
    {
      NoEmptyLists(activities) && NoEmptyLists(barriers)
    }

    constructor ()
      ensures Valid() && activities == map[] && barriers == map[]
    {
      activities, barriers := map[], map[];
    }

    /** A cycle all of whose keys are barred is not registered, so that no later kill takes
        it over; an empty cycle always registers. */
    method Register(jobset: string, keys: set<Key>, act: SubmitContext) returns (registered: bool, refused: set<Key>)
      requires Valid()
      modifies this`activities
      ensures Valid()
      ensures refused == RefusedBy(Entries(barriers, jobset), keys)
      ensures registered <==> keys == {} || refused != keys
      ensures Entries(activities, jobset) == Entries(old(activities), jobset) + (if registered then [act] else [])
      ensures forall other :: other != jobset ==> Entries(activities, other) == Entries(old(activities), other)
    {
      var scopes := Entries(barriers, jobset);
      refused := {};
      var i := 0;
      while i < |scopes|
        invariant 0 <= i <= |scopes|
        invariant refused == RefusedBy(scopes[..i], keys)
        invariant activities == old(activities)
      {
        assert scopes[..i + 1] == scopes[..i] + [scopes[i]];
        RefusedByOneMore(scopes[..i], scopes[i], keys);
        if scopes[i].Whole? {
          refused := keys;
          assert scopes[i] in scopes && forall k :: scopes[i].Covers(k);
          assert RefusedBy(scopes, keys) == keys;
          break;
        }
        refused := refused + (keys * scopes[i].keys);
        i := i + 1;
      }
      assert i == |scopes| ==> scopes[..i] == scopes;
      if keys != {} && refused >= keys {
        return false, refused;
      }
      activities := Add(activities, jobset, act);
      registered := true;
    }

    /** Idempotent. */
    method Unregister(jobset: string, act: SubmitContext)
      requires Valid()
      modifies this`activities
      ensures Valid()
      ensures Entries(activities, jobset) == RemoveFirst(Entries(old(activities), jobset), act)
      ensures forall other :: other != jobset ==> Entries(activities, other) == Entries(old(activities), other)
    {
      activities := Remove(activities, jobset, act);
    }

    /** Raises one barrier and hands over the activities of that very moment. */
    method BarrierUp(jobset: string, scope: Scope) returns (acts: seq<SubmitContext>)
      requires Valid()
      modifies this`barriers
      ensures Valid()
      ensures acts == Entries(activities, jobset)
      ensures Entries(barriers, jobset) == Entries(old(barriers), jobset) + [scope]
      ensures forall other :: other != jobset ==> Entries(barriers, other) == Entries(old(barriers), other)
    {
      barriers := Add(barriers, jobset, scope);
      acts := Entries(activities, jobset);
    }

    method BarrierDown(jobset: string, scope: Scope)
      requires Valid()
      modifies this`barriers
      ensures Valid()
      ensures Entries(barriers, jobset) == RemoveFirst(Entries(old(barriers), jobset), scope)
      ensures forall other :: other != jobset ==> Entries(barriers, other) == Entries(old(barriers), other)
    {
      barriers := Remove(barriers, jobset, scope);
    }
  }

  /** Cancelling and aborting a scope once more changes nothing. */
  lemma CancelIsIdempotent(c: Context, scope: Scope)
    ensures var d := c.Cancelling(scope).Aborting(scope);
            d.Cancelling(scope).Aborting(scope) == d
  {
    var d := c.Cancelling(scope).Aborting(scope);
    assert d.Cancelling(scope) == d by {
      match scope
      case Whole =>
      case Only(_, keys) => assert d.cancelledKeys + keys == d.cancelledKeys;
    }
    assert d.Abortable(scope) == {};
    assert d.pending - d.Abortable(scope) == d.pending;
  }

  class KillScope {
    const gate: SubmitGate
    const jobset: string
    const scope: Scope
    var acts: Option<seq<SubmitContext>>

    constructor (gate: SubmitGate, jobset: string, scope: Scope)
      ensures this.gate == gate && this.jobset == jobset && this.scope == scope && acts == None
    {
      this.gate, this.jobset, this.scope, this.acts := gate, jobset, scope, None;
    }

    /** Barrier up and every covered submission of the activities taken over cancelled;
        the popped retries are settled afterwards. Idempotent. */
    method Begin()
      requires gate.Valid()
      modifies this, gate`barriers, Entries(gate.activities, jobset)
      ensures gate.Valid() && acts.Some?
      ensures old(acts).Some? ==> acts == old(acts) && gate.barriers == old(gate.barriers)
      ensures old(acts).None? ==>
                && acts.value == Entries(gate.activities, jobset)
                && Entries(gate.barriers, jobset) == Entries(old(gate.barriers), jobset) + [scope]
                && forall a <- acts.value :: a.View() == old(a.View()).Cancelling(scope).Aborting(scope)
    {
      if acts.Some? {
        return;
      }
      var taken := gate.BarrierUp(jobset, scope);
      acts := Some(taken);
      CancelIn(taken, scope);
    }

    /** One activity after the other; one that is listed twice is merely cancelled twice. */
    static method CancelIn(taken: seq<SubmitContext>, scope: Scope)
      modifies taken
      ensures forall a <- taken :: a.View() == old(a.View()).Cancelling(scope).Aborting(scope)
    {
      var i := 0;
      while i < |taken|
        invariant 0 <= i <= |taken|
        invariant forall a <- taken[..i] :: a.View() == old(a.View()).Cancelling(scope).Aborting(scope)
        invariant forall a <- taken :: a !in taken[..i] ==> a.View() == old(a.View())
      {
        var a := taken[i];
        CancelIsIdempotent(old(a.View()), scope);
        a.CancelScope(scope);
        var _ := a.AbortRetries(scope);
        assert taken[..i + 1] == taken[..i] + [a];
        i := i + 1;
      }
      assert taken[..i] == taken;
    }

    /** Lowers exactly the barrier this scope raised. */
    method Release()
      requires gate.Valid()
      modifies this, gate`barriers
      ensures gate.Valid() && acts == None
      ensures old(acts).None? ==> gate.barriers == old(gate.barriers)
      ensures old(acts).Some? ==>
                Entries(gate.barriers, jobset) == RemoveFirst(Entries(old(gate.barriers), jobset), scope)
    {
      if acts.None? {
        return;
      }
      acts := None;
      gate.BarrierDown(jobset, scope);
    }
  }
}
