/** Which record snapshots still reach the table (lsfmgr/manager.py over lsfmgr/store/memory.py):
    worker results wait in the event queue and may arrive late, out of order, or after their
    job was resubmitted, replaced or removed. */
module Delivery {
  import opened JobModel

  datatype Rec = Rec(key: Key, gen: nat, revision: nat, state: JobState)

  /** The batch, less what belongs to an execution that is no longer the stored one. */
  function CurrentRecords(store: map<Key, Rec>, records: seq<Rec>): seq<Rec> {
    if records == [] then []
    else
      var n := |records| - 1;
      CurrentRecords(store, records[..n])
      + if records[n].key in store && store[records[n].key].gen == records[n].gen then [records[n]] else []
  }

  function LastRevision(emitted: map<Key, nat>, k: Key): int {
    if k in emitted then emitted[k] else -1
  }

  datatype Filtered = Filtered(accepted: seq<Rec>, emitted: map<Key, nat>)

  function Filter(emitted: map<Key, nat>, records: seq<Rec>): Filtered {
    if records == [] then Filtered([], emitted)
    else
      var n := |records| - 1;
      var before := Filter(emitted, records[..n]);
      var r := records[n];
      if r.revision < LastRevision(before.emitted, r.key) then before
      else Filtered(before.accepted + [r], before.emitted[r.key := r.revision])
  }

  class Deliverer {
    var emitted: map<Key, nat>

    constructor ()
      ensures emitted == map[]
    {
      emitted := map[];
    }

    method Select(store: map<Key, Rec>, records: seq<Rec>) returns (current: seq<Rec>)
      ensures current == CurrentRecords(store, records)
    {
      current := [];
      for i := 0 to |records|
        invariant current == CurrentRecords(store, records[..i])
      {
        var r := records[i];
        assert records[..i + 1][..i] == records[..i];
        if r.key in store && store[r.key].gen == r.gen {
          current := current + [r];
        }
      }
      assert records[..|records|] == records;
    }

    /** The single place where changed records leave the manager. */
    method EmitJobs(store: map<Key, Rec>, records: seq<Rec>) returns (accepted: seq<Rec>)
      modifies this
      ensures Filtered(accepted, emitted) == Filter(old(emitted), CurrentRecords(store, records))
    {
      var current := Select(store, records);
      accepted := [];
      for i := 0 to |current|
        invariant Filtered(accepted, emitted) == Filter(old(emitted), current[..i])
      {
        var r := current[i];
        assert current[..i + 1][..i] == current[..i];
        if r.revision < LastRevision(emitted, r.key) {
          continue;
        }
        emitted := emitted[r.key := r.revision];
        accepted := accepted + [r];
      }
      assert current[..|current|] == current;
    }

    /** Only for keys that were really deleted; None stands for the whole jobset. */
    method ForgetRevisions(keys: Option<set<Key>>)
      modifies this
      ensures emitted == match keys { case None => map[] case Some(ks) => old(emitted) - ks }
    {
      match keys
      case None => emitted := map[];
      case Some(ks) => emitted := emitted - ks;
    }
  }

  // ---------------------------------------------------------------------
  // The store, the queue and the table together
  // ---------------------------------------------------------------------

  /** produced: every snapshot ever written; delivered: what the table received, in order. */
  datatype System = System(store: map<Key, Rec>, emitted: map<Key, nat>, nextGen: nat,
                           produced: seq<Rec>, delivered: seq<Rec>)

  datatype Action =
    | Insert(k: Key)                          // a new key
    | Transit(k: Key, state: JobState)        // same execution
    | Restart(k: Key, state: JobState)        // resubmission or replacement: a new execution
    | Delete(keys: set<Key>)
    | Arrive(batch: seq<nat>)                 // snapshots by the order they were written

  function Write(s: System, r: Rec): System {
    s.(store := s.store[r.key := r], produced := s.produced + [r])
  }

  function Batch(produced: seq<Rec>, picks: seq<nat>): seq<Rec> {
    if picks == [] then []
    else
      var n := |picks| - 1;
      Batch(produced, picks[..n]) + if picks[n] < |produced| then [produced[picks[n]]] else []
  }

  function DoArrive(s: System, batch: seq<nat>): System {
    var f := Filter(s.emitted, CurrentRecords(s.store, Batch(s.produced, batch)));
    s.(emitted := f.emitted, delivered := s.delivered + f.accepted)
  }

  function Next(s: System, a: Action): System {
    match a
    case Insert(k) =>
      if k in s.store then s else Write(s, Rec(k, s.nextGen, 0, Created)).(nextGen := s.nextGen + 1)
    case Transit(k, state) =>
      if k in s.store then Write(s, s.store[k].(state := state, revision := s.store[k].revision + 1)) else s
    case Restart(k, state) =>
      if k in s.store then
        Write(s, Rec(k, s.nextGen, s.store[k].revision + 1, state)).(nextGen := s.nextGen + 1)
      else s
    case Delete(keys) => s.(store := s.store - keys, emitted := s.emitted - keys)
    case Arrive(batch) => DoArrive(s, batch)
  }

  function After(actions: seq<Action>): System {
    if actions == [] then System(map[], map[], 0, [], [])
    else Next(After(actions[..|actions| - 1]), actions[|actions| - 1])
  }

  /** Ordered by execution, and by revision inside one. */
  predicate NotAfter(a: Rec, b: Rec) {
    a.gen < b.gen || (a.gen == b.gen && a.revision <= b.revision)
  }

  ghost predicate StoreAgrees(s: System) {
    && (forall k <- s.store :: s.store[k].key == k && s.store[k].gen < s.nextGen)
    && (forall r <- s.produced :: r.gen < s.nextGen && (r.key in s.store ==> NotAfter(r, s.store[r.key])))
    && (forall k <- s.emitted :: k in s.store && s.emitted[k] <= s.store[k].revision)
  }

  ghost predicate InOrder(s: System) {
    && (forall r <- s.delivered :: r in s.produced)
    && (forall i, j :: 0 <= i < j < |s.delivered| && s.delivered[i].key == s.delivered[j].key ==>
          NotAfter(s.delivered[i], s.delivered[j]))
    && (forall r <- s.delivered :: r.key in s.store && r.gen == s.store[r.key].gen ==>
          r.key in s.emitted && r.revision <= s.emitted[r.key])
  }

  ghost predicate Inv(s: System) {
    StoreAgrees(s) && InOrder(s)
  }

  lemma {:induction false} CurrentOnly(store: map<Key, Rec>, records: seq<Rec>)
    ensures forall r <- CurrentRecords(store, records) :: r in records && r.key in store && store[r.key].gen == r.gen
  {
    if records == [] {
    } else {
      CurrentOnly(store, records[..|records| - 1]);
      assert records == records[..|records| - 1] + [records[|records| - 1]];
    }
  }

  lemma {:induction false} BatchWasProduced(produced: seq<Rec>, picks: seq<nat>)
    ensures forall r <- Batch(produced, picks) :: r in produced
  {
    if picks == [] {
    } else {
      BatchWasProduced(produced, picks[..|picks| - 1]);
    }
  }

  /** One snapshot of the stored execution reaches the table. */
  lemma AcceptKeeps(s: System, r: Rec)
    requires Inv(s) && r in s.produced && r.key in s.store && s.store[r.key].gen == r.gen
    requires r.revision >= LastRevision(s.emitted, r.key)
    ensures Inv(s.(emitted := s.emitted[r.key := r.revision], delivered := s.delivered + [r]))
  {
    var t := s.(emitted := s.emitted[r.key := r.revision], delivered := s.delivered + [r]);
    forall i | 0 <= i < |s.delivered| && s.delivered[i].key == r.key ensures NotAfter(s.delivered[i], r) {
      assert s.delivered[i] in s.delivered && s.delivered[i] in s.produced;
      assert NotAfter(s.delivered[i], s.store[r.key]);
    }
  }

  /** The filter, one snapshot at a time. */
  function AcceptOne(s: System, r: Rec): System {
    if r.revision < LastRevision(s.emitted, r.key) then s
    else s.(emitted := s.emitted[r.key := r.revision], delivered := s.delivered + [r])
  }

  function AcceptAll(s: System, records: seq<Rec>): System {
    if records == [] then s else AcceptOne(AcceptAll(s, records[..|records| - 1]), records[|records| - 1])
  }

  lemma {:induction false} FilterIsAcceptAll(s: System, records: seq<Rec>)
    ensures var f := Filter(s.emitted, records);
            AcceptAll(s, records) == s.(emitted := f.emitted, delivered := s.delivered + f.accepted)
  {
    if records == [] {
      assert s.delivered + [] == s.delivered;
    } else {
      var n := |records| - 1;
      FilterIsAcceptAll(s, records[..n]);
      var before := Filter(s.emitted, records[..n]);
      assert s.delivered + (before.accepted + [records[n]]) == s.delivered + before.accepted + [records[n]];
    }
  }

  lemma {:induction false} AcceptAllKeeps(s: System, records: seq<Rec>)
    requires Inv(s)
    requires forall r <- records :: r in s.produced && r.key in s.store && s.store[r.key].gen == r.gen
    ensures Inv(AcceptAll(s, records))
    ensures AcceptAll(s, records).store == s.store && AcceptAll(s, records).produced == s.produced
  {
    if records == [] {
    } else {
      var n := |records| - 1;
      assert forall r <- records[..n] :: r in records;
      AcceptAllKeeps(s, records[..n]);
      assert records[n] in records;
      if records[n].revision >= LastRevision(AcceptAll(s, records[..n]).emitted, records[n].key) {
        AcceptKeeps(AcceptAll(s, records[..n]), records[n]);
      }
    }
  }

  lemma ArriveKeeps(s: System, batch: seq<nat>)
    requires Inv(s)
    ensures Inv(DoArrive(s, batch))
  {
    var records := Batch(s.produced, batch);
    BatchWasProduced(s.produced, batch);
    CurrentOnly(s.store, records);
    AcceptAllKeeps(s, CurrentRecords(s.store, records));
    FilterIsAcceptAll(s, CurrentRecords(s.store, records));
  }

  lemma DeleteKeeps(s: System, keys: set<Key>)
    requires Inv(s)
    ensures Inv(Next(s, Delete(keys)))
  {
  }

  lemma WriteKeeps(s: System, r: Rec, nextGen: nat)
    requires Inv(s) && s.nextGen <= nextGen && r.gen < nextGen
    requires r.key in s.store ==> NotAfter(s.store[r.key], r) && s.store[r.key].revision <= r.revision
    requires r.gen == s.nextGen || (r.key in s.store && r.gen == s.store[r.key].gen)
    ensures Inv(Write(s, r).(nextGen := nextGen))
  {
    var t := Write(s, r).(nextGen := nextGen);
    forall x <- t.produced ensures x.gen < nextGen && (x.key in t.store ==> NotAfter(x, t.store[x.key])) {
      assert x in s.produced || x == r;
    }
    assert forall x <- s.delivered :: x in s.produced;
  }

  lemma InsertKeeps(s: System, k: Key)
    requires Inv(s)
    ensures Inv(Next(s, Insert(k)))
  {
    if k !in s.store { WriteKeeps(s, Rec(k, s.nextGen, 0, Created), s.nextGen + 1); }
  }

  lemma TransitKeeps(s: System, k: Key, state: JobState)
    requires Inv(s)
    ensures Inv(Next(s, Transit(k, state)))
  {
    if k in s.store { WriteKeeps(s, s.store[k].(state := state, revision := s.store[k].revision + 1), s.nextGen); }
  }

  lemma RestartKeeps(s: System, k: Key, state: JobState)
    requires Inv(s)
    ensures Inv(Next(s, Restart(k, state)))
  {
    if k in s.store { WriteKeeps(s, Rec(k, s.nextGen, s.store[k].revision + 1, state), s.nextGen + 1); }
  }

  lemma NextKeeps(s: System, a: Action)
    requires Inv(s)
    ensures Inv(Next(s, a))
  {
    match a
    case Insert(k) => InsertKeeps(s, k);
    case Transit(k, state) => TransitKeeps(s, k, state);
    case Restart(k, state) => RestartKeeps(s, k, state);
    case Delete(keys) => DeleteKeeps(s, keys);
    case Arrive(batch) => ArriveKeeps(s, batch);
  }

  lemma {:induction false} RunKeeps(actions: seq<Action>)
    ensures Inv(After(actions))
    decreases |actions|
  {
    if actions == [] {
    } else {
      RunKeeps(actions[..|actions| - 1]);
      NextKeeps(After(actions[..|actions| - 1]), actions[|actions| - 1]);
    }
  }

  /** However late and shuffled the snapshots arrive, a row never goes back: not to an older
      execution, also after its key was deleted and added again, and not to an older revision. */
  lemma {:induction false} RowsNeverGoBack(actions: seq<Action>, i: nat, j: nat)
    requires var d := After(actions).delivered; i < j < |d| && d[i].key == d[j].key
    ensures var d := After(actions).delivered; NotAfter(d[i], d[j])
  {
    RunKeeps(actions);
  }

  /** What is delivered belongs to the execution that is stored at that moment. */
  lemma {:induction false} OnlyTheStoredExecutionIsDelivered(actions: seq<Action>, batch: seq<nat>)
    ensures var s := After(actions); var t := Next(s, Arrive(batch));
            && s.delivered <= t.delivered
            && forall r <- t.delivered[|s.delivered|..] :: r.key in s.store && s.store[r.key].gen == r.gen
  {
    var s := After(actions);
    var current := CurrentRecords(s.store, Batch(s.produced, batch));
    CurrentOnly(s.store, Batch(s.produced, batch));
    AcceptedWereGiven(s.emitted, current);
    assert Next(s, Arrive(batch)).delivered[|s.delivered|..] == Filter(s.emitted, current).accepted;
  }

  lemma {:induction false} AcceptedWereGiven(emitted: map<Key, nat>, records: seq<Rec>)
    ensures forall r <- Filter(emitted, records).accepted :: r in records
  {
    if records == [] {
    } else {
      AcceptedWereGiven(emitted, records[..|records| - 1]);
      assert records == records[..|records| - 1] + [records[|records| - 1]];
    }
  }

  lemma {:induction false} StoredWasProduced(actions: seq<Action>)
    ensures forall k <- After(actions).store :: After(actions).store[k] in After(actions).produced
    decreases |actions|
  {
    if actions == [] {
    } else {
      StoredWasProduced(actions[..|actions| - 1]);
    }
  }

  /** The filter never starves a row: the stored record passes whenever it arrives. */
  lemma {:induction false} TheStoredRecordAlwaysPasses(actions: seq<Action>, k: Key)
    requires k in After(actions).store
    ensures var s := After(actions);
            && s.store[k] in s.produced
            && Filter(s.emitted, CurrentRecords(s.store, [s.store[k]])).accepted == [s.store[k]]
  {
    var s := After(actions);
    RunKeeps(actions);
    StoredWasProduced(actions);
    var r := s.store[k];
    assert [r][..0] == [];
    assert CurrentRecords(s.store, [r]) == [r];
    assert Filter(s.emitted, [r][..0]) == Filtered([], s.emitted);
  }

  // ---------------------------------------------------------------------
  // Nothing is dropped that was not overtaken
  // ---------------------------------------------------------------------

  /** A newer snapshot of the same execution was delivered. */
  ghost predicate Overtaken(delivered: seq<Rec>, r: Rec) {
    exists x <- delivered :: x.key == r.key && x.gen == r.gen && x.revision > r.revision
  }

  /** What is remembered of a row was delivered of the stored execution, or lies before all of it. */
  ghost predicate RemembersRow(s: System, k: Key)
    requires k in s.emitted && k in s.store
  {
    || (exists x <- s.delivered :: x.key == k && x.gen == s.store[k].gen && x.revision == s.emitted[k])
    || (forall r <- s.produced :: r.key == k && r.gen == s.store[k].gen ==> r.revision > s.emitted[k])
  }

  ghost predicate Remembers(s: System) {
    forall k <- s.emitted :: k in s.store && RemembersRow(s, k)
  }

  lemma WriteRemembers(s: System, r: Rec)
    requires Inv(s) && Remembers(s)
    requires r.key in s.store ==> r.revision == s.store[r.key].revision + 1
    requires r.gen == s.nextGen || (r.key in s.store && r.gen == s.store[r.key].gen)
    ensures Remembers(Write(s, r))
  {
    var t := Write(s, r);
    forall k <- t.emitted ensures RemembersRow(t, k) {
      assert RemembersRow(s, k);
      if k == r.key && r.gen == s.nextGen {
        assert forall x <- t.produced :: x.key == k && x.gen == r.gen ==> x == r;
      }
    }
  }

  lemma AcceptRemembers(s: System, r: Rec)
    requires Remembers(s) && r.key in s.store && s.store[r.key].gen == r.gen
    requires r in s.produced
    ensures Remembers(AcceptOne(s, r))
    ensures var t := AcceptOne(s, r);
            && s.delivered <= t.delivered
            && t.store == s.store && t.produced == s.produced
            && (r in t.delivered || Overtaken(t.delivered, r))
  {
    var t := AcceptOne(s, r);
    if t != s {
      assert r in t.delivered;
      forall k <- t.emitted ensures RemembersRow(t, k) {
        if k != r.key {
          assert RemembersRow(s, k);
          if x :| x in s.delivered && x.key == k && x.gen == s.store[k].gen && x.revision == s.emitted[k] {
            assert x in t.delivered;
          }
        }
      }
    } else {
      assert RemembersRow(s, r.key);
    }
  }

  lemma StillOvertaken(delivered: seq<Rec>, more: seq<Rec>, r: Rec)
    requires delivered <= more && (r in delivered || Overtaken(delivered, r))
    ensures r in more || Overtaken(more, r)
  {
    if Overtaken(delivered, r) {
      var x :| x in delivered && x.key == r.key && x.gen == r.gen && x.revision > r.revision;
      assert x in more;
    }
  }

  lemma {:induction false} AcceptAllRemembers(s: System, records: seq<Rec>)
    requires Remembers(s)
    requires forall r <- records :: r in s.produced && r.key in s.store && s.store[r.key].gen == r.gen
    ensures var t := AcceptAll(s, records);
            Remembers(t) && t.store == s.store && t.produced == s.produced && s.delivered <= t.delivered
  {
    if records == [] {
    } else {
      var n := |records| - 1;
      assert forall r <- records[..n] :: r in records;
      AcceptAllRemembers(s, records[..n]);
      assert records[n] in records;
      AcceptRemembers(AcceptAll(s, records[..n]), records[n]);
    }
  }

  ghost predicate Covered(delivered: seq<Rec>, r: Rec) {
    r in delivered || Overtaken(delivered, r)
  }

  lemma AcceptOneCovers(s: System, x: Rec, r: Rec)
    requires Remembers(s) && x in s.produced && x.key in s.store && s.store[x.key].gen == x.gen
    requires r == x || Covered(s.delivered, r)
    ensures Covered(AcceptOne(s, x).delivered, r)
  {
    AcceptRemembers(s, x);
    if Covered(s.delivered, r) {
      StillOvertaken(s.delivered, AcceptOne(s, x).delivered, r);
    }
  }

  ghost predicate Admissible(s: System, records: seq<Rec>) {
    forall x <- records :: x in s.produced && x.key in s.store && s.store[x.key].gen == x.gen
  }

  lemma {:induction false} AcceptAllCovers(s: System, records: seq<Rec>, j: nat)
    requires Remembers(s) && j < |records| && Admissible(s, records)
    ensures Covered(AcceptAll(s, records).delivered, records[j])
  {
    var n := |records| - 1;
    var front := records[..n];
    assert Admissible(s, front);
    AcceptAllRemembers(s, front);
    if j < n {
      AcceptAllCovers(s, front, j);
    }
    AcceptOneCovers(AcceptAll(s, front), records[n], records[j]);
  }

  lemma {:induction false} CurrentAll(store: map<Key, Rec>, records: seq<Rec>)
    ensures forall r <- records :: r.key in store && store[r.key].gen == r.gen ==> r in CurrentRecords(store, records)
  {
    if records == [] {
    } else {
      CurrentAll(store, records[..|records| - 1]);
      assert records == records[..|records| - 1] + [records[|records| - 1]];
    }
  }

  lemma ArriveRemembers(s: System, batch: seq<nat>)
    requires Remembers(s)
    ensures Remembers(DoArrive(s, batch))
  {
    var records := Batch(s.produced, batch);
    BatchWasProduced(s.produced, batch);
    CurrentOnly(s.store, records);
    AcceptAllRemembers(s, CurrentRecords(s.store, records));
    FilterIsAcceptAll(s, CurrentRecords(s.store, records));
  }

  lemma ArriveCovers(s: System, batch: seq<nat>, r: Rec)
    requires Remembers(s) && r in Batch(s.produced, batch) && r.key in s.store && s.store[r.key].gen == r.gen
    ensures var t := DoArrive(s, batch); r in t.delivered || Overtaken(t.delivered, r)
  {
    var records := Batch(s.produced, batch);
    BatchWasProduced(s.produced, batch);
    CurrentOnly(s.store, records);
    CurrentAll(s.store, records);
    var current := CurrentRecords(s.store, records);
    var j :| 0 <= j < |current| && current[j] == r;
    AcceptAllCovers(s, current, j);
    FilterIsAcceptAll(s, CurrentRecords(s.store, records));
  }

  lemma TransitRemembers(s: System, k: Key, state: JobState)
    requires Inv(s) && Remembers(s)
    ensures Remembers(Next(s, Transit(k, state)))
  {
    if k in s.store { WriteRemembers(s, s.store[k].(state := state, revision := s.store[k].revision + 1)); }
  }

  lemma RestartRemembers(s: System, k: Key, state: JobState)
    requires Inv(s) && Remembers(s)
    ensures Remembers(Next(s, Restart(k, state)))
  {
    if k in s.store { WriteRemembers(s, Rec(k, s.nextGen, s.store[k].revision + 1, state)); }
  }

  lemma NextRemembers(s: System, a: Action)
    requires Inv(s) && Remembers(s)
    ensures Remembers(Next(s, a))
  {
    match a
    case Insert(k) => if k !in s.store { WriteRemembers(s, Rec(k, s.nextGen, 0, Created)); }
    case Transit(k, state) => TransitRemembers(s, k, state);
    case Restart(k, state) => RestartRemembers(s, k, state);
    case Delete(keys) => DeleteRemembers(s, keys);
    case Arrive(batch) => ArriveRemembers(s, batch);
  }

  lemma {:induction false} RunRemembers(actions: seq<Action>)
    ensures Remembers(After(actions))
    decreases |actions|
  {
    if actions == [] {
    } else {
      RunKeeps(actions[..|actions| - 1]);
      RunRemembers(actions[..|actions| - 1]);
      NextRemembers(After(actions[..|actions| - 1]), actions[|actions| - 1]);
    }
  }

  lemma DeleteRemembers(s: System, keys: set<Key>)
    requires Remembers(s)
    ensures Remembers(Next(s, Delete(keys)))
  {
    var t := Next(s, Delete(keys));
    forall k <- t.emitted ensures RemembersRow(t, k) {
      assert RemembersRow(s, k);
    }
  }

  /** The table misses nothing it could still use: over every run, each snapshot of the stored execution
      that arrives, not the latest alone, has been delivered, or a newer one of this execution has. */
  lemma {:induction false} OnlyOvertakenSnapshotsAreDropped(actions: seq<Action>, batch: seq<nat>, j: nat)
    requires j < |batch| && batch[j] < |After(actions).produced|
    requires var s := After(actions); var r := s.produced[batch[j]];
             r.key in s.store && s.store[r.key].gen == r.gen
    ensures var s := After(actions); var t := Next(s, Arrive(batch)); var r := s.produced[batch[j]];
            r in t.delivered || Overtaken(t.delivered, r)
  {
    var s := After(actions);
    RunRemembers(actions);
    PickedIsInBatch(s.produced, batch, j);
    ArriveCovers(s, batch, s.produced[batch[j]]);
  }

  lemma {:induction false} PickedIsInBatch(produced: seq<Rec>, picks: seq<nat>, j: nat)
    requires j < |picks| && picks[j] < |produced|
    ensures produced[picks[j]] in Batch(produced, picks)
  {
    var n := |picks| - 1;
    if j < n {
      PickedIsInBatch(produced, picks[..n], j);
    }
  }
}
