/** The ledger of the callback status source (lsfmgr/internal_status.py): what is known about
    each array element of each job, which response it came from, and when it is dropped. */
module InternalStatus {
  import opened JobModel

  const PRUNE_MIN_INTERVAL: int := 60

  /** detail stands for the fields that are only carried along. */
  datatype Status = Status(jobId: nat, index: Option<nat>, state: JobState, startTime: Option<int>,
                           finishTime: Option<int>, runTime: Option<int>, detail: string)

  datatype Entry = Entry(status: Status, seenAt: int, fetchedAt: int)

  type Elements = map<Option<nat>, Entry>
  type Entries = map<nat, Elements>

  /** A parsed callback answer: at and now are read when its worker starts. */
  datatype Response = Response(at: int, now: int, statuses: seq<Status>)

  function ElementsOf(ledger: Entries, id: nat): Elements {
    if id in ledger then ledger[id] else map[]
  }

  function Lookup(ledger: Entries, id: nat, index: Option<nat>): Option<Entry> {
    if id in ledger && index in ledger[id] then Some(ledger[id][index]) else None
  }

  /** Only jobs somebody asked for, and no job without an element. */
  ghost predicate Tidy(ledger: Entries, interest: set<nat>) {
    && ledger.Keys <= interest
    && forall id <- ledger :: ledger[id] != map[]
  }

  function MergeOne(ledger: Entries, interest: set<nat>, st: Status, now: int, at: int): Entries {
    if st.jobId !in interest then ledger
    else
      var elems := ElementsOf(ledger, st.jobId);
      if st.index in elems && elems[st.index].fetchedAt > at then ledger
      else ledger[st.jobId := elems[st.index := Entry(st, now, at)]]
  }

  /** The elements an answer really wrote. */
  function MergedKeys(ledger: Entries, interest: set<nat>, statuses: seq<Status>, now: int, at: int)
    : set<(nat, Option<nat>)>
  {
    if statuses == [] then {}
    else
      var n := |statuses| - 1;
      var before := Merge(ledger, interest, statuses[..n], now, at);
      var st := statuses[n];
      MergedKeys(ledger, interest, statuses[..n], now, at)
      + if st.jobId in interest
           && !(st.index in ElementsOf(before, st.jobId) && before[st.jobId][st.index].fetchedAt > at)
        then {(st.jobId, st.index)} else {}
  }

  function Merge(ledger: Entries, interest: set<nat>, statuses: seq<Status>, now: int, at: int): Entries {
    if statuses == [] then ledger
    else
      var n := |statuses| - 1;
      MergeOne(Merge(ledger, interest, statuses[..n], now, at), interest, statuses[n], now, at)
  }

  /** The running time of a job that the incremental answer left out. */
  function Ticked(e: Entry, now: int): Entry {
    if !e.status.state.IsOnLsf() || e.status.startTime.None? then e
    else
      var secs := now - e.status.startTime.value;
      if secs < 0 || Some(secs) == e.status.runTime then e
      else e.(status := e.status.(runTime := Some(secs)))
  }

  function TickElements(id: nat, elems: Elements, now: int, arrived: set<(nat, Option<nat>)>): Elements {
    map x | x in elems :: if (id, x) in arrived then elems[x] else Ticked(elems[x], now)
  }

  function TickRuntimes(ledger: Entries, now: int, arrived: set<(nat, Option<nat>)>): Entries {
    map id | id in ledger :: TickElements(id, ledger[id], now, arrived)
  }

  /** Ended, and ended long ago. */
  predicate Expired(e: Entry, now: int, retention: int) {
    (e.status.state.Done? || e.status.state.Exit?) && now - e.status.finishTime.GetOr(e.seenAt) > retention
  }

  predicate AllExpired(elems: Elements, now: int, retention: int) {
    forall x <- elems :: Expired(elems[x], now, retention)
  }

  function KeepElements(elems: Elements, now: int, retention: int): Elements {
    map x | x in elems && !Expired(elems[x], now, retention) :: elems[x]
  }

  function Pruned(ledger: Entries, now: int, retention: int): Entries {
    map id | id in ledger && !AllExpired(ledger[id], now, retention) :: KeepElements(ledger[id], now, retention)
  }

  lemma PrunedByKeys(before: Entries, after: Entries, now: int, retention: int)
    requires forall id :: id in after <==> id in before && !AllExpired(before[id], now, retention)
    requires forall id <- after :: after[id] == KeepElements(before[id], now, retention)
    ensures after == Pruned(before, now, retention)
  {
    assert after.Keys == Pruned(before, now, retention).Keys;
  }

  lemma NothingKept(elems: Elements, now: int, retention: int)
    ensures KeepElements(elems, now, retention) == map[] <==> AllExpired(elems, now, retention)
  {
    if !AllExpired(elems, now, retention) {
      var x :| x in elems && !Expired(elems[x], now, retention);
      assert x in KeepElements(elems, now, retention);
    }
  }

  lemma PrunedIsTidy(ledger: Entries, interest: set<nat>, now: int, retention: int)
    requires Tidy(ledger, interest)
    ensures var pruned := Pruned(ledger, now, retention);
            Tidy(pruned, interest - (ledger.Keys - pruned.Keys))
  {
    var pruned := Pruned(ledger, now, retention);
    forall id <- pruned ensures pruned[id] != map[] {
      NothingKept(ledger[id], now, retention);
    }
  }

  /** What stays: whatever has not ended as DONE or EXIT, and what ended no longer ago than the
      retention, counted from its finish time or, without one, from when it was seen. */
  predicate Stays(e: Entry, now: int, retention: int) {
    || e.status.state !in {Done, Exit}
    || (e.status.finishTime.Some? && now - e.status.finishTime.value <= retention)
    || (e.status.finishTime.None? && now - e.seenAt <= retention)
  }

  /** A sweep over elements: each one stays as it is or goes, a job goes with its last element, and the
      interest in a job goes exactly with the job. */
  ghost predicate SweptRight(before: Entries, after: Entries, wanted: set<nat>, wantedAfter: set<nat>, now: int,
                             retention: int)
  {
    && (forall id: nat, x ::
          Lookup(after, id, x) ==
            if Lookup(before, id, x).Some? && Stays(before[id][x], now, retention) then Some(before[id][x]) else None)
    && (forall id: nat :: id in after <==>
          id in before && exists x <- before[id] :: Stays(before[id][x], now, retention))
    && (forall id: nat :: id in wantedAfter <==>
          id in wanted && (id in before ==> exists x <- before[id] :: Stays(before[id][x], now, retention)))
  }

  lemma SweepIsRight(ledger: Entries, interest: set<nat>, now: int, retention: int)
    ensures var after := Pruned(ledger, now, retention);
            SweptRight(ledger, after, interest, interest - (ledger.Keys - after.Keys), now, retention)
  {
    forall e ensures Stays(e, now, retention) <==> !Expired(e, now, retention) {
    }
  }

  function AfterResponse(ledger: Entries, interest: set<nat>, r: Response, tick: bool): Entries {
    var merged := Merge(ledger, interest, r.statuses, r.now, r.at);
    if tick then TickRuntimes(merged, r.now, MergedKeys(ledger, interest, r.statuses, r.now, r.at)) else merged
  }

  class StatusLedger {
    const retention: int
    const trackRuntime: bool
    var ledger: Entries
    var interest: set<nat>
    var lastPruneAt: Option<int>

    ghost predicate Valid()
      reads this
    {
      Tidy(ledger, interest)
    }

    constructor (retention: int, trackRuntime: bool)
      ensures Valid() && ledger == map[] && interest == {} && lastPruneAt == None
      ensures this.retention == retention && this.trackRuntime == trackRuntime
    {
      this.retention, this.trackRuntime := retention, trackRuntime;
      ledger, interest, lastPruneAt := map[], {}, None;
    }

    method RegisterInterest(ids: set<nat>) returns (added: bool)
      requires Valid()
      modifies this`interest
      ensures Valid()
      ensures interest == old(interest) + ids
      ensures added <==> interest != old(interest)
    {
      added := !(ids <= interest);
      interest := interest + ids;
    }

    /** Both the entries and the interest go, so nothing can bring the job back by itself. */
    method Forget(ids: set<nat>)
      requires Valid()
      modifies this`interest, this`ledger
      ensures Valid()
      ensures interest == old(interest) - ids && ledger == old(ledger) - ids
    {
      interest := interest - ids;
      var left := ids;
      while left != {}
        invariant left <= ids
        invariant ledger == old(ledger) - (ids - left)
        invariant interest == old(interest) - ids
      {
        var id := PickOne(left);
        ledger := ledger - {id};
        left := left - {id};
      }
    }

    /** One answer, row by row; current says that no newer answer has been merged yet. */
    method MergeResponse(r: Response, current: bool)
      requires Valid()
      modifies this`ledger
      ensures Valid()
      ensures ledger == AfterResponse(old(ledger), interest, r, trackRuntime && current)
    {
      var arrived: set<(nat, Option<nat>)> := {};
      var i := 0;
      while i < |r.statuses|
        invariant 0 <= i <= |r.statuses|
        invariant ledger == Merge(old(ledger), interest, r.statuses[..i], r.now, r.at)
        invariant arrived == MergedKeys(old(ledger), interest, r.statuses[..i], r.now, r.at)
        invariant Tidy(ledger, interest)
      {
        var st := r.statuses[i];
        assert r.statuses[..i + 1][..i] == r.statuses[..i];
        i := i + 1;
        if st.jobId in interest {
          var elems := if st.jobId in ledger then ledger[st.jobId] else map[];
          if !(st.index in elems && elems[st.index].fetchedAt > r.at) {
            elems := elems[st.index := Entry(st, r.now, r.at)];
            assert st.index in elems;
            ledger := ledger[st.jobId := elems];
            arrived := arrived + {(st.jobId, st.index)};
          }
        }
      }
      assert r.statuses[..i] == r.statuses;
      if trackRuntime && current {
        RefreshRuntimes(r.now, arrived);
      }
    }

    method RefreshRuntimes(now: int, arrived: set<(nat, Option<nat>)>)
      requires Valid()
      modifies this`ledger
      ensures Valid()
      ensures ledger == TickRuntimes(old(ledger), now, arrived)
    {
      ghost var before := ledger;
      var left := ledger.Keys;
      while left != {}
        invariant left <= before.Keys
        invariant ledger.Keys == before.Keys
        invariant forall id <- before :: ledger[id] == if id in left then before[id]
                                                          else TickElements(id, before[id], now, arrived)
      {
        var id := PickOne(left);
        var elems := RefreshElements(id, ledger[id], now, arrived);
        ledger := ledger[id := elems];
        left := left - {id};
      }
      assert ledger == TickRuntimes(before, now, arrived);
      forall id <- ledger ensures ledger[id] != map[] {
        var x :| x in before[id];
        assert x in ledger[id];
      }
    }

    static method RefreshElements(id: nat, elems: Elements, now: int, arrived: set<(nat, Option<nat>)>)
      returns (out: Elements)
      ensures out == TickElements(id, elems, now, arrived)
    {
      out := elems;
      var left := elems.Keys;
      while left != {}
        invariant left <= elems.Keys && out.Keys == elems.Keys
        invariant forall x <- elems ::
                    out[x] == if x in left || (id, x) in arrived then elems[x] else Ticked(elems[x], now)
      {
        var x := PickOne(left);
        if (id, x) !in arrived {
          out := out[x := Ticked(out[x], now)];
        }
        left := left - {x};
      }
      assert out == TickElements(id, elems, now, arrived);
    }

    /** Expired entries leave; a job that loses its last entry leaves the interest as well. */
    method Prune(at: int, now: int)
      requires Valid()
      modifies this
      ensures Valid()
      ensures var runs := retention > 0
          && (old(lastPruneAt).None? || at - old(lastPruneAt).value >= PRUNE_MIN_INTERVAL);
              if runs then
                lastPruneAt == Some(at) && ledger == Pruned(old(ledger), now, retention)
                && interest == old(interest) - (old(ledger).Keys - ledger.Keys)
              else ledger == old(ledger) && interest == old(interest) && lastPruneAt == old(lastPruneAt)
      ensures retention > 0 && lastPruneAt != old(lastPruneAt) ==>
                SweptRight(old(ledger), ledger, old(interest), interest, now, retention)
    {
      if retention <= 0 {
        return;
      }
      if lastPruneAt.Some? && at - lastPruneAt.value < PRUNE_MIN_INTERVAL {
        return;
      }
      lastPruneAt := Some(at);
      PrunedIsTidy(ledger, interest, now, retention);
      SweepIsRight(ledger, interest, now, retention);
      DropExpired(now);
    }

    method DropExpired(now: int)
      modifies this`ledger, this`interest
      ensures ledger == Pruned(old(ledger), now, retention)
      ensures interest == old(interest) - (old(ledger).Keys - ledger.Keys)
    {
      ghost var before := ledger;
      var left := ledger.Keys;
      while left != {}
        invariant left <= before.Keys && left <= ledger.Keys <= before.Keys
        invariant forall id <- before :: id !in left ==> (id in ledger <==> !AllExpired(before[id], now, retention))
        invariant forall id <- ledger :: ledger[id] == if id in left then before[id]
                                                          else KeepElements(before[id], now, retention)
        invariant interest == old(interest) - (before.Keys - ledger.Keys)
      {
        var id := PickOne(left);
        var elems := KeepElements(ledger[id], now, retention);
        NothingKept(before[id], now, retention);
        if elems == map[] {
          ledger := ledger - {id};
          interest := interest - {id};
        } else {
          ledger := ledger[id := elems];
        }
        left := left - {id};
      }
      PrunedByKeys(before, ledger, now, retention);
    }

    /** The answer to a query: every known element of the requested jobs in request order, an
        unknown id adding nothing; without a usable fetch every id is undecided and none absent. */
    method StatusesByIds(ids: seq<nat>, fetched: bool) returns (found: seq<Elements>, undecided: set<nat>)
      requires Valid()
      ensures fetched ==> undecided == {} && |found| == |ids|
                          && forall i :: 0 <= i < |ids| ==> found[i] == ElementsOf(ledger, ids[i])
      ensures !fetched ==> found == [] && undecided == set id | id in ids
    {
      found := [];
      if !fetched {
        return found, set id | id in ids;
      }
      undecided := {};
      for i := 0 to |ids|
        invariant |found| == i
        invariant forall j :: 0 <= j < i ==> found[j] == ElementsOf(ledger, ids[j])
      {
        found := found + [if ids[i] in ledger then ledger[ids[i]] else map[]];
      }
    }
  }
}
