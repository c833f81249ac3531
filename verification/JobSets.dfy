/** Editing a jobset (lsfmgr/jobset_core.py): everything is checked before anything is written,
    and between two operations the summary adds up to the intended count. */
module JobSets {
  import opened JobModel
  import opened Store

  datatype Policy = Add | Replace | Upsert

  function KeysOf(records: seq<Rec>): set<Key> {
    set r | r in records :: r.key
  }

  predicate NoRepeats(records: seq<Rec>) {
    forall i, j :: 0 <= i < j < |records| ==> records[i].key != records[j].key
  }

  /** The records that an edit would replace although they are being worked on. */
  function BusyKeys(jobs: Records, keys: set<Key>): set<Key> {
    set k | k in keys && k in jobs && !jobs[k].state.IsInactive()
  }

  /** None of these records is being worked on. */
  ghost predicate Idle(jobs: Records, keys: set<Key>) {
    forall k <- keys :: k in jobs ==> jobs[k].state == Created || jobs[k].state.IsTerminal()
  }

  lemma IdleMeansNoneBusy(jobs: Records, keys: set<Key>)
    ensures Idle(jobs, keys) <==> BusyKeys(jobs, keys) == {}
  {
    if BusyKeys(jobs, keys) != {} {
      var k :| k in BusyKeys(jobs, keys);
    }
    forall k <- keys ensures k in BusyKeys(jobs, keys) <==> k in jobs && !jobs[k].state.IsInactive() {
    }
  }

  ghost predicate Editable(jobs: Records, records: seq<Rec>, policy: Policy, force: bool) {
    && NoRepeats(records)
    && (policy.Add? ==> forall k <- KeysOf(records) :: k !in jobs)
    && (policy.Replace? ==> KeysOf(records) <= jobs.Keys)
    && (force || Idle(jobs, KeysOf(records)))
  }

  /** A replacement keeps the place of the old record and goes on with its revisions. */
  function Put(jobs: Records, r: Rec): Records {
    if r.key in jobs then Replaced(jobs, r) else jobs[r.key := r]
  }

  function PutAll(jobs: Records, records: seq<Rec>): Records {
    if records == [] then jobs else Put(PutAll(jobs, records[..|records| - 1]), records[|records| - 1])
  }

  lemma {:induction false} PutAllLeavesOthers(jobs: Records, records: seq<Rec>, k: Key)
    requires KeysAgree(jobs) && forall i :: 0 <= i < |records| ==> records[i].key != k
    ensures k in PutAll(jobs, records) <==> k in jobs
    ensures k in jobs ==> PutAll(jobs, records)[k] == jobs[k]
  {
    if records == [] {
    } else {
      PutAllLeavesOthers(jobs, records[..|records| - 1], k);
    }
  }

  /** Exactly what an edit leaves behind: the new contents under the edited keys, with one more
      revision where a record was replaced; PutAllLeavesOthers covers everything else. */
  lemma {:induction false} PutAllWrites(jobs: Records, records: seq<Rec>, i: nat)
    requires KeysAgree(jobs) && NoRepeats(records) && i < |records|
    ensures var r := records[i];
            && r.key in PutAll(jobs, records)
            && PutAll(jobs, records)[r.key] == if r.key in jobs then r.(revision := jobs[r.key].revision + 1) else r
  {
    var n := |records| - 1;
    if i == n {
      PutAllLeavesOthers(jobs, records[..n], records[n].key);
    } else {
      PutAllWrites(jobs, records[..n], i);
      assert records[i].key != records[n].key;
    }
  }

  class JobSetManager {
    const table: JobsetTable

    constructor (table: JobsetTable)
      ensures this.table == table
    {
      this.table := table;
    }

    /** No more records than the jobset stands for, so that the summary adds up. */
    ghost predicate Sums()
      reads table
    {
      table.Valid() && |table.jobs| <= table.intended
    }

    method CreateJobset(intended: int) returns (r: Result<nat>)
      requires Sums()
      modifies table
      ensures Sums()
      ensures r.Ok? <==> intended >= 0 && !old(table.present)
      ensures r.Ok? ==> table.present && table.jobs == old(table.jobs) && table.intended == intended
      ensures r.Err? ==> table.jobs == old(table.jobs) && table.intended == old(table.intended)
    {
      if intended < 0 {
        return Err(Negative);
      }
      r := table.Insert(intended);
    }

    /** Creation only ever raises the count: a size announced in advance stays. */
    method CreateJobs(records: seq<Rec>) returns (r: Result<seq<Rec>>)
      requires Sums()
      modifies table
      ensures Sums()
      ensures r.Ok? <==> records == [] || (old(table.present) && Addable(old(table.jobs), records))
      ensures r.Ok? ==> table.jobs == Added(old(table.jobs), records)
                        && table.intended
                            == (if |table.jobs| > old(table.intended) then |table.jobs| else old(table.intended))
      ensures r.Err? ==> table.jobs == old(table.jobs) && table.intended == old(table.intended)
    {
      if records == [] {
        return Ok([]);
      }
      r := table.AddJobs(records);
      if r.Ok? && |table.jobs| > table.intended {
        table.intended := |table.jobs|;
      }
    }

    /** Add, replace and upsert: nothing is written unless the whole batch may be. */
    method EditJobs(records: seq<Rec>, policy: Policy, force: bool) returns (r: Result<seq<Rec>>)
      requires Sums()
      modifies table
      ensures Sums()
      ensures r.Ok? <==> old(table.present) && Editable(old(table.jobs), records, policy, force)
      ensures r.Ok? ==> table.jobs == PutAll(old(table.jobs), records) && table.intended == |table.jobs|
      ensures r.Err? ==> table.jobs == old(table.jobs) && table.intended == old(table.intended)
    {
      if !table.present {
        return Err(NoJobset);
      }
      var refused := Check(records, policy, force);
      if refused.Some? {
        return Err(refused.value);
      }
      var changed: seq<Rec> := [];
      for i := 0 to |records|
        invariant table.Valid() && table.present && table.jobs == PutAll(old(table.jobs), records[..i])
        invariant table.intended == old(table.intended)
      {
        assert records[..i + 1][..i] == records[..i];
        if records[i].key in table.jobs {
          var out := table.UpdateJob(records[i]);
          if out.Ok? {
            changed := changed + [out.value];
          }
        } else {
          table.PutRec(records[i]);
          changed := changed + [records[i]];
        }
      }
      assert records[..|records|] == records;
      SyncIntendedCount();
      r := Ok(changed);
    }

    method Check(records: seq<Rec>, policy: Policy, force: bool) returns (refused: Option<Error>)
      ensures refused.None? <==> Editable(table.jobs, records, policy, force)
    {
      var seen: set<Key> := {};
      for i := 0 to |records|
        invariant seen == KeysOf(records[..i]) && NoRepeats(records[..i])
        invariant policy.Add? ==> forall k <- seen :: k !in table.jobs
        invariant policy.Replace? ==> seen <= table.jobs.Keys
      {
        var k := records[i].key;
        assert records[..i + 1] == records[..i] + [records[i]];
        assert k in KeysOf(records);
        if k in seen {
          RepeatFound(records, i);
          return Some(Duplicate(k));
        }
        if policy == Add && k in table.jobs {
          return Some(Duplicate(k));
        }
        if policy == Replace && k !in table.jobs {
          return Some(NoJob(k));
        }
        assert forall j :: 0 <= j < i ==> records[..i][j].key in seen;
        seen := seen + {k};
      }
      assert records[..|records|] == records;
      var busy := BusyKeys(table.jobs, seen);
      IdleMeansNoneBusy(table.jobs, seen);
      if busy != {} && !force {
        return Some(Active(busy));
      }
      refused := None;
    }

    method SyncIntendedCount()
      requires table.Valid()
      modifies table`intended
      ensures table.Valid() && table.intended == |table.jobs|
    {
      if table.intended != |table.jobs| {
        table.intended := |table.jobs|;
      }
    }

    method RemoveJobs(keys: seq<Key>, force: bool) returns (r: Result<seq<Rec>>)
      requires Sums()
      modifies table
      ensures Sums()
      ensures r.Ok? <==> keys != [] && old(table.present) && AsSet(keys) <= old(table.jobs).Keys
                         && (force || Idle(old(table.jobs), AsSet(keys)))
      ensures r.Ok? ==> table.jobs == old(table.jobs) - AsSet(keys) && table.intended == |table.jobs|
      ensures r.Err? ==> table.jobs == old(table.jobs) && table.intended == old(table.intended)
    {
      if keys == [] {
        return Err(Empty);
      }
      if !table.present {
        return Err(NoJobset);
      }
      for i := 0 to |keys|
        invariant forall j :: 0 <= j < i ==> keys[j] in table.jobs
      {
        if keys[i] !in table.jobs {
          assert keys[i] in AsSet(keys);
          return Err(NoJob(keys[i]));
        }
      }
      r := DeleteJobs(keys, force);
    }

    method ClearJobs(force: bool) returns (r: Result<seq<Rec>>)
      requires Sums()
      modifies table
      ensures Sums()
      ensures r.Ok? <==> old(table.present) && (force || Idle(old(table.jobs), old(table.jobs).Keys))
      ensures r.Ok? ==> table.jobs == map[] && table.intended == 0
      ensures r.Err? ==> table.jobs == old(table.jobs) && table.intended == old(table.intended)
    {
      if !table.present {
        return Err(NoJobset);
      }
      var keys := AllKeys();
      r := DeleteJobs(keys, force);
    }

    method AllKeys() returns (keys: seq<Key>)
      ensures AsSet(keys) == table.jobs.Keys
    {
      keys := [];
      var left := table.jobs.Keys;
      while left != {}
        invariant left <= table.jobs.Keys && AsSet(keys) == table.jobs.Keys - left
      {
        var k := PickOne(left);
        left := left - {k};
        assert AsSet(keys + [k]) == AsSet(keys) + {k};
        keys := keys + [k];
      }
    }

    /** The common body of removing some and removing all. */
    method DeleteJobs(keys: seq<Key>, force: bool) returns (r: Result<seq<Rec>>)
      requires Sums() && table.present && AsSet(keys) <= table.jobs.Keys
      modifies table
      ensures Sums()
      ensures r.Ok? <==> force || Idle(old(table.jobs), AsSet(keys))
      ensures r.Ok? ==> table.jobs == old(table.jobs) - AsSet(keys) && table.intended == |table.jobs|
      ensures r.Err? ==> table.jobs == old(table.jobs) && table.intended == old(table.intended)
    {
      var busy := BusyKeys(table.jobs, AsSet(keys));
      IdleMeansNoneBusy(table.jobs, AsSet(keys));
      if busy != {} && !force {
        return Err(Active(busy));
      }
      var removed := table.DeleteJobs(keys);
      SyncIntendedCount();
      r := Ok(removed);
    }

    /** Whatever the operations before were: the classes of the summary add up to its total. */
    method SummaryTotals() returns (total: nat, classes: Counts)
      requires Sums() && table.present
      ensures total == table.intended && Total(classes) == total
      ensures forall st :: CountOf(classes, st) >= |InState(table.jobs, st)|
    {
      var r := table.Summary();
      total, classes := r.value.0, r.value.1;
    }
  }

  lemma RepeatFound(records: seq<Rec>, i: nat)
    requires i < |records| && records[i].key in KeysOf(records[..i])
    ensures !NoRepeats(records)
  {
    var r :| r in records[..i] && r.key == records[i].key;
    var j :| 0 <= j < i && records[j] == r;
    assert records[j].key == records[i].key;
  }
}
