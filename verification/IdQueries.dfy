/** Overlapping queries of the callback status source (lsfmgr/monitor.py): the ids somebody still
    reads are counted, and only the last reader clears those that no record stands for. */
module IdQueries {
  import opened JobModel

  class QueryTable {
    var counts: map<nat, nat>

    ghost predicate Valid()
      reads this
    {
      forall id <- counts :: counts[id] > 0
    }

    constructor ()
      ensures Valid() && counts == map[]
    {
      counts := map[];
    }

    method Begin(ids: set<nat>)
      requires Valid()
      modifies this
      ensures Valid() && counts == Begun(old(counts), ids)
    {
      var left := ids;
      while left != {}
        invariant left <= ids && Valid()
        invariant counts == Begun(old(counts), ids - left)
      {
        var id := PickOne(left);
        counts := counts[id := CountOf(counts, id) + 1];
        left := left - {id};
      }
      assert ids - left == ids;
    }

    /** tracked: the ids of the records found while the table is locked. */
    method End(ids: set<nat>, tracked: set<nat>) returns (stale: set<nat>)
      requires Valid() && ids <= counts.Keys
      modifies this
      ensures Valid() && counts == Ended(old(counts), ids)
      ensures stale == Stale(old(counts), ids, tracked)
    {
      var finished: set<nat> := {};
      var left := ids;
      while left != {}
        invariant left <= ids && Valid() && left <= counts.Keys
        invariant counts == Ended(old(counts), ids - left)
        invariant finished == set id | id in ids - left && CountOf(old(counts), id) == 1
      {
        var id := PickOne(left);
        left := left - {id};
        if counts[id] == 1 {
          counts := counts - {id};
          finished := finished + {id};
        } else {
          counts := counts[id := counts[id] - 1];
        }
      }
      assert ids - left == ids;
      stale := finished - tracked;
    }
  }

  function CountOf(counts: map<nat, nat>, id: nat): nat {
    if id in counts then counts[id] else 0
  }

  function Begun(counts: map<nat, nat>, ids: set<nat>): map<nat, nat> {
    map id | id in counts.Keys + ids :: CountOf(counts, id) + if id in ids then 1 else 0
  }

  function Ended(counts: map<nat, nat>, ids: set<nat>): map<nat, nat> {
    map id | id in counts && !(id in ids && counts[id] <= 1) :: if id in ids then counts[id] - 1 else counts[id]
  }

  function Stale(counts: map<nat, nat>, ids: set<nat>, tracked: set<nat>): set<nat> {
    (set id | id in ids && CountOf(counts, id) == 1) - tracked
  }

  // ---------------------------------------------------------------------
  // Readers that overlap
  // ---------------------------------------------------------------------

  /** reading: the ids of each query under way; cleared: what the latest end has cleared. */
  datatype System = System(counts: map<nat, nat>, reading: seq<set<nat>>, cleared: set<nat>)

  datatype Action = Start(ids: set<nat>) | Finish(i: nat, tracked: set<nat>)

  function Next(s: System, a: Action): System {
    match a
    case Start(ids) => System(Begun(s.counts, ids), s.reading + [ids], {})
    case Finish(i, tracked) =>
      if i < |s.reading| then
        System(Ended(s.counts, s.reading[i]), s.reading[..i] + s.reading[i + 1..],
               Stale(s.counts, s.reading[i], tracked))
      else s.(cleared := {})
  }

  function After(actions: seq<Action>): System {
    if actions == [] then System(map[], [], {})
    else Next(After(actions[..|actions| - 1]), actions[|actions| - 1])
  }

  function Readers(reading: seq<set<nat>>, id: nat): nat {
    if reading == [] then 0 else Readers(reading[..|reading| - 1], id) + if id in reading[|reading| - 1] then 1 else 0
  }

  lemma {:induction false} ReadersOfBoth(a: seq<set<nat>>, b: seq<set<nat>>, id: nat)
    ensures Readers(a + b, id) == Readers(a, id) + Readers(b, id)
  {
    if b == [] {
      assert a + b == a;
    } else {
      ReadersOfBoth(a, b[..|b| - 1], id);
      assert (a + b)[..|a + b| - 1] == a + b[..|b| - 1];
    }
  }

  lemma ReadersOfOne(ids: set<nat>, id: nat)
    ensures Readers([ids], id) == if id in ids then 1 else 0
  {
    var none: seq<set<nat>> := [];
    assert [ids][..0] == none;
  }

  lemma ReadersWithout(reading: seq<set<nat>>, i: nat, id: nat)
    requires i < |reading|
    ensures Readers(reading, id) == Readers(reading[..i] + reading[i + 1..], id) + if id in reading[i] then 1 else 0
  {
    assert reading == reading[..i] + [reading[i]] + reading[i + 1..];
    ReadersOfBoth(reading[..i] + [reading[i]], reading[i + 1..], id);
    ReadersOfBoth(reading[..i], [reading[i]], id);
    ReadersOfBoth(reading[..i], reading[i + 1..], id);
    ReadersOfOne(reading[i], id);
  }

  lemma {:induction false} NoReaderOf(reading: seq<set<nat>>, id: nat, i: nat)
    requires Readers(reading, id) == 0 && i < |reading|
    ensures id !in reading[i]
  {
    if i == |reading| - 1 {
    } else {
      NoReaderOf(reading[..|reading| - 1], id, i);
    }
  }

  ghost predicate Exact(s: System) {
    && (forall id <- s.counts :: s.counts[id] > 0)
    && (forall id :: CountOf(s.counts, id) == Readers(s.reading, id))
    && (forall id <- s.cleared :: Readers(s.reading, id) == 0)
  }

  lemma StartKeeps(s: System, ids: set<nat>)
    requires Exact(s)
    ensures Exact(Next(s, Start(ids)))
  {
    forall id ensures Readers(s.reading + [ids], id) == Readers(s.reading, id) + if id in ids then 1 else 0 {
      ReadersOfBoth(s.reading, [ids], id);
      ReadersOfOne(ids, id);
    }
  }

  lemma FinishKeeps(s: System, i: nat, tracked: set<nat>)
    requires Exact(s)
    ensures Exact(Next(s, Finish(i, tracked)))
  {
    if i < |s.reading| {
      var t := Next(s, Finish(i, tracked));
      forall id ensures CountOf(t.counts, id) == Readers(t.reading, id) {
        ReadersWithout(s.reading, i, id);
        assert CountOf(s.counts, id) == Readers(s.reading, id);
      }
      forall id <- t.cleared ensures Readers(t.reading, id) == 0 {
        ReadersWithout(s.reading, i, id);
      }
    }
  }

  lemma {:induction false} RunKeeps(actions: seq<Action>)
    ensures Exact(After(actions))
    decreases |actions|
  {
    if actions == [] {
    } else {
      var s := After(actions[..|actions| - 1]);
      RunKeeps(actions[..|actions| - 1]);
      match actions[|actions| - 1]
      case Start(ids) => StartKeeps(s, ids);
      case Finish(i, tracked) => FinishKeeps(s, i, tracked);
    }
  }

  /** What a query clears at its end is read by no other query that is still under way, and the
      table is empty again when none is. */
  lemma {:induction false} NothingReadIsCleared(actions: seq<Action>, i: nat, id: nat)
    requires i < |After(actions).reading| && id in After(actions).cleared
    ensures id !in After(actions).reading[i]
  {
    RunKeeps(actions);
    NoReaderOf(After(actions).reading, id, i);
  }

  lemma {:induction false} TableIsEmptyWhenNobodyReads(actions: seq<Action>)
    requires After(actions).reading == []
    ensures After(actions).counts == map[]
  {
    RunKeeps(actions);
    forall id ensures id !in After(actions).counts {
      assert CountOf(After(actions).counts, id) == 0;
    }
  }
}
