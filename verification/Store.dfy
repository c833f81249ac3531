/** The in-memory store (lsfmgr/store/memory.py, lsfmgr/store/base.py): records, the state
    counts kept beside them, compare-and-set transitions, and the summary. */
module Store {
  import opened JobModel

  datatype Rec = Rec(key: Key, gen: nat, revision: nat, state: JobState, killed: bool, detail: string)

  type Records = map<Key, Rec>
  type Counts = map<JobState, nat>

  /** Fields a transition may carry; the key is not among them. */
  datatype Edit = Edit(gen: Option<nat>, killed: Option<bool>, detail: Option<string>)

  datatype Spec = Spec(key: Key, state: Option<JobState>, guard: Rec -> bool, edit: Edit)

  // ---------------------------------------------------------------------
  // Counting
  // ---------------------------------------------------------------------

  function InState(jobs: Records, st: JobState): set<Key> {
    set k | k in jobs && jobs[k].state == st
  }

  function CountOf(counts: Counts, st: JobState): nat {
    if st in counts then counts[st] else 0
  }

  /** The counts are the histogram of the records, without a key for an empty class. */
  ghost predicate CountsAgree(jobs: Records, counts: Counts) {
    && (forall st <- counts :: counts[st] > 0)
    && (forall st :: CountOf(counts, st) == |InState(jobs, st)|)
  }

  ghost predicate KeysAgree(jobs: Records) {
    forall k <- jobs :: jobs[k].key == k
  }

  /** The sum over all states. */
  ghost function Total(counts: Counts): nat
    decreases |counts|
  {
    if counts == map[] then 0
    else
      var st :| st in counts;
      FewerKeys(counts, st);
      counts[st] + Total(counts - {st})
  }

  lemma FewerKeys(counts: Counts, st: JobState)
    requires st in counts
    ensures |counts - {st}| == |counts| - 1
  {
    assert (counts - {st}).Keys == counts.Keys - {st};
    assert |(counts - {st}).Keys| == |counts.Keys| - 1;
  }

  lemma {:induction false} TotalTakesAny(counts: Counts, st: JobState)
    requires st in counts
    ensures Total(counts) == counts[st] + Total(counts - {st})
    decreases |counts|
  {
    var x :| x in counts && Total(counts) == counts[x] + Total(counts - {x});
    if x == st {
    } else {
      FewerKeys(counts, x);
      FewerKeys(counts, st);
      MinusCommutes(counts, x, st);
      TotalTakesAny(counts - {x}, st);
      TotalTakesAny(counts - {st}, x);
    }
  }

  lemma MinusCommutes(counts: Counts, x: JobState, y: JobState)
    requires x in counts && y in counts && x != y
    ensures counts - {x} - {y} == counts - {y} - {x}
    ensures y in counts - {x} && (counts - {x})[y] == counts[y]
    ensures x in counts - {y} && (counts - {y})[x] == counts[x]
  {
  }

  lemma InStatePut(jobs: Records, r: Rec)
    ensures forall st :: |InState(jobs[r.key := r], st)|
              == |InState(jobs, st)| - (if r.key in jobs && jobs[r.key].state == st then 1 else 0)
                  + (if r.state == st then 1 else 0)
  {
    forall st
      ensures |InState(jobs[r.key := r], st)|
           == |InState(jobs, st)| - (if r.key in jobs && jobs[r.key].state == st then 1 else 0)
               + (if r.state == st then 1 else 0)
    {
      var rest := InState(jobs, st) - {r.key};
      assert |rest| == |InState(jobs, st)| - (if r.key in jobs && jobs[r.key].state == st then 1 else 0);
      if r.state == st {
        assert InState(jobs[r.key := r], st) == rest + {r.key};
      } else {
        assert InState(jobs[r.key := r], st) == rest;
      }
    }
  }

  lemma InStateDrop(jobs: Records, k: Key)
    requires k in jobs
    ensures forall st :: |InState(jobs - {k}, st)| == |InState(jobs, st)| - (if jobs[k].state == st then 1 else 0)
  {
    forall st ensures |InState(jobs - {k}, st)| == |InState(jobs, st)| - (if jobs[k].state == st then 1 else 0) {
      assert InState(jobs - {k}, st) == InState(jobs, st) - {k};
    }
  }

  function Minus(counts: Counts, st: JobState): Counts {
    var n := CountOf(counts, st) - 1;
    if n > 0 then counts[st := n] else counts - {st}
  }

  function Plus(counts: Counts, st: JobState): Counts {
    counts[st := CountOf(counts, st) + 1]
  }

  lemma TotalPlus(counts: Counts, st: JobState)
    ensures Total(Plus(counts, st)) == Total(counts) + 1
  {
    TotalTakesAny(Plus(counts, st), st);
    assert Plus(counts, st) - {st} == counts - {st};
    if st in counts {
      TotalTakesAny(counts, st);
    } else {
      assert counts - {st} == counts;
    }
  }

  lemma PlusMinus(counts: Counts, st: JobState)
    requires CountOf(counts, st) > 0
    ensures Plus(Minus(counts, st), st) == counts
  {
  }

  lemma DropAgrees(jobs: Records, counts: Counts, k: Key)
    requires CountsAgree(jobs, counts) && k in jobs
    ensures CountOf(counts, jobs[k].state) > 0 && CountsAgree(jobs - {k}, Minus(counts, jobs[k].state))
  {
    InStateDrop(jobs, k);
    assert k in InState(jobs, jobs[k].state);
  }

  lemma PutAgrees(jobs: Records, counts: Counts, r: Rec)
    requires CountsAgree(jobs, counts)
    ensures r.key in jobs ==> CountOf(counts, jobs[r.key].state) > 0
    ensures CountsAgree(jobs[r.key := r],
        Plus(if r.key in jobs then Minus(counts, jobs[r.key].state) else counts, r.state))
  {
    InStatePut(jobs, r);
    if r.key in jobs {
      assert r.key in InState(jobs, jobs[r.key].state);
    }
    var less := if r.key in jobs then Minus(counts, jobs[r.key].state) else counts;
    forall st
      ensures CountOf(less, st) == |InState(jobs, st)| - (if r.key in jobs && jobs[r.key].state == st then 1 else 0)
    {
    }
    forall st ensures CountOf(Plus(less, r.state), st) == |InState(jobs[r.key := r], st)| {
      assert CountOf(less, st) == |InState(jobs, st)| - (if r.key in jobs && jobs[r.key].state == st then 1 else 0);
      assert CountOf(Plus(less, r.state), st) == CountOf(less, st) + (if st == r.state then 1 else 0);
    }
  }

  lemma EmptyCounts(counts: Counts)
    requires (forall st <- counts :: counts[st] > 0) && forall st :: CountOf(counts, st) == 0
    ensures counts == map[]
  {
    forall st ensures st !in counts {
      assert CountOf(counts, st) == 0;
    }
  }

  /** The counts of all states together are the records, so none is counted twice or missed. */
  lemma {:induction false} TotalIsSize(jobs: Records, counts: Counts)
    requires CountsAgree(jobs, counts)
    ensures Total(counts) == |jobs|
    decreases |jobs|
  {
    if jobs == map[] {
      assert forall st :: InState(jobs, st) == {};
      EmptyCounts(counts);
    } else {
      var k :| k in jobs;
      DropAgrees(jobs, counts, k);
      assert (jobs - {k}).Keys == jobs.Keys - {k};
      assert |(jobs - {k}).Keys| == |jobs.Keys| - 1;
      TotalIsSize(jobs - {k}, Minus(counts, jobs[k].state));
      TotalPlus(Minus(counts, jobs[k].state), jobs[k].state);
      PlusMinus(counts, jobs[k].state);
    }
  }

  // ---------------------------------------------------------------------
  // Transitions
  // ---------------------------------------------------------------------

  /** Every write of an existing record raises its revision by one. */
  function Replaced(jobs: Records, r: Rec): Records
    requires r.key in jobs
  {
    jobs[r.key := r.(revision := jobs[r.key].revision + 1)]
  }

  function Edited(r: Rec, state: Option<JobState>, e: Edit): Rec {
    r.(state := state.GetOr(r.state), gen := e.gen.GetOr(r.gen), killed := e.killed.GetOr(r.killed),
       detail := e.detail.GetOr(r.detail))
  }

  predicate Applies(jobs: Records, s: Spec) {
    s.key in jobs && s.guard(jobs[s.key])
  }

  function Step(jobs: Records, s: Spec): Records
    requires KeysAgree(jobs)
  {
    if Applies(jobs, s) then Replaced(jobs, Edited(jobs[s.key], s.state, s.edit)) else jobs
  }

  /** The one record a transition may write: what the transition names is set, the rest stays, and the
      revision goes up by one. */
  ghost predicate MovedRight(was: Rec, now: Rec, s: Spec) {
    && now.key == was.key && now.revision == was.revision + 1
    && (s.state.Some? ==> now.state == s.state.value) && (s.state.None? ==> now.state == was.state)
    && (s.edit.gen.Some? ==> now.gen == s.edit.gen.value) && (s.edit.gen.None? ==> now.gen == was.gen)
    && (s.edit.killed.Some? ==> now.killed == s.edit.killed.value) && (s.edit.killed.None? ==> now.killed == was.killed)
    && (s.edit.detail.Some? ==> now.detail == s.edit.detail.value) && (s.edit.detail.None? ==> now.detail == was.detail)
  }

  ghost predicate SteppedRight(before: Records, after: Records, s: Spec) {
    && before.Keys == after.Keys
    && (forall k <- before :: k != s.key ==> after[k] == before[k])
    && (s.key in before ==>
          if s.guard(before[s.key]) then MovedRight(before[s.key], after[s.key], s)
          else after[s.key] == before[s.key])
  }

  lemma StepIsRight(jobs: Records, s: Spec)
    requires KeysAgree(jobs)
    ensures SteppedRight(jobs, Step(jobs, s), s)
  {
  }

  lemma StepKeepsKeys(jobs: Records, s: Spec)
    requires KeysAgree(jobs)
    ensures KeysAgree(Step(jobs, s)) && Step(jobs, s).Keys == jobs.Keys
  {
  }

  function Steps(jobs: Records, specs: seq<Spec>): (r: Records)
    requires KeysAgree(jobs)
    ensures KeysAgree(r) && r.Keys == jobs.Keys
  {
    if specs == [] then jobs
    else
      StepKeepsKeys(Steps(jobs, specs[..|specs| - 1]), specs[|specs| - 1]);
      Step(Steps(jobs, specs[..|specs| - 1]), specs[|specs| - 1])
  }

  /** The records actually written, in the order of the specs. */
  function Written(jobs: Records, specs: seq<Spec>): seq<Rec>
    requires KeysAgree(jobs)
  {
    if specs == [] then []
    else
      var n := |specs| - 1;
      var before := Steps(jobs, specs[..n]);
      StepKeepsKeys(before, specs[n]);
      Written(jobs, specs[..n]) + if Applies(before, specs[n]) then [Step(before, specs[n])[specs[n].key]] else []
  }

  /** Those written records that are of this key, in order. */
  function OfKey(records: seq<Rec>, k: Key): seq<Rec> {
    if records == [] then []
    else
      var n := |records| - 1;
      OfKey(records[..n], k) + if records[n].key == k then [records[n]] else []
  }

  lemma OfKeyOneMore(records: seq<Rec>, r: Rec, k: Key)
    ensures OfKey(records + [r], k) == OfKey(records, k) + if r.key == k then [r] else []
  {
    assert (records + [r])[..|records|] == records;
  }

  /** One more transition: what it reports of k, and what stands then. */
  lemma HistoryOneMore(before: Records, s: Spec, report: seq<Rec>, k: Key)
    requires KeysAgree(before) && k in before
    ensures Step(before, s).Keys == before.Keys
    ensures var after := Step(before, s);
            var more := report + if Applies(before, s) then [after[s.key]] else [];
            && OfKey(more, k) == OfKey(report, k) + (if Applies(before, s) && s.key == k then [after[k]] else [])
            && after[k].revision == before[k].revision + (if Applies(before, s) && s.key == k then 1 else 0)
            && (!(Applies(before, s) && s.key == k) ==> after[k] == before[k])
  {
    StepIsRight(before, s);
    StepKeepsKeys(before, s);
    if Applies(before, s) {
      OfKeyOneMore(report, Step(before, s)[s.key], k);
    } else {
      assert report + [] == report;
    }
  }

  /** The report of a batch is the history of each record: its revisions count up by one from the
      record before the batch, and what stands in the Store afterwards is the last one reported, or the
      record before if none is. */
  lemma {:induction false} ReportIsTheHistory(jobs: Records, specs: seq<Spec>, k: Key)
    requires KeysAgree(jobs) && k in jobs
    ensures var mine := OfKey(Written(jobs, specs), k); var after := Steps(jobs, specs);
            && after[k].revision == jobs[k].revision + |mine|
            && after[k] == (if mine == [] then jobs[k] else mine[|mine| - 1])
            && forall i :: 0 <= i < |mine| ==> mine[i].revision == jobs[k].revision + i + 1
  {
    if specs == [] {
    } else {
      var n := |specs| - 1;
      var before := Steps(jobs, specs[..n]);
      ReportIsTheHistory(jobs, specs[..n], k);
      HistoryOneMore(before, specs[n], Written(jobs, specs[..n]), k);
    }
  }

  datatype Error = NoJobset | NoJob(key: Key) | Duplicate(key: Key) | Active(keys: set<Key>) | Empty | Negative
  datatype Result<+T> = Ok(value: T) | Err(error: Error)

  /** A missing record is counted as CREATED, so the classes add up to what was intended. */
  ghost function SummaryOf(counts: Counts, intended: nat): Counts {
    if intended > Total(counts) then counts[Created := CountOf(counts, Created) + intended - Total(counts)] else counts
  }

  lemma SummaryAddsUp(jobs: Records, counts: Counts, intended: nat)
    requires CountsAgree(jobs, counts)
    ensures Total(SummaryOf(counts, intended)) == if intended > |jobs| then intended else |jobs|
    ensures forall st <- SummaryOf(counts, intended) :: SummaryOf(counts, intended)[st] > 0
  {
    TotalIsSize(jobs, counts);
    if intended > Total(counts) {
      var s := SummaryOf(counts, intended);
      TotalTakesAny(s, Created);
      assert s - {Created} == counts - {Created};
      if Created in counts {
        TotalTakesAny(counts, Created);
      } else {
        assert counts - {Created} == counts;
      }
    }
  }

  lemma SummaryCovers(jobs: Records, counts: Counts, intended: nat)
    requires CountsAgree(jobs, counts)
    ensures forall st :: CountOf(SummaryOf(counts, intended), st) >= |InState(jobs, st)|
  {
    forall st ensures CountOf(SummaryOf(counts, intended), st) >= |InState(jobs, st)| {
      assert CountOf(counts, st) == |InState(jobs, st)|;
    }
  }

  /** The store as far as one jobset is concerned. */
  class JobsetTable {
    var present: bool
    var intended: nat
    var jobs: Records
    var counts: Counts

    ghost predicate Valid()
      reads this
    {
      CountsAgree(jobs, counts) && KeysAgree(jobs) && (!present ==> jobs == map[])
    }

    constructor ()
      ensures Valid() && !present && intended == 0 && jobs == map[]
    {
      present, intended, jobs, counts := false, 0, map[], map[];
      new;
      assert forall st :: InState(map[], st) == {};
    }

    method Insert(n: nat) returns (r: Result<nat>)
      requires Valid()
      modifies this
      ensures Valid() && jobs == old(jobs)
      ensures if old(present) then r.Err? && present && intended == old(intended)
              else r == Ok(n) && present && intended == n
    {
      if present {
        return Err(NoJobset);
      }
      present, intended := true, n;
      r := Ok(n);
    }

    method Delete()
      requires Valid()
      modifies this
      ensures Valid() && !present && jobs == map[]
    {
      present, intended, jobs, counts := false, 0, map[], map[];
      assert forall st :: InState(map[], st) == {};
    }

    /** The only way a record gets in: the count of its old state goes down, of its new one up. */
    method PutRec(r: Rec)
      requires Valid() && present
      modifies this`jobs, this`counts
      ensures Valid() && jobs == old(jobs)[r.key := r]
    {
      PutAgrees(jobs, counts, r);
      if r.key in jobs {
        CountDel(jobs[r.key].state);
      }
      jobs := jobs[r.key := r];
      counts := counts[r.state := CountOf(counts, r.state) + 1];
    }

    method DropRec(k: Key) returns (gone: Option<Rec>)
      requires Valid()
      modifies this`jobs, this`counts
      ensures Valid() && jobs == old(jobs) - {k}
      ensures gone == if k in old(jobs) then Some(old(jobs)[k]) else None
    {
      if k !in jobs {
        return None;
      }
      DropAgrees(jobs, counts, k);
      gone := Some(jobs[k]);
      CountDel(jobs[k].state);
      jobs := jobs - {k};
    }

    /** A class that becomes empty loses its key. */
    method CountDel(st: JobState)
      requires CountOf(counts, st) > 0
      modifies this`counts
      ensures counts == Minus(old(counts), st)
    {
      var n := CountOf(counts, st) - 1;
      if n > 0 {
        counts := counts[st := n];
      } else {
        counts := counts - {st};
      }
    }

    /** All or nothing: duplicates, within the batch or with what is there, are found first. */
    method AddJobs(records: seq<Rec>) returns (r: Result<seq<Rec>>)
      requires Valid()
      modifies this`jobs, this`counts
      ensures Valid()
      ensures r.Ok? <==> present && Addable(old(jobs), records)
      ensures r.Ok? ==> r.value == records && jobs == Added(old(jobs), records)
      ensures r.Err? ==> jobs == old(jobs) && counts == old(counts)
    {
      if !present {
        return Err(NoJobset);
      }
      var seen: set<Key> := {};
      for i := 0 to |records|
        invariant seen == set x | x in records[..i] :: x.key
        invariant Addable(jobs, records[..i])
      {
        assert records[..i + 1] == records[..i] + [records[i]];
        if records[i].key in seen || records[i].key in jobs {
          NotAddable(jobs, records, i);
          return Err(Duplicate(records[i].key));
        }
        assert forall x :: 0 <= x < i ==> records[..i][x].key in seen;
        seen := seen + {records[i].key};
      }
      assert records[..|records|] == records;
      for i := 0 to |records|
        invariant Valid() && jobs == Added(old(jobs), records[..i])
      {
        assert records[..i + 1][..i] == records[..i];
        PutRec(records[i]);
      }
      r := Ok(records);
    }

    method DeleteJobs(keys: seq<Key>) returns (removed: seq<Rec>)
      requires Valid()
      modifies this`jobs, this`counts
      ensures Valid() && jobs == old(jobs) - AsSet(keys)
      ensures forall r :: r in removed <==> r.key in keys && r.key in old(jobs) && old(jobs)[r.key] == r
    {
      removed := [];
      var i := 0;
      while i < |keys|
        invariant 0 <= i <= |keys| && Valid()
        invariant jobs == old(jobs) - AsSet(keys[..i])
        invariant forall r :: r in removed <==> r.key in keys[..i] && r.key in old(jobs) && old(jobs)[r.key] == r
      {
        assert keys[..i + 1] == keys[..i] + [keys[i]];
        var gone := DropRec(keys[i]);
        if gone.Some? {
          removed := removed + [gone.value];
        }
        i := i + 1;
      }
      assert keys[..i] == keys;
    }

    method UpdateJob(r: Rec) returns (out: Result<Rec>)
      requires Valid()
      modifies this`jobs, this`counts
      ensures Valid()
      ensures out.Ok? <==> r.key in old(jobs)
      ensures out.Ok? ==> jobs == Replaced(old(jobs), r) && out.value == jobs[r.key]
                          && jobs == old(jobs)[r.key := r.(revision := old(jobs)[r.key].revision + 1)]
      ensures out.Err? ==> jobs == old(jobs)
    {
      if !present || r.key !in jobs {
        return Err(NoJob(r.key));
      }
      var newer := r.(revision := jobs[r.key].revision + 1);
      PutRec(newer);
      out := Ok(newer);
    }

    /** The guarded read-modify-write of a record that may be missing. */
    method Apply(s: Spec) returns (out: Option<Rec>)
      requires Valid()
      modifies this`jobs, this`counts
      ensures Valid() && jobs == Step(old(jobs), s) && SteppedRight(old(jobs), jobs, s)
      ensures out == if Applies(old(jobs), s) then Some(jobs[s.key]) else None
    {
      StepIsRight(jobs, s);
      if s.key !in jobs {
        return None;
      }
      var was := jobs[s.key];
      if !s.guard(was) {
        return None;
      }
      var r := Edited(was, s.state, s.edit).(revision := was.revision + 1);
      PutRec(r);
      out := Some(r);
    }

    /** Err only when the record is missing; a refused guard writes nothing. */
    method Transition(s: Spec) returns (out: Result<Option<Rec>>)
      requires Valid()
      modifies this`jobs, this`counts
      ensures Valid() && jobs == Step(old(jobs), s) && SteppedRight(old(jobs), jobs, s)
      ensures out.Err? <==> s.key !in old(jobs)
      ensures out.Ok? ==> out.value == if Applies(old(jobs), s) then Some(jobs[s.key]) else None
    {
      if s.key !in jobs {
        return Err(NoJob(s.key));
      }
      var r := Apply(s);
      out := Ok(r);
    }

    /** The batch under one lock. */
    method TransitionMany(specs: seq<Spec>) returns (out: seq<Rec>)
      requires Valid()
      modifies this`jobs, this`counts
      ensures Valid() && jobs == Steps(old(jobs), specs) && out == Written(old(jobs), specs)
    {
      out := [];
      for i := 0 to |specs|
        invariant Valid() && jobs == Steps(old(jobs), specs[..i])
        invariant out == Written(old(jobs), specs[..i])
      {
        assert specs[..i + 1][..i] == specs[..i];
        var r := Apply(specs[i]);
        if r.Some? {
          out := out + [r.value];
        }
      }
      assert specs[..|specs|] == specs;
    }

    /** The default batch of the abstract store, one transition at a time: the same result. */
    method TransitionEach(specs: seq<Spec>) returns (out: seq<Rec>)
      requires Valid()
      modifies this`jobs, this`counts
      ensures Valid() && jobs == Steps(old(jobs), specs) && out == Written(old(jobs), specs)
    {
      out := [];
      for i := 0 to |specs|
        invariant Valid() && jobs == Steps(old(jobs), specs[..i])
        invariant out == Written(old(jobs), specs[..i])
      {
        assert specs[..i + 1][..i] == specs[..i];
        var r := Transition(specs[i]);
        if r.Ok? && r.value.Some? {
          out := out + [r.value.value];
        }
      }
      assert specs[..|specs|] == specs;
    }

    method Summary() returns (r: Result<(nat, Counts)>)
      requires Valid()
      ensures r.Ok? <==> present
      ensures r.Ok? ==> r.value.0 == intended && r.value.1 == SummaryOf(counts, intended)
                        && Total(r.value.1) == (if intended > |jobs| then intended else |jobs|)
                        && forall st :: CountOf(r.value.1, st) >= |InState(jobs, st)|
    {
      if !present {
        return Err(NoJobset);
      }
      SummaryAddsUp(jobs, counts, intended);
      SummaryCovers(jobs, counts, intended);
      var out := Fill(counts, intended);
      r := Ok((intended, out));
    }

    static method Fill(counts: Counts, intended: nat) returns (out: Counts)
      ensures out == SummaryOf(counts, intended)
    {
      var sum := Sum(counts);
      out := counts;
      if intended > sum {
        out := out[Created := CountOf(out, Created) + intended - sum];
      }
    }

    static method Sum(counts: Counts) returns (n: nat)
      ensures n == Total(counts)
    {
      n := 0;
      var rest := counts;
      while rest != map[]
        invariant n + Total(rest) == Total(counts)
        decreases |rest|
      {
        assert rest.Keys != {};
        var st := PickOne(rest.Keys);
        TotalTakesAny(rest, st);
        FewerKeys(rest, st);
        n := n + rest[st];
        rest := rest - {st};
      }
    }
  }

  function AsSet<T>(items: seq<T>): set<T> {
    set x | x in items
  }

  ghost predicate Addable(jobs: Records, records: seq<Rec>) {
    && (forall i :: 0 <= i < |records| ==> records[i].key !in jobs)
    && (forall i, j :: 0 <= i < j < |records| ==> records[i].key != records[j].key)
  }

  lemma NotAddable(jobs: Records, records: seq<Rec>, i: nat)
    requires i < |records|
    requires records[i].key in jobs || exists r <- records[..i] :: r.key == records[i].key
    ensures !Addable(jobs, records)
  {
    if records[i].key !in jobs {
      var r :| r in records[..i] && r.key == records[i].key;
      var j :| 0 <= j < i && records[j] == r;
      assert records[j].key == records[i].key;
    }
  }

  function Added(jobs: Records, records: seq<Rec>): Records {
    if records == [] then jobs
    else Added(jobs, records[..|records| - 1])[records[|records| - 1].key := records[|records| - 1]]
  }

  /** What was added stands there as it was given, and nothing else changes. */
  lemma {:induction false} AddedExactly(jobs: Records, records: seq<Rec>, k: Key)
    requires Addable(jobs, records)
    ensures k in Added(jobs, records) <==> k in jobs || exists r <- records :: r.key == k
    ensures k in jobs ==> Added(jobs, records)[k] == jobs[k]
    ensures forall r <- records :: r.key == k ==> Added(jobs, records)[k] == r
  {
    if records == [] {
    } else {
      var n := |records| - 1;
      AddedExactly(jobs, records[..n], k);
      assert records == records[..n] + [records[n]];
    }
  }
}
