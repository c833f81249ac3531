/** From what LSF answers to what a record keeps (lsfmgr/monitor.py): the one place that
    decides whether a poll changes a record, and the folding of array elements. */
module StatusMerge {
  import opened JobModel

  datatype Observation = Observation(
    jobId: nat, index: Option<nat>, state: JobState, exitCode: Option<int>,
    runTime: Option<int>, startTime: Option<int>, finishTime: Option<int>,
    sourceCluster: Option<string>, forwardCluster: Option<string>)

  datatype Record = Record(
    jobId: Option<nat>, index: Option<nat>, state: JobState, exitCode: Option<int>,
    runTime: Option<int>, startTime: Option<int>, finishTime: Option<int>,
    sourceCluster: Option<string>, forwardCluster: Option<string>)

  /** The fields a transition carries; the clusters only when they are collected. */
  datatype Fields = Fields(
    exitCode: Option<int>, runTime: Option<int>, startTime: Option<int>, finishTime: Option<int>,
    clusters: Option<(Option<string>, Option<string>)>, jobId: Option<nat>)

  /** An observation that says nothing keeps the stored value. */
  function Keep<T>(seen: Option<T>, stored: Option<T>): Option<T> {
    if seen.Some? then seen else stored
  }

  function Effective(r: Record, st: Observation, collectClusters: bool): Fields {
    Fields(st.exitCode, Keep(st.runTime, r.runTime), Keep(st.startTime, r.startTime), Keep(st.finishTime, r.finishTime),
           if collectClusters
           then Some((Keep(st.sourceCluster, r.sourceCluster), Keep(st.forwardCluster, r.forwardCluster)))
           else None,
           if r.jobId.Some? then r.jobId else Some(st.jobId))
  }

  /** None when the observation changes nothing. The running time of a job alone counts as a
      change only when the caller wants running-time updates. */
  function MergeFields(r: Record, st: Observation, runtimeUpdates: bool, collectClusters: bool): Option<Fields> {
    var eff := Effective(r, st, collectClusters);
    if || st.state != r.state
       || st.exitCode != r.exitCode
       || eff.startTime != r.startTime || eff.finishTime != r.finishTime
       || (collectClusters && eff.clusters != Some((r.sourceCluster, r.forwardCluster)))
       || (runtimeUpdates && eff.runTime != r.runTime)
    then Some(eff)
    else None
  }

  function Applied(r: Record, state: JobState, f: Fields): Record {
    r.(state := state, exitCode := f.exitCode, runTime := f.runTime, startTime := f.startTime,
       finishTime := f.finishTime,
       sourceCluster := if f.clusters.Some? then f.clusters.value.0 else r.sourceCluster,
       forwardCluster := if f.clusters.Some? then f.clusters.value.1 else r.forwardCluster,
       jobId := f.jobId)
  }

  /** Polling writes exactly when the write would change the record (running time aside, when
      it is not wanted), so an unchanged job never produces an update. */
  lemma MergesExactlyTheChanges(r: Record, st: Observation, runtimeUpdates: bool, collectClusters: bool)
    requires r.jobId.Some?
    ensures var would := Applied(r, st.state, Effective(r, st, collectClusters));
            MergeFields(r, st, runtimeUpdates, collectClusters).None? <==>
            would == if runtimeUpdates then r else r.(runTime := would.runTime)
  {
  }

  /** Seeing the same answer again changes nothing more. */
  lemma SecondLookIsQuiet(r: Record, st: Observation, runtimeUpdates: bool, collectClusters: bool)
    ensures var f := MergeFields(r, st, runtimeUpdates, collectClusters);
            f.Some? ==> MergeFields(Applied(r, st.state, f.value), st, runtimeUpdates, collectClusters).None?
  {
  }

  /** What the answer says is what the record says afterwards, and where it says nothing, what it said before. */
  lemma WhatIsSaidIsTaken(r: Record, st: Observation, runtimeUpdates: bool, collectClusters: bool)
    ensures var f := MergeFields(r, st, runtimeUpdates, collectClusters);
            f.Some? ==>
              var after := Applied(r, st.state, f.value);
              && (st.startTime.Some? ==> after.startTime == st.startTime)
              && (st.startTime.None? ==> after.startTime == r.startTime)
              && (st.finishTime.Some? ==> after.finishTime == st.finishTime)
              && (st.finishTime.None? ==> after.finishTime == r.finishTime)
              && (st.runTime.Some? ==> after.runTime == st.runTime) && (st.runTime.None? ==> after.runTime == r.runTime)
              && (collectClusters && st.sourceCluster.Some? ==> after.sourceCluster == st.sourceCluster)
              && (st.sourceCluster.None? ==> after.sourceCluster == r.sourceCluster)
              && (collectClusters && st.forwardCluster.Some? ==> after.forwardCluster == st.forwardCluster)
              && (st.forwardCluster.None? ==> after.forwardCluster == r.forwardCluster)
              && (r.jobId.None? ==> after.jobId == Some(st.jobId)) && after.index == r.index
  {
  }

  /** No stored time or cluster is lost to an answer that leaves it out, a known job id is
      never replaced, and clusters are untouched unless they are collected. */
  lemma NothingStoredIsLost(r: Record, st: Observation, runtimeUpdates: bool, collectClusters: bool)
    ensures var f := MergeFields(r, st, runtimeUpdates, collectClusters);
            f.Some? ==>
              var after := Applied(r, st.state, f.value);
              && (r.startTime.Some? ==> after.startTime.Some?) && (r.finishTime.Some? ==> after.finishTime.Some?)
              && (r.runTime.Some? ==> after.runTime.Some?) && (r.sourceCluster.Some? ==> after.sourceCluster.Some?)
              && (r.forwardCluster.Some? ==> after.forwardCluster.Some?)
              && (r.jobId.Some? ==> after.jobId == r.jobId)
              && (!collectClusters ==>
                  after.sourceCluster == r.sourceCluster && after.forwardCluster == r.forwardCluster)
              && after.state == st.state && after.exitCode == st.exitCode
  {
  }

  // ---------------------------------------------------------------------
  // Array elements
  // ---------------------------------------------------------------------

  function Largest(values: seq<Option<int>>): Option<int> {
    if values == [] then None
    else
      var rest := Largest(values[1..]);
      if values[0].None? then rest
      else if rest.None? || values[0].value > rest.value then values[0] else rest
  }

  function Smallest(values: seq<Option<int>>): Option<int> {
    if values == [] then None
    else
      var rest := Smallest(values[1..]);
      if values[0].None? then rest
      else if rest.None? || values[0].value < rest.value then values[0] else rest
  }

  lemma {:induction false} LargestIsMaximum(values: seq<Option<int>>)
    ensures Largest(values).Some? ==> Largest(values) in values
    ensures forall v <- values :: v.Some? ==> Largest(values).Some? && v.value <= Largest(values).value
  {
    if values == [] {
    } else {
      assert values == [values[0]] + values[1..];
      LargestIsMaximum(values[1..]);
    }
  }

  lemma {:induction false} SmallestIsMinimum(values: seq<Option<int>>)
    ensures Smallest(values).Some? ==> Smallest(values) in values
    ensures forall v <- values :: v.Some? ==> Smallest(values).Some? && v.value >= Smallest(values).value
  {
    if values == [] {
    } else {
      assert values == [values[0]] + values[1..];
      SmallestIsMinimum(values[1..]);
    }
  }

  function FirstGiven<T>(values: seq<Option<T>>): Option<T> {
    if values == [] then None else if values[0].Some? then values[0] else FirstGiven(values[1..])
  }

  function Where(elems: seq<Observation>, p: JobState -> bool): seq<Observation> {
    if elems == [] then []
    else (if p(elems[0].state) then [elems[0]] else []) + Where(elems[1..], p)
  }

  lemma {:induction false} WhereHolds(elems: seq<Observation>, p: JobState -> bool)
    ensures forall e :: e in Where(elems, p) <==> e in elems && p(e.state)
  {
    if elems == [] {
    } else {
      assert elems == [elems[0]] + elems[1..];
      WhereHolds(elems[1..], p);
    }
  }

  function Field<T>(elems: seq<Observation>, f: Observation -> Option<T>): seq<Option<T>> {
    seq(|elems|, i requires 0 <= i < |elems| => f(elems[i]))
  }

  /** One verdict for a record that stands for a whole array. */
  function Aggregate(jobId: nat, elems: seq<Observation>): Observation
    requires elems != []
  {
    var running := Where(elems, (s: JobState) => s.IsOnLsf());
    var first := Where(running, (s: JobState) => s.Run?);
    var bad := Where(elems, (s: JobState) => s.Exit?);
    Observation(
      jobId, None,
      if running != [] then (if first != [] then Run else running[0].state) else if bad != [] then Exit else Done,
      if running == [] then FirstGiven(Field(bad, (e: Observation) => e.exitCode)) else None,
      Largest(Field(elems, (e: Observation) => e.runTime)),
      Smallest(Field(elems, (e: Observation) => e.startTime)),
      if running == [] then Largest(Field(elems, (e: Observation) => e.finishTime)) else None,
      FirstGiven(Field(elems, (e: Observation) => e.sourceCluster)),
      FirstGiven(Field(elems, (e: Observation) => e.forwardCluster)))
  }

  /** A folded array ends only when every element has ended, ends well only when none failed,
      and its times are those of the whole array. */
  lemma AggregateIsSound(jobId: nat, elems: seq<Observation>)
    requires elems != []
    ensures var a := Aggregate(jobId, elems);
            && (a.state.IsOnLsf() <==> exists e <- elems :: e.state.IsOnLsf())
            && (a.state.Run? <==> exists e <- elems :: e.state.Run?)
            && (a.state.Exit? <==> (forall e <- elems :: !e.state.IsOnLsf()) && exists e <- elems :: e.state.Exit?)
            && (a.state.Done? <==> forall e <- elems :: !e.state.IsOnLsf() && !e.state.Exit?)
            && (a.state.IsOnLsf() ==> exists e <- elems :: e.state == a.state)
            && (a.finishTime.Some? ==> !a.state.IsOnLsf() && forall e <- elems :: e.finishTime.Some? ==>
                e.finishTime.value <= a.finishTime.value)
            && (forall e <- elems :: e.startTime.Some? ==> a.startTime.Some? && a.startTime.value <= e.startTime.value)
  {
    var running := Where(elems, (s: JobState) => s.IsOnLsf());
    var first := Where(running, (s: JobState) => s.Run?);
    var bad := Where(elems, (s: JobState) => s.Exit?);
    WhereHolds(elems, (s: JobState) => s.IsOnLsf());
    WhereHolds(running, (s: JobState) => s.Run?);
    WhereHolds(elems, (s: JobState) => s.Exit?);
    var finishes := Field(elems, (e: Observation) => e.finishTime);
    var starts := Field(elems, (e: Observation) => e.startTime);
    LargestIsMaximum(finishes);
    SmallestIsMinimum(starts);
    assert running != [] ==> running[0] in running;
    assert first != [] ==> first[0] in first;
    assert bad != [] ==> bad[0] in bad;
    forall e | e in elems
      ensures e.finishTime in finishes && e.startTime in starts
      ensures e.state.IsOnLsf() ==> e in running
      ensures e.state.Run? ==> e in first
      ensures e.state.Exit? ==> e in bad
    {
      var i :| 0 <= i < |elems| && elems[i] == e;
      assert finishes[i] == e.finishTime && starts[i] == e.startTime;
    }
  }

  /** The other fields of a folded array: an exit code only once everything has ended, and then one of a failed
      element; the latest end and the earliest start of all elements that say one; the longest running time. */
  lemma AggregateFields(jobId: nat, elems: seq<Observation>)
    requires elems != []
    ensures var a := Aggregate(jobId, elems);
            && a.jobId == jobId && a.index.None?
            && (a.exitCode.Some? <==>
                  (forall e <- elems :: !e.state.IsOnLsf()) && exists e <- elems :: e.state.Exit? && e.exitCode.Some?)
            && (a.exitCode.Some? ==> exists e <- elems :: e.state.Exit? && e.exitCode == a.exitCode)
            && (a.finishTime.Some? <==>
                  (forall e <- elems :: !e.state.IsOnLsf()) && exists e <- elems :: e.finishTime.Some?)
            && (a.finishTime.Some? ==> exists e <- elems :: e.finishTime == a.finishTime)
            && (a.startTime.Some? ==> exists e <- elems :: e.startTime == a.startTime)
            && (a.runTime.Some? ==> exists e <- elems :: e.runTime == a.runTime)
            && (forall e <- elems :: e.runTime.Some? ==> a.runTime.Some? && a.runTime.value >= e.runTime.value)
            && (a.sourceCluster.Some? <==> exists e <- elems :: e.sourceCluster.Some?)
            && (a.sourceCluster.Some? ==> exists e <- elems :: e.sourceCluster == a.sourceCluster)
            && (a.forwardCluster.Some? <==> exists e <- elems :: e.forwardCluster.Some?)
            && (a.forwardCluster.Some? ==> exists e <- elems :: e.forwardCluster == a.forwardCluster)
  {
    var running := Where(elems, (s: JobState) => s.IsOnLsf());
    var bad := Where(elems, (s: JobState) => s.Exit?);
    WhereHolds(elems, (s: JobState) => s.IsOnLsf());
    WhereHolds(elems, (s: JobState) => s.Exit?);
    assert running == [] <==> forall e <- elems :: !e.state.IsOnLsf() by {
      assert running != [] ==> running[0] in running;
    }
    FirstGivenMeans(bad, (e: Observation) => e.exitCode);
    FirstGivenMeans(elems, (e: Observation) => e.sourceCluster);
    FirstGivenMeans(elems, (e: Observation) => e.forwardCluster);
    FieldBounds(elems, (e: Observation) => e.runTime);
    FieldBounds(elems, (e: Observation) => e.startTime);
    FieldBounds(elems, (e: Observation) => e.finishTime);
  }

  lemma FieldBounds(elems: seq<Observation>, f: Observation -> Option<int>)
    ensures var most, least := Largest(Field(elems, f)), Smallest(Field(elems, f));
            && (most.Some? ==> exists e <- elems :: f(e) == most)
            && (least.Some? ==> exists e <- elems :: f(e) == least)
            && forall e <- elems :: f(e).Some? ==>
                 most.Some? && least.Some? && least.value <= f(e).value <= most.value
  {
    var values := Field(elems, f);
    LargestIsMaximum(values);
    SmallestIsMinimum(values);
    assert forall i :: 0 <= i < |elems| ==> values[i] == f(elems[i]) && values[i] in values && elems[i] in elems;
    forall v | v in values ensures exists e <- elems :: f(e) == v {
      var i :| 0 <= i < |values| && values[i] == v;
      assert f(elems[i]) == v;
    }
  }

  lemma {:induction false} FirstGivenIsFirst<T>(values: seq<Option<T>>)
    ensures FirstGiven(values).Some? <==> exists i :: 0 <= i < |values| && values[i].Some?
    ensures FirstGiven(values).Some? ==> exists i :: 0 <= i < |values| && values[i] == FirstGiven(values)
                                                    && forall j :: 0 <= j < i ==> values[j].None?
  {
    if values == [] {
    } else {
      FirstGivenIsFirst(values[1..]);
      assert values == [values[0]] + values[1..];
      if values[0].Some? {
        assert values[0] == FirstGiven(values);
      } else if FirstGiven(values).Some? {
        var i :| 0 <= i < |values[1..]| && values[1..][i] == FirstGiven(values)
                 && forall j :: 0 <= j < i ==> values[1..][j].None?;
        assert values[i + 1] == FirstGiven(values);
        forall j | 0 <= j < i + 1 ensures values[j].None? {
          assert j > 0 ==> values[1..][j - 1] == values[j];
        }
      }
    }
  }

  lemma FirstGivenMeans<T>(elems: seq<Observation>, f: Observation -> Option<T>)
    ensures var first := FirstGiven(Field(elems, f));
            && (first.Some? <==> exists e <- elems :: f(e).Some?)
            && (first.Some? ==> exists e <- elems :: f(e) == first)
  {
    var values := Field(elems, f);
    FirstGivenIsFirst(values);
    assert forall i :: 0 <= i < |elems| ==> values[i] == f(elems[i]) && elems[i] in elems;
    forall e | e in elems && f(e).Some? ensures exists i :: 0 <= i < |values| && values[i].Some? {
      var i :| 0 <= i < |elems| && elems[i] == e;
      assert values[i].Some?;
    }
  }
}
