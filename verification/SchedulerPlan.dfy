/** What a tick of the mock batch system decides (mocklsf/scheduler.py), read off the tables before and
    after: who ends and how, who starts and who is left waiting, and what a suspension costs. */
module SchedulerPlan {
  import opened JobModel
  import opened MockScheduler
  import opened SchedulerCapacity

  // ---------------------------------------------------------------------
  // The first phase
  // ---------------------------------------------------------------------

  /** What becomes of a row: an active one whose time is up ends at this tick, DONE with exit code 0 or
      EXIT with another one; before that it is suspended exactly inside its planned pause; a job the
      user suspended, and everything that does not run, is left alone. */
  ghost predicate MovedRight(r: Row, t: Row, now: int) {
    if r.stat !in {Run, Ssusp} then t == r
    else if r.finish.Some? && r.finish.value <= now then
      && t == r.(stat := t.stat, finish := Some(now), exitCode := t.exitCode)
      && (r.fails ==> t.stat == Exit && t.exitCode != 0 && (r.exitCode != 0 ==> t.exitCode == r.exitCode))
      && (!r.fails ==> t.stat == Done && t.exitCode == 0)
    else
      && t == r.(stat := t.stat) && t.stat in {Run, Ssusp}
      && (t.stat == Ssusp <==>
            r.start.Some? && var ran := now - r.start.value; r.suspendAt <= ran < r.suspendAt + r.suspendSecs)
  }

  lemma AdvancedIsRight(r: Row, now: int)
    ensures MovedRight(r, Advanced(r, now), now)
  {
  }

  ghost predicate Ascending(pairs: seq<Pair>) {
    forall a, b :: 0 <= a < b < |pairs| ==> pairs[a].id < pairs[b].id
  }

  /** The plan has at most one pair for a row, in the order of the rows. */
  lemma {:induction false} AdvancesAscend(rows: seq<Row>, now: int, n: nat)
    requires n <= |rows|
    ensures Ascending(Advances(rows, now, n)) && forall p <- Advances(rows, now, n) :: p.id < n
  {
    if n == 0 {
    } else {
      AdvancesAscend(rows, now, n - 1);
    }
  }

  /** It wants what the row is to become. */
  lemma {:induction false} AdvancesAreRight(rows: seq<Row>, now: int, n: nat)
    requires n <= |rows|
    ensures forall p <- Advances(rows, now, n) ::
              p.id < n && p.prev == rows[p.id] && p.want == Advanced(rows[p.id], now)
  {
    if n == 0 {
    } else {
      AdvancesAreRight(rows, now, n - 1);
    }
  }

  /** And leaves out only rows that stay. */
  lemma {:induction false} AdvancesLeaveOutOnlyWhatStays(rows: seq<Row>, now: int, n: nat, i: nat)
    requires i < n <= |rows| && Advanced(rows[i], now) != rows[i]
    ensures exists p <- Advances(rows, now, n) :: p.id == i
  {
    var before := Advances(rows, now, n - 1);
    if i == n - 1 {
      assert Pair(i, Advanced(rows[i], now), rows[i]) in Advances(rows, now, n);
    } else {
      AdvancesLeaveOutOnlyWhatStays(rows, now, n - 1, i);
      var p :| p in before && p.id == i;
      assert p in Advances(rows, now, n);
    }
  }

  /** What the guard makes of one pair. */
  function GuardedRow(r: Row, p: Pair): Row {
    if Untouched(r, p.prev) then Written(r, p.want) else r
  }

  lemma GuardedOneAt(rows: seq<Row>, p: Pair, i: nat)
    requires i < |rows|
    ensures |GuardedOne(rows, p)| == |rows|
    ensures GuardedOne(rows, p)[i] == if i == p.id then GuardedRow(rows[i], p) else rows[i]
  {
  }

  lemma {:induction false} GuardedElsewhere(rows: seq<Row>, pairs: seq<Pair>, i: nat)
    requires i < |rows| && forall p <- pairs :: p.id != i
    ensures |GuardedMany(rows, pairs)| == |rows| && GuardedMany(rows, pairs)[i] == rows[i]
  {
    if pairs == [] {
    } else {
      var n := |pairs| - 1;
      GuardedElsewhere(rows, pairs[..n], i);
      GuardedOneAt(GuardedMany(rows, pairs[..n]), pairs[n], i);
      assert pairs[n] in pairs;
    }
  }

  /** No row is in the batch twice. */
  ghost predicate OnePairARow(pairs: seq<Pair>) {
    forall a, b :: 0 <= a < b < |pairs| ==> pairs[a].id != pairs[b].id
  }

  /** A batch over different rows treats each row by its own pair alone. */
  lemma {:induction false} GuardedRowByRow(rows: seq<Row>, pairs: seq<Pair>, j: nat)
    requires j < |pairs| && pairs[j].id < |rows| && OnePairARow(pairs)
    ensures |GuardedMany(rows, pairs)| == |rows|
    ensures GuardedMany(rows, pairs)[pairs[j].id] == GuardedRow(rows[pairs[j].id], pairs[j])
  {
    var n := |pairs| - 1;
    var i := pairs[j].id;
    if j < n {
      GuardedRowByRow(rows, pairs[..n], j);
    } else {
      GuardedElsewhere(rows, pairs[..n], i);
    }
    GuardedOneAt(GuardedMany(rows, pairs[..n]), pairs[n], i);
  }

  /** And it reports exactly the pairs that found their row untouched. */
  lemma {:induction false} ReportedPairsAreWritten(rows: seq<Row>, pairs: seq<Pair>, p: Pair)
    requires OnePairARow(pairs)
    ensures p in AppliedPairs(rows, pairs) <==> p in pairs && p.id < |rows| && Untouched(rows[p.id], p.prev)
  {
    if pairs == [] {
    } else {
      var n := |pairs| - 1;
      ReportedPairsAreWritten(rows, pairs[..n], p);
      assert pairs == pairs[..n] + [pairs[n]];
      if pairs[n].id < |rows| {
        GuardedElsewhere(rows, pairs[..n], pairs[n].id);
      } else {
        GuardedKeepsLength(rows, pairs[..n]);
      }
    }
  }

  lemma {:induction false} GuardedKeepsLength(rows: seq<Row>, pairs: seq<Pair>)
    ensures |GuardedMany(rows, pairs)| == |rows|
  {
    if pairs == [] {
    } else {
      GuardedKeepsLength(rows, pairs[..|pairs| - 1]);
    }
  }

  /** Over any interleaving: the rows as the first phase read them, the table it writes to, and the
      table after the write. A row nobody touched in between moves as it should; a row that was killed,
      stopped or resumed meanwhile keeps exactly what it has now. */
  lemma TickMovesEveryRowRight(rows: seq<Row>, later: seq<Row>, now: int, i: nat)
    requires |rows| <= |later| && i < |later|
    ensures var t := GuardedMany(later, Advances(rows, now, |rows|));
            && |t| == |later|
            && (i < |rows| && later[i] == rows[i] ==> MovedRight(rows[i], t[i], now))
            && (i >= |rows| || !Untouched(later[i], rows[i]) ==> t[i] == later[i])
  {
    var pairs := Advances(rows, now, |rows|);
    AdvancesAscend(rows, now, |rows|);
    AdvancesAreRight(rows, now, |rows|);
    if exists j :: 0 <= j < |pairs| && pairs[j].id == i {
      var j :| 0 <= j < |pairs| && pairs[j].id == i;
      GuardedRowByRow(later, pairs, j);
      AdvancedIsRight(rows[i], now);
    } else {
      GuardedElsewhere(later, pairs, i);
      if i < |rows| && Advanced(rows[i], now) != rows[i] {
        AdvancesLeaveOutOnlyWhatStays(rows, now, |rows|, i);
      } else if i < |rows| {
        AdvancedIsRight(rows[i], now);
      }
    }
  }

  // ---------------------------------------------------------------------
  // The second phase
  // ---------------------------------------------------------------------

  /** A plan only ever takes more. */
  ghost predicate TakesMore(plan: Plan, next: Plan) {
    && plan.pairs <= next.pairs
    && (forall h :: Used(plan.used, h) <= Used(next.used, h))
    && (forall id :: ArrayLoad(plan.arrays, id) <= ArrayLoad(next.arrays, id))
  }

  lemma ConsiderTakesMore(plan: Plan, id: nat, r: Row, now: int, hosts: seq<Host>, slots: map<Host, nat>, max: nat)
    ensures TakesMore(plan, Consider(plan, id, r, now, hosts, slots, max))
  {
  }

  /** A host the job may run on: one of those it asked for, or any if none of those exists. */
  ghost predicate Acceptable(h: Host, r: Row, hosts: seq<Host>) {
    h in hosts && (h in r.wanted || forall x <- hosts :: x !in r.wanted)
  }

  /** Why a pending job is not started: it has not waited its time, its array is full, the tick has
      started as many as it may, or no host it may run on has room for it. */
  ghost predicate MustWait(r: Row, plan: Plan, now: int, hosts: seq<Host>, slots: map<Host, nat>, max: nat) {
    || now - r.submitTime < r.pendSecs
    || (r.limit > 0 && ArrayLoad(plan.arrays, r.jobId) >= r.limit)
    || |plan.pairs| >= max
    || forall h :: Acceptable(h, r, hosts) ==> Used(slots, h) - Used(plan.used, h) < r.cpus
  }

  /** A start: on an acceptable host, from now on, for the time of the run and of its planned pause. */
  ghost predicate StartedRight(r: Row, want: Row, now: int, hosts: seq<Host>) {
    && want.stat == Run && want.host.Some? && Acceptable(want.host.value, r, hosts)
    && want.start == Some(now) && want.finish == Some(now + r.runSecs + r.suspendSecs)
    && want == r.(stat := want.stat, host := want.host, start := want.start, finish := want.finish)
  }

  lemma ConsiderStartsOrWaits(plan: Plan, id: nat, r: Row, now: int, hosts: seq<Host>, slots: map<Host, nat>, max: nat)
    ensures var next := Consider(plan, id, r, now, hosts, slots, max);
            if next == plan then MustWait(r, plan, now, hosts, slots, max)
            else next.pairs == plan.pairs + [next.pairs[|plan.pairs|]]
                 && next.pairs[|plan.pairs|].id == id && next.pairs[|plan.pairs|].prev == r
                 && StartedRight(r, next.pairs[|plan.pairs|].want, now, hosts)
  {
    PickedHostIsRoomiest(hosts, r, slots, plan.used);
    var next := Consider(plan, id, r, now, hosts, slots, max);
    if next.pairs == plan.pairs {
      assert next == plan;
    }
  }

  lemma StillWaits(r: Row, plan: Plan, next: Plan, now: int, hosts: seq<Host>, slots: map<Host, nat>, max: nat)
    requires MustWait(r, plan, now, hosts, slots, max) && TakesMore(plan, next)
    ensures MustWait(r, next, now, hosts, slots, max)
  {
  }

  /** The plan starts this job, as it was read. */
  ghost predicate Starts(plan: Plan, x: Read, now: int, hosts: seq<Host>) {
    exists p <- plan.pairs :: p.id == x.id && p.prev == x.row && StartedRight(x.row, p.want, now, hosts)
  }

  lemma StillStarts(plan: Plan, next: Plan, x: Read, now: int, hosts: seq<Host>)
    requires Starts(plan, x, now, hosts) && TakesMore(plan, next)
    ensures Starts(next, x, now, hosts)
  {
    var p :| p in plan.pairs && p.id == x.id && p.prev == x.row && StartedRight(x.row, p.want, now, hosts);
    assert p in next.pairs;
  }

  /** Nobody is passed over: when the plan is complete, every pending job is started or still has a
      reason to wait, with all that the plan has given away. */
  lemma {:induction false} NobodyIsPassedOver(plan: Plan, pending: seq<Read>, now: int, hosts: seq<Host>,
                                              slots: map<Host, nat>, max: nat, j: nat)
    requires j < |pending|
    ensures var whole := PlanAll(plan, pending, now, hosts, slots, max);
            Starts(whole, pending[j], now, hosts) || MustWait(pending[j].row, whole, now, hosts, slots, max)
  {
    var n := |pending| - 1;
    var before := PlanAll(plan, pending[..n], now, hosts, slots, max);
    var whole := PlanAll(plan, pending, now, hosts, slots, max);
    ConsiderTakesMore(before, pending[n].id, pending[n].row, now, hosts, slots, max);
    if j == n {
      ConsiderStartsOrWaits(before, pending[n].id, pending[n].row, now, hosts, slots, max);
      if whole != before {
        assert whole.pairs[|before.pairs|] in whole.pairs;
      }
    } else {
      NobodyIsPassedOver(plan, pending[..n], now, hosts, slots, max, j);
      if Starts(before, pending[j], now, hosts) {
        StillStarts(before, whole, pending[j], now, hosts);
      } else {
        StillWaits(pending[j].row, before, whole, now, hosts, slots, max);
      }
    }
  }

  /** And everybody the plan starts was pending and starts as it should, no more of them than a tick may. */
  lemma {:induction false} OnlyPendingJobsStart(pending: seq<Read>, used: map<Host, nat>, arrays: map<nat, nat>,
                                                now: int, hosts: seq<Host>, slots: map<Host, nat>, max: nat)
    ensures var whole := PlanAll(Plan([], used, arrays), pending, now, hosts, slots, max);
            && |whole.pairs| <= max
            && forall p <- whole.pairs :: Read(p.id, p.prev) in pending && StartedRight(p.prev, p.want, now, hosts)
  {
    if pending == [] {
    } else {
      var n := |pending| - 1;
      var before := PlanAll(Plan([], used, arrays), pending[..n], now, hosts, slots, max);
      OnlyPendingJobsStart(pending[..n], used, arrays, now, hosts, slots, max);
      ConsiderStartsOrWaits(before, pending[n].id, pending[n].row, now, hosts, slots, max);
      assert pending == pending[..n] + [pending[n]];
      assert Read(pending[n].id, pending[n].row) == pending[n];
    }
  }

  /** The plan has at most one pair for each job that was read. */
  lemma {:induction false} PlanHasOnePairARow(pending: seq<Read>, used: map<Host, nat>, arrays: map<nat, nat>, now: int,
                                              hosts: seq<Host>, slots: map<Host, nat>, max: nat)
    requires forall a, b :: 0 <= a < b < |pending| ==> pending[a].id != pending[b].id
    ensures OnePairARow(PlanAll(Plan([], used, arrays), pending, now, hosts, slots, max).pairs)
  {
    if pending == [] {
    } else {
      var n := |pending| - 1;
      var before := PlanAll(Plan([], used, arrays), pending[..n], now, hosts, slots, max);
      PlanHasOnePairARow(pending[..n], used, arrays, now, hosts, slots, max);
      OnlyPendingJobsStart(pending[..n], used, arrays, now, hosts, slots, max);
      ConsiderStartsOrWaits(before, pending[n].id, pending[n].row, now, hosts, slots, max);
      forall a | 0 <= a < |before.pairs| ensures before.pairs[a].id != pending[n].id {
        assert before.pairs[a] in before.pairs;
        var i :| 0 <= i < n && pending[i] == Read(before.pairs[a].id, before.pairs[a].prev);
      }
    }
  }

  /** Over any interleaving: a pending job that the plan starts runs as planned after the write, in every
      column, if nobody touched it since it was read, and is left as it is if somebody did. */
  lemma StartsAreWritten(pending: seq<Read>, used: map<Host, nat>, arrays: map<nat, nat>, now: int, hosts: seq<Host>,
                         slots: map<Host, nat>, max: nat, later: seq<Row>, j: nat)
    requires forall a, b :: 0 <= a < b < |pending| ==> pending[a].id != pending[b].id
    requires var whole := PlanAll(Plan([], used, arrays), pending, now, hosts, slots, max);
             j < |whole.pairs| && whole.pairs[j].id < |later|
    ensures var p := PlanAll(Plan([], used, arrays), pending, now, hosts, slots, max).pairs[j];
            var t := GuardedMany(later, PlanAll(Plan([], used, arrays), pending, now, hosts, slots, max).pairs);
            && |t| == |later|
            && (later[p.id] == p.prev ==> StartedRight(p.prev, t[p.id], now, hosts))
            && (!Untouched(later[p.id], p.prev) ==> t[p.id] == later[p.id])
  {
    var whole := PlanAll(Plan([], used, arrays), pending, now, hosts, slots, max);
    PlanHasOnePairARow(pending, used, arrays, now, hosts, slots, max);
    OnlyPendingJobsStart(pending, used, arrays, now, hosts, slots, max);
    assert whole.pairs[j] in whole.pairs;
    GuardedRowByRow(later, whole.pairs, j);
  }

  // ---------------------------------------------------------------------
  // Suspension and resumption
  // ---------------------------------------------------------------------

  /** A running job that the user stops and resumes has as much time left afterwards as before, and is
      otherwise unchanged. */
  lemma SuspensionCostsNoTime(rows: seq<Row>, id: nat, stopped: int, resumed: int)
    requires id < |rows| && rows[id].stat in {Run, Ssusp} && stopped != 0
    requires rows[id].finish.Some? && rows[id].finish.value != 0
    ensures var s := StopRow(rows, id, rows[id], stopped); var t := ResumeRow(s, id, s[id], resumed);
            && |t| == |rows| && (forall i :: 0 <= i < |rows| && i != id ==> t[i] == rows[i])
            && s[id].stat == Ususp && t[id].stat == Run && t[id].finish.Some?
            && t[id].finish.value - resumed == rows[id].finish.value - stopped
            && t[id] == rows[id].(stat := Run, finish := t[id].finish, suspSince := 0)
  {
  }

  /** And a pending one has as long to wait, since the time it was held does not count. */
  lemma HoldingDelaysTheStart(rows: seq<Row>, id: nat, stopped: int, resumed: int, now: int)
    requires id < |rows| && rows[id].stat == Pend && stopped != 0
    ensures var s := StopRow(rows, id, rows[id], stopped); var t := ResumeRow(s, id, s[id], resumed);
            && |t| == |rows| && (forall i :: 0 <= i < |rows| && i != id ==> t[i] == rows[i])
            && s[id].stat == Psusp && t[id].stat == Pend
            && (now - (resumed - stopped) - rows[id].submitTime < rows[id].pendSecs
                <==> now - t[id].submitTime < t[id].pendSecs)
            && t[id] == rows[id].(stat := Pend, pendSecs := t[id].pendSecs, suspSince := 0)
  {
  }

  /** A plan for a row made before a kill, a stop, or a stop and resume of it is dropped: none of its
      columns is written, although after stop and resume the row runs as it did before. */
  lemma StalePlansAreDropped(rows: seq<Row>, id: nat, want: Row, stopped: int, resumed: int)
    requires id < |rows| && rows[id].stat in {Run, Ssusp} && 0 < stopped < resumed
    requires rows[id].finish.Some? && rows[id].finish.value != 0
    ensures var p := Pair(id, want, rows[id]);
            var k := KillRow(rows, id, rows[id], true, stopped);
            var s := StopRow(rows, id, rows[id], stopped); var t := ResumeRow(s, id, s[id], resumed);
            && k != rows && GuardedMany(k, [p]) == k
            && s != rows && GuardedMany(s, [p]) == s
            && GuardedMany(t, [p]) == t
  {
    var p := Pair(id, want, rows[id]);
    assert [p][..0] == [];
    SuspensionCostsNoTime(rows, id, stopped, resumed);
    assert KillRow(rows, id, rows[id], true, stopped)[id].stat == Exit;
  }

  // ---------------------------------------------------------------------
  // Whole ticks
  // ---------------------------------------------------------------------

  /** A tick with nothing in between: read, write, count, choose, write. */
  function QuietTick(s: System, now: int, order: seq<nat>): System {
    Next(Next(Next(Next(Next(s, ReadActive(now)), WriteAdvances), ReadLoads), ReadPending(order)), WriteDispatches)
  }

  lemma {:induction false} ReadsArePending(rows: seq<Row>, order: seq<nat>)
    ensures forall x <- Reads(rows, order) ::
              x.id in order && x.id < |rows| && rows[x.id] == x.row && x.row.stat == Pend
    ensures forall id <- order :: id < |rows| && rows[id].stat == Pend ==> Read(id, rows[id]) in Reads(rows, order)
  {
    if order == [] {
    } else {
      var n := |order| - 1;
      ReadsArePending(rows, order[..n]);
      assert order == order[..n] + [order[n]];
    }
  }

  lemma {:induction false} ReadsAreDistinct(rows: seq<Row>, order: seq<nat>)
    requires forall a, b :: 0 <= a < b < |order| ==> order[a] != order[b]
    ensures forall a, b :: 0 <= a < b < |Reads(rows, order)| ==> Reads(rows, order)[a].id != Reads(rows, order)[b].id
  {
    if order == [] {
    } else {
      var n := |order| - 1;
      var front := Reads(rows, order[..n]);
      ReadsAreDistinct(rows, order[..n]);
      ReadsArePending(rows, order[..n]);
      forall a | 0 <= a < |front| ensures front[a].id != order[n] {
        assert front[a] in front;
        var i :| 0 <= i < n && order[i] == front[a].id;
      }
    }
  }

  /** What a tick without interference may make of a row: running ones move as they should, pending ones start
      or stay, and everything else stays. */
  ghost predicate TickedRight(r: Row, t: Row, now: int, hosts: seq<Host>) {
    if r.stat in {Run, Ssusp} then MovedRight(r, t, now)
    else if r.stat == Pend then t == r || StartedRight(r, t, now, hosts)
    else t == r
  }

  lemma AfterTheFirstPhase(s: System, now: int, i: nat)
    requires s.stage.Resting? && i < |s.rows|
    ensures var mid := Next(Next(s, ReadActive(now)), WriteAdvances);
            && mid.stage == Measuring(now) && |mid.rows| == |s.rows| && MovedRight(s.rows[i], mid.rows[i], now)
            && mid.hosts == s.hosts && mid.slots == s.slots && mid.max == s.max
  {
    TickMovesEveryRowRight(s.rows, s.rows, now, i);
  }

  /** The plan of the second phase, made from the rows after the first. */
  function SecondPlan(rows: seq<Row>, s: System, now: int, order: seq<nat>): Plan {
    PlanAll(Plan([], HostLoads(rows, s.hosts), ArrayLoads(rows)), Reads(rows, order), now, s.hosts, s.slots, s.max)
  }

  /** What the second phase makes of a row. */
  ghost predicate StartedOrWaits(r: Row, t: Row, considered: bool, plan: Plan, now: int, mid: System) {
    && (t == r || (r.stat == Pend && StartedRight(r, t, now, mid.hosts)))
    && (r.stat == Pend && considered ==>
          StartedRight(r, t, now, mid.hosts) || MustWait(r, plan, now, mid.hosts, mid.slots, mid.max))
  }

  lemma SecondPlanIsWritten(mid: System, now: int, order: seq<nat>, i: nat)
    requires i < |mid.rows| && forall a, b :: 0 <= a < b < |order| ==> order[a] != order[b]
    ensures var plan := SecondPlan(mid.rows, mid, now, order);
            var t := GuardedMany(mid.rows, plan.pairs);
            |t| == |mid.rows| && StartedOrWaits(mid.rows[i], t[i], i in order, plan, now, mid)
  {
    var plan := SecondPlan(mid.rows, mid, now, order);
    if exists j :: 0 <= j < |plan.pairs| && plan.pairs[j].id == i {
      var j :| 0 <= j < |plan.pairs| && plan.pairs[j].id == i;
      PlannedRowIsWritten(mid, now, order, j);
    } else {
      GuardedElsewhere(mid.rows, plan.pairs, i);
      if mid.rows[i].stat == Pend && i in order {
        UnplannedRowWaits(mid, now, order, i);
      }
    }
  }

  lemma PlannedRowIsWritten(mid: System, now: int, order: seq<nat>, j: nat)
    requires forall a, b :: 0 <= a < b < |order| ==> order[a] != order[b]
    requires j < |SecondPlan(mid.rows, mid, now, order).pairs|
    ensures var plan := SecondPlan(mid.rows, mid, now, order);
            var i := plan.pairs[j].id; var t := GuardedMany(mid.rows, plan.pairs);
            && i < |mid.rows| == |t| && mid.rows[i].stat == Pend
            && StartedRight(mid.rows[i], t[i], now, mid.hosts)
  {
    var plan := SecondPlan(mid.rows, mid, now, order);
    var pending := Reads(mid.rows, order);
    var used, arrays := HostLoads(mid.rows, mid.hosts), ArrayLoads(mid.rows);
    ReadsArePending(mid.rows, order);
    ReadsAreDistinct(mid.rows, order);
    OnlyPendingJobsStart(pending, used, arrays, now, mid.hosts, mid.slots, mid.max);
    assert plan.pairs[j] in plan.pairs;
    assert Read(plan.pairs[j].id, plan.pairs[j].prev) in pending;
    StartsAreWritten(pending, used, arrays, now, mid.hosts, mid.slots, mid.max, mid.rows, j);
  }

  lemma UnplannedRowWaits(mid: System, now: int, order: seq<nat>, i: nat)
    requires i < |mid.rows| && mid.rows[i].stat == Pend && i in order
    requires forall j :: 0 <= j < |SecondPlan(mid.rows, mid, now, order).pairs| ==>
               SecondPlan(mid.rows, mid, now, order).pairs[j].id != i
    ensures MustWait(mid.rows[i], SecondPlan(mid.rows, mid, now, order), now, mid.hosts, mid.slots, mid.max)
  {
    var plan := SecondPlan(mid.rows, mid, now, order);
    var pending := Reads(mid.rows, order);
    ReadsArePending(mid.rows, order);
    assert Read(i, mid.rows[i]) in pending;
    var j :| 0 <= j < |pending| && pending[j] == Read(i, mid.rows[i]);
    NobodyIsPassedOver(Plan([], HostLoads(mid.rows, mid.hosts), ArrayLoads(mid.rows)), pending, now, mid.hosts,
                       mid.slots, mid.max, j);
    NotStarted(plan, pending[j], now, mid.hosts);
  }

  lemma AfterTheSecondPhase(mid: System, now: int, order: seq<nat>)
    requires mid.stage == Measuring(now)
    ensures var t := Next(Next(Next(mid, ReadLoads), ReadPending(order)), WriteDispatches);
            t.stage == Resting && t.rows == GuardedMany(mid.rows, SecondPlan(mid.rows, mid, now, order).pairs)
  {
  }

  lemma NotStarted(plan: Plan, x: Read, now: int, hosts: seq<Host>)
    requires forall j :: 0 <= j < |plan.pairs| ==> plan.pairs[j].id != x.id
    ensures !Starts(plan, x, now, hosts)
  {
  }

  /** A whole tick: it always runs through; every row becomes what it should; and a pending job that was
      considered and still waits has a reason, with all that the tick has given away. */
  lemma AQuietTickDoesItsWork(s: System, now: int, order: seq<nat>, i: nat)
    requires s.stage.Resting? && i < |s.rows|
    requires forall a, b :: 0 <= a < b < |order| ==> order[a] != order[b]
    ensures var t := QuietTick(s, now, order);
            var mid := Next(Next(s, ReadActive(now)), WriteAdvances).rows;
            && t.stage == Resting && |t.rows| == |s.rows|
            && TickedRight(s.rows[i], t.rows[i], now, s.hosts)
            && (s.rows[i].stat == Pend && i in order && t.rows[i].stat == Pend ==>
                  MustWait(s.rows[i], SecondPlan(mid, s, now, order), now, s.hosts, s.slots, s.max))
  {
    var mid := Next(Next(s, ReadActive(now)), WriteAdvances);
    AfterTheFirstPhase(s, now, i);
    AfterTheSecondPhase(mid, now, order);
    SecondPlanIsWritten(mid, now, order, i);
  }

  /** A submission of fresh rows always arrives, whatever the tick is doing. */
  lemma SubmissionsArrive(s: System, jobId: nat, rows: seq<Row>)
    requires forall i :: 0 <= i < |s.rows| ==> s.rows[i].jobId != jobId
    requires forall i :: 0 <= i < |rows| ==> rows[i].jobId == jobId && rows[i].stat in {Pend, Psusp}
    requires forall i :: 0 <= i < |rows| ==> rows[i].limit == rows[0].limit
    ensures Next(s, Bsub(jobId, rows)) == s.(rows := s.rows + rows)
  {
  }
}
