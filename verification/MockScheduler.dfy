/** The mock batch system (mocklsf/scheduler.py, mocklsf/db.py, mocklsf/cli.py): a slot
    allocator that works from snapshots while user commands write to the same table. A row's
    position is its row id; a row is never deleted. */
module MockScheduler {
  import opened JobModel

  datatype Host = Host(name: string)

  /** All but the last line of fields are fixed at submission. */
  datatype Row = Row(
    jobId: nat, index: Option<nat>, limit: int, cpus: nat, wanted: set<Host>, queue: string,
    runSecs: int, suspendAt: int, suspendSecs: int, submitTime: int, fails: bool,
    stat: JobState, host: Option<Host>, start: Option<int>, finish: Option<int>, exitCode: int,
    pendSecs: int, suspSince: int)
  {
    predicate IsActive() {
      stat.Run? || stat.Ssusp? || stat.Ususp?
    }

    predicate IsFinished() {
      stat.Done? || stat.Exit?
    }
  }

  /** A row as the scheduler wants it, and as it had read it. */
  datatype Pair = Pair(id: nat, want: Row, prev: Row)

  /** The columns the guarded write compares; together they notice RUN, USUSP, RUN. */
  predicate Untouched(now: Row, prev: Row) {
    && now.stat == prev.stat && now.host == prev.host && now.start == prev.start && now.finish == prev.finish
    && now.exitCode == prev.exitCode && now.pendSecs == prev.pendSecs && now.suspSince == prev.suspSince
  }

  function Written(now: Row, want: Row): Row {
    now.(stat := want.stat, host := want.host, start := want.start, finish := want.finish, exitCode := want.exitCode)
  }

  function GuardedOne(rows: seq<Row>, p: Pair): seq<Row> {
    if p.id < |rows| && Untouched(rows[p.id], p.prev) then rows[p.id := Written(rows[p.id], p.want)] else rows
  }

  function GuardedMany(rows: seq<Row>, pairs: seq<Pair>): seq<Row> {
    if pairs == [] then rows else GuardedOne(GuardedMany(rows, pairs[..|pairs| - 1]), pairs[|pairs| - 1])
  }

  function AppliedPairs(rows: seq<Row>, pairs: seq<Pair>): seq<Pair> {
    if pairs == [] then []
    else
      var n := |pairs| - 1;
      var now := GuardedMany(rows, pairs[..n]);
      AppliedPairs(rows, pairs[..n])
      + if pairs[n].id < |now| && Untouched(now[pairs[n].id], pairs[n].prev) then [pairs[n]] else []
  }

  /** The columns a user command sets; None leaves a column alone. */
  datatype Patch = Patch(stat: JobState, exitCode: Option<int>, finish: Option<Option<int>>,
                         suspSince: Option<int>, pendSecs: Option<int>)

  function Patched(r: Row, p: Patch): Row {
    r.(stat := p.stat, exitCode := p.exitCode.GetOr(r.exitCode), finish := p.finish.GetOr(r.finish),
       suspSince := p.suspSince.GetOr(r.suspSince), pendSecs := p.pendSecs.GetOr(r.pendSecs))
  }

  predicate Allows(rows: seq<Row>, id: nat, allowed: set<JobState>) {
    id < |rows| && rows[id].stat in allowed
  }

  function IfStatIn(rows: seq<Row>, id: nat, allowed: set<JobState>, p: Patch): seq<Row> {
    if Allows(rows, id, allowed) then rows[id := Patched(rows[id], p)] else rows
  }

  class Database {
    var rows: seq<Row>

    constructor ()
      ensures rows == []
    {
      rows := [];
    }

    /** Reports exactly the pairs that were written. */
    method UpdateGuardedMany(pairs: seq<Pair>) returns (applied: seq<Pair>)
      modifies this
      ensures rows == GuardedMany(old(rows), pairs)
      ensures applied == AppliedPairs(old(rows), pairs)
    {
      applied := [];
      for i := 0 to |pairs|
        invariant rows == GuardedMany(old(rows), pairs[..i])
        invariant applied == AppliedPairs(old(rows), pairs[..i])
      {
        var p := pairs[i];
        assert pairs[..i + 1][..i] == pairs[..i];
        if p.id < |rows| && Untouched(rows[p.id], p.prev) {
          rows := rows[p.id := Written(rows[p.id], p.want)];
          applied := applied + [p];
        }
      }
      assert pairs[..|pairs|] == pairs;
    }

    method UpdateIfStatIn(id: nat, allowed: set<JobState>, p: Patch) returns (done: bool)
      modifies this
      ensures done == Allows(old(rows), id, allowed)
      ensures rows == IfStatIn(old(rows), id, allowed, p)
    {
      done := id < |rows| && rows[id].stat in allowed;
      if done {
        rows := rows[id := Patched(rows[id], p)];
      }
    }

    /** seen is the row as the command had read it; a forwarded job is out of reach unless the
        command runs in the context of its cluster. */
    method Kill(id: nat, seen: Row, origin: Origin, context: string, now: int) returns (done: bool)
      modifies this
      ensures rows == KillRow(old(rows), id, seen, origin.ReachedFrom(context), now)
      ensures done <==>
                && seen.stat !in {Done, Exit} && id < |old(rows)| && old(rows)[id].stat in KILLABLE
                && (if origin.forward != "" then context == origin.forward
                    else origin.source == "" || context == origin.source)
      ensures done ==> |rows| == |old(rows)| && id < |rows|
                       && rows == old(rows)[id := old(rows)[id].(stat := Exit, exitCode := 130, finish := Some(now))]
      ensures !done ==> rows == old(rows)
    {
      if seen.IsFinished() {
        return false;
      }
      if !origin.ReachedFrom(context) {
        return false;
      }
      done := UpdateIfStatIn(id, KILLABLE, Patch(Exit, Some(130), Some(Some(now)), None, None));
    }

    method Stop(id: nat, seen: Row, now: int) returns (done: bool)
      modifies this
      ensures rows == StopRow(old(rows), id, seen, now)
      ensures done == if seen.stat == Run || seen.stat == Ssusp then Allows(old(rows), id, {Run, Ssusp})
                      else seen.stat == Pend && Allows(old(rows), id, {Pend})
    {
      if seen.stat == Run || seen.stat == Ssusp {
        done := UpdateIfStatIn(id, {Run, Ssusp}, Patch(Ususp, None, None, Some(now), None));
      } else if seen.stat == Pend {
        done := UpdateIfStatIn(id, {Pend}, Patch(Psusp, None, None, Some(now), None));
      } else {
        done := false;
      }
    }

    method Resume(id: nat, seen: Row, now: int) returns (done: bool)
      modifies this
      ensures rows == ResumeRow(old(rows), id, seen, now)
      ensures done == ((seen.stat == Ususp || seen.stat == Psusp) && Allows(old(rows), id, {seen.stat}))
    {
      if seen.stat == Ususp {
        var finish := seen.finish;
        if seen.suspSince != 0 && finish.Some? && finish.value != 0 {
          finish := Some(finish.value + (now - seen.suspSince));
        }
        done := UpdateIfStatIn(id, {Ususp}, Patch(Run, None, Some(finish), Some(0), None));
      } else if seen.stat == Psusp {
        var pendSecs := seen.pendSecs;
        if seen.suspSince != 0 {
          pendSecs := pendSecs + (now - seen.suspSince);
        }
        done := UpdateIfStatIn(id, {Psusp}, Patch(Pend, None, None, Some(0), Some(pendSecs)));
      } else {
        done := false;
      }
    }
  }

  const KILLABLE: set<JobState> := {Pend, Run, Ssusp, Ususp, Psusp}

  /** The clusters a job came from and was forwarded to; empty for a job that knows of none. */
  datatype Origin = Origin(source: string, forward: string) {
    predicate ReachedFrom(context: string) {
      if source == "" && forward == "" then true
      else if forward != "" then context == forward
      else context == source
    }
  }

  function KillRow(rows: seq<Row>, id: nat, seen: Row, reached: bool, now: int): seq<Row> {
    if seen.IsFinished() || !reached then rows
    else IfStatIn(rows, id, KILLABLE, Patch(Exit, Some(130), Some(Some(now)), None, None))
  }

  function StopRow(rows: seq<Row>, id: nat, seen: Row, now: int): seq<Row> {
    if seen.stat == Run || seen.stat == Ssusp then
      IfStatIn(rows, id, {Run, Ssusp}, Patch(Ususp, None, None, Some(now), None))
    else if seen.stat == Pend then IfStatIn(rows, id, {Pend}, Patch(Psusp, None, None, Some(now), None))
    else rows
  }

  function ResumeRow(rows: seq<Row>, id: nat, seen: Row, now: int): seq<Row> {
    if seen.stat == Ususp then
      IfStatIn(rows, id, {Ususp},
               Patch(Run, None,
                     Some(if seen.suspSince != 0 && seen.finish.Some? && seen.finish.value != 0
                          then Some(seen.finish.value + (now - seen.suspSince)) else seen.finish), Some(0), None))
    else if seen.stat == Psusp then
      IfStatIn(rows, id, {Psusp},
               Patch(Pend, None, None, Some(0),
                     Some(if seen.suspSince != 0 then seen.pendSecs + (now - seen.suspSince) else seen.pendSecs)))
    else rows
  }

  // ---------------------------------------------------------------------
  // One tick
  // ---------------------------------------------------------------------

  function Finish(r: Row, now: int): Row {
    if r.fails then r.(stat := Exit, finish := Some(now), exitCode := if r.exitCode == 0 then 1 else r.exitCode)
    else r.(stat := Done, finish := Some(now), exitCode := 0)
  }

  predicate InSuspension(r: Row, now: int) {
    r.suspendSecs > 0 && r.start.Some?
    && r.start.value + r.suspendAt <= now < r.start.value + r.suspendAt + r.suspendSecs
  }

  /** What the first phase wants of a row it has read; a user suspension is left alone. */
  function Advanced(r: Row, now: int): Row {
    if !r.IsActive() || r.stat.Ususp? then r
    else if r.finish.Some? && now >= r.finish.value then Finish(r, now)
    else r.(stat := if InSuspension(r, now) then Ssusp else Run)
  }

  function Advances(rows: seq<Row>, now: int, i: nat): seq<Pair>
    requires i <= |rows|
  {
    if i == 0 then []
    else
      var r := rows[i - 1];
      Advances(rows, now, i - 1) + if Advanced(r, now) != r then [Pair(i - 1, Advanced(r, now), r)] else []
  }

  function Used(load: map<Host, nat>, h: Host): nat {
    if h in load then load[h] else 0
  }

  /** Free slots of a host, negative when it is overbooked. */
  function Free(slots: map<Host, nat>, used: map<Host, nat>, h: Host): int {
    Used(slots, h) - Used(used, h)
  }

  /** The hosts asked for, or all of them when none of those exists. */
  function Candidates(hosts: seq<Host>, wanted: set<Host>): seq<Host> {
    if exists h <- hosts :: h in wanted then Among(hosts, wanted) else hosts
  }

  function Among(hosts: seq<Host>, wanted: set<Host>): seq<Host> {
    if hosts == [] then []
    else Among(hosts[..|hosts| - 1], wanted) + if hosts[|hosts| - 1] in wanted then [hosts[|hosts| - 1]] else []
  }

  function Roomiest(hosts: seq<Host>, cpus: nat, slots: map<Host, nat>, used: map<Host, nat>): Option<Host> {
    if hosts == [] then None
    else
      var h := hosts[|hosts| - 1];
      var best := Roomiest(hosts[..|hosts| - 1], cpus, slots, used);
      var free := Free(slots, used, h);
      if free >= cpus && free > (if best.Some? then Free(slots, used, best.value) else -1) then Some(h) else best
  }

  function PickHost(hosts: seq<Host>, r: Row, slots: map<Host, nat>, used: map<Host, nat>): Option<Host> {
    Roomiest(Candidates(hosts, r.wanted), r.cpus, slots, used)
  }

  function Dispatched(r: Row, h: Host, now: int): Row {
    r.(stat := Run, host := Some(h), start := Some(now), finish := Some(now + r.runSecs + r.suspendSecs))
  }

  /** The second phase while it runs down the pending rows. */
  datatype Plan = Plan(pairs: seq<Pair>, used: map<Host, nat>, arrays: map<nat, nat>)

  function ArrayLoad(arrays: map<nat, nat>, jobId: nat): nat {
    if jobId in arrays then arrays[jobId] else 0
  }

  predicate MayStart(plan: Plan, r: Row, now: int) {
    now - r.submitTime >= r.pendSecs && !(r.limit > 0 && ArrayLoad(plan.arrays, r.jobId) >= r.limit)
  }

  function Consider(plan: Plan, id: nat, r: Row, now: int, hosts: seq<Host>, slots: map<Host, nat>, max: nat): Plan {
    if |plan.pairs| >= max || !MayStart(plan, r, now) then plan
    else
      match PickHost(hosts, r, slots, plan.used)
      case None => plan
      case Some(h) =>
        Plan(plan.pairs + [Pair(id, Dispatched(r, h, now), r)],
             plan.used[h := Used(plan.used, h) + r.cpus],
             if r.index.Some? then plan.arrays[r.jobId := ArrayLoad(plan.arrays, r.jobId) + 1] else plan.arrays)
  }

  /** A pending row as it was read. */
  datatype Read = Read(id: nat, row: Row)

  function Priority(prio: map<string, int>, r: Row): int {
    if r.queue in prio then prio[r.queue] else 0
  }

  /** Dispatch order: the queue with the larger priority, then the earlier submission, then the
      smaller row id. */
  predicate Sooner(prio: map<string, int>, a: Read, b: Read) {
    var pa, pb := Priority(prio, a.row), Priority(prio, b.row);
    pa > pb || (pa == pb && (a.row.submitTime < b.row.submitTime
                             || (a.row.submitTime == b.row.submitTime && a.id <= b.id)))
  }

  function Placed(prio: map<string, int>, x: Read, ordered: seq<Read>): seq<Read> {
    if ordered == [] || Sooner(prio, x, ordered[0]) then [x] + ordered
    else [ordered[0]] + Placed(prio, x, ordered[1..])
  }

  function Ordered(prio: map<string, int>, pending: seq<Read>): seq<Read> {
    if pending == [] then [] else Placed(prio, pending[0], Ordered(prio, pending[1..]))
  }

  ghost predicate InOrder(prio: map<string, int>, pending: seq<Read>) {
    forall i, j :: 0 <= i < j < |pending| ==> Sooner(prio, pending[i], pending[j])
  }

  lemma {:induction false} PlacedKeepsItems(prio: map<string, int>, x: Read, ordered: seq<Read>)
    ensures multiset(Placed(prio, x, ordered)) == multiset(ordered) + multiset{x}
  {
    if ordered == [] || Sooner(prio, x, ordered[0]) {
    } else {
      PlacedKeepsItems(prio, x, ordered[1..]);
      assert ordered == [ordered[0]] + ordered[1..];
    }
  }

  lemma {:induction false} PlacedItems(prio: map<string, int>, x: Read, ordered: seq<Read>)
    ensures forall y :: y in Placed(prio, x, ordered) ==> y == x || y in ordered
  {
    if ordered == [] || Sooner(prio, x, ordered[0]) {
    } else {
      PlacedItems(prio, x, ordered[1..]);
    }
  }

  lemma {:induction false} PlacedInOrder(prio: map<string, int>, x: Read, ordered: seq<Read>)
    requires InOrder(prio, ordered)
    ensures InOrder(prio, Placed(prio, x, ordered))
  {
    if ordered == [] || Sooner(prio, x, ordered[0]) {
    } else {
      var placed := Placed(prio, x, ordered[1..]);
      PlacedInOrder(prio, x, ordered[1..]);
      PlacedItems(prio, x, ordered[1..]);
      forall y <- placed ensures Sooner(prio, ordered[0], y) {
        if y in ordered[1..] {
          var i :| 1 <= i < |ordered| && ordered[i] == y;
        }
      }
    }
  }

  lemma {:induction false} OrderedIsSorted(prio: map<string, int>, pending: seq<Read>)
    ensures InOrder(prio, Ordered(prio, pending))
    ensures multiset(Ordered(prio, pending)) == multiset(pending)
  {
    if pending == [] {
    } else {
      OrderedIsSorted(prio, pending[1..]);
      PlacedInOrder(prio, pending[0], Ordered(prio, pending[1..]));
      PlacedKeepsItems(prio, pending[0], Ordered(prio, pending[1..]));
      assert pending == [pending[0]] + pending[1..];
    }
  }

  /** The rows are considered in dispatch order, every pending row once: larger queue priority first, then
      earlier submission, then smaller row id. */
  lemma OrderedInOrder(prio: map<string, int>, pending: seq<Read>, i: nat, j: nat)
    requires i < j < |Ordered(prio, pending)|
    ensures multiset(Ordered(prio, pending)) == multiset(pending)
    ensures var a, b := Ordered(prio, pending)[i], Ordered(prio, pending)[j];
            var p, q := Priority(prio, a.row), Priority(prio, b.row);
            && p >= q
            && (p == q ==> a.row.submitTime <= b.row.submitTime)
            && (p == q && a.row.submitTime == b.row.submitTime ==> a.id <= b.id)
  {
    OrderedIsSorted(prio, pending);
    assert Sooner(prio, Ordered(prio, pending)[i], Ordered(prio, pending)[j]);
  }

  /** pending is in dispatch order. */
  function PlanAll(plan: Plan, pending: seq<Read>, now: int, hosts: seq<Host>, slots: map<Host, nat>, max: nat): Plan {
    if pending == [] then plan
    else
      var last := pending[|pending| - 1];
      Consider(PlanAll(plan, pending[..|pending| - 1], now, hosts, slots, max), last.id, last.row,
               now, hosts, slots, max)
  }

  class Scheduler {
    const hosts: seq<Host>
    const slots: map<Host, nat>
    const prio: map<string, int>
    const max: nat

    constructor (hosts: seq<Host>, slots: map<Host, nat>, prio: map<string, int>, max: nat)
      ensures this.hosts == hosts && this.slots == slots && this.prio == prio && this.max == max
    {
      this.hosts, this.slots, this.prio, this.max := hosts, slots, prio, max;
    }

    method ChooseHost(r: Row, used: map<Host, nat>) returns (best: Option<Host>)
      ensures best == PickHost(hosts, r, slots, used)
    {
      var candidates := hosts;
      var filtered := Among(hosts, r.wanted);
      AmongHolds(hosts, r.wanted);
      if filtered != [] {
        assert filtered[0] in filtered;
        candidates := filtered;
      }
      best := FindRoomiest(candidates, r.cpus, used);
    }

    method FindRoomiest(candidates: seq<Host>, cpus: nat, used: map<Host, nat>) returns (best: Option<Host>)
      ensures best == Roomiest(candidates, cpus, slots, used)
    {
      best := None;
      var bestFree := -1;
      for i := 0 to |candidates|
        invariant best == Roomiest(candidates[..i], cpus, slots, used)
        invariant bestFree == if best.Some? then Free(slots, used, best.value) else -1
      {
        var h := candidates[i];
        assert candidates[..i + 1][..i] == candidates[..i];
        var free := Free(slots, used, h);
        if free >= cpus && free > bestFree {
          best, bestFree := Some(h), free;
        }
      }
      assert candidates[..|candidates|] == candidates;
    }

    /** First phase: ended jobs and planned suspensions, from one reading of the table. */
    method PlanAdvances(rows: seq<Row>, now: int) returns (changed: seq<Pair>)
      ensures changed == Advances(rows, now, |rows|)
    {
      changed := [];
      for i := 0 to |rows|
        invariant changed == Advances(rows, now, i)
      {
        var r := rows[i];
        if !r.IsActive() || r.stat == Ususp {
          continue;
        }
        if r.finish.Some? && now >= r.finish.value {
          changed := changed + [Pair(i, Finish(r, now), r)];
          continue;
        }
        var stat := if InSuspension(r, now) then Ssusp else Run;
        if stat != r.stat {
          changed := changed + [Pair(i, r.(stat := stat), r)];
        }
      }
    }

    /** One pending row of the second phase. */
    method ConsiderRow(plan: Plan, id: nat, r: Row, now: int) returns (next: Plan)
      ensures next == Consider(plan, id, r, now, hosts, slots, max)
    {
      next := plan;
      if |plan.pairs| >= max {
        return;
      }
      if now - r.submitTime < r.pendSecs {
        return;
      }
      if r.limit > 0 && ArrayLoad(plan.arrays, r.jobId) >= r.limit {
        return;
      }
      var host := ChooseHost(r, plan.used);
      if host.None? {
        return;
      }
      var h := host.value;
      next := Plan(plan.pairs + [Pair(id, Dispatched(r, h, now), r)],
                   plan.used[h := Used(plan.used, h) + r.cpus],
                   if r.index.Some? then plan.arrays[r.jobId := ArrayLoad(plan.arrays, r.jobId) + 1] else plan.arrays);
    }

    /** Second phase: the pending rows in dispatch order, until the limit of one tick. */
    method PlanDispatches(pending: seq<Read>, used: map<Host, nat>, arrays: map<nat, nat>, now: int)
      returns (plan: Plan)
      ensures plan == PlanAll(Plan([], used, arrays), Ordered(prio, pending), now, hosts, slots, max)
    {
      var order := Ordered(prio, pending);
      plan := Plan([], used, arrays);
      var i := 0;
      while i < |order|
        invariant 0 <= i <= |order|
        invariant plan == PlanAll(Plan([], used, arrays), order[..i], now, hosts, slots, max)
      {
        assert order[..i + 1][..i] == order[..i];
        plan := ConsiderRow(plan, order[i].id, order[i].row, now);
        i := i + 1;
      }
      assert order[..i] == order;
    }
  }

  lemma {:induction false} AmongHolds(hosts: seq<Host>, wanted: set<Host>)
    ensures forall h :: h in Among(hosts, wanted) <==> h in hosts && h in wanted
  {
    if hosts == [] {
    } else {
      AmongHolds(hosts[..|hosts| - 1], wanted);
      assert hosts == hosts[..|hosts| - 1] + [hosts[|hosts| - 1]];
    }
  }

  lemma {:induction false} RoomiestHasMost(hosts: seq<Host>, cpus: nat, slots: map<Host, nat>, used: map<Host, nat>)
    ensures var best := Roomiest(hosts, cpus, slots, used);
            && (best.Some? ==> best.value in hosts && Free(slots, used, best.value) >= cpus)
            && (forall h <- hosts :: Free(slots, used, h) >= cpus ==>
                  best.Some? && Free(slots, used, h) <= Free(slots, used, best.value))
  {
    if hosts == [] {
    } else {
      RoomiestHasMost(hosts[..|hosts| - 1], cpus, slots, used);
      assert hosts == hosts[..|hosts| - 1] + [hosts[|hosts| - 1]];
    }
  }

  /** Among hosts with equally much room the first in the list is taken. */
  lemma {:induction false} FirstOfEqualsIsTaken(hosts: seq<Host>, cpus: nat, slots: map<Host, nat>,
                                                used: map<Host, nat>)
    requires Roomiest(hosts, cpus, slots, used).Some?
    ensures var best := Roomiest(hosts, cpus, slots, used).value;
            exists i :: 0 <= i < |hosts| && hosts[i] == best
                        && forall j :: 0 <= j < i ==> Free(slots, used, hosts[j]) < Free(slots, used, best)
  {
    var n := |hosts| - 1;
    var best := Roomiest(hosts, cpus, slots, used).value;
    if Roomiest(hosts[..n], cpus, slots, used) == Some(best) {
      FirstOfEqualsIsTaken(hosts[..n], cpus, slots, used);
      var i :| 0 <= i < n && hosts[..n][i] == best
               && forall j :: 0 <= j < i ==> Free(slots, used, hosts[..n][j]) < Free(slots, used, best);
      assert hosts[i] == best;
      forall j | 0 <= j < i ensures Free(slots, used, hosts[j]) < Free(slots, used, best) {
        assert hosts[..n][j] == hosts[j];
      }
    } else {
      RoomiestHasMost(hosts[..n], cpus, slots, used);
      assert hosts[n] == best;
      forall j | 0 <= j < n ensures Free(slots, used, hosts[j]) < Free(slots, used, best) {
        assert hosts[j] in hosts[..n];
      }
    }
  }

  /** The host chosen has room and no acceptable host has more; with none chosen, none has room. */
  lemma PickedHostIsRoomiest(hosts: seq<Host>, r: Row, slots: map<Host, nat>, used: map<Host, nat>)
    ensures var best := PickHost(hosts, r, slots, used); var all := Candidates(hosts, r.wanted);
            && (forall h :: h in all <==> h in hosts && (h in r.wanted || forall x <- hosts :: x !in r.wanted))
            && (best.Some? ==> best.value in all && Free(slots, used, best.value) >= r.cpus)
            && (forall h <- all :: Free(slots, used, h) >= r.cpus ==>
                  best.Some? && Free(slots, used, h) <= Free(slots, used, best.value))
  {
    AmongHolds(hosts, r.wanted);
    RoomiestHasMost(Candidates(hosts, r.wanted), r.cpus, slots, used);
  }
}
