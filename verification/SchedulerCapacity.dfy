/** Capacity of the mock batch system under every interleaving of ticks and user commands. */
module SchedulerCapacity {
  import opened JobModel
  import opened MockScheduler

  // ---------------------------------------------------------------------
  // Weighted loads of the table
  // ---------------------------------------------------------------------

  /** What is being limited: CPUs on a host, or running elements of an array. */
  datatype Resource = OnHost(host: Host) | OfArray(jobId: nat)

  function Weight(r: Row, res: Resource): nat {
    match res
    case OnHost(h) => if r.IsActive() && r.host == Some(h) then r.cpus else 0
    case OfArray(id) => if r.IsActive() && r.index.Some? && r.jobId == id then 1 else 0
  }

  function Load(rows: seq<Row>, res: Resource): nat {
    if rows == [] then 0 else Load(rows[..|rows| - 1], res) + Weight(rows[|rows| - 1], res)
  }

  lemma {:induction false} LoadUpdate(rows: seq<Row>, i: nat, r: Row, res: Resource)
    requires i < |rows|
    ensures Load(rows[i := r], res) + Weight(rows[i], res) == Load(rows, res) + Weight(r, res)
  {
    var n := |rows| - 1;
    if i == n {
      assert rows[i := r][..n] == rows[..n];
    } else {
      LoadUpdate(rows[..n], i, r, res);
      assert rows[i := r][..n] == rows[..n][i := r];
    }
  }

  lemma {:induction false} LoadAppend(rows: seq<Row>, more: seq<Row>, res: Resource)
    ensures Load(rows + more, res) == Load(rows, res) + Load(more, res)
  {
    if more == [] {
      assert rows + more == rows;
    } else {
      var n := |more| - 1;
      LoadAppend(rows, more[..n], res);
      assert (rows + more)[..|rows + more| - 1] == rows + more[..n];
    }
  }

  /** Load a plan would add if every pair of it were written. */
  function Claim(pairs: seq<Pair>, res: Resource): nat {
    if pairs == [] then 0 else Claim(pairs[..|pairs| - 1], res) + Weight(pairs[|pairs| - 1].want, res)
  }

  // ---------------------------------------------------------------------
  // Ticks and commands interleaved
  // ---------------------------------------------------------------------

  datatype Stage =
    | Resting
    | Advancing(pairs: seq<Pair>, now: int)              // active rows read, changes not written
    | Measuring(now: int)                                // changes written
    | Choosing(used: map<Host, nat>, arrays: map<nat, nat>, now: int)   // active rows read again
    | Dispatching(plan: Plan)                            // pending rows read, dispatches not written

  datatype System = System(rows: seq<Row>, stage: Stage, hosts: seq<Host>, slots: map<Host, nat>, max: nat)

  datatype Action =
    | ReadActive(now: int) | WriteAdvances | ReadLoads | ReadPending(order: seq<nat>) | WriteDispatches | Crash
    | Bsub(jobId: nat, rows: seq<Row>)
    | Bkill(id: nat, seen: Row, reached: bool, now: int)
    | Bstop(id: nat, seen: Row, now: int) | Bresume(id: nat, seen: Row, now: int)

  function HostLoads(rows: seq<Row>, hosts: seq<Host>): map<Host, nat> {
    map h | h in hosts :: Load(rows, OnHost(h))
  }

  function JobIds(rows: seq<Row>): set<nat> {
    set i | 0 <= i < |rows| :: rows[i].jobId
  }

  function ArrayLoads(rows: seq<Row>): map<nat, nat> {
    map id | id in JobIds(rows) :: Load(rows, OfArray(id))
  }

  /** The pending rows among those asked for. */
  function Reads(rows: seq<Row>, order: seq<nat>): seq<Read> {
    if order == [] then []
    else
      var id := order[|order| - 1];
      Reads(rows, order[..|order| - 1]) + if id < |rows| && rows[id].stat.Pend? then [Read(id, rows[id])] else []
  }

  /** One submission: a fresh job id, one row or the elements of one array, all pending. */
  predicate Submittable(s: System, jobId: nat, rows: seq<Row>) {
    && jobId !in JobIds(s.rows)
    && (forall i :: 0 <= i < |rows| ==> rows[i].jobId == jobId && (rows[i].stat.Pend? || rows[i].stat.Psusp?))
    && (forall i, j :: 0 <= i < |rows| && 0 <= j < |rows| ==> rows[i].limit == rows[j].limit)
  }

  function Next(s: System, a: Action): System {
    match a
    case ReadActive(now) => if s.stage.Resting? then s.(stage := Advancing(Advances(s.rows, now, |s.rows|), now)) else s
    case WriteAdvances =>
      if s.stage.Advancing? then s.(rows := GuardedMany(s.rows, s.stage.pairs), stage := Measuring(s.stage.now)) else s
    case ReadLoads =>
      if s.stage.Measuring?
      then s.(stage := Choosing(HostLoads(s.rows, s.hosts), ArrayLoads(s.rows), s.stage.now)) else s
    case ReadPending(order) =>
      if s.stage.Choosing? then
        s.(stage := Dispatching(PlanAll(Plan([], s.stage.used, s.stage.arrays), Reads(s.rows, order),
                                        s.stage.now, s.hosts, s.slots, s.max)))
      else s
    case WriteDispatches =>
      if s.stage.Dispatching? then s.(rows := GuardedMany(s.rows, s.stage.plan.pairs), stage := Resting) else s
    case Crash => s.(stage := Resting)
    case Bsub(jobId, rows) => if Submittable(s, jobId, rows) then s.(rows := s.rows + rows) else s
    case Bkill(id, seen, reached, now) => s.(rows := KillRow(s.rows, id, seen, reached, now))
    case Bstop(id, seen, now) => s.(rows := StopRow(s.rows, id, seen, now))
    case Bresume(id, seen, now) => s.(rows := ResumeRow(s.rows, id, seen, now))
  }

  function After(hosts: seq<Host>, slots: map<Host, nat>, max: nat, actions: seq<Action>): System {
    if actions == [] then System([], Resting, hosts, slots, max)
    else Next(After(hosts, slots, max, actions[..|actions| - 1]), actions[|actions| - 1])
  }

  // ---------------------------------------------------------------------
  // The invariant
  // ---------------------------------------------------------------------

  /** What never changes about a job. */
  predicate SameJob(a: Row, b: Row) {
    a.jobId == b.jobId && a.index == b.index && a.limit == b.limit && a.cpus == b.cpus
  }

  /** rows as they were, moved on without any new load. */
  ghost predicate Calmer(rows: seq<Row>, later: seq<Row>) {
    && |rows| <= |later|
    && (forall i :: 0 <= i < |rows| ==> SameJob(rows[i], later[i]))
    && (forall res :: Load(later, res) <= Load(rows, res))
  }

  ghost predicate TableAgrees(rows: seq<Row>) {
    forall i, j :: 0 <= i < |rows| && 0 <= j < |rows| && rows[i].jobId == rows[j].jobId ==>
        rows[i].limit == rows[j].limit
  }

  ghost predicate WithinHosts(rows: seq<Row>, slots: map<Host, nat>) {
    forall h :: Load(rows, OnHost(h)) <= Used(slots, h)
  }

  ghost predicate WithinArrays(rows: seq<Row>) {
    forall i :: 0 <= i < |rows| && rows[i].limit > 0 ==> Load(rows, OfArray(rows[i].jobId)) <= rows[i].limit
  }

  ghost predicate PairsFit(pairs: seq<Pair>, rows: seq<Row>) {
    forall p <- pairs :: p.id < |rows| && SameJob(p.want, rows[p.id]) && SameJob(p.prev, rows[p.id])
  }

  /** The plan's own count covers the table plus everything planned so far. */
  ghost predicate PlanFits(plan: Plan, rows: seq<Row>, hosts: seq<Host>, slots: map<Host, nat>) {
    && PairsFit(plan.pairs, rows) && (forall p <- plan.pairs :: p.prev.stat.Pend?) && plan.arrays.Keys <= JobIds(rows)
    && (forall h <- hosts ::
        Load(rows, OnHost(h)) + Claim(plan.pairs, OnHost(h)) <= Used(plan.used, h) <= Used(slots, h))
    && (forall h :: h !in hosts ==> Claim(plan.pairs, OnHost(h)) == 0)
    && (forall id :: Load(rows, OfArray(id)) + Claim(plan.pairs, OfArray(id)) <= ArrayLoad(plan.arrays, id))
    && (forall i :: 0 <= i < |rows| && rows[i].limit > 0 ==> ArrayLoad(plan.arrays, rows[i].jobId) <= rows[i].limit)
  }

  predicate Calming(p: Pair) {
    p.prev.IsActive() && p.want.host == p.prev.host
  }

  ghost predicate StageFits(s: System) {
    match s.stage
    case Advancing(pairs, _) => PairsFit(pairs, s.rows) && forall p <- pairs :: Calming(p)
    case Choosing(used, arrays, _) => PlanFits(Plan([], used, arrays), s.rows, s.hosts, s.slots)
    case Dispatching(plan) => PlanFits(plan, s.rows, s.hosts, s.slots)
    case _ => true
  }

  ghost predicate TableFits(s: System) {
    TableAgrees(s.rows) && WithinHosts(s.rows, s.slots) && WithinArrays(s.rows)
  }

  ghost predicate Inv(s: System) {
    TableFits(s) && StageFits(s)
  }

  // ---------------------------------------------------------------------
  // Steps that add no load
  // ---------------------------------------------------------------------

  lemma JobIdsMember(rows: seq<Row>, i: nat)
    requires i < |rows|
    ensures rows[i].jobId in JobIds(rows)
  {
  }

  lemma CalmerKeepsIds(rows: seq<Row>, later: seq<Row>)
    requires Calmer(rows, later)
    ensures JobIds(rows) <= JobIds(later)
  {
    forall id | id in JobIds(rows) ensures id in JobIds(later) {
      var i :| 0 <= i < |rows| && rows[i].jobId == id;
      assert later[i].jobId == id;
    }
  }

  lemma CalmerKeepsTable(rows: seq<Row>, later: seq<Row>, slots: map<Host, nat>)
    requires Calmer(rows, later) && |later| == |rows|
    requires TableAgrees(rows) && WithinHosts(rows, slots) && WithinArrays(rows)
    ensures TableAgrees(later) && WithinHosts(later, slots) && WithinArrays(later)
  {
  }

  lemma CalmerKeepsStage(s: System, later: seq<Row>)
    requires StageFits(s) && Calmer(s.rows, later) && |later| == |s.rows|
    ensures StageFits(s.(rows := later))
  {
    CalmerKeepsIds(s.rows, later);
  }

  lemma OneRowCalmer(rows: seq<Row>, i: nat, r: Row)
    requires i < |rows| && SameJob(rows[i], r) && (r.IsActive() ==> rows[i].IsActive() && r.host == rows[i].host)
    ensures Calmer(rows, rows[i := r])
  {
    forall res ensures Load(rows[i := r], res) <= Load(rows, res) {
      LoadUpdate(rows, i, r, res);
    }
  }

  lemma CommandCalmer(rows: seq<Row>, id: nat, seen: Row, reached: bool, now: int)
    ensures Calmer(rows, KillRow(rows, id, seen, reached, now)) && |KillRow(rows, id, seen, reached, now)| == |rows|
    ensures Calmer(rows, StopRow(rows, id, seen, now)) && |StopRow(rows, id, seen, now)| == |rows|
    ensures Calmer(rows, ResumeRow(rows, id, seen, now)) && |ResumeRow(rows, id, seen, now)| == |rows|
  {
    if id < |rows| {
      var kill, stop, resume :=
          KillRow(rows, id, seen, reached, now), StopRow(rows, id, seen, now), ResumeRow(rows, id, seen, now);
      OneRowCalmer(rows, id, kill[id]);
      OneRowCalmer(rows, id, stop[id]);
      OneRowCalmer(rows, id, resume[id]);
      assert kill == rows[id := kill[id]] && stop == rows[id := stop[id]] && resume == rows[id := resume[id]];
    }
  }

  lemma {:induction false} AdvancesCalmer(rows: seq<Row>, pairs: seq<Pair>)
    requires PairsFit(pairs, rows) && forall p <- pairs :: Calming(p)
    ensures Calmer(rows, GuardedMany(rows, pairs)) && |GuardedMany(rows, pairs)| == |rows|
  {
    if pairs == [] {
    } else {
      var n := |pairs| - 1;
      assert forall p <- pairs[..n] :: p in pairs;
      AdvancesCalmer(rows, pairs[..n]);
      var mid, p := GuardedMany(rows, pairs[..n]), pairs[n];
      assert p in pairs;
      if Untouched(mid[p.id], p.prev) {
        OneRowCalmer(mid, p.id, Written(mid[p.id], p.want));
      }
    }
  }

  lemma {:induction false} AdvancesFit(rows: seq<Row>, now: int, i: nat)
    requires i <= |rows|
    ensures PairsFit(Advances(rows, now, i), rows)
    ensures forall p <- Advances(rows, now, i) :: Calming(p)
  {
    if i == 0 {
    } else {
      AdvancesFit(rows, now, i - 1);
    }
  }

  // ---------------------------------------------------------------------
  // Submission
  // ---------------------------------------------------------------------

  lemma {:induction false} InactiveWeighsNothing(rows: seq<Row>, res: Resource)
    requires forall i :: 0 <= i < |rows| ==> !rows[i].IsActive()
    ensures Load(rows, res) == 0
  {
    if rows == [] {
    } else {
      InactiveWeighsNothing(rows[..|rows| - 1], res);
    }
  }

  lemma {:induction false} StrangerWeighsNothing(rows: seq<Row>, id: nat)
    requires forall i :: 0 <= i < |rows| ==> rows[i].jobId != id
    ensures Load(rows, OfArray(id)) == 0
  {
    if rows == [] {
    } else {
      StrangerWeighsNothing(rows[..|rows| - 1], id);
    }
  }

  lemma BsubAddsNoLoad(s: System, jobId: nat, more: seq<Row>)
    requires Submittable(s, jobId, more)
    ensures forall res :: Load(s.rows + more, res) == Load(s.rows, res)
    ensures Calmer(s.rows, s.rows + more)
    ensures Load(s.rows, OfArray(jobId)) == 0
  {
    forall res ensures Load(s.rows + more, res) == Load(s.rows, res) {
      LoadAppend(s.rows, more, res);
      InactiveWeighsNothing(more, res);
    }
    forall i: nat | i < |s.rows| ensures s.rows[i].jobId != jobId {
      JobIdsMember(s.rows, i);
    }
    StrangerWeighsNothing(s.rows, jobId);
  }

  lemma BsubKeeps(s: System, jobId: nat, more: seq<Row>)
    requires Inv(s)
    ensures Inv(Next(s, Bsub(jobId, more)))
  {
    if Submittable(s, jobId, more) {
      BsubAddsNoLoad(s, jobId, more);
      var later := s.rows + more;
      forall i: nat | i < |s.rows| ensures s.rows[i].jobId != jobId {
        JobIdsMember(s.rows, i);
      }
      BsubKeepsTable(s, jobId, more);
      CalmerKeepsIds(s.rows, later);
      if s.stage.Choosing? {
        BsubKeepsPlan(s, jobId, more, Plan([], s.stage.used, s.stage.arrays));
      } else if s.stage.Dispatching? {
        BsubKeepsPlan(s, jobId, more, s.stage.plan);
      }
    }
  }

  lemma BsubKeepsTable(s: System, jobId: nat, more: seq<Row>)
    requires TableFits(s) && Submittable(s, jobId, more)
    requires forall i :: 0 <= i < |s.rows| ==> s.rows[i].jobId != jobId
    requires forall res :: Load(s.rows + more, res) == Load(s.rows, res)
    requires Load(s.rows, OfArray(jobId)) == 0
    ensures TableFits(s.(rows := s.rows + more))
  {
  }

  lemma BsubKeepsPlan(s: System, jobId: nat, more: seq<Row>, plan: Plan)
    requires PlanFits(plan, s.rows, s.hosts, s.slots) && Submittable(s, jobId, more)
    requires forall res :: Load(s.rows + more, res) == Load(s.rows, res)
    requires JobIds(s.rows) <= JobIds(s.rows + more)
    ensures PlanFits(plan, s.rows + more, s.hosts, s.slots)
  {
    assert ArrayLoad(plan.arrays, jobId) == 0;
  }

  // ---------------------------------------------------------------------
  // Planning and dispatching
  // ---------------------------------------------------------------------

  lemma MeasuredFits(s: System)
    requires TableFits(s)
    ensures PlanFits(Plan([], HostLoads(s.rows, s.hosts), ArrayLoads(s.rows)), s.rows, s.hosts, s.slots)
  {
    forall id ensures Load(s.rows, OfArray(id)) <= ArrayLoad(ArrayLoads(s.rows), id) {
      if id !in JobIds(s.rows) {
        forall i: nat | i < |s.rows| ensures s.rows[i].jobId != id {
          JobIdsMember(s.rows, i);
        }
        StrangerWeighsNothing(s.rows, id);
      }
    }
    forall i: nat | i < |s.rows| ensures s.rows[i].jobId in JobIds(s.rows) {
      JobIdsMember(s.rows, i);
    }
  }

  lemma ClaimOneMore(pairs: seq<Pair>, p: Pair, res: Resource)
    ensures Claim(pairs + [p], res) == Claim(pairs, res) + Weight(p.want, res)
  {
    assert (pairs + [p])[..|pairs|] == pairs;
  }

  lemma ConsiderFits(plan: Plan, read: Read, rows: seq<Row>, now: int, hosts: seq<Host>, slots: map<Host, nat>,
                     max: nat)
    requires PlanFits(plan, rows, hosts, slots) && TableAgrees(rows)
    requires read.id < |rows| && rows[read.id] == read.row && read.row.stat.Pend?
    ensures PlanFits(Consider(plan, read.id, read.row, now, hosts, slots, max), rows, hosts, slots)
  {
    var r := read.row;
    var next := Consider(plan, read.id, r, now, hosts, slots, max);
    if next != plan {
      PickedHostIsRoomiest(hosts, r, slots, plan.used);
      var h := PickHost(hosts, r, slots, plan.used).value;
      PlanGrows(plan, Pair(read.id, Dispatched(r, h, now), r), h, next, rows, hosts, slots);
    }
  }

  lemma PlanGrows(plan: Plan, p: Pair, h: Host, next: Plan, rows: seq<Row>, hosts: seq<Host>, slots: map<Host, nat>)
    requires PlanFits(plan, rows, hosts, slots) && TableAgrees(rows)
    requires p.id < |rows| && rows[p.id] == p.prev && p.prev.stat.Pend? && SameJob(p.want, p.prev)
    requires h in hosts && Free(slots, plan.used, h) >= p.want.cpus && p.want.host == Some(h)
    requires !(p.want.limit > 0 && ArrayLoad(plan.arrays, p.want.jobId) >= p.want.limit)
    requires next == Plan(plan.pairs + [p], plan.used[h := Used(plan.used, h) + p.want.cpus],
                          if p.want.index.Some?
                          then plan.arrays[p.want.jobId := ArrayLoad(plan.arrays, p.want.jobId) + 1]
                          else plan.arrays)
    ensures PlanFits(next, rows, hosts, slots)
  {
    JobIdsMember(rows, p.id);
    ConsiderHosts(plan, p, h, rows, hosts, slots);
    ConsiderArrays(plan, p, h, rows, next.arrays);
    ConsiderPairs(plan, p, rows);
  }

  lemma ConsiderPairs(plan: Plan, p: Pair, rows: seq<Row>)
    requires PairsFit(plan.pairs, rows) && (forall x <- plan.pairs :: x.prev.stat.Pend?)
    requires p.id < |rows| && SameJob(p.want, rows[p.id]) && SameJob(p.prev, rows[p.id]) && p.prev.stat.Pend?
    ensures PairsFit(plan.pairs + [p], rows) && forall x <- plan.pairs + [p] :: x.prev.stat.Pend?
  {
  }

  lemma ConsiderHosts(plan: Plan, p: Pair, h: Host, rows: seq<Row>, hosts: seq<Host>, slots: map<Host, nat>)
    requires h in hosts && Free(slots, plan.used, h) >= p.want.cpus && p.want.host == Some(h)
    requires forall x <- hosts ::
        Load(rows, OnHost(x)) + Claim(plan.pairs, OnHost(x)) <= Used(plan.used, x) <= Used(slots, x)
    requires forall x :: x !in hosts ==> Claim(plan.pairs, OnHost(x)) == 0
    ensures var used := plan.used[h := Used(plan.used, h) + p.want.cpus];
            && (forall x <- hosts ::
                Load(rows, OnHost(x)) + Claim(plan.pairs + [p], OnHost(x)) <= Used(used, x) <= Used(slots, x))
            && (forall x :: x !in hosts ==> Claim(plan.pairs + [p], OnHost(x)) == 0)
  {
    forall x ensures Claim(plan.pairs + [p], OnHost(x)) == Claim(plan.pairs, OnHost(x)) + Weight(p.want, OnHost(x)) {
      ClaimOneMore(plan.pairs, p, OnHost(x));
    }
  }

  lemma ConsiderArrays(plan: Plan, p: Pair, h: Host, rows: seq<Row>, arrays: map<nat, nat>)
    requires p.id < |rows| && SameJob(p.want, rows[p.id]) && TableAgrees(rows)
    requires !(p.want.limit > 0 && ArrayLoad(plan.arrays, p.want.jobId) >= p.want.limit)
    requires arrays == if p.want.index.Some?
                       then plan.arrays[p.want.jobId := ArrayLoad(plan.arrays, p.want.jobId) + 1] else plan.arrays
    requires forall id :: Load(rows, OfArray(id)) + Claim(plan.pairs, OfArray(id)) <= ArrayLoad(plan.arrays, id)
    requires forall i :: 0 <= i < |rows| && rows[i].limit > 0 ==> ArrayLoad(plan.arrays, rows[i].jobId) <= rows[i].limit
    ensures forall id :: Load(rows, OfArray(id)) + Claim(plan.pairs + [p], OfArray(id)) <= ArrayLoad(arrays, id)
    ensures forall i :: 0 <= i < |rows| && rows[i].limit > 0 ==> ArrayLoad(arrays, rows[i].jobId) <= rows[i].limit
  {
    forall id
      ensures Claim(plan.pairs + [p], OfArray(id)) == Claim(plan.pairs, OfArray(id)) + Weight(p.want, OfArray(id))
    {
      ClaimOneMore(plan.pairs, p, OfArray(id));
    }
  }

  lemma {:induction false} ReadsAreRows(rows: seq<Row>, order: seq<nat>)
    ensures forall r <- Reads(rows, order) :: r.id < |rows| && rows[r.id] == r.row && r.row.stat.Pend?
  {
    if order == [] {
    } else {
      ReadsAreRows(rows, order[..|order| - 1]);
    }
  }

  lemma {:induction false} PlanAllFits(plan: Plan, pending: seq<Read>, rows: seq<Row>, now: int, hosts: seq<Host>,
                                       slots: map<Host, nat>, max: nat)
    requires PlanFits(plan, rows, hosts, slots) && TableAgrees(rows)
    requires forall r <- pending :: r.id < |rows| && rows[r.id] == r.row && r.row.stat.Pend?
    ensures PlanFits(PlanAll(plan, pending, now, hosts, slots, max), rows, hosts, slots)
  {
    if pending == [] {
    } else {
      var n := |pending| - 1;
      assert forall r <- pending[..n] :: r in pending;
      assert pending[n] in pending;
      PlanAllFits(plan, pending[..n], rows, now, hosts, slots, max);
      ConsiderFits(PlanAll(plan, pending[..n], now, hosts, slots, max), pending[n], rows, now, hosts, slots, max);
    }
  }

  /** Whatever part of a plan gets past the guards, the table gains at most what it claimed. */
  lemma {:induction false} WritingGainsAtMostTheClaim(rows: seq<Row>, pairs: seq<Pair>)
    requires PairsFit(pairs, rows)
    ensures var later := GuardedMany(rows, pairs);
            && |later| == |rows| && (forall i :: 0 <= i < |rows| ==> SameJob(rows[i], later[i]))
            && forall res :: Load(later, res) <= Load(rows, res) + Claim(pairs, res)
  {
    if pairs == [] {
    } else {
      var n := |pairs| - 1;
      var mid, p := GuardedMany(rows, pairs[..n]), pairs[n];
      assert forall x <- pairs[..n] :: x in pairs;
      assert p in pairs;
      WritingGainsAtMostTheClaim(rows, pairs[..n]);
      forall res ensures Load(GuardedOne(mid, p), res) <= Load(rows, res) + Claim(pairs, res) {
        LoadUpdate(mid, p.id, Written(mid[p.id], p.want), res);
        assert Weight(Written(mid[p.id], p.want), res) == Weight(p.want, res);
      }
    }
  }

  lemma DispatchKeeps(s: System)
    requires Inv(s) && s.stage.Dispatching?
    ensures Inv(Next(s, WriteDispatches))
  {
    var t := Next(s, WriteDispatches);
    WritingGainsAtMostTheClaim(s.rows, s.stage.plan.pairs);
    forall h ensures Load(t.rows, OnHost(h)) <= Used(s.slots, h) {
      assert Load(t.rows, OnHost(h)) <= Load(s.rows, OnHost(h)) + Claim(s.stage.plan.pairs, OnHost(h));
    }
    forall i | 0 <= i < |t.rows| && t.rows[i].limit > 0
      ensures Load(t.rows, OfArray(t.rows[i].jobId)) <= t.rows[i].limit
    {
      assert SameJob(s.rows[i], t.rows[i]);
      assert ArrayLoad(s.stage.plan.arrays, s.rows[i].jobId) <= s.rows[i].limit;
    }
  }

  lemma NextKeeps(s: System, a: Action)
    requires Inv(s)
    ensures Inv(Next(s, a))
  {
    match a
    case ReadActive(now) => AdvancesFit(s.rows, now, |s.rows|);
    case WriteAdvances =>
      if s.stage.Advancing? {
        AdvancesCalmer(s.rows, s.stage.pairs);
        CalmerKeepsTable(s.rows, GuardedMany(s.rows, s.stage.pairs), s.slots);
      }
    case ReadLoads => MeasuredFits(s);
    case ReadPending(order) =>
      if s.stage.Choosing? {
        ReadsAreRows(s.rows, order);
        PlanAllFits(Plan([], s.stage.used, s.stage.arrays), Reads(s.rows, order), s.rows, s.stage.now,
                    s.hosts, s.slots, s.max);
      }
    case WriteDispatches => if s.stage.Dispatching? { DispatchKeeps(s); }
    case Crash =>
    case Bsub(jobId, rows) => BsubKeeps(s, jobId, rows);
    case Bkill(id, seen, reached, now) => CommandKeeps(s, a, id, seen, reached, now);
    case Bstop(id, seen, now) => CommandKeeps(s, a, id, seen, false, now);
    case Bresume(id, seen, now) => CommandKeeps(s, a, id, seen, false, now);
  }

  lemma CommandKeeps(s: System, a: Action, id: nat, seen: Row, reached: bool, now: int)
    requires Inv(s) && a in {Bkill(id, seen, reached, now), Bstop(id, seen, now), Bresume(id, seen, now)}
    ensures Inv(Next(s, a))
  {
    CommandCalmer(s.rows, id, seen, reached, now);
    CalmerKeepsTable(s.rows, Next(s, a).rows, s.slots);
    CalmerKeepsStage(s, Next(s, a).rows);
  }

  lemma {:induction false} RunKeeps(hosts: seq<Host>, slots: map<Host, nat>, max: nat, actions: seq<Action>)
    ensures Inv(After(hosts, slots, max, actions))
    ensures var s := After(hosts, slots, max, actions); s.hosts == hosts && s.slots == slots && s.max == max
    decreases |actions|
  {
    if actions == [] {
    } else {
      RunKeeps(hosts, slots, max, actions[..|actions| - 1]);
      NextKeeps(After(hosts, slots, max, actions[..|actions| - 1]), actions[|actions| - 1]);
    }
  }

  // ---------------------------------------------------------------------
  // Main results
  // ---------------------------------------------------------------------

  /** However ticks are interleaved with submissions, kills, stops and resumes, the CPUs in use on
      a host never exceed its slots and the running elements of an array never exceed its limit,
      although every decision was taken on rows that may have changed since. */
  lemma {:induction false} CapacityHolds(hosts: seq<Host>, slots: map<Host, nat>, max: nat, actions: seq<Action>)
    ensures var s := After(hosts, slots, max, actions);
            && (forall h :: Load(s.rows, OnHost(h)) <= Used(slots, h))
            && (forall i :: 0 <= i < |s.rows| && s.rows[i].limit > 0 ==>
                  Load(s.rows, OfArray(s.rows[i].jobId)) <= s.rows[i].limit)
  {
    RunKeeps(hosts, slots, max, actions);
  }

  /** A job that has ended stays as it is, whatever a stale snapshot wants to write. */
  lemma {:induction false} EndedRowsStay(hosts: seq<Host>, slots: map<Host, nat>, max: nat, actions: seq<Action>,
                                         a: Action, i: nat)
    requires i < |After(hosts, slots, max, actions).rows|
    requires After(hosts, slots, max, actions).rows[i].stat in {Done, Exit}
    ensures var s := After(hosts, slots, max, actions); var t := Next(s, a);
            i < |t.rows| && t.rows[i] == s.rows[i]
  {
    var s := After(hosts, slots, max, actions);
    RunKeeps(hosts, slots, max, actions);
    match a
    case WriteAdvances =>
      if s.stage.Advancing? {
        assert forall p <- s.stage.pairs :: Calming(p);
        GuardsKeepEndedRows(s.rows, s.stage.pairs, i);
      }
    case WriteDispatches =>
      if s.stage.Dispatching? {
        GuardsKeepEndedRows(s.rows, s.stage.plan.pairs, i);
      }
    case Bkill(id, seen, reached, now) => CommandsKeepEndedRows(s.rows, id, seen, reached, now, i);
    case Bstop(id, seen, now) => CommandsKeepEndedRows(s.rows, id, seen, false, now, i);
    case Bresume(id, seen, now) => CommandsKeepEndedRows(s.rows, id, seen, false, now, i);
    case _ =>
  }

  lemma CommandsKeepEndedRows(rows: seq<Row>, id: nat, seen: Row, reached: bool, now: int, i: nat)
    requires i < |rows| && rows[i].IsFinished()
    ensures |KillRow(rows, id, seen, reached, now)| == |rows| && KillRow(rows, id, seen, reached, now)[i] == rows[i]
    ensures |StopRow(rows, id, seen, now)| == |rows| && StopRow(rows, id, seen, now)[i] == rows[i]
    ensures |ResumeRow(rows, id, seen, now)| == |rows| && ResumeRow(rows, id, seen, now)[i] == rows[i]
  {
  }

  lemma {:induction false} GuardsKeepEndedRows(rows: seq<Row>, pairs: seq<Pair>, i: nat)
    requires i < |rows| && rows[i].IsFinished() && forall p <- pairs :: !p.prev.IsFinished()
    ensures |GuardedMany(rows, pairs)| == |rows| && GuardedMany(rows, pairs)[i] == rows[i]
  {
    if pairs == [] {
    } else {
      var n := |pairs| - 1;
      assert forall p <- pairs[..n] :: p in pairs;
      assert pairs[n] in pairs;
      GuardsKeepEndedRows(rows, pairs[..n], i);
    }
  }
}
