/** Single-flight fetching with takeover of hung fetches (lsfmgr/internal_status.py): the
    state under the condition's lock, the worker threads, and the readers that wait. */
module FetchProtocol {
  import opened JobModel
  import opened Latest

  const MAX_INFLIGHT: nat := 3

  datatype Health = Unused | Primary | Failover | Down

  predicate AtLeast(last: Option<int>, t: int) {
    last.Some? && last.value >= t
  }

  predicate Newer(last: Option<int>, before: Option<int>) {
    last.Some? && (before.None? || last.value > before.value)
  }

  datatype Source = Source(
    waitTimeout: int, hasFailover: bool, refreshMin: nat,
    lastFetchAt: Option<int>, fetching: bool, deadline: int, token: nat, nextToken: nat,
    inflight: nat, gen: nat, primaryUnreturned: nat,
    health: Health, healthAt: Option<int>, closed: bool)
  {
    function StartFetch(now: int): Source {
      this.(fetching := true, token := nextToken, nextToken := nextToken + 1,
            deadline := now + waitTimeout, inflight := inflight + 1)
    }

    /** Whether the next fetch would skip the main callback. */
    predicate UsesFailover() {
      hasFailover && primaryUnreturned > 0
    }

    predicate Exhausted(now: int) {
      fetching && now >= deadline && inflight >= MAX_INFLIGHT
    }

    function StartOrTakeover(now: int): Source {
      if !fetching then StartFetch(now)
      else if now < deadline then this
      else if inflight >= MAX_INFLIGHT then Noted(now, Down)
      else StartFetch(now)
    }

    /** A verdict older than the last one recorded is dropped. */
    function Noted(at: int, verdict: Health): Source {
      if healthAt.Some? && at <= healthAt.value then this
      else this.(health := verdict, healthAt := Some(at))
    }

    function Cleared(t: nat, at: int, ok: bool): Source {
      this.(inflight := if inflight > 0 then inflight - 1 else 0,
            lastFetchAt := if ok && Newer(Some(at), lastFetchAt) then Some(at) else lastFetchAt,
            fetching := fetching && token != t,
            gen := if token == t then gen + 1 else gen)
    }

    /** The closing section of a worker: only the current one ends the fetch. */
    function Finished(t: nat, at: int, ok: bool, verdict: Health): Source {
      Cleared(t, at, ok).Noted(at, verdict)
    }
  }

  function Begin(waitTimeout: int, hasFailover: bool, refreshMin: nat): Source {
    Source(waitTimeout, hasFailover, refreshMin, None, false, 0, 0, 1, 0, 0, 0, Unused, None, false)
  }

  class FetchState {
    const waitTimeout: int
    const hasFailover: bool
    var refreshMin: nat
    var lastFetchAt: Option<int>
    var fetching: bool
    var deadline: int
    var token: nat
    var nextToken: nat
    var inflight: nat
    var gen: nat
    var primaryUnreturned: nat
    var health: Health
    var healthAt: Option<int>
    var closed: bool

    function View(): Source
      reads this
    {
      Source(waitTimeout, hasFailover, refreshMin, lastFetchAt, fetching, deadline, token, nextToken,
             inflight, gen, primaryUnreturned, health, healthAt, closed)
    }

    constructor (waitTimeout: int, hasFailover: bool, refreshMin: nat)
      ensures View() == Begin(waitTimeout, hasFailover, refreshMin)
    {
      this.waitTimeout, this.hasFailover, this.refreshMin := waitTimeout, hasFailover, refreshMin;
      lastFetchAt, fetching, deadline, token, nextToken := None, false, 0, 0, 1;
      inflight, gen, primaryUnreturned, health, healthAt, closed := 0, 0, 0, Unused, None, false;
    }

    method StartFetch(now: int) returns (worker: nat, useFailover: bool)
      modifies this
      ensures View() == old(View()).StartFetch(now)
      ensures worker == token && useFailover == old(View()).UsesFailover()
    {
      fetching := true;
      token := nextToken;
      nextToken := nextToken + 1;
      deadline := now + waitTimeout;
      inflight := inflight + 1;
      return token, hasFailover && primaryUnreturned > 0;
    }

    method StartOrTakeover(now: int) returns (running: bool, started: Option<nat>)
      modifies this
      ensures View() == old(View()).StartOrTakeover(now)
      ensures running == !old(View()).Exhausted(now)
      ensures started == if !old(fetching) || (now >= old(deadline) && old(inflight) < MAX_INFLIGHT) then Some(token)
                         else None
    {
      if !fetching {
        var worker, _ := StartFetch(now);
        return true, Some(worker);
      }
      if now < deadline {
        return true, None;
      }
      if inflight >= MAX_INFLIGHT {
        NoteOutcome(now, Down);
        return false, None;
      }
      var worker, _ := StartFetch(now);
      return true, Some(worker);
    }

    method NoteOutcome(at: int, verdict: Health)
      modifies this`health, this`healthAt
      ensures View() == old(View()).Noted(at, verdict)
    {
      if healthAt.Some? && at <= healthAt.value {
        return;
      }
      healthAt := Some(at);
      health := verdict;
    }

    method FinishFetch(t: nat, at: int, ok: bool, verdict: Health)
      requires inflight > 0
      modifies this
      ensures View() == old(View()).Finished(t, at, ok, verdict)
    {
      inflight := inflight - 1;
      if ok && (lastFetchAt.None? || at > lastFetchAt.value) {
        lastFetchAt := Some(at);
      }
      if token == t {
        fetching := false;
        gen := gen + 1;
      }
      assert View() == old(View()).Cleared(t, at, ok);
      NoteOutcome(at, verdict);
    }
  }

  // ---------------------------------------------------------------------
  // Workers and readers
  // ---------------------------------------------------------------------

  datatype Worker =
    | Spawned(useFailover: bool)
    | InPrimary(at: int)                              // the main callback has not returned
    | InFailover(at: int)
    | Answered(at: int, ok: bool, byFailover: bool)   // closing section still to run
  {
    function Verdict(): Health
      requires Answered?
    {
      if !ok then Down else if byFailover then Failover else Primary
    }
  }

  datatype Wait =
    | Checking
    | Waiting(before: Option<int>, gen: nat)
    | Returned(ok: bool)

  /** seen: how many answers had been merged when the reader arrived. */
  datatype Reader = Reader(onlyNew: bool, started: int, minAt: int, deadline: int, seen: nat, pc: Wait)

  datatype System = System(src: Source, workers: map<nat, Worker>, readers: seq<Reader>, clock: int,
                           merged: seq<int>, notes: seq<Stamped<Health>>)
  {
    function Put(i: nat, pc: Wait): System
      requires i < |readers|
    {
      this.(readers := readers[i := readers[i].(pc := pc)])
    }

    function Note(at: int, verdict: Health): System {
      this.(notes := notes + [Stamped(at, verdict)])
    }
  }

  datatype Action =
    | Advance(d: nat) | Arrive(onlyNew: bool) | Check(i: nat) | Wake(i: nat) | GiveUp(i: nat)
    | RunWorker(t: nat) | CallbackReturns(t: nat, ok: bool) | EndWorker(t: nat)
    | Invalidate | Close | SetRefresh(interval: nat)

  function DoArrive(s: System, onlyNew: bool): System {
    var r := Reader(onlyNew, s.clock, if onlyNew then s.clock else s.clock - s.src.refreshMin,
                    s.clock + s.src.waitTimeout, |s.merged|, Checking);
    s.(readers := s.readers + [r])
  }

  /** The part of the reader's loop before it waits. */
  function DoCheck(s: System, i: nat): System {
    if i < |s.readers| && s.readers[i].pc.Checking? then
      if s.src.closed then s.Put(i, Returned(false))
      else if AtLeast(s.src.lastFetchAt, s.readers[i].minAt) then s.Put(i, Returned(true))
      else
        var src := s.src.StartOrTakeover(s.clock);
        var t := s.(src := src);
        if s.src.Exhausted(s.clock) then t.Note(s.clock, Down).Put(i, Returned(false))
        else if src.token != s.src.token then
          t.(workers := s.workers[src.token := Spawned(s.src.UsesFailover())]).Put(i, Waiting(src.lastFetchAt, src.gen))
        else t.Put(i, Waiting(src.lastFetchAt, src.gen))
    else s
  }

  /** The part after a notification. */
  function DoWake(s: System, i: nat): System {
    if i < |s.readers| && s.readers[i].pc.Waiting? then
      var r := s.readers[i];
      if s.src.closed then s.Put(i, Returned(false))
      else if s.src.gen == r.pc.gen then s.Put(i, Checking)
      else if !Newer(s.src.lastFetchAt, r.pc.before) then s.Put(i, Returned(false))
      else if AtLeast(s.src.lastFetchAt, r.minAt) || !r.onlyNew then s.Put(i, Returned(true))
      else s.Put(i, Checking)
    else s
  }

  function DoGiveUp(s: System, i: nat): System {
    if i < |s.readers| && s.readers[i].pc.Waiting? && s.clock >= s.readers[i].deadline then
      s.(src := s.src.Noted(s.clock, Down)).Note(s.clock, Down).Put(i, Returned(false))
    else s
  }

  function DoRunWorker(s: System, t: nat): System {
    if t in s.workers && s.workers[t].Spawned? then
      if s.workers[t].useFailover then s.(workers := s.workers[t := InFailover(s.clock)])
      else s.(workers := s.workers[t := InPrimary(s.clock)],
              src := s.src.(primaryUnreturned := s.src.primaryUnreturned + 1))
    else s
  }

  /** A failing main callback is followed by the backup, in the same thread. */
  function DoCallbackReturns(s: System, t: nat, ok: bool): System {
    if t in s.workers && s.workers[t].InPrimary? then
      s.(src := s.src.(primaryUnreturned := if s.src.primaryUnreturned > 0 then s.src.primaryUnreturned - 1 else 0),
         workers := s.workers[t := if !ok && s.src.hasFailover then InFailover(s.workers[t].at)
                                   else Answered(s.workers[t].at, ok, false)])
    else if t in s.workers && s.workers[t].InFailover? then
      s.(workers := s.workers[t := Answered(s.workers[t].at, ok, true)])
    else s
  }

  function DoEndWorker(s: System, t: nat): System {
    if t in s.workers && s.workers[t].Answered? then
      var w := s.workers[t];
      s.(src := s.src.Finished(t, w.at, w.ok, w.Verdict()), workers := s.workers - {t},
         merged := if w.ok then s.merged + [w.at] else s.merged).Note(w.at, w.Verdict())
    else s
  }

  function Next(s: System, a: Action): System {
    match a
    case Advance(d) => s.(clock := s.clock + d)
    case Arrive(onlyNew) => DoArrive(s, onlyNew)
    case Check(i) => DoCheck(s, i)
    case Wake(i) => DoWake(s, i)
    case GiveUp(i) => DoGiveUp(s, i)
    case RunWorker(t) => DoRunWorker(s, t)
    case CallbackReturns(t, ok) => DoCallbackReturns(s, t, ok)
    case EndWorker(t) => DoEndWorker(s, t)
    case Invalidate => s.(src := s.src.(lastFetchAt := None))
    case Close => s.(src := s.src.(closed := true))
    case SetRefresh(interval) => s.(src := s.src.(refreshMin := interval))
  }

  function After(src: Source, start: int, actions: seq<Action>): System {
    if actions == [] then System(src, map[], [], start, [], [])
    else Next(After(src, start, actions[..|actions| - 1]), actions[|actions| - 1])
  }

  // ---------------------------------------------------------------------
  // The invariant
  // ---------------------------------------------------------------------

  function InMain(workers: map<nat, Worker>): set<nat> {
    set t | t in workers && workers[t].InPrimary?
  }

  ghost predicate WorkersAgree(s: System) {
    && s.src.inflight == |s.workers|
    && s.src.inflight + (if s.src.fetching then 0 else 1) <= MAX_INFLIGHT
    && (s.src.fetching <==> s.src.token in s.workers)
    && (forall t <- s.workers :: t < s.src.nextToken)
    && s.src.token < s.src.nextToken
    && s.src.primaryUnreturned == |InMain(s.workers)|
  }

  /** A worker that is not the current one was started earlier. */
  ghost predicate ClockAgrees(s: System) {
    && (s.src.lastFetchAt.Some? ==> s.src.lastFetchAt.value in s.merged)
    && (forall t <- s.workers :: !s.workers[t].Spawned? ==> s.workers[t].at <= s.clock)
    && (forall i :: 0 <= i < |s.merged| ==> s.merged[i] <= s.clock)
  }

  ghost predicate MergedSince(s: System, seen: nat, t: int) {
    exists j :: seen <= j < |s.merged| && s.merged[j] >= t
  }

  ghost predicate ReaderAgrees(s: System, r: Reader) {
    && r.minAt <= r.started <= s.clock && (r.onlyNew ==> r.minAt == r.started) && r.seen <= |s.merged|
    && (r.pc.Waiting? ==>
          && r.pc.gen <= s.src.gen
          && (r.pc.gen == s.src.gen ==> s.src.fetching)
          && (Newer(s.src.lastFetchAt, r.pc.before) ==>
              exists j :: r.seen <= j < |s.merged| && s.src.lastFetchAt == Some(s.merged[j])))
    && (r.pc == Returned(true) ==>
          if r.onlyNew then MergedSince(s, 0, r.started)
          else MergedSince(s, 0, r.minAt) || |s.merged| > r.seen)
  }

  ghost predicate HealthAgrees(s: System) {
    && (s.src.healthAt.None? <==> s.notes == [])
    && (s.src.healthAt.Some? ==>
          && Stamped(s.src.healthAt.value, s.src.health) in s.notes
          && forall n <- s.notes :: n.at <= s.src.healthAt.value)
  }

  ghost predicate Inv(s: System) {
    && WorkersAgree(s) && ClockAgrees(s) && HealthAgrees(s)
    && forall i :: 0 <= i < |s.readers| ==> ReaderAgrees(s, s.readers[i])
  }

  // ---------------------------------------------------------------------
  // Every action keeps it
  // ---------------------------------------------------------------------

  lemma NotedKeeps(s: System, at: int, verdict: Health)
    requires HealthAgrees(s)
    ensures HealthAgrees(s.(src := s.src.Noted(at, verdict)).Note(at, verdict))
  {
    var t := s.(src := s.src.Noted(at, verdict)).Note(at, verdict);
    assert Stamped(at, verdict) in t.notes;
    forall n <- t.notes ensures n.at <= t.src.healthAt.value {
      assert n in s.notes || n == Stamped(at, verdict);
    }
  }

  lemma SpawnKeeps(s: System, t: System)
    requires WorkersAgree(s) && !s.src.Exhausted(s.clock) && (!s.src.fetching || s.clock >= s.src.deadline)
    requires t.src == s.src.StartFetch(s.clock)
    requires t.workers == s.workers[t.src.token := Spawned(s.src.UsesFailover())]
    ensures WorkersAgree(t)
  {
    assert t.workers.Keys == s.workers.Keys + {s.src.nextToken};
    assert |t.workers| == |s.workers| + 1 by {
      assert |t.workers.Keys| == |s.workers.Keys| + 1;
    }
    assert InMain(t.workers) == InMain(s.workers);
  }

  lemma CheckKeepsWorkers(s: System, i: nat)
    requires WorkersAgree(s)
    ensures WorkersAgree(DoCheck(s, i))
  {
    if i < |s.readers| && s.readers[i].pc.Checking? && !s.src.closed
       && !AtLeast(s.src.lastFetchAt, s.readers[i].minAt) && !s.src.Exhausted(s.clock)
       && (!s.src.fetching || s.clock >= s.src.deadline) {
      SpawnKeeps(s, DoCheck(s, i));
    }
  }

  lemma MainGrows(workers: map<nat, Worker>, t: nat, at: int)
    requires t in workers && !workers[t].InPrimary?
    ensures |InMain(workers[t := InPrimary(at)])| == |InMain(workers)| + 1
    ensures |workers[t := InPrimary(at)]| == |workers|
  {
    assert InMain(workers[t := InPrimary(at)]) == InMain(workers) + {t};
    assert workers[t := InPrimary(at)].Keys == workers.Keys;
  }

  lemma MainShrinks(workers: map<nat, Worker>, t: nat, w: Worker)
    requires t in workers && !w.InPrimary?
    ensures |InMain(workers[t := w])| == |InMain(workers)| - (if workers[t].InPrimary? then 1 else 0)
    ensures |workers[t := w]| == |workers|
  {
    assert InMain(workers[t := w]) == InMain(workers) - {t};
    assert workers[t].InPrimary? <==> t in InMain(workers);
    assert workers[t := w].Keys == workers.Keys;
  }

  lemma RunKeepsWorkers(s: System, t: nat, ok: bool)
    requires WorkersAgree(s)
    ensures WorkersAgree(DoRunWorker(s, t)) && WorkersAgree(DoCallbackReturns(s, t, ok))
  {
    if t in s.workers && s.workers[t].Spawned? {
      MainGrows(s.workers, t, s.clock);
      MainShrinks(s.workers, t, InFailover(s.clock));
    } else if t in s.workers && !s.workers[t].Answered? {
      MainShrinks(s.workers, t, DoCallbackReturns(s, t, ok).workers[t]);
      assert s.workers[t].InPrimary? ==> t in InMain(s.workers);
    }
  }

  lemma EndKeepsWorkers(s: System, t: nat)
    requires WorkersAgree(s)
    ensures WorkersAgree(DoEndWorker(s, t))
  {
    if t in s.workers && s.workers[t].Answered? {
      var e := DoEndWorker(s, t);
      assert e.workers.Keys == s.workers.Keys - {t};
      assert |e.workers| == |s.workers| - 1 by {
        assert |e.workers.Keys| == |s.workers.Keys| - 1;
      }
      assert InMain(e.workers) == InMain(s.workers);
    }
  }

  lemma NextKeepsWorkers(s: System, a: Action)
    requires WorkersAgree(s)
    ensures WorkersAgree(Next(s, a))
  {
    match a
    case Check(i) => CheckKeepsWorkers(s, i);
    case RunWorker(t) => RunKeepsWorkers(s, t, false);
    case CallbackReturns(t, ok) => RunKeepsWorkers(s, t, ok);
    case EndWorker(t) => EndKeepsWorkers(s, t);
    case _ =>
  }

  lemma NextKeepsHealth(s: System, a: Action)
    requires HealthAgrees(s)
    ensures HealthAgrees(Next(s, a))
  {
    match a
    case Check(i) => NotedKeeps(s, s.clock, Down);
    case GiveUp(i) => NotedKeeps(s, s.clock, Down);
    case EndWorker(t) =>
      if t in s.workers && s.workers[t].Answered? {
        var w := s.workers[t];
        NotedKeeps(s.(src := s.src.Cleared(t, w.at, w.ok)), w.at, w.Verdict());
      }
    case _ =>
  }

  lemma NextKeepsClock(s: System, a: Action)
    requires ClockAgrees(s)
    ensures ClockAgrees(Next(s, a))
  {
  }

  /** What a reader has seen stays seen while the fetch state moves on. */
  ghost predicate Later(s: System, t: System) {
    && s.merged <= t.merged && s.clock <= t.clock && s.src.gen <= t.src.gen
    && (s.src.fetching && !t.src.fetching ==> s.src.gen < t.src.gen)
    && (t.src.lastFetchAt == s.src.lastFetchAt || t.src.lastFetchAt.None?
        || (|t.merged| == |s.merged| + 1 && t.src.lastFetchAt == Some(t.merged[|s.merged|])))
  }

  lemma NextIsLater(s: System, a: Action)
    requires WorkersAgree(s)
    ensures Later(s, Next(s, a))
  {
  }

  lemma LaterKeepsReader(s: System, t: System, r: Reader)
    requires ReaderAgrees(s, r) && Later(s, t)
    ensures ReaderAgrees(t, r)
  {
    if r.pc.Waiting? && Newer(t.src.lastFetchAt, r.pc.before) {
      if t.src.lastFetchAt == s.src.lastFetchAt {
        var j :| r.seen <= j < |s.merged| && s.src.lastFetchAt == Some(s.merged[j]);
        assert t.merged[j] == s.merged[j];
      } else {
        assert r.seen <= |s.merged| < |t.merged|;
      }
    }
    if r.pc == Returned(true) {
      if MergedSince(s, 0, r.minAt) {
        var j :| 0 <= j < |s.merged| && s.merged[j] >= r.minAt;
        assert t.merged[j] >= r.minAt;
      }
      if r.onlyNew {
        var j :| 0 <= j < |s.merged| && s.merged[j] >= r.started;
        assert t.merged[j] >= r.started;
      }
    }
  }

  /** The reader that acts: each way out of its loop is justified. */
  lemma CheckedReader(s: System, i: nat)
    requires WorkersAgree(s) && ClockAgrees(s) && i < |s.readers| && ReaderAgrees(s, s.readers[i])
    ensures ReaderAgrees(DoCheck(s, i), DoCheck(s, i).readers[i])
  {
    var r := s.readers[i];
    if r.pc.Checking? && !s.src.closed && AtLeast(s.src.lastFetchAt, r.minAt) {
      var j :| 0 <= j < |s.merged| && s.merged[j] == s.src.lastFetchAt.value;
      assert MergedSince(s, 0, r.minAt);
    }
  }

  lemma WokenReader(s: System, i: nat)
    requires WorkersAgree(s) && ClockAgrees(s) && i < |s.readers| && ReaderAgrees(s, s.readers[i])
    ensures ReaderAgrees(DoWake(s, i), DoWake(s, i).readers[i])
  {
    var r := s.readers[i];
    if r.pc.Waiting? && !s.src.closed && Newer(s.src.lastFetchAt, r.pc.before) {
      var j :| r.seen <= j < |s.merged| && s.src.lastFetchAt == Some(s.merged[j]);
      assert AtLeast(s.src.lastFetchAt, r.minAt) ==> MergedSince(s, 0, r.minAt);
    }
  }

  lemma ArrivedReader(s: System, onlyNew: bool)
    ensures ReaderAgrees(DoArrive(s, onlyNew), DoArrive(s, onlyNew).readers[|s.readers|])
  {
  }

  predicate ActsOn(a: Action, i: nat) {
    (a.Check? || a.Wake? || a.GiveUp?) && a.i == i
  }

  lemma OtherReadersStand(s: System, a: Action, i: nat)
    requires i < |s.readers| && !ActsOn(a, i)
    ensures i < |Next(s, a).readers| && Next(s, a).readers[i] == s.readers[i]
  {
  }

  lemma ActingReaderAgrees(s: System, a: Action)
    requires WorkersAgree(s) && ClockAgrees(s) && (a.Check? || a.Wake? || a.GiveUp?)
    requires a.i < |s.readers| && ReaderAgrees(s, s.readers[a.i])
    ensures ReaderAgrees(Next(s, a), Next(s, a).readers[a.i])
  {
    match a
    case Check(i) => CheckedReader(s, i);
    case Wake(i) => WokenReader(s, i);
    case GiveUp(i) =>
  }

  lemma NextKeepsReaders(s: System, a: Action)
    requires Inv(s)
    ensures var t := Next(s, a); forall i :: 0 <= i < |t.readers| ==> ReaderAgrees(t, t.readers[i])
  {
    var t := Next(s, a);
    NextIsLater(s, a);
    forall i: nat | i < |t.readers| ensures ReaderAgrees(t, t.readers[i]) {
      if i >= |s.readers| {
        ArrivedReader(s, a.onlyNew);
      } else if ActsOn(a, i) {
        ActingReaderAgrees(s, a);
      } else {
        OtherReadersStand(s, a, i);
        LaterKeepsReader(s, t, s.readers[i]);
      }
    }
  }

  lemma NextKeeps(s: System, a: Action)
    requires Inv(s)
    ensures Inv(Next(s, a))
  {
    NextKeepsWorkers(s, a);
    NextKeepsClock(s, a);
    NextKeepsHealth(s, a);
    NextKeepsReaders(s, a);
  }

  lemma BeginAgrees(waitTimeout: int, hasFailover: bool, refreshMin: nat, start: int)
    ensures Inv(System(Begin(waitTimeout, hasFailover, refreshMin), map[], [], start, [], []))
  {
    assert InMain(map[]) == {};
  }

  lemma {:induction false} RunKeeps(src: Source, start: int, actions: seq<Action>)
    requires exists w: int, f, r :: src == Begin(w, f, r)
    ensures Inv(After(src, start, actions))
    decreases |actions|
  {
    if actions == [] {
      BeginAgrees(src.waitTimeout, src.hasFailover, src.refreshMin, start);
    } else {
      RunKeeps(src, start, actions[..|actions| - 1]);
      NextKeeps(After(src, start, actions[..|actions| - 1]), actions[|actions| - 1]);
    }
  }

  // ---------------------------------------------------------------------
  // Main results
  // ---------------------------------------------------------------------

  /** At most MAX_INFLIGHT callbacks are ever outstanding, although a start from the idle
      state does not look at the limit; and while a fetch is marked as running, the thread
      that will end it exists. */
  lemma {:induction false} OutstandingFetchesAreBounded(waitTimeout: int, hasFailover: bool, refreshMin: nat,
                                                        start: int, actions: seq<Action>)
    ensures var s := After(Begin(waitTimeout, hasFailover, refreshMin), start, actions);
            && |s.workers| + (if s.src.fetching then 0 else 1) <= MAX_INFLIGHT
            && (s.src.fetching <==> s.src.token in s.workers)
            && s.src.primaryUnreturned == |InMain(s.workers)|
  {
    RunKeeps(Begin(waitTimeout, hasFailover, refreshMin), start, actions);
  }

  /** A True answer is backed by a merged fetch: one that began at or after the call when only
      new data will do, else one inside the refresh window or one merged since the call. */
  lemma {:induction false} TrueMeansFetched(waitTimeout: int, hasFailover: bool, refreshMin: nat, start: int,
                                            actions: seq<Action>, i: nat)
    requires var s := After(Begin(waitTimeout, hasFailover, refreshMin), start, actions);
             i < |s.readers| && s.readers[i].pc == Returned(true)
    ensures var s := After(Begin(waitTimeout, hasFailover, refreshMin), start, actions); var r := s.readers[i];
            if r.onlyNew then exists j :: 0 <= j < |s.merged| && s.merged[j] >= r.started
            else (exists j :: 0 <= j < |s.merged| && s.merged[j] >= r.minAt) || |s.merged| > r.seen
  {
    RunKeeps(Begin(waitTimeout, hasFailover, refreshMin), start, actions);
    var s := After(Begin(waitTimeout, hasFailover, refreshMin), start, actions);
    assert ReaderAgrees(s, s.readers[i]);
  }

  /** A reader that has not been notified of a completed fetch waits for a thread that exists. */
  lemma {:induction false} NobodyWaitsForNothing(waitTimeout: int, hasFailover: bool, refreshMin: nat, start: int,
                                                 actions: seq<Action>, i: nat)
    requires var s := After(Begin(waitTimeout, hasFailover, refreshMin), start, actions);
             i < |s.readers| && s.readers[i].pc.Waiting? && s.readers[i].pc.gen == s.src.gen
    ensures var s := After(Begin(waitTimeout, hasFailover, refreshMin), start, actions); s.src.token in s.workers
  {
    RunKeeps(Begin(waitTimeout, hasFailover, refreshMin), start, actions);
    var s := After(Begin(waitTimeout, hasFailover, refreshMin), start, actions);
    assert ReaderAgrees(s, s.readers[i]);
  }

  /** The health shown is that of the latest-stamped outcome, in whatever order they arrived. */
  lemma {:induction false} HealthIsTheLatestVerdict(waitTimeout: int, hasFailover: bool, refreshMin: nat, start: int,
                                                    actions: seq<Action>)
    ensures var s := After(Begin(waitTimeout, hasFailover, refreshMin), start, actions);
            && (s.notes != [] ==> s.src.healthAt.Some? && Stamped(s.src.healthAt.value, s.src.health) in s.notes)
            && (forall n <- s.notes :: s.src.healthAt.Some? && n.at <= s.src.healthAt.value)
            && (s.notes != [] && DistinctStamps(s.notes) ==>
                  Choose(s.notes) == Some(Stamped(s.src.healthAt.value, s.src.health)))
  {
    RunKeeps(Begin(waitTimeout, hasFailover, refreshMin), start, actions);
    var s := After(Begin(waitTimeout, hasFailover, refreshMin), start, actions);
    ChosenIsLatest(s.notes);
    if s.notes != [] && DistinctStamps(s.notes) {
      StampsIdentify(s.notes, Choose(s.notes).value, Stamped(s.src.healthAt.value, s.src.health));
    }
  }

  // ---------------------------------------------------------------------
  // Which callback is asked, and when
  // ---------------------------------------------------------------------

  /** What a worker has behind it: no failure without the backup, and no backup where there is none. */
  ghost predicate BackupIsUsed(s: System) {
    forall t <- s.workers ::
      && (s.workers[t].Answered? && !s.workers[t].ok && s.src.hasFailover ==> s.workers[t].byFailover)
      && (!s.src.hasFailover ==>
            && !s.workers[t].InFailover?
            && (s.workers[t].Spawned? ==> !s.workers[t].useFailover)
            && (s.workers[t].Answered? ==> !s.workers[t].byFailover))
  }

  lemma NextUsesBackup(s: System, a: Action)
    requires BackupIsUsed(s)
    ensures BackupIsUsed(Next(s, a))
  {
  }

  lemma {:induction false} RunUsesBackup(src: Source, start: int, actions: seq<Action>)
    ensures BackupIsUsed(After(src, start, actions))
    decreases |actions|
  {
    if actions == [] {
    } else {
      RunUsesBackup(src, start, actions[..|actions| - 1]);
      NextUsesBackup(After(src, start, actions[..|actions| - 1]), actions[|actions| - 1]);
    }
  }

  /** A fetch counts as failed only when the backup has failed too: over every run, a closing section
      that merges nothing belongs to a thread that asked the backup, if there is one. */
  lemma {:induction false} FailedOnlyAfterTheBackup(waitTimeout: int, hasFailover: bool, refreshMin: nat, start: int,
                                                    actions: seq<Action>, t: nat)
    requires var s := After(Begin(waitTimeout, hasFailover, refreshMin), start, actions);
             t in s.workers && s.workers[t].Answered?
    ensures var s := After(Begin(waitTimeout, hasFailover, refreshMin), start, actions);
            && (!s.workers[t].ok && hasFailover ==> s.workers[t].byFailover)
            && (s.workers[t].byFailover ==> hasFailover)
            && (Next(s, EndWorker(t)).merged == s.merged <==> !s.workers[t].ok)
            && Next(s, EndWorker(t)).notes == s.notes + [Stamped(s.workers[t].at,
                  if !s.workers[t].ok then Down else if s.workers[t].byFailover then Failover else Primary)]
  {
    RunUsesBackup(Begin(waitTimeout, hasFailover, refreshMin), start, actions);
    RunSettings(Begin(waitTimeout, hasFailover, refreshMin), start, actions);
    var s := After(Begin(waitTimeout, hasFailover, refreshMin), start, actions);
    assert |s.merged + [s.workers[t].at]| == |s.merged| + 1;
  }

  lemma InMainMeans(workers: map<nat, Worker>)
    ensures |InMain(workers)| > 0 <==> exists t :: t in workers && workers[t].InPrimary?
  {
    if |InMain(workers)| > 0 {
      var t :| t in InMain(workers);
    }
    if t :| t in workers && workers[t].InPrimary? {
      assert t in InMain(workers);
    }
  }

  /** A new thread comes only while no fetch is marked as running or the running one has had its whole
      wait; it skips the main callback exactly if there is a backup and a main callback is out; and it has the
      whole wait again. No other step moves a deadline. */
  ghost predicate BeginsWhenDue(s: System, t: System, waitTimeout: int, hasFailover: bool) {
    if t.src.token == s.src.token then t.src.deadline == s.src.deadline && t.workers.Keys <= s.workers.Keys
    else
      && (!s.src.fetching || s.clock >= s.src.deadline)
      && t.src.fetching && t.src.deadline == s.clock + waitTimeout
      && t.src.token !in s.workers && t.workers.Keys == s.workers.Keys + {t.src.token}
      && t.workers[t.src.token] == Spawned(hasFailover && exists w :: w in s.workers && s.workers[w].InPrimary?)
  }

  lemma CheckBeginsWhenDue(s: System, i: nat)
    requires WorkersAgree(s)
    ensures BeginsWhenDue(s, DoCheck(s, i), s.src.waitTimeout, s.src.hasFailover)
  {
    InMainMeans(s.workers);
  }

  lemma NextBeginsWhenDue(s: System, a: Action)
    requires WorkersAgree(s)
    ensures BeginsWhenDue(s, Next(s, a), s.src.waitTimeout, s.src.hasFailover)
  {
    if a.Check? {
      CheckBeginsWhenDue(s, a.i);
    }
  }

  lemma {:induction false} FetchesBeginWhenDue(waitTimeout: int, hasFailover: bool, refreshMin: nat, start: int,
                                               actions: seq<Action>, a: Action)
    ensures var s := After(Begin(waitTimeout, hasFailover, refreshMin), start, actions);
            BeginsWhenDue(s, Next(s, a), waitTimeout, hasFailover)
  {
    RunKeeps(Begin(waitTimeout, hasFailover, refreshMin), start, actions);
    RunSettings(Begin(waitTimeout, hasFailover, refreshMin), start, actions);
    NextBeginsWhenDue(After(Begin(waitTimeout, hasFailover, refreshMin), start, actions), a);
  }

  lemma NextSettings(s: System, a: Action)
    ensures Next(s, a).src.waitTimeout == s.src.waitTimeout && Next(s, a).src.hasFailover == s.src.hasFailover
  {
  }

  lemma {:induction false} RunSettings(src: Source, start: int, actions: seq<Action>)
    ensures After(src, start, actions).src.waitTimeout == src.waitTimeout
    ensures After(src, start, actions).src.hasFailover == src.hasFailover
    decreases |actions|
  {
    if actions == [] {
    } else {
      RunSettings(src, start, actions[..|actions| - 1]);
      NextSettings(After(src, start, actions[..|actions| - 1]), actions[|actions| - 1]);
    }
  }

  // ---------------------------------------------------------------------
  // Why a reader leaves
  // ---------------------------------------------------------------------

  /** A reader leaves with True only on data of the age it asked for, or, unless it insists on new data, on
      a fetch that ended while it waited; and with False only if the source closed, its own time is up, the
      fetch it waited for brought nothing newer, or too many callbacks are out to begin another. */
  lemma ReadersLeaveForAReason(s: System, a: Action, i: nat)
    requires i < |s.readers| && !s.readers[i].pc.Returned? && Next(s, a).readers[i].pc.Returned?
    ensures var r := s.readers[i]; var last := s.src.lastFetchAt;
            if Next(s, a).readers[i].pc.ok then
              && !s.src.closed && last.Some?
              && (last.value >= r.minAt
                  || (!r.onlyNew && r.pc.Waiting? && s.src.gen != r.pc.gen
                      && (r.pc.before.None? || last.value > r.pc.before.value)))
            else
              || s.src.closed
              || (r.pc.Waiting? && s.clock >= r.deadline)
              || (r.pc.Waiting? && s.src.gen != r.pc.gen
                  && (last.None? || (r.pc.before.Some? && last.value <= r.pc.before.value)))
              || (r.pc.Checking? && s.src.fetching && s.clock >= s.src.deadline && s.src.inflight >= MAX_INFLIGHT
                  && (last.None? || last.value < r.minAt))
  {
  }

  /** And it does leave with True as soon as it looks and such data is there. */
  lemma FreshDataIsTaken(s: System, i: nat)
    requires i < |s.readers| && !s.src.closed && s.src.lastFetchAt.Some?
    ensures s.readers[i].pc.Checking? && s.src.lastFetchAt.value >= s.readers[i].minAt ==>
              Next(s, Check(i)).readers[i].pc == Returned(true)
    ensures var r := s.readers[i];
            (r.pc.Waiting? && r.pc.gen != s.src.gen
             && (r.pc.before.None? || s.src.lastFetchAt.value > r.pc.before.value)) ==>
              (Next(s, Wake(i)).readers[i].pc == Returned(true)
               <==> s.src.lastFetchAt.value >= r.minAt || !r.onlyNew)
  {
  }

  /** It leaves as well when its time is up, and once the source is closed it leaves as soon as it looks. */
  lemma LateAndClosedReadersLeave(s: System, i: nat)
    requires i < |s.readers|
    ensures s.readers[i].pc.Waiting? && s.clock >= s.readers[i].deadline ==>
              Next(s, GiveUp(i)).readers[i].pc == Returned(false)
    ensures var t := Next(s, Close);
            && t.readers == s.readers
            && (s.readers[i].pc.Checking? ==> Next(t, Check(i)).readers[i].pc == Returned(false))
            && (s.readers[i].pc.Waiting? ==> Next(t, Wake(i)).readers[i].pc == Returned(false))
  {
  }

  /** The health shown changes only with an outcome that is newer than the one it shows. */
  lemma OnlyNewerVerdictsCount(s: System, a: Action)
    ensures var t := Next(s, a);
            t.src.health != s.src.health || t.src.healthAt != s.src.healthAt ==>
              && |t.notes| == |s.notes| + 1 && t.src.healthAt == Some(t.notes[|s.notes|].at)
              && t.src.health == t.notes[|s.notes|].value
              && (s.src.healthAt.Some? ==> t.notes[|s.notes|].at > s.src.healthAt.value)
  {
  }

  /** How old the data may be is fixed when the reader comes. */
  lemma AgeIsFixedOnArrival(s: System, onlyNew: bool)
    ensures var t := Next(s, Arrive(onlyNew)); var r := t.readers[|s.readers|];
            && |t.readers| == |s.readers| + 1 && r.onlyNew == onlyNew && r.pc == Checking && r.started == s.clock
            && s.clock - r.minAt == (if onlyNew then 0 else s.src.refreshMin)
            && r.deadline == s.clock + s.src.waitTimeout
  {
  }

  /** The time of the last fetch is that of the latest-started one merged: late answers never turn it back. */
  lemma {:induction false} LastFetchIsTheLatest(waitTimeout: int, hasFailover: bool, refreshMin: nat, start: int,
                                                actions: seq<Action>)
    requires forall a <- actions :: !a.Invalidate?
    ensures var s := After(Begin(waitTimeout, hasFailover, refreshMin), start, actions);
            && (s.src.lastFetchAt.None? <==> s.merged == [])
            && (s.src.lastFetchAt.Some? ==> s.src.lastFetchAt.value in s.merged)
            && forall m <- s.merged :: s.src.lastFetchAt.Some? && m <= s.src.lastFetchAt.value
    decreases |actions|
  {
    if actions == [] {
    } else {
      LastFetchIsTheLatest(waitTimeout, hasFailover, refreshMin, start, actions[..|actions| - 1]);
      NextKeepsLatest(After(Begin(waitTimeout, hasFailover, refreshMin), start, actions[..|actions| - 1]),
                      actions[|actions| - 1]);
    }
  }

  lemma NextKeepsLatest(s: System, a: Action)
    requires !a.Invalidate?
    requires s.src.lastFetchAt.None? <==> s.merged == []
    requires s.src.lastFetchAt.Some? ==> s.src.lastFetchAt.value in s.merged
    requires forall m <- s.merged :: s.src.lastFetchAt.Some? && m <= s.src.lastFetchAt.value
    ensures var t := Next(s, a);
            && (t.src.lastFetchAt.None? <==> t.merged == [])
            && (t.src.lastFetchAt.Some? ==> t.src.lastFetchAt.value in t.merged)
            && forall m <- t.merged :: t.src.lastFetchAt.Some? && m <= t.src.lastFetchAt.value
  {
    var t := Next(s, a);
    if t.merged != s.merged {
      assert t.merged == s.merged + [t.merged[|s.merged|]];
    }
  }

  // ---------------------------------------------------------------------
  // Equal start times do occur
  // ---------------------------------------------------------------------

  lemma AfterOneMore(src: Source, start: int, actions: seq<Action>, a: Action)
    ensures After(src, start, actions + [a]) == Next(After(src, start, actions), a)
  {
    assert (actions + [a])[..|actions|] == actions;
  }

  /** A thread that is slow to start reads the clock only after its fetch was taken over: then two
      outstanding fetches carry the same start time, and may end in either order. */
  lemma TwoFetchesMayStartTogether(waitTimeout: nat, hasFailover: bool, refreshMin: nat, start: int)
    returns (actions: seq<Action>)
    ensures var s := After(Begin(waitTimeout, hasFailover, refreshMin), start, actions);
            && 1 in s.workers && s.workers[1].InPrimary? && 2 in s.workers && s.workers[2].InPrimary?
            && s.workers[1].at == s.workers[2].at
  {
    var src := Begin(waitTimeout, hasFailover, refreshMin);
    actions := [];
    assert After(src, start, actions).src == src;
    AfterOneMore(src, start, [], Arrive(true));
    AfterOneMore(src, start, [] + [Arrive(true)], Check(0));
    actions := [] + [Arrive(true)] + [Check(0)];
    AfterOneMore(src, start, actions, Advance(waitTimeout));
    AfterOneMore(src, start, actions + [Advance(waitTimeout)], Arrive(true));
    actions := actions + [Advance(waitTimeout)] + [Arrive(true)];
    AfterOneMore(src, start, actions, Check(1));
    AfterOneMore(src, start, actions + [Check(1)], RunWorker(1));
    actions := actions + [Check(1)] + [RunWorker(1)];
    AfterOneMore(src, start, actions, RunWorker(2));
    actions := actions + [RunWorker(2)];
  }
}
