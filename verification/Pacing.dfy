/** Keeping each displayed state on screen for a while (lsfmgr/pacer.py): transitions are
    delayed, never dropped or reordered. Times are in milliseconds. */
module Pacing {
  import opened JobModel

  const DUE_TOLERANCE: int := 5
  const PRUNE_AT: nat := 4096

  datatype Rec = Rec(key: Key, state: JobState, detail: string)

  /** One table row: a key of one jobset. */
  datatype Slot = Slot(jobset: string, key: Key)

  datatype Shown = Shown(state: JobState, since: int)

  datatype Sent = Sent(rec: Rec, at: int)

  /** Everything the pacer knows and has done about one row. */
  datatype Cell = Cell(shown: Option<Shown>, queue: seq<Rec>, sent: seq<Sent>)

  /** An update of the last waiting state replaces it: it is no transition. */
  function Enqueue(queue: seq<Rec>, r: Rec): seq<Rec> {
    if queue != [] && queue[|queue| - 1].state == r.state then queue[..|queue| - 1] + [r] else queue + [r]
  }

  predicate Due(shown: Option<Shown>, now: int, dwell: int) {
    shown.None? || now - shown.value.since >= dwell - DUE_TOLERANCE
  }

  function PushCell(c: Cell, r: Rec, now: int, dwell: int): Cell {
    if c.queue != [] then c.(queue := Enqueue(c.queue, r))
    else if c.shown.Some? && c.shown.value.state == r.state then c.(sent := c.sent + [Sent(r, now)])
    else if Due(c.shown, now, dwell) then c.(sent := c.sent + [Sent(r, now)], shown := Some(Shown(r.state, now)))
    else c.(queue := [r])
  }

  function PushAll(c: Cell, records: seq<Rec>, k: Key, now: int, dwell: int): Cell {
    if records == [] then c
    else
      var n := |records| - 1;
      var before := PushAll(c, records[..n], k, now, dwell);
      if records[n].key == k then PushCell(before, records[n], now, dwell) else before
  }

  function DrainCell(c: Cell, now: int, dwell: int): Cell {
    if c.queue == [] || !Due(c.shown, now, dwell) then c
    else Cell(Some(Shown(c.queue[0].state, now)), c.queue[1..], c.sent + [Sent(c.queue[0], now)])
  }

  /** At shutdown only the last waiting state goes out. */
  function FlushCell(c: Cell, now: int): Cell {
    if c.queue == [] then c
    else Cell(Some(Shown(c.queue[|c.queue| - 1].state, now)), [], c.sent + [Sent(c.queue[|c.queue| - 1], now)])
  }

  predicate Prunable(c: Cell, now: int, dwell: int) {
    c.shown.Some? && now - c.shown.value.since > dwell && c.queue == []
  }

  function PruneCell(c: Cell, now: int, dwell: int): Cell {
    if Prunable(c, now, dwell) then c.(shown := None) else c
  }

  datatype Emission = Emission(slot: Slot, sent: Sent)

  function SentTo(emissions: seq<Emission>, slot: Slot): seq<Sent> {
    if emissions == [] then []
    else
      var last := emissions[|emissions| - 1];
      SentTo(emissions[..|emissions| - 1], slot) + if last.slot == slot then [last.sent] else []
  }

  lemma SentOneMore(emissions: seq<Emission>, e: Emission, slot: Slot)
    ensures SentTo(emissions + [e], slot) == SentTo(emissions, slot) + if e.slot == slot then [e.sent] else []
  {
    assert (emissions + [e])[..|emissions|] == emissions;
  }

  class StatePacer {
    var dwell: int
    var shown: map<Slot, Shown>
    var queue: map<Slot, seq<Rec>>
    /** What the signal has carried, in order. */
    var emissions: seq<Emission>

    ghost predicate Valid()
      reads this
    {
      forall s <- queue :: queue[s] != []
    }

    function CellOf(s: Slot): Cell
      reads this
    {
      Cell(if s in shown then Some(shown[s]) else None, if s in queue then queue[s] else [], SentTo(emissions, s))
    }

    constructor (dwell: int)
      ensures Valid() && this.dwell == dwell && forall s :: CellOf(s) == Cell(None, [], [])
    {
      this.dwell := dwell;
      shown, queue, emissions := map[], map[], [];
    }

    method Emit(s: Slot, r: Rec, now: int)
      modifies this`emissions
      ensures emissions == old(emissions) + [Emission(s, Sent(r, now))]
      ensures forall x :: SentTo(emissions, x) == SentTo(old(emissions), x) + if x == s then [Sent(r, now)] else []
    {
      forall x ensures SentTo(emissions + [Emission(s, Sent(r, now))], x)
                    == SentTo(emissions, x) + if x == s then [Sent(r, now)] else []
      {
        SentOneMore(emissions, Emission(s, Sent(r, now)), x);
      }
      emissions := emissions + [Emission(s, Sent(r, now))];
    }

    method PushOne(jobset: string, r: Rec, now: int)
      requires Valid()
      modifies this`shown, this`queue, this`emissions
      ensures Valid()
      ensures forall s :: CellOf(s) == if s == Slot(jobset, r.key) then PushCell(old(CellOf(s)), r, now, dwell)
                                               else old(CellOf(s))
    {
      var s := Slot(jobset, r.key);
      if s in queue {
        queue := queue[s := Enqueue(queue[s], r)];
        return;
      }
      if s in shown && shown[s].state == r.state {
        Emit(s, r, now);
        return;
      }
      if s !in shown || now - shown[s].since >= dwell - DUE_TOLERANCE {
        Emit(s, r, now);
        shown := shown[s := Shown(r.state, now)];
      } else {
        queue := queue[s := [r]];
      }
    }

    method Push(jobset: string, records: seq<Rec>, now: int)
      requires Valid()
      modifies this`shown, this`queue, this`emissions
      ensures Valid()
      ensures forall s: Slot :: s.jobset != jobset ==>
          CellOf(s) == old(CellOf(s)) || CellOf(s) == PruneCell(old(CellOf(s)), now, dwell)
      ensures forall k ::
                var c := PushAll(old(CellOf(Slot(jobset, k))), records, k, now, dwell);
                CellOf(Slot(jobset, k)) == c || CellOf(Slot(jobset, k)) == PruneCell(c, now, dwell)
    {
      for i := 0 to |records|
        invariant Valid()
        invariant forall s: Slot :: s.jobset != jobset ==> CellOf(s) == old(CellOf(s))
        invariant forall k ::
                    CellOf(Slot(jobset, k)) == PushAll(old(CellOf(Slot(jobset, k))), records[..i], k, now, dwell)
      {
        assert records[..i + 1][..i] == records[..i];
        PushOne(jobset, records[i], now);
      }
      assert records[..|records|] == records;
      Prune(now);
    }

    method Prune(now: int)
      requires Valid()
      modifies this`shown
      ensures Valid()
      ensures |old(shown)| <= PRUNE_AT ==> shown == old(shown)
      ensures |old(shown)| > PRUNE_AT ==> forall s :: CellOf(s) == PruneCell(old(CellOf(s)), now, dwell)
    {
      if |shown| <= PRUNE_AT {
        return;
      }
      var stale := set s | s in shown && now - shown[s].since > dwell && s !in queue;
      shown := shown - stale;
    }

    /** None stands for the whole jobset. */
    method Forget(jobset: string, keys: Option<set<Key>>)
      requires Valid()
      modifies this`shown, this`queue
      ensures Valid()
      ensures forall s :: CellOf(s) ==
                if s.jobset == jobset && (keys.None? || s.key in keys.value) then Cell(None, [], old(CellOf(s)).sent)
                else old(CellOf(s))
    {
      var drop := if keys.None?
                  then (set s | s in queue && s.jobset == jobset) + (set s | s in shown && s.jobset == jobset)
                  else set k | k in keys.value :: Slot(jobset, k);
      queue := queue - drop;
      shown := shown - drop;
    }

    /** One tick: every row whose state has been shown long enough moves on by one. */
    method Drain(now: int)
      requires Valid()
      modifies this`shown, this`queue, this`emissions
      ensures Valid()
      ensures forall s :: CellOf(s) == DrainCell(old(CellOf(s)), now, dwell)
    {
      var left := queue.Keys;
      while left != {}
        invariant Valid() && left <= old(queue).Keys
        invariant forall s :: CellOf(s) == if s in left then old(CellOf(s)) else DrainCell(old(CellOf(s)), now, dwell)
      {
        var s := PickOne(left);
        DrainOne(s, now);
        left := left - {s};
      }
    }

    method DrainOne(s: Slot, now: int)
      requires Valid()
      modifies this`shown, this`queue, this`emissions
      ensures Valid()
      ensures forall x :: CellOf(x) == if x == s then DrainCell(old(CellOf(x)), now, dwell) else old(CellOf(x))
    {
      if s !in queue {
        return;
      }
      if s in shown && now - shown[s].since < dwell - DUE_TOLERANCE {
        return;
      }
      var r := queue[s][0];
      if |queue[s]| == 1 {
        queue := queue - {s};
      } else {
        queue := queue[s := queue[s][1..]];
      }
      shown := shown[s := Shown(r.state, now)];
      Emit(s, r, now);
    }

    method FlushOne(s: Slot, now: int)
      requires Valid()
      modifies this`shown, this`queue, this`emissions
      ensures Valid()
      ensures forall x :: CellOf(x) == if x == s then FlushCell(old(CellOf(x)), now) else old(CellOf(x))
    {
      if s !in queue {
        return;
      }
      var r := queue[s][|queue[s]| - 1];
      queue := queue - {s};
      shown := shown[s := Shown(r.state, now)];
      Emit(s, r, now);
    }

    method FlushAll(now: int)
      requires Valid()
      modifies this`shown, this`queue, this`emissions
      ensures Valid()
      ensures forall s :: CellOf(s) == FlushCell(old(CellOf(s)), now)
    {
      var left := queue.Keys;
      while left != {}
        invariant Valid() && left <= old(queue).Keys
        invariant forall s :: CellOf(s) == if s in left then old(CellOf(s)) else FlushCell(old(CellOf(s)), now)
      {
        var s := PickOne(left);
        FlushOne(s, now);
        left := left - {s};
      }
    }

    /** Shutdown: only the last waiting state of every row goes out, and later pushes pass at once. */
    method Stop(now: int)
      requires Valid()
      modifies this
      ensures Valid() && dwell == 0
      ensures forall s :: CellOf(s) == FlushCell(old(CellOf(s)), now).(shown := None)
    {
      FlushAll(now);
      dwell, shown := 0, map[];
    }

    /** When the timer has to fire: with the earliest row that waits, and not at all without one. */
    method NextDue(now: int) returns (due: Option<int>)
      requires Valid()
      ensures due.None? <==> queue == map[]
      ensures due.Some? ==> exists s <- queue :: due.value == if s in shown then shown[s].since + dwell else now
      ensures forall s <- queue :: due.Some? && due.value <= if s in shown then shown[s].since + dwell else now
    {
      due := None;
      var left := queue.Keys;
      while left != {}
        invariant left <= queue.Keys
        invariant due.None? <==> left == queue.Keys
        invariant due.Some? ==> exists s <- queue :: due.value == if s in shown then shown[s].since + dwell else now
        invariant forall s <- queue :: s !in left ==>
            due.Some? && due.value <= if s in shown then shown[s].since + dwell else now
      {
        var s := PickOne(left);
        left := left - {s};
        var t := if s in shown then shown[s].since + dwell else now;
        if due.None? || t < due.value {
          due := Some(t);
        }
      }
    }
  }

  // ---------------------------------------------------------------------
  // One row over a whole run
  // ---------------------------------------------------------------------

  datatype Event = Push(rec: Rec) | Drain | Prune

  /** Events with the clock they happen at. */
  datatype Timed = Timed(event: Event, now: int)

  function Apply(c: Cell, t: Timed, dwell: int): Cell {
    match t.event
    case Push(r) => PushCell(c, r, t.now, dwell)
    case Drain => DrainCell(c, t.now, dwell)
    case Prune => PruneCell(c, t.now, dwell)
  }

  function After(events: seq<Timed>, dwell: int): Cell {
    if events == [] then Cell(None, [], [])
    else Apply(After(events[..|events| - 1], dwell), events[|events| - 1], dwell)
  }

  function Pushed(events: seq<Timed>): seq<JobState> {
    if events == [] then []
    else
      var last := events[|events| - 1].event;
      Pushed(events[..|events| - 1]) + if last.Push? then [last.rec.state] else []
  }

  ghost predicate ClockRuns(events: seq<Timed>) {
    forall i, j :: 0 <= i <= j < |events| ==> events[i].now <= events[j].now
  }

  function StatesOf(records: seq<Rec>): seq<JobState> {
    seq(|records|, i requires 0 <= i < |records| => records[i].state)
  }

  function SentStates(sent: seq<Sent>): seq<JobState> {
    seq(|sent|, i requires 0 <= i < |sent| => sent[i].rec.state)
  }

  /** Adjacent repeats removed. */
  function Destutter(s: seq<JobState>): seq<JobState> {
    if |s| <= 1 then s
    else
      var before := Destutter(s[..|s| - 1]);
      if s[|s| - 1] == s[|s| - 2] then before else before + [s[|s| - 1]]
  }

  lemma {:induction false} LastOfDestutter(s: seq<JobState>)
    ensures s == [] <==> Destutter(s) == []
    ensures s != [] ==> Destutter(s)[|Destutter(s)| - 1] == s[|s| - 1]
  {
    if |s| <= 1 {
    } else {
      LastOfDestutter(s[..|s| - 1]);
    }
  }

  lemma DestutterOneMore(s: seq<JobState>, x: JobState)
    ensures Destutter(s + [x]) == if s != [] && s[|s| - 1] == x then Destutter(s) else Destutter(s) + [x]
  {
    assert (s + [x])[..|s|] == s;
  }

  lemma OneMoreOnBothSides(s: seq<JobState>, p: seq<JobState>, x: JobState)
    requires Destutter(s) == Destutter(p)
    ensures Destutter(s + [x]) == Destutter(p + [x])
  {
    DestutterOneMore(s, x);
    DestutterOneMore(p, x);
    LastOfDestutter(s);
    LastOfDestutter(p);
  }

  /** When the state that was sent last began to be shown. */
  function RunStart(sent: seq<Sent>): int
    requires sent != []
  {
    var n := |sent| - 1;
    if n > 0 && sent[n - 1].rec.state == sent[n].rec.state then RunStart(sent[..n]) else sent[n].at
  }

  function LastState(sent: seq<Sent>): JobState
    requires sent != []
  {
    sent[|sent| - 1].rec.state
  }

  /** Each new state was sent only after the one before it had its time. */
  ghost predicate Spaced(sent: seq<Sent>, dwell: int) {
    |sent| <= 1 ||
    var n := |sent| - 1;
    && Spaced(sent[..n], dwell)
    && (sent[n].rec.state != LastState(sent[..n]) ==> sent[n].at - RunStart(sent[..n]) >= dwell - DUE_TOLERANCE)
  }

  lemma {:induction false} SpacedSpellsOut(sent: seq<Sent>, dwell: int, i: nat)
    requires Spaced(sent, dwell) && 0 < i < |sent| && sent[i].rec.state != sent[i - 1].rec.state
    ensures sent[i].at - RunStart(sent[..i]) >= dwell - DUE_TOLERANCE
  {
    var n := |sent| - 1;
    if i == n {
    } else {
      SpacedSpellsOut(sent[..n], dwell, i);
      assert sent[..n][..i] == sent[..i];
    }
  }

  ghost predicate ShowsLast(c: Cell, clock: int, dwell: int) {
    && (c.shown.Some? ==> c.sent != [] && c.sent[|c.sent| - 1].rec.state == c.shown.value.state
                          && RunStart(c.sent) <= c.shown.value.since <= clock)
    && (c.shown.None? ==> c.queue == [] && (c.sent == [] || clock - RunStart(c.sent) > dwell))
  }

  ghost predicate Line(c: Cell) {
    && (c.queue != [] ==> c.shown.Some? && c.queue[0].state != c.shown.value.state)
    && (forall i, j :: 0 <= i && j == i + 1 < |c.queue| ==> c.queue[i].state != c.queue[j].state)
  }

  lemma SpacedOneMore(sent: seq<Sent>, x: Sent, dwell: int)
    requires Spaced(sent, dwell)
    requires sent != [] && LastState(sent) != x.rec.state ==> x.at - RunStart(sent) >= dwell - DUE_TOLERANCE
    ensures Spaced(sent + [x], dwell)
  {
    assert (sent + [x])[..|sent|] == sent;
  }

  lemma RunStartOneMore(sent: seq<Sent>, x: Sent)
    ensures RunStart(sent + [x]) == if sent != [] && sent[|sent| - 1].rec.state == x.rec.state then RunStart(sent)
                                    else x.at
  {
    assert (sent + [x])[..|sent|] == sent;
  }

  ghost predicate Paced(c: Cell, clock: int, dwell: int) {
    ShowsLast(c, clock, dwell) && Line(c) && Spaced(c.sent, dwell)
  }

  lemma PushKeepsSpacing(c: Cell, r: Rec, now: int, clock: int, dwell: int)
    requires Paced(c, clock, dwell) && clock <= now && dwell >= 0
    ensures Paced(PushCell(c, r, now, dwell), now, dwell)
  {
    SpacedAndRun(c, Sent(r, now), dwell);
  }

  lemma DrainKeepsSpacing(c: Cell, now: int, clock: int, dwell: int)
    requires Paced(c, clock, dwell) && clock <= now && dwell >= 0
    ensures Paced(DrainCell(c, now, dwell), now, dwell)
  {
    if c.queue != [] {
      SpacedAndRun(c, Sent(c.queue[0], now), dwell);
    }
  }

  lemma StepKeepsSpacing(c: Cell, t: Timed, clock: int, dwell: int)
    requires Paced(c, clock, dwell) && clock <= t.now && dwell >= 0
    ensures Paced(Apply(c, t, dwell), t.now, dwell)
  {
    match t.event
    case Push(r) => PushKeepsSpacing(c, r, t.now, clock, dwell);
    case Drain => DrainKeepsSpacing(c, t.now, clock, dwell);
    case Prune =>
  }

  lemma SpacedAndRun(c: Cell, x: Sent, dwell: int)
    requires Spaced(c.sent, dwell)
    ensures (c.sent != [] && c.sent[|c.sent| - 1].rec.state != x.rec.state ==>
        x.at - RunStart(c.sent) >= dwell - DUE_TOLERANCE)
            ==> Spaced(c.sent + [x], dwell)
    ensures RunStart(c.sent + [x]) == if c.sent != [] && c.sent[|c.sent| - 1].rec.state == x.rec.state
                                      then RunStart(c.sent) else x.at
  {
    RunStartOneMore(c.sent, x);
    if c.sent == [] || c.sent[|c.sent| - 1].rec.state == x.rec.state
       || x.at - RunStart(c.sent) >= dwell - DUE_TOLERANCE
    {
      SpacedOneMore(c.sent, x, dwell);
    }
  }

  function Trace(c: Cell): seq<JobState> {
    SentStates(c.sent) + StatesOf(c.queue)
  }

  lemma SentOneMoreState(sent: seq<Sent>, x: Sent)
    ensures SentStates(sent + [x]) == SentStates(sent) + [x.rec.state]
  {
  }

  lemma EnqueueStates(queue: seq<Rec>, r: Rec)
    requires queue != []
    ensures StatesOf(Enqueue(queue, r)) ==
      if queue[|queue| - 1].state == r.state then StatesOf(queue) else StatesOf(queue) + [r.state]
    ensures StatesOf(queue)[|queue| - 1] == queue[|queue| - 1].state
  {
  }

  lemma PushExtendsTrace(c: Cell, r: Rec, now: int, dwell: int)
    ensures var d := PushCell(c, r, now, dwell);
            || Trace(d) == Trace(c) + [r.state]
            || (Trace(d) == Trace(c) && Trace(c) != [] && Trace(c)[|Trace(c)| - 1] == r.state)
  {
    if c.queue != [] {
      EnqueueStates(c.queue, r);
      assert SentStates(c.sent) + (StatesOf(c.queue) + [r.state]) == Trace(c) + [r.state];
    } else {
      SentOneMoreState(c.sent, Sent(r, now));
      assert StatesOf([]) == [] && StatesOf([r]) == [r.state];
      assert Trace(c) == SentStates(c.sent);
    }
  }

  lemma DrainKeepsTrace(c: Cell, now: int, dwell: int)
    ensures Trace(DrainCell(c, now, dwell)) == Trace(c)
  {
    if c.queue != [] {
      SentOneMoreState(c.sent, Sent(c.queue[0], now));
      assert StatesOf(c.queue) == [c.queue[0].state] + StatesOf(c.queue[1..]);
      assert SentStates(c.sent) + [c.queue[0].state] + StatesOf(c.queue[1..]) == Trace(c);
    }
  }

  lemma StepKeepsTrace(c: Cell, t: Timed, dwell: int, pushed: seq<JobState>)
    requires Destutter(Trace(c)) == Destutter(pushed)
    ensures Destutter(Trace(Apply(c, t, dwell)))
        == Destutter(pushed + if t.event.Push? then [t.event.rec.state] else [])
  {
    match t.event
    case Push(r) =>
      OneMoreOnBothSides(Trace(c), pushed, r.state);
      DestutterOneMore(Trace(c), r.state);
      PushExtendsTrace(c, r, t.now, dwell);
    case Drain =>
      assert pushed + [] == pushed;
      DrainKeepsTrace(c, t.now, dwell);
    case Prune =>
      assert pushed + [] == pushed;
  }

  /** Over every run without shutdown or forgetting, and with a clock that never goes back: what
      was sent, followed by what still waits, is what was pushed, up to repeats of one state; and
      every state but the last has been on show for the dwell time when the next one is sent,
      also when the row's entry was pruned in between. */
  lemma {:induction false} DelayedNeverDropped(events: seq<Timed>, dwell: int)
    requires ClockRuns(events) && dwell >= 0
    ensures var c := After(events, dwell);
            && Destutter(SentStates(c.sent) + StatesOf(c.queue)) == Destutter(Pushed(events))
            && Spaced(c.sent, dwell)
            && Line(c)
            && ShowsLast(c, if events == [] then 0 else events[|events| - 1].now, dwell)
    decreases |events|
  {
    if events == [] {
    } else {
      var n := |events| - 1;
      DelayedNeverDropped(events[..n], dwell);
      var c := After(events[..n], dwell);
      StepKeepsTrace(c, events[n], dwell, Pushed(events[..n]));
      if n > 0 {
        StepKeepsSpacing(c, events[n], events[n - 1].now, dwell);
      } else {
        StepKeepsSpacing(c, events[n], events[n].now, dwell);
      }
    }
  }

  // ---------------------------------------------------------------------
  // Nothing waits without need, and the latest news survives
  // ---------------------------------------------------------------------

  /** The newest record a row has sent or holds. */
  function Newest(c: Cell): Option<Rec> {
    if c.queue != [] then Some(c.queue[|c.queue| - 1])
    else if c.sent != [] then Some(c.sent[|c.sent| - 1].rec)
    else None
  }

  function LastPushed(events: seq<Timed>): Option<Rec> {
    if events == [] then None
    else
      var last := events[|events| - 1].event;
      if last.Push? then Some(last.rec) else LastPushed(events[..|events| - 1])
  }

  lemma NewestOfPush(c: Cell, r: Rec, now: int, dwell: int)
    ensures Newest(PushCell(c, r, now, dwell)) == Some(r)
  {
  }

  lemma NewestOfDrain(c: Cell, now: int, dwell: int)
    ensures Newest(DrainCell(c, now, dwell)) == Newest(c)
  {
  }

  /** No update is ever lost to a state that is already shown or waiting: over every run the newest
      record of a row, whole, is the one pushed last. */
  lemma {:induction false} NewestIsLastPushed(events: seq<Timed>, dwell: int)
    ensures Newest(After(events, dwell)) == LastPushed(events)
    decreases |events|
  {
    if events == [] {
    } else {
      var n := |events| - 1;
      NewestIsLastPushed(events[..n], dwell);
      var c, t := After(events[..n], dwell), events[n];
      match t.event
      case Push(r) => NewestOfPush(c, r, t.now, dwell);
      case Drain => NewestOfDrain(c, t.now, dwell);
      case Prune =>
    }
  }

  /** A shutdown at any point shows exactly that record of every row that waits, and nothing waits
      any more. */
  lemma ShutdownShowsTheNewest(events: seq<Timed>, now: int, dwell: int)
    ensures var c := After(events, dwell); var d := FlushCell(c, now);
            && d.queue == []
            && d.sent == c.sent + (if c.queue == [] then [] else [Sent(LastPushed(events).GetOr(c.queue[0]), now)])
            && (d.sent == [] <==> LastPushed(events).None?)
            && (d.sent != [] ==> Some(d.sent[|d.sent| - 1].rec) == LastPushed(events))
  {
    NewestIsLastPushed(events, dwell);
  }

  /** The pushes that a batch means for one row. */
  function Pushes(records: seq<Rec>, k: Key, now: int): seq<Timed> {
    if records == [] then []
    else
      var n := |records| - 1;
      Pushes(records[..n], k, now) + if records[n].key == k then [Timed(Push(records[n]), now)] else []
  }

  /** A batch is, for each row, the run of its own records in order: what is proved of runs holds of batches. */
  lemma {:induction false} BatchIsARun(events: seq<Timed>, records: seq<Rec>, k: Key, now: int, dwell: int)
    ensures PushAll(After(events, dwell), records, k, now, dwell)
         == After(events + Pushes(records, k, now), dwell)
  {
    if records == [] {
      assert events + [] == events;
    } else {
      var n := |records| - 1;
      BatchIsARun(events, records[..n], k, now, dwell);
      var before := events + Pushes(records[..n], k, now);
      if records[n].key == k {
        var more := before + [Timed(Push(records[n]), now)];
        assert more[..|before|] == before;
        assert events + Pushes(records, k, now) == more;
      } else {
        assert Pushes(records, k, now) == Pushes(records[..n], k, now) + [] == Pushes(records[..n], k, now);
      }
    }
  }

  /** Ticks at given times, with no push in between. */
  function Ticked(c: Cell, times: seq<int>, dwell: int): Cell {
    if times == [] then c else DrainCell(Ticked(c, times[..|times| - 1], dwell), times[|times| - 1], dwell)
  }

  /** Each tick comes when the state before it had its time. */
  ghost predicate InTime(c: Cell, times: seq<int>, dwell: int) {
    && (times != [] && c.shown.Some? ==> times[0] - c.shown.value.since >= dwell - DUE_TOLERANCE)
    && forall i :: 0 <= i < |times| - 1 ==> times[i + 1] - times[i] >= dwell - DUE_TOLERANCE
  }

  function Least(a: nat, b: nat): nat {
    if a < b then a else b
  }

  /** The first n waiting states, each at the time of its tick. */
  function Passing(queue: seq<Rec>, times: seq<int>, n: nat): seq<Sent>
    requires n <= |queue| && n <= |times|
  {
    if n == 0 then [] else Passing(queue, times, n - 1) + [Sent(queue[n - 1], times[n - 1])]
  }

  lemma {:induction false} PassingOfPrefix(queue: seq<Rec>, times: seq<int>, m: nat, n: nat)
    requires n <= |queue| && n <= m <= |times|
    ensures Passing(queue, times[..m], n) == Passing(queue, times, n)
  {
    if n == 0 {
    } else {
      PassingOfPrefix(queue, times, m, n - 1);
    }
  }

  /** What n ticks in time have made of a row. */
  ghost predicate Shows(c: Cell, d: Cell, times: seq<int>, n: nat)
    requires n <= |c.queue| && n <= |times|
  {
    && d.queue == c.queue[n..] && d.sent == c.sent + Passing(c.queue, times, n)
    && d.shown == if n > 0 then Some(Shown(c.queue[n - 1].state, times[n - 1])) else c.shown
  }

  lemma TickShowsTheNext(c: Cell, d: Cell, times: seq<int>, m: nat, dwell: int)
    requires m < |times| && m < |c.queue| && InTime(c, times, dwell) && Shows(c, d, times, m)
    ensures Shows(c, DrainCell(d, times[m], dwell), times, m + 1)
  {
    assert c.queue[m..][0] == c.queue[m] && c.queue[m..][1..] == c.queue[m + 1..];
    if m > 0 {
      assert times[m - 1 + 1] - times[m - 1] >= dwell - DUE_TOLERANCE;
    }
  }

  /** What waits is shown, one state at each tick that comes in time, in order and complete. */
  lemma {:induction false} TicksShowWhatWaits(c: Cell, times: seq<int>, dwell: int)
    requires InTime(c, times, dwell)
    ensures Shows(c, Ticked(c, times, dwell), times, Least(|times|, |c.queue|))
    decreases |times|
  {
    if times == [] {
      assert c.sent + [] == c.sent;
    } else {
      var m := |times| - 1;
      var d := Ticked(c, times[..m], dwell);
      TicksShowWhatWaits(c, times[..m], dwell);
      PassingOfPrefix(c.queue, times, m, Least(m, |c.queue|));
      assert Shows(c, d, times, Least(m, |c.queue|));
      if m < |c.queue| {
        TickShowsTheNext(c, d, times, m, dwell);
      } else {
        assert d.queue == [];
      }
    }
  }

  /** A tick that comes too early changes nothing, and a push waits only behind another one or while a
      different state still has its time. */
  lemma NothingWaitsWithoutNeed(c: Cell, r: Rec, now: int, dwell: int)
    ensures var d := PushCell(c, r, now, dwell);
            d.queue != [] <==>
              || c.queue != []
              || (c.shown.Some? && c.shown.value.state != r.state
                  && now - c.shown.value.since < dwell - DUE_TOLERANCE)
    ensures c.shown.Some? && now - c.shown.value.since < dwell - DUE_TOLERANCE ==> DrainCell(c, now, dwell) == c
  {
  }
}
