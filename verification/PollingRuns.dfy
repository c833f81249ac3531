/** Polling and verification by several threads over the table of query locks (lsfmgr/monitor.py): any
    number of queries of any jobsets are under way, and each of their steps is its own action. That the
    queries of one jobset come one after the other, and that nobody gets between the reading and the
    writing of its streaks, is what the locks give, so it is proved here and not presumed. */
module PollingRuns {
  import opened JobModel
  import LockTable
  import opened Polling

  /** The records of one jobset, its streaks, and the log of its judgements. */
  datatype Board = Board(records: map<Key, Rec>, streaks: Streaks, nextGen: nat, history: seq<map<Key, Look>>)

  /** What a thread has reached in the query it holds the lock for; a query asks LSF at most once. */
  datatype Query = Query(stage: Stage, started: bool)

  datatype Shared = Shared(locks: LockTable.System, boards: map<string, Board>, queries: map<nat, Query>)
  {
    function Of(js: string): Board {
      if js in boards then boards[js] else Board(map[], map[], 0, [])
    }

    function QueryOf(t: nat): Query {
      if t in queries then queries[t] else Query(Ready, false)
    }

    predicate Holds(t: nat, js: string) {
      t < |locks.threads| && locks.threads[t].Querying? && locks.threads[t].jobset == js
    }
  }

  datatype Move =
    | Locking(op: LockTable.Action)
    | Cycle(t: nat, a: Action)            // the thread goes on with its query
    | Beside(js: string, a: Action)       // anything else that happens to the jobset

  predicate OfACycle(a: Action) {
    a.Start? || a.Answer? || a.Fail? || a.Pop? || a.Judge? || a.SetBack? || a.WriteLost?
  }

  function Seen(b: Board, stage: Stage): System {
    System(b.records, b.streaks, stage, b.nextGen, b.history)
  }

  function Kept(p: System): Board {
    Board(p.records, p.streaks, p.nextGen, p.history)
  }

  predicate Moves(s: Shared, t: nat, a: Action) {
    && t < |s.locks.threads| && s.locks.threads[t].Querying? && OfACycle(a)
    && (a.Start? ==> !s.QueryOf(t).started)
  }

  function DoCycle(s: Shared, t: nat, a: Action, lostAfter: int, graceS: int): Shared {
    if Moves(s, t, a) then
      var js := s.locks.threads[t].jobset;
      var p := Next(Seen(s.Of(js), s.QueryOf(t).stage), a, lostAfter, graceS);
      s.(boards := s.boards[js := Kept(p)],
         queries := s.queries[t := Query(p.stage, s.QueryOf(t).started || a.Start?)])
    else s
  }

  function DoBeside(s: Shared, js: string, a: Action, lostAfter: int, graceS: int): Shared {
    if OfACycle(a) then s
    else s.(boards := s.boards[js := Kept(Next(Seen(s.Of(js), Ready), a, lostAfter, graceS))])
  }

  /** A thread that gets the lock begins its query; it lets go of the lock when the query is over. */
  function DoLocking(s: Shared, a: LockTable.Action): Shared {
    if a.Finish? && !s.QueryOf(a.t).stage.Ready? then s
    else
      var locks := LockTable.Next(s.locks, a);
      s.(locks := locks,
         queries := if a.Acquire? && locks != s.locks then s.queries[a.t := Query(Ready, false)] else s.queries)
  }

  function Do(s: Shared, m: Move, lostAfter: int, graceS: int): Shared {
    match m
    case Locking(a) => DoLocking(s, a)
    case Cycle(t, a) => DoCycle(s, t, a, lostAfter, graceS)
    case Beside(js, a) => DoBeside(s, js, a, lostAfter, graceS)
  }

  function Run(moves: seq<Move>, lostAfter: int, graceS: int): Shared {
    if moves == [] then Shared(LockTable.After([]), map[], map[])
    else Do(Run(moves[..|moves| - 1], lostAfter, graceS), moves[|moves| - 1], lostAfter, graceS)
  }

  // ---------------------------------------------------------------------
  // One jobset, as if its queries came one after the other
  // ---------------------------------------------------------------------

  /** How far the query that holds the lock of this jobset has come. */
  function StageOf(s: Shared, js: string): Stage {
    if js in s.locks.table && s.locks.table[js] in s.locks.held
    then s.QueryOf(s.locks.held[s.locks.table[js]]).stage
    else Ready
  }

  function Alone(s: Shared, js: string): System {
    Seen(s.Of(js), StageOf(s, js))
  }

  /** What a move means to a jobset: one step, or nothing. */
  function Shadow(s: Shared, m: Move, js: string): seq<Action> {
    match m
    case Locking(_) => []
    case Cycle(t, a) => if Moves(s, t, a) && s.locks.threads[t].jobset == js then [a] else []
    case Beside(x, a) => if x == js && !OfACycle(a) then [a] else []
  }

  function Trace(moves: seq<Move>, js: string, lostAfter: int, graceS: int): seq<Action> {
    if moves == [] then []
    else
      var before := moves[..|moves| - 1];
      Trace(before, js, lostAfter, graceS) + Shadow(Run(before, lostAfter, graceS), moves[|moves| - 1], js)
  }

  lemma LockingKeeps(locks: LockTable.System, a: LockTable.Action)
    requires LockTable.Inv(locks)
    ensures LockTable.Inv(LockTable.Next(locks, a))
  {
    match a
    case Spawn => LockTable.SpawnKeeps(locks);
    case Enter(t, js) => LockTable.EnterKeeps(locks, t, js);
    case Acquire(t) => LockTable.AcquireKeeps(locks, t);
    case Finish(t) => LockTable.FinishKeeps(locks, t);
    case Leave(t) => LockTable.LeaveKeeps(locks, t);
  }

  lemma {:induction false} RunKeepsLocks(moves: seq<Move>, lostAfter: int, graceS: int)
    ensures LockTable.Inv(Run(moves, lostAfter, graceS).locks)
  {
    if moves == [] {
    } else {
      var before := moves[..|moves| - 1];
      RunKeepsLocks(before, lostAfter, graceS);
      if moves[|moves| - 1].Locking? {
        LockingKeeps(Run(before, lostAfter, graceS).locks, moves[|moves| - 1].op);
      }
    }
  }

  /** The lock of a jobset is held by the one thread that is inside. */
  lemma HolderIsInside(s: Shared, t: nat, js: string)
    requires LockTable.Inv(s.locks)
    ensures s.Holds(t, js) <==>
              js in s.locks.table && s.locks.table[js] in s.locks.held && s.locks.held[s.locks.table[js]] == t
    ensures s.Holds(t, js) ==> StageOf(s, js) == s.QueryOf(t).stage
  {
    if js in s.locks.table && s.locks.table[js] in s.locks.held && s.locks.held[s.locks.table[js]] == t {
      var other := s.locks.threads[t].jobset;
      assert other in s.locks.table && s.locks.table[other] == s.locks.table[js];
    }
  }

  lemma SameHolders(s: Shared, u: Shared, js: string)
    requires LockTable.Inv(s.locks) && LockTable.Inv(u.locks)
    requires forall t: nat :: s.Holds(t, js) <==> u.Holds(t, js)
    requires forall t: nat :: s.Holds(t, js) ==> s.QueryOf(t).stage == u.QueryOf(t).stage
    ensures StageOf(s, js) == StageOf(u, js)
  {
    if exists t: nat :: s.Holds(t, js) {
      var t: nat :| s.Holds(t, js);
      HolderIsInside(s, t, js);
      HolderIsInside(u, t, js);
    } else {
      NobodyHolds(s, js);
      NobodyHolds(u, js);
    }
  }

  lemma AcquireIsSilent(s: Shared, t: nat, js: string)
    requires LockTable.Inv(s.locks)
    ensures StageOf(DoLocking(s, LockTable.Acquire(t)), js) == StageOf(s, js)
  {
    if DoLocking(s, LockTable.Acquire(t)).locks == s.locks {
    } else if s.locks.threads[t].jobset == js {
      TakingIt(s, t, js);
    } else {
      TakingAnother(s, t, js);
    }
  }

  lemma TakingAnother(s: Shared, t: nat, js: string)
    requires LockTable.Inv(s.locks) && t < |s.locks.threads| && s.locks.threads[t].Waiting?
    requires s.locks.threads[t].jobset != js && s.locks.threads[t].entry !in s.locks.held
    ensures StageOf(DoLocking(s, LockTable.Acquire(t)), js) == StageOf(s, js)
  {
    var other := s.locks.threads[t].jobset;
    assert other in s.locks.table && s.locks.table[other] == s.locks.threads[t].entry;
    assert js in s.locks.table ==> s.locks.table[js] != s.locks.threads[t].entry;
  }

  lemma TakingIt(s: Shared, t: nat, js: string)
    requires LockTable.Inv(s.locks) && t < |s.locks.threads| && s.locks.threads[t].Waiting?
    requires s.locks.threads[t].jobset == js && s.locks.threads[t].entry !in s.locks.held
    ensures StageOf(s, js) == Ready && StageOf(DoLocking(s, LockTable.Acquire(t)), js) == Ready
  {
    assert s.locks.table[js] == s.locks.threads[t].entry;
  }

  lemma FinishIsSilent(s: Shared, t: nat, js: string)
    requires LockTable.Inv(s.locks)
    ensures StageOf(DoLocking(s, LockTable.Finish(t)), js) == StageOf(s, js)
  {
    var u := DoLocking(s, LockTable.Finish(t));
    LockTable.FinishKeeps(s.locks, t);
    if u.locks == s.locks {
    } else if s.Holds(t, js) {
      HolderIsInside(s, t, js);
    } else {
      SameHolders(s, u, js);
    }
  }

  /** Entering, taking, releasing and leaving a lock is nothing to any jobset. */
  lemma LockingIsSilent(s: Shared, a: LockTable.Action, js: string)
    requires LockTable.Inv(s.locks)
    ensures StageOf(DoLocking(s, a), js) == StageOf(s, js)
  {
    if a.Acquire? {
      AcquireIsSilent(s, a.t, js);
    } else if a.Finish? {
      FinishIsSilent(s, a.t, js);
    } else {
      LockingKeeps(s.locks, a);
      SameHolders(s, DoLocking(s, a), js);
    }
  }

  lemma NobodyHolds(s: Shared, js: string)
    requires LockTable.Inv(s.locks) && forall t: nat :: !s.Holds(t, js)
    ensures StageOf(s, js) == Ready
  {
    if js in s.locks.table && s.locks.table[js] in s.locks.held {
      HolderIsInside(s, s.locks.held[s.locks.table[js]], js);
    }
  }

  lemma CycleIsOneStep(s: Shared, t: nat, a: Action, js: string, lostAfter: int, graceS: int)
    requires LockTable.Inv(s.locks) && Moves(s, t, a)
    ensures var u := DoCycle(s, t, a, lostAfter, graceS);
            Alone(u, js) == if s.locks.threads[t].jobset == js then Next(Alone(s, js), a, lostAfter, graceS)
                            else Alone(s, js)
  {
    var u := DoCycle(s, t, a, lostAfter, graceS);
    if s.locks.threads[t].jobset == js {
      HolderIsInside(s, t, js);
      HolderIsInside(u, t, js);
    } else {
      SameHolders(s, u, js);
    }
  }

  /** Whatever is no part of a cycle neither sees nor moves the stage of one. */
  lemma BesideIsOneStep(b: Board, stage: Stage, a: Action, lostAfter: int, graceS: int)
    requires !OfACycle(a)
    ensures Next(Seen(b, stage), a, lostAfter, graceS)
         == Seen(Kept(Next(Seen(b, Ready), a, lostAfter, graceS)), stage)
  {
  }

  lemma MoveIsItsShadow(s: Shared, m: Move, js: string, lostAfter: int, graceS: int)
    requires LockTable.Inv(s.locks)
    ensures var u := Do(s, m, lostAfter, graceS); var shadow := Shadow(s, m, js);
            Alone(u, js) == if shadow == [] then Alone(s, js) else Next(Alone(s, js), shadow[0], lostAfter, graceS)
  {
    match m
    case Locking(a) => LockingIsSilent(s, a, js);
    case Cycle(t, a) =>
      if Moves(s, t, a) {
        CycleIsOneStep(s, t, a, js, lostAfter, graceS);
      }
    case Beside(x, a) =>
      if !OfACycle(a) {
        BesideIsOneStep(s.Of(js), StageOf(s, js), a, lostAfter, graceS);
      }
  }

  lemma AfterShadow(trace: seq<Action>, shadow: seq<Action>, lostAfter: int, graceS: int)
    requires |shadow| <= 1
    ensures After(trace + shadow, lostAfter, graceS)
         == if shadow == [] then After(trace, lostAfter, graceS)
            else Next(After(trace, lostAfter, graceS), shadow[0], lostAfter, graceS)
  {
    if shadow == [] {
      assert trace + shadow == trace;
    } else {
      assert (trace + shadow)[..|trace|] == trace;
    }
  }

  /** What the locks are for: however the threads interleave, each jobset is polled as if one query came
      after the other, with everything else in between. */
  lemma {:induction false} QueriesComeOneByOne(moves: seq<Move>, js: string, lostAfter: int, graceS: int)
    ensures Alone(Run(moves, lostAfter, graceS), js) == After(Trace(moves, js, lostAfter, graceS), lostAfter, graceS)
  {
    if moves == [] {
    } else {
      var before := moves[..|moves| - 1];
      var s := Run(before, lostAfter, graceS);
      QueriesComeOneByOne(before, js, lostAfter, graceS);
      RunKeepsLocks(before, lostAfter, graceS);
      MoveIsItsShadow(s, moves[|moves| - 1], js, lostAfter, graceS);
      AfterShadow(Trace(before, js, lostAfter, graceS), Shadow(s, moves[|moves| - 1], js), lostAfter, graceS);
    }
  }

  // ---------------------------------------------------------------------
  // Main results
  // ---------------------------------------------------------------------

  /** LOST is sound although any number of queries of the jobset contend: the write belongs to the one
      thread that is inside, and that execution was missing from each of the last N judgements, whichever
      threads made them. */
  lemma {:induction false} LostIsSoundUnderContention(moves: seq<Move>, m: Move, js: string, lostAfter: int,
                                                      graceS: int, k: Key)
    requires var s := Run(moves, lostAfter, graceS); var u := Do(s, m, lostAfter, graceS);
             && k in s.Of(js).records && k in u.Of(js).records
             && !s.Of(js).records[k].state.Lost? && u.Of(js).records[k].state.Lost?
             && !(m.Beside? && m.a.PutRecord?)
    ensures var s := Run(moves, lostAfter, graceS); var n := Threshold(lostAfter); var b := s.Of(js);
            && m.Cycle? && m.a.WriteLost? && s.Holds(m.t, js)
            && b.records[k].state.IsOnLsf() && b.records[k].jobId.Some?
            && 1 <= n <= |b.history|
            && forall j :: |b.history| - n <= j < |b.history| ==>
                 && k in b.history[j] && b.history[j][k].Missed(b.records[k].gen)
                 && var look := b.history[j][k];
                    GraceIsOver(look.rec.submitTime, look.rec.updatedAt, look.now, graceS)
  {
    var s := Run(moves, lostAfter, graceS);
    QueriesComeOneByOne(moves, js, lostAfter, graceS);
    RunKeepsLocks(moves, lostAfter, graceS);
    MoveIsItsShadow(s, m, js, lostAfter, graceS);
    var shadow := Shadow(s, m, js);
    assert shadow != [];
    LostIsSound(Trace(moves, js, lostAfter, graceS), shadow[0], lostAfter, graceS, k);
  }

  /** Nothing but the steps of queries, and what leaves this record alone, happens to the jobset. */
  predicate AllLeaveAlone(moves: seq<Move>, js: string, k: Key) {
    forall m <- moves :: m.Beside? && m.js == js ==> LeavesAlone(m.a, k)
  }

  lemma MoveIsOnTime(o: Since, s: Shared, m: Move, js: string, lostAfter: int, graceS: int, k: Key)
    requires LockTable.Inv(s.locks) && (m.Beside? && m.js == js ==> LeavesAlone(m.a, k))
    requires OnTime(o, Alone(s, js), k, Threshold(lostAfter)) && o.from <= |s.Of(js).history|
    ensures var u := Do(s, m, lostAfter, graceS);
            OnTime(o, Alone(u, js), k, Threshold(lostAfter)) && o.from <= |u.Of(js).history|
  {
    MoveIsItsShadow(s, m, js, lostAfter, graceS);
    var shadow := Shadow(s, m, js);
    if shadow != [] {
      NextIsOnTime(o, Alone(s, js), shadow[0], lostAfter, graceS, k);
    }
  }

  lemma {:induction false} StaysOnTime(o: Since, moves: seq<Move>, i: nat, js: string, lostAfter: int, graceS: int,
                                       k: Key)
    requires i <= |moves| && AllLeaveAlone(moves[i..], js, k)
    requires var s := Run(moves[..i], lostAfter, graceS);
             OnTime(o, Alone(s, js), k, Threshold(lostAfter)) && o.from <= |s.Of(js).history|
    ensures var u := Run(moves, lostAfter, graceS);
            OnTime(o, Alone(u, js), k, Threshold(lostAfter)) && o.from <= |u.Of(js).history|
    decreases |moves|
  {
    if |moves| == i {
      assert moves[..i] == moves;
    } else {
      var before, m := moves[..|moves| - 1], moves[|moves| - 1];
      assert before[..i] == moves[..i];
      assert AllLeaveAlone(before[i..], js, k) by {
        assert forall x <- before[i..] :: x in moves[i..];
      }
      assert m in moves[i..];
      StaysOnTime(o, before, i, js, lostAfter, graceS, k);
      RunKeepsLocks(before, lostAfter, graceS);
      MoveIsOnTime(o, Run(before, lostAfter, graceS), m, js, lostAfter, graceS, k);
    }
  }

  lemma BeginsOnTime(p: System, n: nat, k: Key)
    requires p.stage.Ready? && k in p.records && p.records[k].state.IsOnLsf()
    ensures OnTime(Since(p.records[k], |p.history|, CountOf(p.streaks, k, p.records[k].gen)), p, k, n)
  {
  }

  /** And LOST comes exactly when it is due: from any moment at which no query of the jobset is under way,
      a record that nobody rewrites is LOST, whenever none is under way again, if and only if in some
      judgement since then its run of misses reached the threshold. No judgement of a contending query
      is lost, and none counts twice. */
  lemma {:induction false} LostExactlyWhenDueUnderContention(moves: seq<Move>, i: nat, js: string, lostAfter: int,
                                                             graceS: int, k: Key)
    requires i <= |moves| && AllLeaveAlone(moves[i..], js, k)
    requires var s := Run(moves[..i], lostAfter, graceS);
             StageOf(s, js).Ready? && k in s.Of(js).records && s.Of(js).records[k].state.IsOnLsf()
    ensures var b := Run(moves[..i], lostAfter, graceS).Of(js);
            var u := Run(moves, lostAfter, graceS);
            var o := Since(b.records[k], |b.history|, CountOf(b.streaks, k, b.records[k].gen));
            && o.from <= |u.Of(js).history| && k in u.Of(js).records
            && (StageOf(u, js).Ready? ==>
                  (u.Of(js).records[k].state.Lost? <==> o.Reached(u.Of(js).history, k, Threshold(lostAfter))))
  {
    var b := Run(moves[..i], lostAfter, graceS).Of(js);
    var o := Since(b.records[k], |b.history|, CountOf(b.streaks, k, b.records[k].gen));
    BeginsOnTime(Alone(Run(moves[..i], lostAfter, graceS), js), Threshold(lostAfter), k);
    StaysOnTime(o, moves, i, js, lostAfter, graceS, k);
  }

  lemma HeldIsHeld(s: Shared, m: Move, t: nat, js: string, lostAfter: int, graceS: int)
    requires LockTable.Inv(s.locks) && s.Holds(t, js) && !s.QueryOf(t).stage.Ready? && !(m.Cycle? && m.t == t)
    ensures var u := Do(s, m, lostAfter, graceS); u.Holds(t, js) && u.QueryOf(t) == s.QueryOf(t)
  {
  }

  /** What another thread or an edit does to the jobset meanwhile. */
  lemma OthersShadow(s: Shared, m: Move, t: nat, js: string)
    requires LockTable.Inv(s.locks) && s.Holds(t, js) && !(m.Cycle? && m.t == t)
    ensures forall a <- Shadow(s, m, js) :: !OfACycle(a)
  {
    HolderIsInside(s, t, js);
    if m.Cycle? {
      HolderIsInside(s, m.t, js);
    }
  }

  /** From taking the streaks out to writing them back, nobody else reaches them: whatever the other
      threads do, the query stays where it is, the table has no streaks of the jobset, and no judgement
      is added. */
  lemma {:induction false} StreaksAreMovedAtomically(moves: seq<Move>, m: Move, t: nat, js: string, lostAfter: int,
                                                     graceS: int)
    requires var s := Run(moves, lostAfter, graceS);
             s.Holds(t, js) && (s.QueryOf(t).stage.Judging? || s.QueryOf(t).stage.Judged?)
    requires !(m.Cycle? && m.t == t)
    ensures var s := Run(moves, lostAfter, graceS); var u := Do(s, m, lostAfter, graceS);
            && u.Holds(t, js) && u.QueryOf(t) == s.QueryOf(t)
            && s.Of(js).streaks == map[] && u.Of(js).streaks == map[] && u.Of(js).history == s.Of(js).history
  {
    var s := Run(moves, lostAfter, graceS);
    RunKeepsLocks(moves, lostAfter, graceS);
    HeldIsHeld(s, m, t, js, lostAfter, graceS);
    HolderIsInside(s, t, js);
    NoStreaksMeanwhile(moves, js, lostAfter, graceS);
    OthersShadow(s, m, t, js);
    MoveIsItsShadow(s, m, js, lostAfter, graceS);
    BesideKeepsNone(Alone(s, js), Shadow(s, m, js), lostAfter, graceS);
  }

  lemma NoStreaksMeanwhile(moves: seq<Move>, js: string, lostAfter: int, graceS: int)
    requires var stage := StageOf(Run(moves, lostAfter, graceS), js); stage.Judging? || stage.Judged?
    ensures Run(moves, lostAfter, graceS).Of(js).streaks == map[]
  {
    QueriesComeOneByOne(moves, js, lostAfter, graceS);
    RunKeeps(Trace(moves, js, lostAfter, graceS), lostAfter, graceS);
  }

  lemma BesideKeepsNone(p: System, shadow: seq<Action>, lostAfter: int, graceS: int)
    requires p.streaks == map[] && |shadow| <= 1 && forall a <- shadow :: !OfACycle(a)
    ensures shadow != [] ==>
              var q := Next(p, shadow[0], lostAfter, graceS); q.streaks == map[] && q.history == p.history
  {
    if shadow != [] {
      assert shadow[0] in shadow;
    }
  }

  // ---------------------------------------------------------------------
  // A thread gets its query done
  // ---------------------------------------------------------------------

  /** What a thread sees of the jobset whose lock it holds. */
  function View(s: Shared, t: nat): System
    requires t < |s.locks.threads| && s.locks.threads[t].Querying?
  {
    Seen(s.Of(s.locks.threads[t].jobset), s.QueryOf(t).stage)
  }

  /** A step of a query under the lock is that step of the jobset, and touches nothing else. */
  lemma CycleStep(s: Shared, t: nat, js: string, a: Action, lostAfter: int, graceS: int)
    requires s.Holds(t, js) && OfACycle(a) && (a.Start? ==> !s.QueryOf(t).started)
    ensures var u := Do(s, Cycle(t, a), lostAfter, graceS);
            && u.Holds(t, js) && u.locks == s.locks && View(u, t) == Next(View(s, t), a, lostAfter, graceS)
            && (u.QueryOf(t).started <==> s.QueryOf(t).started || a.Start?)
            && (forall x :: x != js ==> u.Of(x) == s.Of(x))
            && (forall x: nat :: x != t ==> u.QueryOf(x) == s.QueryOf(x))
  {
  }

  /** The six steps of a query. */
  function QuerySteps(s: Shared, t: nat, failed: set<nat>, seen: set<Key>, now: int, lostAfter: int,
                      graceS: int): Shared
  {
    var a := Do(s, Cycle(t, Start), lostAfter, graceS);
    var b := Do(a, Cycle(t, Answer(failed, seen)), lostAfter, graceS);
    var c := Do(b, Cycle(t, Pop), lostAfter, graceS);
    var d := Do(c, Cycle(t, Judge(now)), lostAfter, graceS);
    var e := Do(d, Cycle(t, SetBack), lostAfter, graceS);
    Do(e, Cycle(t, WriteLost), lostAfter, graceS)
  }

  /** Under the lock a query asks once and judges what is on LSF once. Nothing of another jobset moves. */
  lemma QueryUnderTheLock(s: Shared, t: nat, js: string, failed: set<nat>, seen: set<Key>, now: int, lostAfter: int,
                          graceS: int)
    requires s.Holds(t, js) && s.QueryOf(t) == Query(Ready, false)
    requires exists k :: k in s.Of(js).records && s.Of(js).records[k].state.IsOnLsf()
    ensures var u := QuerySteps(s, t, failed, seen, now, lostAfter, graceS);
            && u.Holds(t, js) && u.QueryOf(t) == Query(Ready, true)
            && |u.Of(js).history| == |s.Of(js).history| + 1
            && (forall k :: k in u.Of(js).history[|s.Of(js).history|] <==>
                  k in s.Of(js).records && s.Of(js).records[k].state.IsOnLsf())
            && (forall x :: x != js ==> u.Of(x) == s.Of(x))
  {
    CycleStep(s, t, js, Start, lostAfter, graceS);
    var b := Do(s, Cycle(t, Start), lostAfter, graceS);
    CycleStep(b, t, js, Answer(failed, seen), lostAfter, graceS);
    var c := Do(b, Cycle(t, Answer(failed, seen)), lostAfter, graceS);
    CycleStep(c, t, js, Pop, lostAfter, graceS);
    var d := Do(c, Cycle(t, Pop), lostAfter, graceS);
    CycleStep(d, t, js, Judge(now), lostAfter, graceS);
    var e := Do(d, Cycle(t, Judge(now)), lostAfter, graceS);
    CycleStep(e, t, js, SetBack, lostAfter, graceS);
    var f := Do(e, Cycle(t, SetBack), lostAfter, graceS);
    CycleStep(f, t, js, WriteLost, lostAfter, graceS);
    OneCycleLooksAtAll(Seen(s.Of(js), Ready), failed, seen, now, lostAfter, graceS);
  }

  /** A thread that finds the lock free begins its query there. */
  lemma AcquiredQuery(s: Shared, t: nat, js: string, lostAfter: int, graceS: int)
    requires t < |s.locks.threads| && s.locks.threads[t].Waiting? && s.locks.threads[t].jobset == js
    requires s.locks.threads[t].entry !in s.locks.held
    ensures var a := Do(s, Locking(LockTable.Acquire(t)), lostAfter, graceS);
            a.Holds(t, js) && a.QueryOf(t) == Query(Ready, false) && a.boards == s.boards
  {
  }

  /** When its query is over a thread cannot ask again, but may let go of the lock. */
  lemma QueryOver(s: Shared, t: nat, js: string, lostAfter: int, graceS: int)
    requires s.Holds(t, js) && s.QueryOf(t) == Query(Ready, true)
    ensures Do(s, Cycle(t, Start), lostAfter, graceS) == s
    ensures Do(s, Locking(LockTable.Finish(t)), lostAfter, graceS).locks.threads[t].Leaving?
  {
  }
}
