/** Polling of one jobset and the LOST verdict (lsfmgr/monitor.py): what a query cycle sees,
    how it counts a job that LSF does not know, and the compare-and-set write at its end. */
module Polling {
  import opened JobModel

  datatype Rec = Rec(gen: nat, state: JobState, jobId: Option<nat>, submitTime: Option<int>, updatedAt: Option<int>)

  /** How often in a row an execution was not found. */
  datatype Streak = Streak(gen: nat, count: nat)

  type Streaks = map<Key, Streak>

  /** Young jobs may be missing from an external aggregate; an unknown age gives no grace. */
  predicate WithinGrace(r: Rec, now: int, graceS: int) {
    graceS > 0 &&
    var marker := if r.submitTime.Some? then r.submitTime else r.updatedAt;
    marker.Some? && now - marker.value < graceS
  }

  /** The time since the submission, or since the last update of a record without one, has reached
      the grace; there is nothing to wait for without a grace or without any time. */
  predicate GraceIsOver(submitTime: Option<int>, updatedAt: Option<int>, now: int, graceS: int) {
    || graceS <= 0
    || (submitTime.None? && updatedAt.None?)
    || (submitTime.Some? && now - submitTime.value >= graceS)
    || (submitTime.None? && updatedAt.Some? && now - updatedAt.value >= graceS)
  }

  predicate Answered(r: Rec, failed: set<nat>) {
    r.jobId.Some? && r.jobId.value !in failed
  }

  /** Only such a job is counted; any other verdict drops its streak. */
  predicate CountsAsMissing(r: Rec, failed: set<nat>, now: int, graceS: int) {
    Answered(r, failed) && !WithinGrace(r, now, graceS)
  }

  function Bumped(prev: Streaks, k: Key, gen: nat): Streak {
    Streak(gen, if k in prev && prev[k].gen == gen then prev[k].count + 1 else 1)
  }

  function Counted(prev: Streaks, missing: set<Key>, recs: map<Key, Rec>, failed: set<nat>, now: int,
                   graceS: int): Streaks
    requires missing <= recs.Keys
  {
    map k | k in missing && CountsAsMissing(recs[k], failed, now, graceS) :: Bumped(prev, k, recs[k].gen)
  }

  function Threshold(lostAfter: int): nat {
    if lostAfter < 1 then 1 else lostAfter
  }

  predicate IsCurrent(k: Key, s: Streak, records: map<Key, Rec>) {
    k in records && records[k].gen == s.gen && records[k].state.IsOnLsf()
  }

  function Current(streaks: Streaks, records: map<Key, Rec>): Streaks {
    map k | k in streaks && IsCurrent(k, streaks[k], records) :: streaks[k]
  }

  function Forgotten(streaks: Streaks, keys: set<Key>, records: map<Key, Rec>): Streaks {
    map k | k in streaks && (k !in keys || IsCurrent(k, streaks[k], records)) :: streaks[k]
  }

  function Of(table: map<string, Streaks>, jobset: string): Streaks {
    if jobset in table then table[jobset] else map[]
  }

  class Querier {
    var missing: map<string, Streaks>

    ghost predicate Valid()
      reads this
    {
      forall js <- missing :: missing[js] != map[]
    }

    constructor ()
      ensures Valid() && missing == map[]
    {
      missing := map[];
    }

    method PopStreaks(jobset: string) returns (prev: Streaks)
      requires Valid()
      modifies this
      ensures Valid()
      ensures prev == Of(old(missing), jobset) && missing == old(missing) - {jobset}
    {
      prev := if jobset in missing then missing[jobset] else map[];
      missing := missing - {jobset};
    }

    /** Streaks of executions that ended meanwhile are not written back. */
    method SetStreaks(jobset: string, streaks: Streaks, records: map<Key, Rec>)
      requires Valid()
      modifies this
      ensures Valid()
      ensures Of(missing, jobset) == Current(streaks, records)
      ensures forall other :: other != jobset ==> Of(missing, other) == Of(old(missing), other)
    {
      var kept := Current(streaks, records);
      if kept != map[] {
        missing := missing[jobset := kept];
      } else {
        missing := missing - {jobset};
      }
    }

    method Forget(jobset: string, keys: Option<seq<Key>>, records: map<Key, Rec>)
      requires Valid()
      modifies this
      ensures Valid()
      ensures keys.None? ==> Of(missing, jobset) == map[]
      ensures keys.Some? ==>
          Of(missing, jobset) == Forgotten(Of(old(missing), jobset), (set k | k in keys.value), records)
      ensures keys.Some? ==> forall k ::
                k in Of(missing, jobset) <==>
                  && k in Of(old(missing), jobset)
                  && (k !in keys.value
                      || (k in records && records[k].gen == Of(old(missing), jobset)[k].gen
                          && records[k].state.IsOnLsf()))
      ensures forall other :: other != jobset ==> Of(missing, other) == Of(old(missing), other)
    {
      if keys.None? {
        missing := missing - {jobset};
        return;
      }
      if jobset !in missing {
        return;
      }
      ghost var before := missing[jobset];
      var streaks := missing[jobset];
      var i := 0;
      while i < |keys.value|
        invariant 0 <= i <= |keys.value|
        invariant streaks == Forgotten(before, (set k | k in keys.value[..i]), records)
        invariant missing == old(missing)
      {
        var k := keys.value[i];
        assert keys.value[..i + 1] == keys.value[..i] + [k];
        if k in streaks && !IsCurrent(k, streaks[k], records) {
          streaks := streaks - {k};
        }
        i := i + 1;
      }
      assert keys.value[..i] == keys.value;
      if streaks != map[] {
        missing := missing[jobset := streaks];
      } else {
        missing := missing - {jobset};
      }
    }

    /** One cycle's verdicts: what is counted, and who is due for LOST. An empty list still
        clears the streaks, since everybody was found. */
    method JudgeMissing(jobset: string, keys: seq<Key>, recs: map<Key, Rec>, failed: set<nat>, now: int, graceS: int,
                        lostAfter: int, records: map<Key, Rec>)
      returns (lost: seq<Key>)
      requires Valid() && forall k <- keys :: k in recs
      modifies this
      ensures Valid()
      ensures var counted := Counted(Of(old(missing), jobset), (set k | k in keys), recs, failed, now, graceS);
              && Of(missing, jobset) == Current(counted, records)
              && forall k :: k in lost <==> k in counted && counted[k].count >= Threshold(lostAfter)
      ensures forall k <- keys :: records == recs && recs[k].state.IsOnLsf() ==>
                (k in Of(missing, jobset)
                 <==> recs[k].jobId.Some? && recs[k].jobId.value !in failed
                      && GraceIsOver(recs[k].submitTime, recs[k].updatedAt, now, graceS))
      ensures forall k :: k in lost <==>
                && k in keys && recs[k].jobId.Some? && recs[k].jobId.value !in failed
                && GraceIsOver(recs[k].submitTime, recs[k].updatedAt, now, graceS)
                && CountOf(Of(old(missing), jobset), k, recs[k].gen) + 1 >= Threshold(lostAfter)
      ensures forall other :: other != jobset ==> Of(missing, other) == Of(old(missing), other)
    {
      var prev := PopStreaks(jobset);
      var cur;
      cur, lost := CountMisses(prev, keys, recs, failed, now, graceS, lostAfter);
      SetStreaks(jobset, cur, records);
    }

    static method CountMisses(prev: Streaks, keys: seq<Key>, recs: map<Key, Rec>, failed: set<nat>, now: int,
                              graceS: int, lostAfter: int)
      returns (cur: Streaks, lost: seq<Key>)
      requires forall k <- keys :: k in recs
      ensures cur == Counted(prev, (set k | k in keys), recs, failed, now, graceS)
      ensures forall k :: k in lost <==> k in cur && cur[k].count >= Threshold(lostAfter)
    {
      cur, lost := map[], [];
      var i := 0;
      while i < |keys|
        invariant 0 <= i <= |keys|
        invariant cur == Counted(prev, (set k | k in keys[..i]), recs, failed, now, graceS)
        invariant forall k :: k in lost <==> k in cur && cur[k].count >= Threshold(lostAfter)
      {
        var k := keys[i];
        var r := recs[k];
        assert keys[..i + 1] == keys[..i] + [k];
        i := i + 1;
        if r.jobId.None? || r.jobId.value in failed {
          continue;
        }
        if WithinGrace(r, now, graceS) {
          continue;
        }
        var n := if k in prev && prev[k].gen == r.gen then prev[k].count + 1 else 1;
        cur := cur[k := Streak(r.gen, n)];
        if n >= Threshold(lostAfter) {
          lost := lost + [k];
        }
      }
      assert keys[..i] == keys;
    }
  }

  // ---------------------------------------------------------------------
  // Cycles of one jobset among everything else that happens to it
  // ---------------------------------------------------------------------

  /** What a finished judgement saw of one record: a log kept for the proof. */
  datatype Look = Look(rec: Rec, now: int, answered: bool, pastGrace: bool, seen: bool) {
    predicate Missed(gen: nat) {
      rec.gen == gen && answered && pastGrace && !seen
    }
  }

  datatype Stage =
    | Ready
    | Asking(targets: map<Key, Rec>)
    | Holding(targets: map<Key, Rec>, failed: set<nat>, seen: set<Key>)
    | Judging(targets: map<Key, Rec>, failed: set<nat>, seen: set<Key>, prev: Streaks)
    | Judged(cur: Streaks, due: map<Key, Rec>)
    | Writing(due: map<Key, Rec>)

  datatype System = System(records: map<Key, Rec>, streaks: Streaks, stage: Stage, nextGen: nat,
                           history: seq<map<Key, Look>>)

  datatype Action =
    | Start | Answer(failed: set<nat>, seen: set<Key>) | Fail
    | Pop | Judge(now: int) | SetBack | WriteLost
    | Forget(keys: set<Key>) | ForgetAll
    | PutRecord(k: Key, rec: Rec) | Remove(k: Key) | Change(k: Key, rec: Rec)

  function OnLsf(records: map<Key, Rec>): map<Key, Rec> {
    map k | k in records && records[k].state.IsOnLsf() :: records[k]
  }

  function Looks(targets: map<Key, Rec>, failed: set<nat>, seen: set<Key>, now: int, graceS: int): map<Key, Look> {
    map k | k in targets ::
        Look(targets[k], now, Answered(targets[k], failed), !WithinGrace(targets[k], now, graceS), k in seen)
  }

  function Due(cur: Streaks, targets: map<Key, Rec>, n: nat): map<Key, Rec> {
    map k | k in cur && k in targets && cur[k].count >= n :: targets[k]
  }

  /** The compare-and-set of the LOST write. */
  predicate Unchanged(now: Rec, snapshot: Rec) {
    now.gen == snapshot.gen && now.jobId == snapshot.jobId && now.state == snapshot.state
  }

  function Lose(records: map<Key, Rec>, due: map<Key, Rec>): map<Key, Rec> {
    map k | k in records ::
      if k in due && Unchanged(records[k], due[k]) then records[k].(state := Lost) else records[k]
  }

  function Next(s: System, a: Action, lostAfter: int, graceS: int): System {
    match a
    case Start =>
      if s.stage.Ready? && OnLsf(s.records) != map[] then s.(stage := Asking(OnLsf(s.records))) else s
    case Answer(failed, seen) =>
      if s.stage.Asking? then s.(stage := Holding(s.stage.targets, failed, seen)) else s
    case Fail => if s.stage.Asking? then s.(stage := Ready) else s
    case Pop =>
      if s.stage.Holding? then
        s.(stage := Judging(s.stage.targets, s.stage.failed, s.stage.seen, s.streaks), streaks := map[])
      else s
    case Judge(now) =>
      if s.stage.Judging? then
        var missing := s.stage.targets.Keys - s.stage.seen;
        var cur := Counted(s.stage.prev, missing, s.stage.targets, s.stage.failed, now, graceS);
        s.(stage := Judged(cur, Due(cur, s.stage.targets, Threshold(lostAfter))),
           history := s.history + [Looks(s.stage.targets, s.stage.failed, s.stage.seen, now, graceS)])
      else s
    case SetBack =>
      if s.stage.Judged? then s.(streaks := Current(s.stage.cur, s.records), stage := Writing(s.stage.due)) else s
    case WriteLost =>
      if s.stage.Writing? then s.(records := Lose(s.records, s.stage.due), stage := Ready) else s
    case Forget(keys) => s.(streaks := Forgotten(s.streaks, keys, s.records))
    case ForgetAll => s.(streaks := map[])
    case PutRecord(k, rec) => s.(records := s.records[k := rec.(gen := s.nextGen)], nextGen := s.nextGen + 1)
    case Remove(k) => s.(records := s.records - {k})
    case Change(k, rec) =>
      if k in s.records && !rec.state.Lost? then s.(records := s.records[k := rec.(gen := s.records[k].gen)]) else s
  }

  function After(actions: seq<Action>, lostAfter: int, graceS: int): System {
    if actions == [] then System(map[], map[], Ready, 0, [])
    else Next(After(actions[..|actions| - 1], lostAfter, graceS), actions[|actions| - 1], lostAfter, graceS)
  }

  /** For how many of the latest judged cycles, without a gap, the execution was missing. */
  function MissedRun(history: seq<map<Key, Look>>, k: Key, gen: nat): nat {
    if history == [] then 0
    else
      var last := history[|history| - 1];
      if k in last && last[k].Missed(gen) then MissedRun(history[..|history| - 1], k, gen) + 1 else 0
  }

  // ---------------------------------------------------------------------
  // The invariant
  // ---------------------------------------------------------------------

  ghost predicate Backed(streaks: Streaks, history: seq<map<Key, Look>>) {
    forall k <- streaks :: streaks[k].count <= MissedRun(history, k, streaks[k].gen)
  }

  ghost predicate StageAgrees(s: System, n: nat) {
    match s.stage
    case Ready => true
    case Asking(targets) => forall k <- targets :: targets[k].state.IsOnLsf()
    case Holding(targets, _, _) => forall k <- targets :: targets[k].state.IsOnLsf()
    case Judging(targets, _, _, prev) =>
      s.streaks == map[] && Backed(prev, s.history) && forall k <- targets :: targets[k].state.IsOnLsf()
    case Judged(cur, due) => s.streaks == map[] && Backed(cur, s.history) && DueAgrees(due, s.history, n)
    case Writing(due) => DueAgrees(due, s.history, n)
  }

  ghost predicate Inv(s: System, n: nat) {
    Backed(s.streaks, s.history) && StageAgrees(s, n)
  }

  ghost predicate DueAgrees(due: map<Key, Rec>, history: seq<map<Key, Look>>, n: nat) {
    forall k <- due :: MissedRun(history, k, due[k].gen) >= n && due[k].state.IsOnLsf() && due[k].jobId.Some?
  }

  lemma JudgeKeeps(s: System, now: int, lostAfter: int, graceS: int)
    requires s.stage.Judging? && Inv(s, Threshold(lostAfter))
    ensures Inv(Next(s, Judge(now), lostAfter, graceS), Threshold(lostAfter))
  {
    var t := Next(s, Judge(now), lostAfter, graceS);
    var n := |s.history|;
    assert t.history[..n] == s.history;
    forall k <- t.stage.cur ensures t.stage.cur[k].count <= MissedRun(t.history, k, t.stage.cur[k].gen) {
      assert t.history[n][k].Missed(t.stage.cur[k].gen);
    }
  }

  lemma NextKeeps(s: System, a: Action, lostAfter: int, graceS: int)
    requires Inv(s, Threshold(lostAfter))
    ensures Inv(Next(s, a, lostAfter, graceS), Threshold(lostAfter))
  {
    if a.Judge? && s.stage.Judging? {
      JudgeKeeps(s, a.now, lostAfter, graceS);
    }
  }

  lemma {:induction false} RunKeeps(actions: seq<Action>, lostAfter: int, graceS: int)
    ensures Inv(After(actions, lostAfter, graceS), Threshold(lostAfter))
    decreases |actions|
  {
    if actions == [] {
    } else {
      RunKeeps(actions[..|actions| - 1], lostAfter, graceS);
      NextKeeps(After(actions[..|actions| - 1], lostAfter, graceS), actions[|actions| - 1], lostAfter, graceS);
    }
  }

  /** Every look of every run was past the grace exactly if, at its time, the grace of the record it
      read was over. */
  ghost predicate LooksAgree(history: seq<map<Key, Look>>, graceS: int) {
    forall j, k :: 0 <= j < |history| && k in history[j] ==>
      (history[j][k].pastGrace
       <==> GraceIsOver(history[j][k].rec.submitTime, history[j][k].rec.updatedAt, history[j][k].now, graceS))
  }

  lemma {:induction false} RunLooksAgree(actions: seq<Action>, lostAfter: int, graceS: int)
    ensures LooksAgree(After(actions, lostAfter, graceS).history, graceS)
    decreases |actions|
  {
    if actions == [] {
    } else {
      RunLooksAgree(actions[..|actions| - 1], lostAfter, graceS);
    }
  }

  lemma {:induction false} MissedRunSpellsOut(history: seq<map<Key, Look>>, k: Key, gen: nat, n: nat)
    requires MissedRun(history, k, gen) >= n
    ensures n <= |history|
    ensures forall j :: |history| - n <= j < |history| ==> k in history[j] && history[j][k].Missed(gen)
  {
    if n == 0 {
    } else {
      MissedRunSpellsOut(history[..|history| - 1], k, gen, n - 1);
    }
  }

  // ---------------------------------------------------------------------
  // Main results
  // ---------------------------------------------------------------------

  /** LOST is sound over whole runs, whatever is forgotten, removed, replaced or resubmitted in
      between: when polling makes a record LOST, that very execution was missing from each of
      the last N judged cycles, every one of which had its query answered and fell past the
      submit grace, and the record still was what the cycle had read. */
  lemma {:induction false} LostIsSound(actions: seq<Action>, a: Action, lostAfter: int, graceS: int, k: Key)
    requires var s := After(actions, lostAfter, graceS); var t := Next(s, a, lostAfter, graceS);
             k in s.records && k in t.records && !s.records[k].state.Lost? && t.records[k].state.Lost? && !a.PutRecord?
    ensures var s := After(actions, lostAfter, graceS); var n := Threshold(lostAfter);
            && a.WriteLost? && s.stage.Writing? && k in s.stage.due
            && Unchanged(s.records[k], s.stage.due[k])
            && s.records[k].state.IsOnLsf() && s.records[k].jobId.Some?
            && 1 <= n <= |s.history|
            && forall j :: |s.history| - n <= j < |s.history| ==>
                 && k in s.history[j] && s.history[j][k].Missed(s.records[k].gen)
                 && var look := s.history[j][k];
                    GraceIsOver(look.rec.submitTime, look.rec.updatedAt, look.now, graceS)
  {
    var s := After(actions, lostAfter, graceS);
    RunKeeps(actions, lostAfter, graceS);
    RunLooksAgree(actions, lostAfter, graceS);
    assert DueAgrees(s.stage.due, s.history, Threshold(lostAfter));
    MissedRunSpellsOut(s.history, k, s.records[k].gen, Threshold(lostAfter));
  }

  /** A whole cycle with nothing in between: it begins exactly if something is on LSF, looks at exactly what
      is, and ends ready for the next one; its look says of each job what the query answered. */
  lemma OneCycleLooksAtAll(s: System, failed: set<nat>, seen: set<Key>, now: int, lostAfter: int, graceS: int)
    requires s.stage.Ready? && exists k :: k in s.records && s.records[k].state.IsOnLsf()
    ensures var a := Next(s, Start, lostAfter, graceS);
            var b := Next(a, Answer(failed, seen), lostAfter, graceS);
            var c := Next(b, Pop, lostAfter, graceS);
            var d := Next(c, Judge(now), lostAfter, graceS);
            var e := Next(d, SetBack, lostAfter, graceS);
            var t := Next(e, WriteLost, lostAfter, graceS);
            && t.stage.Ready? && |t.history| == |s.history| + 1 && t.history[..|s.history|] == s.history
            && (forall k :: k in t.history[|s.history|] <==> k in s.records && s.records[k].state.IsOnLsf())
            && (forall k <- t.history[|s.history|] ::
                  var look := t.history[|s.history|][k];
                  && look.rec == s.records[k] && look.now == now && (look.seen <==> k in seen)
                  && (look.answered <==> s.records[k].jobId.Some? && s.records[k].jobId.value !in failed))
            && t.records.Keys == s.records.Keys
            && (forall k <- s.records :: t.records[k] == s.records[k] || t.records[k] == s.records[k].(state := Lost))
  {
    var k :| k in s.records && s.records[k].state.IsOnLsf();
    assert k in OnLsf(s.records);
  }

  /** Generations are never used again. */
  ghost predicate GensAgree(s: System) {
    && (forall k <- s.records :: s.records[k].gen < s.nextGen)
    && (forall k <- s.streaks :: s.streaks[k].gen < s.nextGen)
    && (forall j, k :: 0 <= j < |s.history| && k in s.history[j] ==> s.history[j][k].rec.gen < s.nextGen)
    && (match s.stage
        case Ready => true
        case Asking(targets) => forall k <- targets :: targets[k].gen < s.nextGen
        case Holding(targets, _, _) => forall k <- targets :: targets[k].gen < s.nextGen
        case Judging(targets, _, _, prev) =>
          (forall k <- targets :: targets[k].gen < s.nextGen) && forall k <- prev :: prev[k].gen < s.nextGen
        case Judged(cur, due) => forall k <- cur :: cur[k].gen < s.nextGen
        case Writing(due) => true)
  }

  lemma {:induction false} RunKeepsGens(actions: seq<Action>, lostAfter: int, graceS: int)
    ensures GensAgree(After(actions, lostAfter, graceS))
    decreases |actions|
  {
    if actions == [] {
    } else {
      RunKeepsGens(actions[..|actions| - 1], lostAfter, graceS);
      NextKeepsGens(After(actions[..|actions| - 1], lostAfter, graceS), actions[|actions| - 1], lostAfter, graceS);
    }
  }

  lemma NextKeepsGens(s: System, a: Action, lostAfter: int, graceS: int)
    requires GensAgree(s)
    ensures GensAgree(Next(s, a, lostAfter, graceS))
  {
  }

  /** A resubmission starts from nothing: over every run a record that is put in has no streak of its own
      execution and no look has been taken of it, whatever a cycle under way still holds. */
  lemma {:induction false} ANewExecutionHasNoPast(actions: seq<Action>, lostAfter: int, graceS: int, k: Key, rec: Rec)
    ensures var s := After(actions, lostAfter, graceS);
            var t := Next(s, PutRecord(k, rec), lostAfter, graceS);
            && k in t.records && CountOf(t.streaks, k, t.records[k].gen) == 0
            && (t.stage.Judging? ==> CountOf(t.stage.prev, k, t.records[k].gen) == 0)
            && (t.stage.Judged? ==> CountOf(t.stage.cur, k, t.records[k].gen) == 0)
            && MissedRun(t.history, k, t.records[k].gen) == 0
            && forall j :: 0 <= j < |t.history| && k in t.history[j] ==> t.history[j][k].rec.gen != t.records[k].gen
  {
    RunKeepsGens(actions, lostAfter, graceS);
  }

  /** Whatever happens beside the cycles can only take streaks away, never raise one. */
  lemma OthersOnlyLowerStreaks(s: System, a: Action, lostAfter: int, graceS: int)
    requires !a.SetBack?
    ensures var t := Next(s, a, lostAfter, graceS);
            forall k <- t.streaks :: k in s.streaks && t.streaks[k] == s.streaks[k]
  {
  }

  // ---------------------------------------------------------------------
  // LOST comes when it is due, and then at once
  // ---------------------------------------------------------------------

  function CountOf(streaks: Streaks, k: Key, gen: nat): nat {
    if k in streaks && streaks[k].gen == gen then streaks[k].count else 0
  }

  /** The unbroken run of misses up to now, where the first `from` judgements left `base`. */
  function RunSince(history: seq<map<Key, Look>>, from: nat, base: nat, k: Key, gen: nat): nat {
    if |history| <= from then base
    else
      var last := history[|history| - 1];
      if k in last && last[k].Missed(gen) then RunSince(history[..|history| - 1], from, base, k, gen) + 1 else 0
  }

  /** In some judgement since `from` the run had reached the threshold. */
  ghost predicate ReachedSince(history: seq<map<Key, Look>>, from: nat, base: nat, k: Key, gen: nat, n: nat) {
    |history| > from &&
    (RunSince(history, from, base, k, gen) >= n || ReachedSince(history[..|history| - 1], from, base, k, gen, n))
  }

  /** Every step of a cycle, whatever its query answers, fails or sees, and everything beside the
      cycles that neither rewrites this record nor drops the jobset's streaks as a whole. */
  predicate LeavesAlone(a: Action, k: Key) {
    match a
    case ForgetAll => false
    case PutRecord(x, _) => x != k
    case Remove(x) => x != k
    case Change(x, _) => x != k
    case _ => true
  }

  datatype Since = Since(rec: Rec, from: nat, base: nat) {
    function Run(history: seq<map<Key, Look>>, k: Key): nat {
      RunSince(history, from, base, k, rec.gen)
    }

    ghost predicate Reached(history: seq<map<Key, Look>>, k: Key, n: nat) {
      ReachedSince(history, from, base, k, rec.gen, n)
    }
  }

  /** What a cycle under way holds about the execution while it is not LOST. */
  ghost predicate Tracks(o: Since, s: System, k: Key, n: nat) {
    var run := o.Run(s.history, k);
    match s.stage
    case Ready => CountOf(s.streaks, k, o.rec.gen) == run && !o.Reached(s.history, k, n)
    case Asking(targets) =>
      && k in targets && targets[k] == o.rec
      && CountOf(s.streaks, k, o.rec.gen) == run && !o.Reached(s.history, k, n)
    case Holding(targets, _, _) =>
      && k in targets && targets[k] == o.rec
      && CountOf(s.streaks, k, o.rec.gen) == run && !o.Reached(s.history, k, n)
    case Judging(targets, _, _, prev) =>
      && k in targets && targets[k] == o.rec
      && CountOf(prev, k, o.rec.gen) == run && !o.Reached(s.history, k, n)
    case Judged(cur, due) =>
      && CountOf(cur, k, o.rec.gen) == run
      && (k in due ==> due[k] == o.rec) && (k in due <==> o.Reached(s.history, k, n))
    case Writing(due) =>
      && CountOf(s.streaks, k, o.rec.gen) == run
      && (k in due ==> due[k] == o.rec) && (k in due <==> o.Reached(s.history, k, n))
  }

  ghost predicate OnTime(o: Since, s: System, k: Key, n: nat) {
    && o.rec.state.IsOnLsf() && k in s.records
    && if s.records[k].state.Lost?
       then s.records[k] == o.rec.(state := Lost) && o.Reached(s.history, k, n)
       else s.records[k] == o.rec && Tracks(o, s, k, n)
  }

  lemma JudgeIsOnTime(o: Since, s: System, now: int, lostAfter: int, graceS: int, k: Key)
    requires OnTime(o, s, k, Threshold(lostAfter)) && s.stage.Judging? && o.from <= |s.history|
    ensures OnTime(o, Next(s, Judge(now), lostAfter, graceS), k, Threshold(lostAfter))
  {
    var t := Next(s, Judge(now), lostAfter, graceS);
    assert t.history[..|s.history|] == s.history;
  }

  lemma NextIsOnTime(o: Since, s: System, a: Action, lostAfter: int, graceS: int, k: Key)
    requires OnTime(o, s, k, Threshold(lostAfter)) && LeavesAlone(a, k) && o.from <= |s.history|
    ensures OnTime(o, Next(s, a, lostAfter, graceS), k, Threshold(lostAfter))
    ensures o.from <= |Next(s, a, lostAfter, graceS).history|
  {
    if a.Judge? && s.stage.Judging? {
      JudgeIsOnTime(o, s, a.now, lostAfter, graceS, k);
    }
  }

  /** In every run: whatever the cycles answer from some quiet moment on, a record that nobody
      rewrites is LOST if and only if in some judgement since then its run of misses reached the
      threshold; the cycle of that judgement writes it, no earlier one and no later one. */
  lemma {:induction false} LostExactlyWhenTheRunIsLong(before: seq<Action>, actions: seq<Action>, lostAfter: int,
                                                       graceS: int, k: Key)
    requires forall a <- actions :: LeavesAlone(a, k)
    requires var s := After(before, lostAfter, graceS);
             s.stage.Ready? && k in s.records && s.records[k].state.IsOnLsf()
    ensures var s := After(before, lostAfter, graceS);
            var t := After(before + actions, lostAfter, graceS);
            var o := Since(s.records[k], |s.history|, CountOf(s.streaks, k, s.records[k].gen));
            && OnTime(o, t, k, Threshold(lostAfter)) && o.from <= |t.history|
            && (t.stage.Ready? ==> (t.records[k].state.Lost? <==> o.Reached(t.history, k, Threshold(lostAfter))))
    decreases |actions|
  {
    if actions == [] {
      assert before + actions == before;
    } else {
      var n := |actions| - 1;
      var s := After(before, lostAfter, graceS);
      var o := Since(s.records[k], |s.history|, CountOf(s.streaks, k, s.records[k].gen));
      LostExactlyWhenTheRunIsLong(before, actions[..n], lostAfter, graceS, k);
      NextIsOnTime(o, After(before + actions[..n], lostAfter, graceS), actions[n], lostAfter, graceS, k);
      assert (before + actions)[..|before| + n] == before + actions[..n];
    }
  }
}
