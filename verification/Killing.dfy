/** From bkill's answers to the record that says "I killed it" (lsfmgr/command.py and
    lsfmgr/killer.py): classified output lines, confirmation rounds, re-query after a
    timeout, verification and marking. */
module Killing {
  import opened JobModel

  /** What may be handed to bkill; Odd is a string that is neither form. */
  datatype Target =
    | Bare(id: nat)
    | Element(id: nat, index: nat)
    | Range(id: nat, lo: nat, hi: nat)
    | Odd(head: Option<nat>)
  {
    function Parent(): Option<nat> {
      if Odd? then head else Some(id)
    }
  }

  // ---------------------------------------------------------------------
  // bkill output
  // ---------------------------------------------------------------------

  datatype Verdict = Accepted | Gone | Unresolved

  /** A line names a job or one element of it. */
  datatype Line = Line(id: nat, index: Option<nat>, verdict: Verdict)

  /** Whom a line speaks about; an element speaks for its parent if the parent was asked for. */
  function About(l: Line, requested: set<Target>): set<Target> {
    match l.index
    case None => {Bare(l.id)}
    case Some(i) => {Element(l.id, i)} + (if Bare(l.id) in requested then {Bare(l.id)} else {})
  }

  /** Everybody some line with this verdict speaks about. */
  function Named(lines: seq<Line>, requested: set<Target>, v: Verdict): set<Target> {
    set l, t | l in lines && l.verdict == v && t in About(l, requested) :: t
  }

  function AcceptedBy(lines: seq<Line>, requested: set<Target>): set<Target> {
    Named(lines, requested, Accepted)
  }

  function ResolvedBy(lines: seq<Line>, requested: set<Target>): set<Target> {
    Named(lines, requested, Accepted) + Named(lines, requested, Gone) - Named(lines, requested, Unresolved)
  }

  lemma NamedOneMore(lines: seq<Line>, l: Line, requested: set<Target>, v: Verdict)
    ensures Named(lines + [l], requested, v)
         == Named(lines, requested, v) + (if l.verdict == v then About(l, requested) else {})
  {
    forall t | t in Named(lines, requested, v) + (if l.verdict == v then About(l, requested) else {})
      ensures t in Named(lines + [l], requested, v)
    {
      assert l in lines + [l];
    }
  }

  /** What a job asked for as a whole must come to, from the lines alone: all lines of its id count,
      those of its elements included; one left open keeps it open, one accepted makes it accepted. */
  ghost predicate ReadsParent(lines: seq<Line>, id: nat, resolved: bool, accepted: bool) {
    && (resolved <==>
          (exists l <- lines :: l.id == id) && forall l <- lines :: l.id == id ==> l.verdict != Unresolved)
    && (accepted <==> exists l <- lines :: l.id == id && l.verdict == Accepted)
  }

  /** Otherwise a line counts only for exactly what it names. */
  ghost predicate ReadsOnly(lines: seq<Line>, id: nat, index: Option<nat>, resolved: bool, accepted: bool) {
    && (resolved <==>
          && (exists l <- lines :: l.id == id && l.index == index)
          && forall l <- lines :: l.id == id && l.index == index ==> l.verdict != Unresolved)
    && (accepted <==> exists l <- lines :: l.id == id && l.index == index && l.verdict == Accepted)
  }

  ghost predicate ReadsRight(lines: seq<Line>, requested: set<Target>, resolved: set<Target>, accepted: set<Target>) {
    && (forall id: nat ::
          if Bare(id) in requested then ReadsParent(lines, id, Bare(id) in resolved, Bare(id) in accepted)
          else ReadsOnly(lines, id, None, Bare(id) in resolved, Bare(id) in accepted))
    && (forall id: nat, i: nat ::
          ReadsOnly(lines, id, Some(i), Element(id, i) in resolved, Element(id, i) in accepted))
  }

  lemma AcceptedMeans(lines: seq<Line>, requested: set<Target>, t: Target)
    ensures t in AcceptedBy(lines, requested) <==> exists l <- lines :: l.verdict.Accepted? && t in About(l, requested)
  {
  }

  lemma JobIsReadRight(lines: seq<Line>, requested: set<Target>, id: nat)
    ensures var r, a := Bare(id) in ResolvedBy(lines, requested), Bare(id) in AcceptedBy(lines, requested);
            if Bare(id) in requested then ReadsParent(lines, id, r, a) else ReadsOnly(lines, id, None, r, a)
  {
    ResolvedMeans(lines, requested, Bare(id));
    AcceptedMeans(lines, requested, Bare(id));
    assert forall l :: Bare(id) in About(l, requested) <==> l.id == id && (l.index.None? || Bare(id) in requested);
  }

  lemma ElementIsReadRight(lines: seq<Line>, requested: set<Target>, id: nat, i: nat)
    ensures ReadsOnly(lines, id, Some(i), Element(id, i) in ResolvedBy(lines, requested),
                      Element(id, i) in AcceptedBy(lines, requested))
  {
    ResolvedMeans(lines, requested, Element(id, i));
    AcceptedMeans(lines, requested, Element(id, i));
    assert forall l :: Element(id, i) in About(l, requested) <==> l.id == id && l.index == Some(i);
  }

  lemma ReadingIsRight(lines: seq<Line>, requested: set<Target>)
    ensures ReadsRight(lines, requested, ResolvedBy(lines, requested), AcceptedBy(lines, requested))
  {
    forall id: nat
      ensures var r, a := Bare(id) in ResolvedBy(lines, requested), Bare(id) in AcceptedBy(lines, requested);
              if Bare(id) in requested then ReadsParent(lines, id, r, a) else ReadsOnly(lines, id, None, r, a)
    {
      JobIsReadRight(lines, requested, id);
    }
    forall id: nat, i: nat
      ensures ReadsOnly(lines, id, Some(i), Element(id, i) in ResolvedBy(lines, requested),
                        Element(id, i) in AcceptedBy(lines, requested))
    {
      ElementIsReadRight(lines, requested, id, i);
    }
  }

  method ParseBkill(lines: seq<Line>, requested: set<Target>) returns (resolved: set<Target>, accepted: set<Target>)
    ensures accepted == AcceptedBy(lines, requested) && resolved == ResolvedBy(lines, requested)
    ensures ReadsRight(lines, requested, resolved, accepted)
  {
    resolved, accepted := {}, {};
    var unresolved: set<Target> := {};
    for i := 0 to |lines|
      invariant accepted == Named(lines[..i], requested, Accepted)
      invariant resolved == Named(lines[..i], requested, Accepted) + Named(lines[..i], requested, Gone)
      invariant unresolved == Named(lines[..i], requested, Unresolved)
    {
      var ids := About(lines[i], requested);
      assert lines[..i + 1] == lines[..i] + [lines[i]];
      forall v ensures Named(lines[..i + 1], requested, v)
                    == Named(lines[..i], requested, v) + (if lines[i].verdict == v then ids else {})
      {
        NamedOneMore(lines[..i], lines[i], requested, v);
      }
      match lines[i].verdict {
        case Accepted =>
          resolved := resolved + ids;
          accepted := accepted + ids;
        case Gone => resolved := resolved + ids;
        case Unresolved => unresolved := unresolved + ids;
      }
    }
    assert lines[..|lines|] == lines;
    resolved := resolved - unresolved;
    ReadingIsRight(lines, requested);
  }

  predicate Resolved(lines: seq<Line>, requested: set<Target>, t: Target) {
    && (exists l <- lines :: !l.verdict.Unresolved? && t in About(l, requested))
    && (forall l <- lines :: l.verdict.Unresolved? ==> t !in About(l, requested))
  }

  /** A target is resolved when some line resolves it and none leaves it open. */
  lemma ResolvedMeans(lines: seq<Line>, requested: set<Target>, t: Target)
    ensures t in ResolvedBy(lines, requested) <==> Resolved(lines, requested, t)
  {
    if t in ResolvedBy(lines, requested) {
      var l :| l in lines && !l.verdict.Unresolved? && t in About(l, requested);
    }
    if Resolved(lines, requested, t) {
      var l :| l in lines && !l.verdict.Unresolved? && t in About(l, requested);
      assert t in Named(lines, requested, l.verdict);
    }
  }

  /** The order of the lines, and whether they came from stdout or stderr, does not matter. */
  lemma LineOrderDoesNotMatter(lines: seq<Line>, other: seq<Line>, requested: set<Target>)
    requires multiset(lines) == multiset(other)
    ensures ResolvedBy(lines, requested) == ResolvedBy(other, requested)
    ensures AcceptedBy(lines, requested) == AcceptedBy(other, requested)
  {
    assert forall l :: l in lines <==> l in multiset(lines);
    assert forall l :: l in other <==> l in multiset(other);
    forall v ensures Named(lines, requested, v) == Named(other, requested, v) {
    }
  }

  /** bkill's output can confirm exactly the targets that are a job or one element of a job. */
  predicate Confirmable(t: Target) {
    t.Bare? || t.Element?
  }

  /** Its lines name jobs and elements, and these speak only for themselves and for a parent that
      was asked for as a whole: a range is never among them. */
  lemma ConfirmableExactlyJobsAndElements(requested: set<Target>, t: Target)
    ensures (exists lines :: t in ResolvedBy(lines, requested)) <==> Confirmable(t)
  {
    if Confirmable(t) {
      var l := Line(t.id, if t.Element? then Some(t.index) else None, Accepted);
      ResolvedMeans([l], requested, t);
      assert Resolved([l], requested, t);
    } else {
      forall lines ensures t !in ResolvedBy(lines, requested) {
        assert forall l <- lines :: t !in About(l, requested);
      }
    }
  }

  /** One bkill call: the chunk it was given and what it printed; a late one says nothing. */
  datatype Call = Call(chunk: seq<Target>, lines: seq<Line>, late: bool) {
    function Asked(): set<Target> {
      set t | t in chunk
    }
  }

  function CallsResolve(calls: seq<Call>): set<Target> {
    set c, t | c in calls && !c.late && t in ResolvedBy(c.lines, c.Asked()) :: t
  }

  function CallsAccept(calls: seq<Call>): set<Target> {
    set c, t | c in calls && !c.late && t in AcceptedBy(c.lines, c.Asked()) :: t
  }

  function CallsLate(calls: seq<Call>): set<Target> {
    set c, t | c in calls && c.late && t in c.chunk :: t
  }

  lemma CallsOneMore(calls: seq<Call>, c: Call)
    ensures CallsResolve(calls + [c]) == CallsResolve(calls) + (if c.late then {} else ResolvedBy(c.lines, c.Asked()))
    ensures CallsAccept(calls + [c]) == CallsAccept(calls) + (if c.late then {} else AcceptedBy(c.lines, c.Asked()))
    ensures CallsLate(calls + [c]) == CallsLate(calls) + (if c.late then c.Asked() else {})
  {
    assert c in calls + [c];
    assert forall x :: x in calls + [c] <==> x in calls || x == c;
  }

  /** Whom the first n calls were given, as often as they were. */
  function Handed(calls: seq<Call>, n: nat): multiset<Target>
    requires n <= |calls|
  {
    if n == 0 then multiset{} else Handed(calls, n - 1) + multiset(calls[n - 1].chunk)
  }

  /** The chunks of one round: none is empty, and every open target is in exactly one. */
  predicate InChunks(calls: seq<Call>, open: set<Target>) {
    Handed(calls, |calls|) == multiset(open) && forall c <- calls :: c.chunk != []
  }

  function Processed(calls: seq<Call>, n: nat): nat
    requires n <= |calls|
  {
    if n == 0 then 0 else Processed(calls, n - 1) + |calls[n - 1].chunk|
  }

  /** What is reported after each of the first n calls: the targets no longer open before the round,
      and those processed since. */
  function ProgressOf(base: int, calls: seq<Call>, n: nat): seq<int>
    requires n <= |calls|
  {
    if n == 0 then [] else ProgressOf(base, calls, n - 1) + [base + Processed(calls, n)]
  }

  ghost predicate Collected(calls: seq<Call>, resolved: set<Target>, accepted: set<Target>, timedOut: set<Target>) {
    resolved == CallsResolve(calls) && accepted == CallsAccept(calls) && timedOut == CallsLate(calls)
  }

  lemma CollectedOneMore(calls: seq<Call>, c: Call, resolved: set<Target>, accepted: set<Target>, timedOut: set<Target>)
    requires Collected(calls, resolved, accepted, timedOut)
    ensures Collected(calls + [c],
                      resolved + (if c.late then {} else ResolvedBy(c.lines, c.Asked())),
                      accepted + (if c.late then {} else AcceptedBy(c.lines, c.Asked())),
                      timedOut + (if c.late then c.Asked() else {}))
  {
    CallsOneMore(calls, c);
  }

  method ReadCall(c: Call) returns (resolved: set<Target>, accepted: set<Target>, late: set<Target>)
    ensures resolved == (if c.late then {} else ResolvedBy(c.lines, c.Asked()))
    ensures accepted == (if c.late then {} else AcceptedBy(c.lines, c.Asked()))
    ensures late == (if c.late then c.Asked() else {})
  {
    if c.late {
      return {}, {}, c.Asked();
    }
    resolved, accepted := ParseBkill(c.lines, c.Asked());
    late := {};
  }

  /** The answers of the chunks, in whatever order they complete. */
  method CollectCalls(calls: seq<Call>, base: int)
    returns (resolved: set<Target>, accepted: set<Target>, timedOut: set<Target>, progress: seq<int>)
    ensures resolved == CallsResolve(calls) && accepted == CallsAccept(calls) && timedOut == CallsLate(calls)
    ensures progress == ProgressOf(base, calls, |calls|)
  {
    resolved, accepted, timedOut, progress := {}, {}, {}, [];
    var processed := 0;
    for i := 0 to |calls|
      invariant Collected(calls[..i], resolved, accepted, timedOut)
      invariant processed == Processed(calls, i) && progress == ProgressOf(base, calls, i)
    {
      var got, acc, late := ReadCall(calls[i]);
      CollectedOneMore(calls[..i], calls[i], resolved, accepted, timedOut);
      assert calls[..i + 1] == calls[..i] + [calls[i]];
      resolved, accepted, timedOut := resolved + got, accepted + acc, timedOut + late;
      processed := processed + |calls[i].chunk|;
      progress := progress + [base + processed];
    }
    assert calls[..|calls|] == calls;
  }

  // ---------------------------------------------------------------------
  // Matching targets against rows
  // ---------------------------------------------------------------------

  /** A row of bjobs, or a record: index None stands for a whole or folded job. */
  datatype Row = Row(id: nat, index: Option<nat>, state: JobState)

  datatype Classes = Classes(whole: set<nat>, exact: set<(nat, nat)>, ranges: set<(nat, nat, nat)>)

  predicate Hits(r: Row, c: Classes) {
    || r.id in c.whole
    || (r.index.Some? && (r.id, r.index.value) in c.exact)
    || (r.index.Some? && exists x <- c.ranges :: x.0 == r.id && x.1 <= r.index.value <= x.2)
  }

  predicate Names(t: Target, r: Row) {
    match t
    case Bare(id) => r.id == id
    case Element(id, i) => r.id == id && r.index == Some(i)
    case Range(id, lo, hi) => r.id == id && r.index.Some? && lo <= r.index.value <= hi
    case Odd(head) => head == Some(r.id)
  }

  method ClassifyTargets(targets: seq<Target>) returns (c: Classes)
    ensures forall r :: Hits(r, c) <==> exists t <- targets :: Names(t, r)
  {
    c := Classes({}, {}, {});
    for i := 0 to |targets|
      invariant forall r :: Hits(r, c) <==> exists j :: 0 <= j < i && Names(targets[j], r)
    {
      ghost var was := c;
      var t := targets[i];
      match t {
        case Bare(id) => c := c.(whole := c.whole + {id});
        case Element(id, x) => c := c.(exact := c.exact + {(id, x)});
        case Range(id, lo, hi) => c := c.(ranges := c.ranges + {(id, lo, hi)});
        case Odd(head) => if head.Some? { c := c.(whole := c.whole + {head.value}); }
      }
      forall r ensures Hits(r, c) <==> Hits(r, was) || Names(t, r) {
        if t.Range? && Names(t, r) {
          assert (t.id, t.lo, t.hi) in c.ranges;
        }
      }
    }
  }

  // ---------------------------------------------------------------------
  // Re-query after a timeout
  // ---------------------------------------------------------------------

  predicate Folded(t: Target, rows: set<Row>) {
    (t.Element? || t.Range?) && exists r <- rows :: Some(r.id) == t.Parent() && r.index.None?
  }

  predicate SeenAlive(t: Target, rows: set<Row>) {
    exists r <- rows :: Names(t, r) && r.state.IsOnLsf()
  }

  /** Nothing about the target is open: its job was answered for, the answer tells elements
      apart where that matters, and no row of it is alive. */
  predicate ShownGone(t: Target, rows: set<Row>, failed: set<nat>) {
    && t.Parent().Some? && t.Parent().value !in failed
    && !Folded(t, rows) && !SeenAlive(t, rows)
  }

  /** Not all of its rows ended by themselves. */
  predicate EndedByKill(t: Target, rows: set<Row>) {
    (forall r <- rows :: !Names(t, r)) || exists r <- rows :: Names(t, r) && !r.state.Done?
  }

  function AsSet<T>(items: seq<T>): set<T> {
    set x | x in items
  }

  function RowsOf(rows: seq<Row>, id: nat): seq<Row> {
    if rows == [] then []
    else RowsOf(rows[..|rows| - 1], id) + if rows[|rows| - 1].id == id then [rows[|rows| - 1]] else []
  }

  lemma {:induction false} RowsOfHolds(rows: seq<Row>, id: nat)
    ensures forall r :: r in RowsOf(rows, id) <==> r in rows && r.id == id
  {
    if rows == [] {
    } else {
      RowsOfHolds(rows[..|rows| - 1], id);
      assert rows == rows[..|rows| - 1] + [rows[|rows| - 1]];
    }
  }

  /** The verdict on one timed-out target, from the rows alone. A job is gone if its query did not fail
      and no row of its id is on LSF; an element or a range if, besides, no row is folded and no row of
      it is on LSF. The kill is held responsible unless all rows of the target, one at least, are DONE. */
  ghost predicate JudgedRight(t: Target, rows: seq<Row>, failed: set<nat>, gone: bool, byKill: bool) {
    match t
    case Bare(id) => JudgedJob(id, rows, failed, gone, byKill)
    case Odd(head) => if head.Some? then JudgedJob(head.value, rows, failed, gone, byKill) else !gone && !byKill
    case Element(id, i) => JudgedRange(id, i, i, rows, failed, gone, byKill)
    case Range(id, lo, hi) => JudgedRange(id, lo, hi, rows, failed, gone, byKill)
  }

  ghost predicate JudgedJob(id: nat, rows: seq<Row>, failed: set<nat>, gone: bool, byKill: bool) {
    && (gone <==> id !in failed && forall r <- rows :: r.id == id ==> !r.state.IsOnLsf())
    && (byKill <==>
          gone && ((forall r <- rows :: r.id != id) || exists r <- rows :: r.id == id && r.state != Done))
  }

  ghost predicate JudgedRange(id: nat, lo: nat, hi: nat, rows: seq<Row>, failed: set<nat>, gone: bool, byKill: bool) {
    && (gone <==>
          && id !in failed
          && forall r <- rows :: r.id == id ==>
               r.index.Some? && (lo <= r.index.value <= hi ==> !r.state.IsOnLsf()))
    && (byKill <==>
          gone && ((forall r <- rows :: r.id == id ==> !(lo <= r.index.value <= hi))
                   || exists r <- rows :: r.id == id && lo <= r.index.value <= hi && r.state != Done))
  }

  lemma JudgementIsRight(t: Target, rows: seq<Row>, failed: set<nat>)
    ensures var gone := ShownGone(t, AsSet(rows), failed);
            JudgedRight(t, rows, failed, gone, gone && EndedByKill(t, AsSet(rows)))
  {
    var all := AsSet(rows);
    assert forall r :: r in all <==> r in rows;
    if t.Element? {
      assert forall r :: Names(t, r) <==> r.id == t.id && r.index == Some(t.index);
    }
  }

  /** The verdict on one timed-out target, branch by branch. */
  method JudgeTarget(t: Target, rows: seq<Row>, failed: set<nat>) returns (gone: bool, byKill: bool)
    ensures JudgedRight(t, rows, failed, gone, byKill)
    ensures var all := AsSet(rows);
            && gone == ShownGone(t, all, failed)
            && byKill == (gone && EndedByKill(t, all))
  {
    JudgementIsRight(t, rows, failed);
    if t.Parent().None? || t.Parent().value in failed {
      return false, false;
    }
    var mine := RowsOf(rows, t.Parent().value);
    RowsOfHolds(rows, t.Parent().value);
    ghost var all := AsSet(rows);
    assert forall r :: r in all && Names(t, r) ==> r in mine;
    if mine == [] {
      return true, true;
    }
    var folded := exists r :: r in mine && r.index.None?;
    if (t.Element? || t.Range?) && folded {
      return false, false;
    }
    var hit := set r | r in mine && Names(t, r);
    assert forall r :: r in hit <==> r in all && Names(t, r);
    var alive := exists r :: r in hit && r.state.IsOnLsf();
    gone := !alive;
    byKill := gone && (hit == {} || exists r :: r in hit && !r.state.Done?);
  }

  method ConfirmByQuery(targets: set<Target>, rows: seq<Row>, failed: set<nat>)
    returns (gone: set<Target>, byKill: set<Target>)
    ensures var all := AsSet(rows);
            && gone == (set t | t in targets && ShownGone(t, all, failed))
            && byKill == (set t | t in gone && EndedByKill(t, all))
  {
    gone, byKill := {}, {};
    ghost var all := AsSet(rows);
    var left := targets;
    while left != {}
      invariant left <= targets
      invariant gone == set t | t in targets - left && ShownGone(t, all, failed)
      invariant byKill == set t | t in gone && EndedByKill(t, all)
    {
      var t := PickOne(left);
      var g, b := JudgeTarget(t, rows, failed);
      if g {
        gone := gone + {t};
        if b {
          byKill := byKill + {t};
        }
      }
      left := left - {t};
    }
  }

  // ---------------------------------------------------------------------
  // Confirmation rounds
  // ---------------------------------------------------------------------

  /** What LSF answers in one round: the calls of bkill, and the re-query of what was late. */
  datatype Round = Round(calls: seq<Call>, rows: seq<Row>, failed: set<nat>)

  /** The targets still open after the given rounds. */
  function Open(targets: set<Target>, rounds: seq<Round>): set<Target> {
    if rounds == [] then targets
    else
      var before := Open(targets, rounds[..|rounds| - 1]);
      set t | t in before && t !in Closed(before, rounds[|rounds| - 1])
  }

  /** What a round closes among the open targets. */
  function Closed(pending: set<Target>, r: Round): set<Target> {
    CallsResolve(r.calls) + Requeried(pending - CallsResolve(r.calls), r)
  }

  function Requeried(pending: set<Target>, r: Round): set<Target> {
    set t | t in CallsLate(r.calls) * pending && ShownGone(t, AsSet(r.rows), r.failed)
  }

  /** The targets a round gives this kill a claim on: its signal was accepted, or a re-query
      after a timeout showed them ended, not all by themselves. */
  function Claims(pending: set<Target>, r: Round): set<Target> {
    CallsAccept(r.calls) + set t | t in Requeried(pending - CallsResolve(r.calls), r) && EndedByKill(t, AsSet(r.rows))
  }

  function ClosedBy(targets: set<Target>, rounds: seq<Round>): set<Target> {
    if rounds == [] then {}
    else
      var before := rounds[..|rounds| - 1];
      ClosedBy(targets, before) + Closed(Open(targets, before), rounds[|rounds| - 1])
  }

  function ClaimedBy(targets: set<Target>, rounds: seq<Round>): set<Target> {
    if rounds == [] then {}
    else
      var before := rounds[..|rounds| - 1];
      ClaimedBy(targets, before) + Claims(Open(targets, before), rounds[|rounds| - 1])
  }

  /** Each round is LSF's answer to what was still open. */
  ghost predicate Asked(targets: set<Target>, rounds: seq<Round>, world: (nat, set<Target>) -> Round) {
    rounds == [] ||
    var n := |rounds| - 1;
    Asked(targets, rounds[..n], world) && rounds[n] == world(n, Open(targets, rounds[..n]))
  }

  lemma {:induction false} OpenShrinks(targets: set<Target>, rounds: seq<Round>)
    ensures Open(targets, rounds) <= targets && Base(targets, rounds) >= 0
  {
    if rounds == [] {
    } else {
      OpenShrinks(targets, rounds[..|rounds| - 1]);
    }
    Fewer(Open(targets, rounds), targets);
  }

  lemma Fewer<T>(a: set<T>, b: set<T>)
    requires a <= b
    ensures |a| <= |b|
  {
    assert b == a + (b - a);
  }

  /** How many targets are no longer open after the given rounds. */
  function Base(targets: set<Target>, rounds: seq<Round>): int {
    |targets| - |Open(targets, rounds)|
  }

  /** Everything a kill reports, round after round. */
  function Reports(targets: set<Target>, rounds: seq<Round>): seq<int> {
    if rounds == [] then []
    else
      var before := rounds[..|rounds| - 1];
      var calls := rounds[|rounds| - 1].calls;
      Reports(targets, before) + ProgressOf(Base(targets, before), calls, |calls|)
  }

  /** Asks until nothing is open or the retries are used up. */
  method KillConfirm(targets: set<Target>, maxRetry: nat, world: (nat, set<Target>) -> Round)
    returns (pending: set<Target>, accepted: set<Target>, resolved: set<Target>, attempts: nat,
             progress: seq<int>, ghost rounds: seq<Round>)
    ensures progress == Reports(targets, rounds)
    ensures |rounds| == attempts + 1 && attempts <= maxRetry && Asked(targets, rounds, world)
    ensures pending == Open(targets, rounds) && pending == targets - resolved
    ensures pending != {} ==> attempts == maxRetry
    ensures attempts > 0 ==> Open(targets, rounds[..attempts]) != {}
    ensures resolved == ClosedBy(targets, rounds)
    ensures accepted == ClaimedBy(targets, rounds) * resolved
    ensures forall t | t in targets && !Confirmable(t) ::
              t in pending && attempts == maxRetry <==> !ShownGoneAfterTimeout(targets, rounds, t)
  {
    pending, accepted, resolved, attempts, progress, rounds := targets, {}, {}, 0, [], [];
    while true
      invariant |rounds| == attempts <= maxRetry && Asked(targets, rounds, world)
      invariant Tally(targets, rounds, pending, accepted, resolved, progress)
      invariant attempts > 0 ==> pending != {}
      decreases maxRetry - attempts
    {
      var r := world(attempts, pending);
      var base := CountClosed(targets, pending, rounds);
      RoundAdds(targets, rounds, r, world, pending, accepted, resolved, progress, base);
      var got, claimed, steps := OneRound(base, pending, r);
      rounds := rounds + [r];
      pending, accepted, resolved, progress := pending - got, accepted + claimed, resolved + got, progress + steps;
      if pending == {} || attempts >= maxRetry {
        break;
      }
      attempts := attempts + 1;
    }
    accepted := accepted * resolved;
    OpenIsWhatNoRoundClosed(targets, rounds);
    FateOfRanges(targets, rounds);
  }

  /** What a kill holds in its variables after the given rounds. */
  ghost predicate Tally(targets: set<Target>, rounds: seq<Round>, pending: set<Target>, accepted: set<Target>,
                        resolved: set<Target>, progress: seq<int>)
  {
    && pending == Open(targets, rounds) && resolved == ClosedBy(targets, rounds)
    && accepted == ClaimedBy(targets, rounds) && progress == Reports(targets, rounds)
  }

  lemma RoundAdds(targets: set<Target>, rounds: seq<Round>, r: Round, world: (nat, set<Target>) -> Round,
                  pending: set<Target>, accepted: set<Target>, resolved: set<Target>, progress: seq<int>, base: int)
    requires Asked(targets, rounds, world) && r == world(|rounds|, pending) && base == Base(targets, rounds)
    requires Tally(targets, rounds, pending, accepted, resolved, progress)
    ensures Asked(targets, rounds + [r], world) && (rounds + [r])[..|rounds|] == rounds
    ensures Tally(targets, rounds + [r], pending - Closed(pending, r), accepted + Claims(pending, r),
                  resolved + Closed(pending, r), progress + ProgressOf(base, r.calls, |r.calls|))
  {
    AskedOnceMore(targets, rounds, r, world);
    ReportedOnceMore(targets, rounds, r);
  }

  lemma AskedOnceMore(targets: set<Target>, rounds: seq<Round>, r: Round, world: (nat, set<Target>) -> Round)
    requires Asked(targets, rounds, world) && r == world(|rounds|, Open(targets, rounds))
    ensures var more := rounds + [r];
            && Asked(targets, more, world) && more[..|rounds|] == rounds
            && Open(targets, more) == Open(targets, rounds) - Closed(Open(targets, rounds), r)
            && ClosedBy(targets, more) == ClosedBy(targets, rounds) + Closed(Open(targets, rounds), r)
            && ClaimedBy(targets, more) == ClaimedBy(targets, rounds) + Claims(Open(targets, rounds), r)
  {
    assert (rounds + [r])[..|rounds|] == rounds;
  }

  lemma ReportedOnceMore(targets: set<Target>, rounds: seq<Round>, r: Round)
    ensures Reports(targets, rounds + [r])
         == Reports(targets, rounds) + ProgressOf(Base(targets, rounds), r.calls, |r.calls|)
  {
    var more := rounds + [r];
    assert more[..|more| - 1] == rounds && more[|more| - 1] == r;
  }

  /** What a round starts its progress from. */
  method CountClosed(targets: set<Target>, pending: set<Target>, ghost rounds: seq<Round>) returns (base: int)
    requires pending == Open(targets, rounds)
    ensures base == Base(targets, rounds)
  {
    base := |targets| - |pending|;
  }

  method OneRound(base: int, open: set<Target>, r: Round)
    returns (closed: set<Target>, claimed: set<Target>, progress: seq<int>)
    ensures closed == Closed(open, r) && claimed == Claims(open, r)
    ensures progress == ProgressOf(base, r.calls, |r.calls|)
  {
    var resolved, accepted, timedOut;
    resolved, accepted, timedOut, progress := CollectCalls(r.calls, base);
    closed, claimed := resolved, accepted;
    var unknown := timedOut * (open - resolved);
    if unknown != {} {
      var gone, byKill := ConfirmByQuery(unknown, r.rows, r.failed);
      closed := closed + gone;
      claimed := claimed + byKill;
    }
  }

  /** At every point what is open is what was asked for minus what any round closed. */
  lemma {:induction false} OpenIsWhatNoRoundClosed(targets: set<Target>, rounds: seq<Round>)
    ensures Open(targets, rounds) == targets - ClosedBy(targets, rounds)
  {
    if rounds == [] {
    } else {
      OpenIsWhatNoRoundClosed(targets, rounds[..|rounds| - 1]);
    }
  }

  /** A round closes a target for one of two reasons. */
  predicate ClosedFor(t: Target, pending: set<Target>, r: Round) {
    || (exists c <- r.calls :: !c.late && Resolved(c.lines, c.Asked(), t))
    || (t in pending && (exists c <- r.calls :: c.late && t in c.chunk) && ShownGone(t, AsSet(r.rows), r.failed))
  }

  /** A round gives a claim for one of two reasons. */
  predicate ClaimedFor(t: Target, pending: set<Target>, r: Round) {
    || (exists c <- r.calls :: !c.late && exists l <- c.lines :: l.verdict.Accepted? && t in About(l, c.Asked()))
    || (t in Requeried(pending - CallsResolve(r.calls), r) && EndedByKill(t, AsSet(r.rows)))
  }

  lemma ResolvedInSomeCall(calls: seq<Call>, t: Target)
    ensures t in CallsResolve(calls) <==> exists c <- calls :: !c.late && Resolved(c.lines, c.Asked(), t)
  {
    forall c: Call ensures t in ResolvedBy(c.lines, c.Asked()) <==> Resolved(c.lines, c.Asked(), t) {
      ResolvedMeans(c.lines, c.Asked(), t);
    }
  }

  lemma ClosedMeans(t: Target, pending: set<Target>, r: Round)
    ensures t in Closed(pending, r) <==> ClosedFor(t, pending, r)
  {
    ResolvedInSomeCall(r.calls, t);
  }

  lemma ClaimedMeans(t: Target, pending: set<Target>, r: Round)
    ensures t in Claims(pending, r) <==> ClaimedFor(t, pending, r)
  {
    if t in CallsAccept(r.calls) {
      var c :| c in r.calls && !c.late && t in AcceptedBy(c.lines, c.Asked());
      var l :| l in c.lines && l.verdict == Accepted && t in About(l, c.Asked());
    }
    if exists c <- r.calls :: !c.late && exists l <- c.lines :: l.verdict.Accepted? && t in About(l, c.Asked()) {
      var c :| c in r.calls && !c.late && exists l <- c.lines :: l.verdict.Accepted? && t in About(l, c.Asked());
      assert t in AcceptedBy(c.lines, c.Asked());
    }
  }

  ghost predicate ClosedAt(targets: set<Target>, rounds: seq<Round>, t: Target, i: nat) {
    i < |rounds| && ClosedFor(t, Open(targets, rounds[..i]), rounds[i])
  }

  ghost predicate ClaimedAt(targets: set<Target>, rounds: seq<Round>, t: Target, i: nat) {
    i < |rounds| && ClaimedFor(t, Open(targets, rounds[..i]), rounds[i])
  }

  ghost predicate ClosedInSomeRound(targets: set<Target>, rounds: seq<Round>, t: Target) {
    exists i: nat :: ClosedAt(targets, rounds, t, i)
  }

  ghost predicate ClaimedInSomeRound(targets: set<Target>, rounds: seq<Round>, t: Target) {
    exists i: nat :: ClaimedAt(targets, rounds, t, i)
  }

  lemma EarlierRoundsStay(targets: set<Target>, rounds: seq<Round>, t: Target, i: nat)
    requires i < |rounds| - 1
    ensures ClosedAt(targets, rounds[..|rounds| - 1], t, i) == ClosedAt(targets, rounds, t, i)
    ensures ClaimedAt(targets, rounds[..|rounds| - 1], t, i) == ClaimedAt(targets, rounds, t, i)
  {
    assert rounds[..|rounds| - 1][..i] == rounds[..i];
  }

  lemma ClosedInSomeRoundSteps(targets: set<Target>, rounds: seq<Round>, t: Target)
    requires rounds != []
    ensures var n := |rounds| - 1;
            ClosedInSomeRound(targets, rounds, t)
            <==> ClosedInSomeRound(targets, rounds[..n], t) || ClosedAt(targets, rounds, t, n)
  {
    var before := rounds[..|rounds| - 1];
    if ClosedInSomeRound(targets, before, t) {
      var i: nat :| ClosedAt(targets, before, t, i);
      EarlierRoundsStay(targets, rounds, t, i);
    }
    if ClosedInSomeRound(targets, rounds, t) {
      var i: nat :| ClosedAt(targets, rounds, t, i);
      if i < |before| {
        EarlierRoundsStay(targets, rounds, t, i);
      }
    }
  }

  lemma ClaimedInSomeRoundSteps(targets: set<Target>, rounds: seq<Round>, t: Target)
    requires rounds != []
    ensures var n := |rounds| - 1;
            ClaimedInSomeRound(targets, rounds, t)
            <==> ClaimedInSomeRound(targets, rounds[..n], t) || ClaimedAt(targets, rounds, t, n)
  {
    var before := rounds[..|rounds| - 1];
    if ClaimedInSomeRound(targets, before, t) {
      var i: nat :| ClaimedAt(targets, before, t, i);
      EarlierRoundsStay(targets, rounds, t, i);
    }
    if ClaimedInSomeRound(targets, rounds, t) {
      var i: nat :| ClaimedAt(targets, rounds, t, i);
      if i < |before| {
        EarlierRoundsStay(targets, rounds, t, i);
      }
    }
  }

  /** Over all rounds: a target is closed exactly if some round closed it, and claimed exactly if
      some round gave a claim, each for a reason found in the lines and rows of that round. */
  lemma {:induction false} ClosedAndClaimedExactly(targets: set<Target>, rounds: seq<Round>, t: Target)
    ensures t in ClosedBy(targets, rounds) <==> ClosedInSomeRound(targets, rounds, t)
    ensures t in ClaimedBy(targets, rounds) <==> ClaimedInSomeRound(targets, rounds, t)
  {
    if rounds == [] {
    } else {
      var n := |rounds| - 1;
      ClosedAndClaimedExactly(targets, rounds[..n], t);
      ClosedInSomeRoundSteps(targets, rounds, t);
      ClaimedInSomeRoundSteps(targets, rounds, t);
      ClosedMeans(t, Open(targets, rounds[..n]), rounds[n]);
      ClaimedMeans(t, Open(targets, rounds[..n]), rounds[n]);
    }
  }

  /** What bkill cannot confirm leaves only through a call that was late and a re-query that shows
      it gone. */
  ghost predicate ShownGoneAfterTimeout(targets: set<Target>, rounds: seq<Round>, t: Target) {
    exists i :: 0 <= i < |rounds| && t in Open(targets, rounds[..i])
                && t in CallsLate(rounds[i].calls) && ShownGone(t, AsSet(rounds[i].rows), rounds[i].failed)
  }

  lemma NeverResolved(calls: seq<Call>, t: Target)
    requires !Confirmable(t)
    ensures t !in CallsResolve(calls)
  {
    forall c | c in calls ensures t !in ResolvedBy(c.lines, c.Asked()) {
      ConfirmableExactlyJobsAndElements(c.Asked(), t);
    }
  }

  lemma {:induction false} RangesLeaveOnlyByRequery(targets: set<Target>, rounds: seq<Round>, t: Target)
    requires t in targets && !Confirmable(t)
    ensures t in Open(targets, rounds) <==> !ShownGoneAfterTimeout(targets, rounds, t)
  {
    if rounds == [] {
    } else {
      var n := |rounds| - 1;
      RangesLeaveOnlyByRequery(targets, rounds[..n], t);
      NeverResolved(rounds[n].calls, t);
      forall i | 0 <= i < n ensures rounds[..n][..i] == rounds[..i] && rounds[..n][i] == rounds[i] {
      }
      StillGoneAfterTimeout(targets, rounds, t);
    }
  }

  lemma FateOfRanges(targets: set<Target>, rounds: seq<Round>)
    ensures forall t | t in targets && !Confirmable(t) ::
              t in Open(targets, rounds) <==> !ShownGoneAfterTimeout(targets, rounds, t)
  {
    forall t | t in targets && !Confirmable(t)
      ensures t in Open(targets, rounds) <==> !ShownGoneAfterTimeout(targets, rounds, t)
    {
      RangesLeaveOnlyByRequery(targets, rounds, t);
    }
  }

  lemma StillGoneAfterTimeout(targets: set<Target>, rounds: seq<Round>, t: Target)
    requires rounds != []
    ensures var n := |rounds| - 1;
            ShownGoneAfterTimeout(targets, rounds, t)
            <==> ShownGoneAfterTimeout(targets, rounds[..n], t)
                 || (t in Open(targets, rounds[..n]) && t in CallsLate(rounds[n].calls)
                     && ShownGone(t, AsSet(rounds[n].rows), rounds[n].failed))
  {
    var n := |rounds| - 1;
    forall i | 0 <= i < n ensures rounds[..n][..i] == rounds[..i] && rounds[..n][i] == rounds[i] {
    }
  }

  // ---------------------------------------------------------------------
  // Progress
  // ---------------------------------------------------------------------

  predicate Between(steps: seq<int>, lo: int, hi: int) {
    forall p <- steps :: lo <= p <= hi
  }

  predicate NeverFalls(steps: seq<int>) {
    forall i, j :: 0 <= i < j < |steps| ==> steps[i] <= steps[j]
  }

  predicate EndsAt(steps: seq<int>, total: int) {
    steps != [] ==> steps[|steps| - 1] == total
  }

  /** Every round was asked of what was still open, in chunks, and only a kill with something left
      to do goes on to another round. */
  ghost predicate Chunked(targets: set<Target>, rounds: seq<Round>) {
    rounds == [] ||
    var n := |rounds| - 1;
    && Chunked(targets, rounds[..n])
    && InChunks(rounds[n].calls, Open(targets, rounds[..n])) && (n > 0 ==> Open(targets, rounds[..n]) != {})
  }

  /** Whatever is handed to bkill comes in chunks of what is open. */
  ghost predicate AsksInChunks(world: (nat, set<Target>) -> Round) {
    forall n, open :: InChunks(world(n, open).calls, open)
  }

  /** So the rounds of every kill are chunked. */
  lemma {:induction false} EveryKillIsChunked(targets: set<Target>, rounds: seq<Round>,
                                              world: (nat, set<Target>) -> Round)
    requires Asked(targets, rounds, world) && AsksInChunks(world)
    requires |rounds| > 1 ==> Open(targets, rounds[..|rounds| - 1]) != {}
    ensures Chunked(targets, rounds)
  {
    if rounds == [] {
    } else {
      var n := |rounds| - 1;
      if n > 1 {
        OpenBefore(targets, rounds[..n]);
      }
      EveryKillIsChunked(targets, rounds[..n], world);
    }
  }

  lemma OpenBefore(targets: set<Target>, rounds: seq<Round>)
    requires rounds != [] && Open(targets, rounds) != {}
    ensures Open(targets, rounds[..|rounds| - 1]) != {}
  {
  }

  /** Within a round the reports only grow, and the last one counts every call. */
  lemma {:induction false} ProgressOfGrows(base: int, calls: seq<Call>, n: nat)
    requires n <= |calls|
    ensures |ProgressOf(base, calls, n)| == n
    ensures Between(ProgressOf(base, calls, n), base, base + Processed(calls, n))
    ensures NeverFalls(ProgressOf(base, calls, n)) && EndsAt(ProgressOf(base, calls, n), base + Processed(calls, n))
    ensures n > 0 ==> ProgressOf(base, calls, n)[0] == base + |calls[0].chunk|
  {
    if n == 0 {
    } else {
      ProgressOfGrows(base, calls, n - 1);
      assert n == 1 ==> Processed(calls, 0) == 0;
    }
  }

  lemma {:induction false} FirstIsPart(calls: seq<Call>, n: nat)
    requires 0 < n <= |calls| && forall c <- calls :: c.chunk != []
    ensures n == 1 ==> Processed(calls, n) == |calls[0].chunk|
    ensures n > 1 ==> Processed(calls, n) > |calls[0].chunk|
  {
    if n == 1 {
      assert Processed(calls, 0) == 0;
    } else {
      FirstIsPart(calls, n - 1);
      assert calls[n - 1] in calls;
    }
  }

  lemma {:induction false} ProcessedIsHanded(calls: seq<Call>, n: nat)
    requires n <= |calls|
    ensures Processed(calls, n) == |Handed(calls, n)|
  {
    if n == 0 {
    } else {
      ProcessedIsHanded(calls, n - 1);
    }
  }

  /** The reports of one round: from the base up to the total, which the last call always reaches. */
  lemma RoundReports(targets: set<Target>, rounds: seq<Round>, calls: seq<Call>)
    requires InChunks(calls, Open(targets, rounds))
    ensures var steps := ProgressOf(Base(targets, rounds), calls, |calls|);
            && |steps| == |calls| && Between(steps, Base(targets, rounds), |targets|)
            && NeverFalls(steps) && EndsAt(steps, |targets|)
            && (calls != [] ==> (steps[0] == |targets| <==> |calls| == 1))
            && (calls == [] <==> Open(targets, rounds) == {})
  {
    ProgressOfGrows(Base(targets, rounds), calls, |calls|);
    ProcessedIsHanded(calls, |calls|);
    if calls != [] {
      FirstIsPart(calls, |calls|);
      assert |Handed(calls, |calls|)| > 0;
    }
  }

  lemma BaseGrows(targets: set<Target>, rounds: seq<Round>)
    requires rounds != []
    ensures Base(targets, rounds[..|rounds| - 1]) <= Base(targets, rounds)
  {
    Fewer(Open(targets, rounds), Open(targets, rounds[..|rounds| - 1]));
  }

  /** The count a round starts from never falls from round to round. */
  lemma {:induction false} BaseNeverFalls(targets: set<Target>, rounds: seq<Round>, i: nat, j: nat)
    requires i <= j <= |rounds|
    ensures Base(targets, rounds[..i]) <= Base(targets, rounds[..j])
    decreases j
  {
    if i == j {
    } else {
      BaseNeverFalls(targets, rounds, i, j - 1);
      BaseGrows(targets, rounds[..j]);
      assert rounds[..j][..j - 1] == rounds[..j - 1];
    }
  }

  /** Over a whole kill no report leaves the range from 0 to the total, and the last report of
      every round, so of the kill, is the total. */
  lemma {:induction false} ProgressStaysInRange(targets: set<Target>, rounds: seq<Round>)
    requires Chunked(targets, rounds)
    ensures Between(Reports(targets, rounds), 0, |targets|) && EndsAt(Reports(targets, rounds), |targets|)
    ensures targets != {} && rounds != [] ==> Reports(targets, rounds) != []
  {
    if rounds == [] {
    } else {
      var n := |rounds| - 1;
      ProgressStaysInRange(targets, rounds[..n]);
      OneMoreRoundInRange(targets, rounds[..n], rounds[n].calls);
      assert rounds[..0] == [];
    }
  }

  lemma OneMoreRoundInRange(targets: set<Target>, before: seq<Round>, calls: seq<Call>)
    requires InChunks(calls, Open(targets, before))
    requires Between(Reports(targets, before), 0, |targets|) && EndsAt(Reports(targets, before), |targets|)
    ensures var all := Reports(targets, before) + ProgressOf(Base(targets, before), calls, |calls|);
            && Between(all, 0, |targets|) && EndsAt(all, |targets|)
            && (before == [] && targets != {} ==> all != [])
  {
    RoundReports(targets, before, calls);
    OpenShrinks(targets, before);
    JoinInRange(Reports(targets, before), ProgressOf(Base(targets, before), calls, |calls|), |targets|);
  }

  lemma JoinInRange(before: seq<int>, steps: seq<int>, total: int)
    requires Between(before, 0, total) && EndsAt(before, total)
    requires Between(steps, 0, total) && EndsAt(steps, total)
    ensures Between(before + steps, 0, total) && EndsAt(before + steps, total)
  {
  }

  /** Reported progress never falls if and only if no retry round was split into several calls. */
  lemma {:induction false} ProgressFallsIffARetryIsSplit(targets: set<Target>, rounds: seq<Round>)
    requires Chunked(targets, rounds)
    ensures NeverFalls(Reports(targets, rounds)) <==> RetriesWhole(rounds)
  {
    if rounds == [] {
    } else {
      var n := |rounds| - 1;
      ProgressFallsIffARetryIsSplit(targets, rounds[..n]);
      RetriesWholeOneMore(rounds);
      RoundJoins(targets, rounds[..n], rounds[n]);
    }
  }

  /** Every round but the first handed out all it had in one call. */
  predicate RetriesWhole(rounds: seq<Round>) {
    forall i :: 1 <= i < |rounds| ==> |rounds[i].calls| == 1
  }

  lemma RetriesWholeOneMore(rounds: seq<Round>)
    requires rounds != []
    ensures var n := |rounds| - 1;
            RetriesWhole(rounds) <==> RetriesWhole(rounds[..n]) && (n == 0 || |rounds[n].calls| == 1)
  {
    var n := |rounds| - 1;
    if RetriesWhole(rounds) {
      assert forall i :: 1 <= i < n ==> rounds[..n][i] == rounds[i];
    }
    if RetriesWhole(rounds[..n]) {
      forall i | 1 <= i < n ensures |rounds[i].calls| == 1 {
        assert rounds[..n][i] == rounds[i];
      }
    }
  }

  lemma RoundJoins(targets: set<Target>, before: seq<Round>, r: Round)
    requires Chunked(targets, before) && InChunks(r.calls, Open(targets, before))
    requires before != [] ==> Open(targets, before) != {}
    ensures NeverFalls(Reports(targets, before) + ProgressOf(Base(targets, before), r.calls, |r.calls|))
            <==> NeverFalls(Reports(targets, before)) && (before == [] || |r.calls| == 1)
  {
    ProgressStaysInRange(targets, before);
    RoundReports(targets, before, r.calls);
    OpenShrinks(targets, before);
    ReportsJoin(Reports(targets, before), ProgressOf(Base(targets, before), r.calls, |r.calls|), |targets|);
  }

  lemma ReportsJoin(before: seq<int>, steps: seq<int>, total: nat)
    requires Between(before, 0, total) && EndsAt(before, total)
    requires Between(steps, 0, total) && EndsAt(steps, total) && NeverFalls(steps)
    ensures NeverFalls(before + steps)
            <==> NeverFalls(before) && (before == [] || steps == [] || steps[0] == total)
  {
    var all := before + steps;
    if NeverFalls(all) {
      forall i, j | 0 <= i < j < |before| ensures before[i] <= before[j] {
        assert all[i] <= all[j];
      }
      if before != [] && steps != [] {
        assert all[|before| - 1] <= all[|before|];
        assert steps[0] in steps;
      }
    }
    if NeverFalls(before) && (before == [] || steps == [] || steps[0] == total) {
      forall i, j | 0 <= i < j < |all| ensures all[i] <= all[j] {
        if i < |before| <= j {
          assert before[i] in before && steps[j - |before|] in steps;
          assert steps[0] <= steps[j - |before|];
        }
      }
    }
  }

  /** Two jobs killed one call at a time, and LSF confirms neither: the second round starts
      again from one of two. */
  lemma ProgressCanFall()
    ensures var round := Round([Call([Bare(1)], [], false), Call([Bare(2)], [], false)], [], {});
            && Chunked({Bare(1), Bare(2)}, [round, round])
            && Reports({Bare(1), Bare(2)}, [round, round]) == [1, 2, 1, 2]
  {
    var both := {Bare(1), Bare(2)};
    var round := SilentRound();
    assert [round, round][..1] == [round] && [round][..0] == [];
    assert Closed(both, round) == {};
    assert Open(both, [round]) == both;
    assert Reports(both, [round]) == [1, 2];
  }

  lemma SilentRound() returns (round: Round)
    ensures round == Round([Call([Bare(1)], [], false), Call([Bare(2)], [], false)], [], {})
    ensures InChunks(round.calls, {Bare(1), Bare(2)}) && ProgressOf(0, round.calls, 2) == [1, 2]
    ensures CallsResolve(round.calls) == {} && CallsLate(round.calls) == {}
  {
    round := Round([Call([Bare(1)], [], false), Call([Bare(2)], [], false)], [], {});
    assert Processed(round.calls, 1) == 1;
    assert ProgressOf(0, round.calls, 1) == [1];
    assert Handed(round.calls, 1) == multiset{Bare(1)};
    assert Handed(round.calls, 2) == multiset({Bare(1), Bare(2)});
  }

  // ---------------------------------------------------------------------
  // Marking
  // ---------------------------------------------------------------------

  datatype Rec = Rec(gen: nat, jobId: Option<nat>, index: Option<nat>, state: JobState, killed: bool,
                     failReason: string)

  /** A whole-jobset kill aims at parents, a kill by id at the exact job. */
  function TargetOf(r: Rec, byParent: bool): Target
    requires r.jobId.Some?
  {
    if byParent || r.index.None? then Bare(r.jobId.value) else Element(r.jobId.value, r.index.value)
  }

  predicate SameJob(now: Rec, snapshot: Rec) {
    now.gen == snapshot.gen && now.jobId == snapshot.jobId && now.index == snapshot.index
  }

  /** What the kill may be held responsible for, by the snapshot it planned with. */
  predicate Attributed(r: Rec, byParent: bool, k: Key, accepted: set<Target>, alive: set<Key>) {
    r.jobId.Some? && TargetOf(r, byParent) in accepted && k !in alive
  }

  /** The first write of the optimistic policy finds a job that is still the planned one and on LSF. */
  predicate Ends(now: Option<Rec>, snapshot: Rec) {
    now.Some? && SameJob(now.value, snapshot) && now.value.state.IsOnLsf()
  }

  /** The mark alone: when no ending was wanted, or when its guard refused. A record that was gone
      then is left. */
  predicate MarksOnly(first: Option<Rec>, second: Option<Rec>, snapshot: Rec, optimistic: bool) {
    && (optimistic ==> first.Some? && !Ends(first, snapshot))
    && second.Some? && SameJob(second.value, snapshot)
  }

  function Ended(now: Rec): Rec {
    now.(state := Exit, failReason := "KILLED", killed := true)
  }

  function Lookup(store: map<Key, Rec>, k: Key): Option<Rec> {
    if k in store then Some(store[k]) else None
  }

  /** What is written over one planned record, given what the Store holds at the first and at the
      second guarded write. */
  method MarkOne(first: Option<Rec>, second: Option<Rec>, snapshot: Rec, optimistic: bool)
    returns (written: Option<Rec>)
    ensures optimistic && Ends(first, snapshot) ==> written == Some(Ended(first.value))
    ensures MarksOnly(first, second, snapshot, optimistic) ==> written == Some(second.value.(killed := true))
    ensures written.Some? ==> (optimistic && Ends(first, snapshot)) || MarksOnly(first, second, snapshot, optimistic)
  {
    if optimistic {
      if first.None? {
        return None;
      }
      if SameJob(first.value, snapshot) && first.value.state.IsOnLsf() {
        return Some(Ended(first.value));
      }
    }
    if second.None? || !SameJob(second.value, snapshot) {
      return None;
    }
    written := Some(second.value.(killed := true));
  }

  /** The record is ended, or only marked, on behalf of this kill. */
  predicate ToEnd(k: Key, atEnd: map<Key, Rec>, snapshot: map<Key, Rec>, byParent: bool, accepted: set<Target>,
                  alive: set<Key>)
  {
    k in snapshot && Attributed(snapshot[k], byParent, k, accepted, alive) && Ends(Lookup(atEnd, k), snapshot[k])
  }

  predicate ToMark(k: Key, atEnd: map<Key, Rec>, atMark: map<Key, Rec>, snapshot: map<Key, Rec>, byParent: bool,
                   accepted: set<Target>, alive: set<Key>, optimistic: bool)
  {
    && k in snapshot && Attributed(snapshot[k], byParent, k, accepted, alive)
    && MarksOnly(Lookup(atEnd, k), Lookup(atMark, k), snapshot[k], optimistic)
  }

  /** The accepted target a kill may mark this record for: its job if the whole jobset was aimed at or the
      record has no index, else its element. */
  ghost predicate AcceptedFor(r: Rec, byParent: bool, accepted: set<Target>) {
    && r.jobId.Some?
    && (byParent ==> Bare(r.jobId.value) in accepted)
    && (!byParent && r.index.None? ==> Bare(r.jobId.value) in accepted)
    && (!byParent && r.index.Some? ==> Element(r.jobId.value, r.index.value) in accepted)
  }

  predicate StillPlanned(now: Rec, planned: Rec) {
    now.gen == planned.gen && now.jobId == planned.jobId && now.index == planned.index
  }

  /** What may be written and what must be: only jobs accepted and not known alive, only over the very
      job that was planned, and nothing but the mark and, for a job on LSF under the optimistic
      policy, its end. */
  ghost predicate MarkedRight(written: map<Key, Rec>, atEnd: map<Key, Rec>, atMark: map<Key, Rec>,
                              snapshot: map<Key, Rec>, byParent: bool, accepted: set<Target>, alive: set<Key>,
                              optimistic: bool)
  {
    && (forall k <- written ::
          && k in snapshot && AcceptedFor(snapshot[k], byParent, accepted) && k !in alive
          && written[k].killed && StillPlanned(written[k], snapshot[k])
          && (if optimistic && k in atEnd && StillPlanned(atEnd[k], snapshot[k]) && atEnd[k].state.IsOnLsf()
              then written[k].state == Exit && written[k].failReason == "KILLED"
              else (optimistic ==> k in atEnd) && k in atMark && written[k].state == atMark[k].state
                   && written[k].failReason == atMark[k].failReason))
    && (forall k <- snapshot :: AcceptedFor(snapshot[k], byParent, accepted) && k !in alive ==>
          && (optimistic && k in atEnd && StillPlanned(atEnd[k], snapshot[k]) && atEnd[k].state.IsOnLsf() ==>
                k in written)
          && (optimistic && k !in atEnd ==> k !in written)
          && ((optimistic ==> k in atEnd) && k in atMark && StillPlanned(atMark[k], snapshot[k]) ==> k in written))
  }

  lemma MarksAreRight(written: map<Key, Rec>, atEnd: map<Key, Rec>, atMark: map<Key, Rec>, snapshot: map<Key, Rec>,
                      byParent: bool, accepted: set<Target>, alive: set<Key>, optimistic: bool)
    requires forall k :: k in written <==>
               || (optimistic && ToEnd(k, atEnd, snapshot, byParent, accepted, alive))
               || ToMark(k, atEnd, atMark, snapshot, byParent, accepted, alive, optimistic)
    requires forall k <- written :: optimistic && ToEnd(k, atEnd, snapshot, byParent, accepted, alive) ==>
               written[k] == Ended(atEnd[k])
    requires forall k <- written :: ToMark(k, atEnd, atMark, snapshot, byParent, accepted, alive, optimistic) ==>
               written[k] == atMark[k].(killed := true)
    ensures MarkedRight(written, atEnd, atMark, snapshot, byParent, accepted, alive, optimistic)
  {
    forall k | k in snapshot
      ensures AcceptedFor(snapshot[k], byParent, accepted) && k !in alive
              <==> Attributed(snapshot[k], byParent, k, accepted, alive)
    {
    }
  }

  /** Marks what is due to this kill. The snapshot is what the kill planned with; atEnd and atMark are
      what the Store holds for each key when its turn comes, which may have moved on in between. */
  method MarkKilled(atEnd: map<Key, Rec>, atMark: map<Key, Rec>, snapshot: map<Key, Rec>, byParent: bool,
                    accepted: set<Target>, alive: set<Key>, optimistic: bool)
    returns (written: map<Key, Rec>, changed: set<Key>)
    ensures forall k :: k in written <==>
              || (optimistic && ToEnd(k, atEnd, snapshot, byParent, accepted, alive))
              || ToMark(k, atEnd, atMark, snapshot, byParent, accepted, alive, optimistic)
    ensures forall k <- written :: optimistic && ToEnd(k, atEnd, snapshot, byParent, accepted, alive) ==>
              written[k] == Ended(atEnd[k])
    ensures forall k <- written :: ToMark(k, atEnd, atMark, snapshot, byParent, accepted, alive, optimistic) ==>
              written[k] == atMark[k].(killed := true)
    ensures changed == set k | k in written && (optimistic || written[k].state.IsTerminal())
    ensures MarkedRight(written, atEnd, atMark, snapshot, byParent, accepted, alive, optimistic)
  {
    written, changed := map[], {};
    if accepted == {} {
      return;
    }
    var left := snapshot.Keys;
    while left != {}
      invariant left <= snapshot.Keys
      invariant forall k :: k in written <==>
                  (k !in left
                   && ((optimistic && ToEnd(k, atEnd, snapshot, byParent, accepted, alive))
                       || ToMark(k, atEnd, atMark, snapshot, byParent, accepted, alive, optimistic)))
      invariant forall k <- written :: optimistic && ToEnd(k, atEnd, snapshot, byParent, accepted, alive) ==>
                  written[k] == Ended(atEnd[k])
      invariant forall k <- written :: ToMark(k, atEnd, atMark, snapshot, byParent, accepted, alive, optimistic) ==>
                  written[k] == atMark[k].(killed := true)
      invariant changed == set k | k in written && (optimistic || written[k].state.IsTerminal())
    {
      var k := PickOne(left);
      left := left - {k};
      var r := snapshot[k];
      if r.jobId.Some? && TargetOf(r, byParent) in accepted && k !in alive {
        var w := MarkOne(Lookup(atEnd, k), Lookup(atMark, k), r, optimistic);
        if w.Some? {
          written := written[k := w.value];
          if optimistic || w.value.state.IsTerminal() {
            changed := changed + {k};
          }
        }
      }
    }
    MarksAreRight(written, atEnd, atMark, snapshot, byParent, accepted, alive, optimistic);
  }

  /** The row a record stands for. */
  function RowOf(r: Rec): Option<Row> {
    if r.jobId.Some? then Some(Row(r.jobId.value, r.index, r.state)) else None
  }

  /** Named by some target and still on LSF. */
  predicate Remains(r: Rec, targets: set<Target>) {
    r.jobId.Some? && r.state.IsOnLsf() && exists t <- targets :: Names(t, RowOf(r).value)
  }

  /** What the verification knows to be alive; a job it could not ask about is unknown. */
  function KnownAlive(records: map<Key, Rec>, targets: set<Target>, failed: set<nat>): set<Key> {
    set k | k in records && Remains(records[k], targets) && records[k].jobId.value !in failed
  }

  /** The records as the verifying query left them, and the ids it failed for. */
  datatype Query = Query(records: map<Key, Rec>, failed: set<nat>)

  /** A failed query leaves everything unverified: no count, and nobody counts as alive. */
  method Verify(targets: set<Target>, query: Option<Query>) returns (stillAlive: Option<nat>, alive: set<Key>)
    ensures alive == if query.Some? then KnownAlive(query.value.records, targets, query.value.failed) else {}
    ensures stillAlive.Some? <==>
              targets == {}
              || (query.Some? && var q := query.value;
                  forall k <- q.records :: Remains(q.records[k], targets) ==> q.records[k].jobId.value !in q.failed)
    ensures query.Some? && stillAlive.Some? ==>
              && stillAlive.value == |alive|
              && alive == set k | k in query.value.records && Remains(query.value.records[k], targets)
  {
    if targets == {} {
      assert query.Some? ==> KnownAlive(query.value.records, targets, query.value.failed) == {};
      return Some(0), {};
    }
    if query.None? {
      return None, {};
    }
    var records := query.value.records;
    var all := set k | k in records && Remains(records[k], targets);
    alive := set k | k in all && records[k].jobId.value !in query.value.failed;
    if all <= alive {
      assert alive == all;
      assert forall k <- records :: Remains(records[k], targets) ==> k in alive;
    } else {
      var k :| k in all && k !in alive;
    }
    stillAlive := if alive == all then Some(|alive|) else None;
  }

  /** The verification without a jobset: rows that LSF lists for the targets, None if the query
      did not answer for all of them, and the records whose job ids were aimed at. */
  datatype Verification =
    | InJobset(query: Option<Query>)
    | Direct(rows: Option<seq<Row>>, pool: map<Key, Rec>)

  predicate AliveRow(r: Row, targets: set<Target>) {
    r.state.IsOnLsf() && exists t <- targets :: Names(t, r)
  }

  /** A record of an element stands for its own row, any other record for every row of its job. */
  predicate StandsFor(r: Rec, row: Row) {
    r.jobId == Some(row.id) && (r.index.None? || r.index == row.index)
  }

  function StandingFor(pool: map<Key, Rec>, rows: seq<Row>, targets: set<Target>): set<Key> {
    set k | k in pool && exists row <- rows :: AliveRow(row, targets) && StandsFor(pool[k], row)
  }

  function AliveRows(rows: seq<Row>, targets: set<Target>): seq<Row> {
    if rows == [] then []
    else
      var last := rows[|rows| - 1];
      AliveRows(rows[..|rows| - 1], targets) + if AliveRow(last, targets) then [last] else []
  }

  lemma {:induction false} AliveRowsHold(rows: seq<Row>, targets: set<Target>)
    ensures forall r :: r in AliveRows(rows, targets) <==> r in rows && AliveRow(r, targets)
  {
    if rows == [] {
    } else {
      var n := |rows| - 1;
      AliveRowsHold(rows[..n], targets);
      assert rows == rows[..n] + [rows[n]];
    }
  }

  /** Counts records where rows can be mapped back, and rows where no record is known; a folded
      record is alive if any row of its job is. */
  method VerifyDirect(targets: set<Target>, rows: Option<seq<Row>>, pool: map<Key, Rec>)
    returns (stillAlive: Option<nat>, alive: set<Key>)
    ensures alive == if rows.Some? then StandingFor(pool, rows.value, targets) else {}
    ensures stillAlive.Some? <==> targets == {} || rows.Some?
    ensures rows.Some? && stillAlive.Some? ==>
              && (alive != {} ==> stillAlive.value == |alive|)
              && (alive == {} ==> stillAlive.value == |AliveRows(rows.value, targets)|)
              && (stillAlive.value == 0 <==> forall r <- rows.value :: !AliveRow(r, targets))
  {
    if rows.None? {
      return if targets == {} then Some(0) else None, {};
    }
    var still := AliveRows(rows.value, targets);
    AliveRowsHold(rows.value, targets);
    var ids := set r | r in still :: r.id;
    var pairs := set r | r in still :: (r.id, r.index);
    alive := set k | k in pool && pool[k].jobId.Some?
                     && if pool[k].index.None? then pool[k].jobId.value in ids
                        else (pool[k].jobId.value, pool[k].index) in pairs;
    forall k ensures k in alive <==> k in StandingFor(pool, rows.value, targets) {
      if k in alive {
        var row :| row in still && StandsFor(pool[k], row);
        assert AliveRow(row, targets);
      }
    }
    assert alive == StandingFor(pool, rows.value, targets);
    if still == [] {
      assert alive == {};
    } else {
      assert still[0] in rows.value && AliveRow(still[0], targets);
    }
    stillAlive := Some(if alive == {} then |still| else |alive|);
  }

  /** Whom a verification, by either way, knows to be alive. */
  function AliveBy(v: Verification, targets: set<Target>): set<Key> {
    match v
    case InJobset(query) =>
      if query.Some? then KnownAlive(query.value.records, targets, query.value.failed) else {}
    case Direct(rows, pool) => if rows.Some? then StandingFor(pool, rows.value, targets) else {}
  }

  /** The verification runs when it was asked for, or when something ended without this kill. */
  function AliveAtMarking(targets: set<Target>, rounds: seq<Round>, verify: bool, v: Verification): set<Key> {
    if verify || ClosedBy(targets, rounds) - ClaimedBy(targets, rounds) != {} then AliveBy(v, targets) else {}
  }

  /** When the verification is listened to: always if it was asked for, else exactly if some target
      ended without a claim of this kill. */
  lemma VerificationIsHeard(targets: set<Target>, rounds: seq<Round>, verify: bool, v: Verification)
    ensures AliveAtMarking(targets, rounds, verify, v) ==
            if verify || exists t :: ClosedInSomeRound(targets, rounds, t) && !ClaimedInSomeRound(targets, rounds, t)
            then AliveBy(v, targets) else {}
  {
    forall t
      ensures t in ClosedBy(targets, rounds) <==> ClosedInSomeRound(targets, rounds, t)
      ensures t in ClaimedBy(targets, rounds) <==> ClaimedInSomeRound(targets, rounds, t)
    {
      ClosedAndClaimedExactly(targets, rounds, t);
    }
    if t :| ClosedInSomeRound(targets, rounds, t) && !ClaimedInSomeRound(targets, rounds, t) {
      assert t in ClosedBy(targets, rounds) - ClaimedBy(targets, rounds);
    }
  }

  /** The re-query and the direct verification read rows alike: where the rows show every target gone
      nobody counts as alive, and a target they show alive keeps every record of that very job alive. */
  lemma GoneIsNotAlive(targets: set<Target>, rows: seq<Row>, pool: map<Key, Rec>)
    ensures (forall t <- targets :: ShownGone(t, AsSet(rows), {})) ==> StandingFor(pool, rows, targets) == {}
    ensures forall t, k | t in targets && t.Bare? && k in pool && pool[k].jobId == Some(t.id) && pool[k].index.None? ::
              k in StandingFor(pool, rows, targets) <==> !ShownGone(t, AsSet(rows), {})
    ensures forall t, k | t in targets && t.Element? && (forall r <- rows :: r.id == t.id ==> r.index.Some?)
                          && k in pool && pool[k].jobId == Some(t.id) && pool[k].index == Some(t.index) ::
              k in StandingFor(pool, rows, targets) <==> !ShownGone(t, AsSet(rows), {})
  {
    forall t, k | t in targets && t.Element? && k in pool && (forall r <- rows :: r.id == t.id ==> r.index.Some?)
                  && pool[k].jobId == Some(t.id) && pool[k].index == Some(t.index)
      ensures k in StandingFor(pool, rows, targets) <==> !ShownGone(t, AsSet(rows), {})
    {
      if !ShownGone(t, AsSet(rows), {}) {
        var r :| r in AsSet(rows) && Names(t, r) && r.state.IsOnLsf();
        assert r in rows && AliveRow(r, targets) && StandsFor(pool[k], r);
      }
    }
    forall t, k | t in targets && t.Bare? && k in pool && pool[k].jobId == Some(t.id) && pool[k].index.None?
      ensures k in StandingFor(pool, rows, targets) <==> !ShownGone(t, AsSet(rows), {})
    {
      if !ShownGone(t, AsSet(rows), {}) {
        var r :| r in AsSet(rows) && Names(t, r) && r.state.IsOnLsf();
        assert r in rows && AliveRow(r, targets) && StandsFor(pool[k], r);
      }
    }
  }

  /** What a kill may be held responsible for: a planned job whose target was closed and claimed by
      the lines and rows of some rounds, and which the verification did not know to be alive. */
  ghost predicate Deserved(k: Key, snapshot: map<Key, Rec>, byParent: bool, targets: set<Target>,
                           rounds: seq<Round>, alive: set<Key>)
  {
    && k in snapshot && snapshot[k].jobId.Some? && k !in alive
    && ClosedInSomeRound(targets, rounds, TargetOf(snapshot[k], byParent))
    && ClaimedInSomeRound(targets, rounds, TargetOf(snapshot[k], byParent))
  }

  lemma AttributedIsDeserved(snapshot: map<Key, Rec>, byParent: bool, targets: set<Target>, rounds: seq<Round>,
                             accepted: set<Target>, alive: set<Key>)
    requires accepted == ClaimedBy(targets, rounds) * ClosedBy(targets, rounds)
    ensures forall k :: (k in snapshot && Attributed(snapshot[k], byParent, k, accepted, alive))
                        <==> Deserved(k, snapshot, byParent, targets, rounds, alive)
  {
    forall k | k in snapshot && snapshot[k].jobId.Some?
      ensures Attributed(snapshot[k], byParent, k, accepted, alive)
              <==> Deserved(k, snapshot, byParent, targets, rounds, alive)
    {
      ClosedAndClaimedExactly(targets, rounds, TargetOf(snapshot[k], byParent));
    }
  }

  ghost predicate EndDeserved(k: Key, atEnd: map<Key, Rec>, snapshot: map<Key, Rec>, byParent: bool,
                              targets: set<Target>, rounds: seq<Round>, alive: set<Key>)
  {
    Deserved(k, snapshot, byParent, targets, rounds, alive) && Ends(Lookup(atEnd, k), snapshot[k])
  }

  ghost predicate MarkDeserved(k: Key, atEnd: map<Key, Rec>, atMark: map<Key, Rec>, snapshot: map<Key, Rec>,
                               byParent: bool, targets: set<Target>, rounds: seq<Round>, alive: set<Key>,
                               optimistic: bool)
  {
    && Deserved(k, snapshot, byParent, targets, rounds, alive)
    && MarksOnly(Lookup(atEnd, k), Lookup(atMark, k), snapshot[k], optimistic)
  }

  /** One kill from its plan to its marks, over the lines LSF printed and the rows it listed, with or
      without a jobset. A record is written if and only if it is deserved and still the planned job
      at the write: ended where the policy says so and it is on LSF, else marked in the state it has. */
  method RunKill(atEnd: map<Key, Rec>, atMark: map<Key, Rec>, snapshot: map<Key, Rec>, byParent: bool,
                 targets: set<Target>, maxRetry: nat, world: (nat, set<Target>) -> Round, verify: bool, v: Verification,
                 optimistic: bool)
    returns (written: map<Key, Rec>, unconfirmed: nat, ghost rounds: seq<Round>)
    ensures |rounds| <= maxRetry + 1 && Asked(targets, rounds, world)
    ensures unconfirmed == |Open(targets, rounds)|
    ensures var alive := AliveAtMarking(targets, rounds, verify, v);
            && (forall k :: k in written <==>
                  (optimistic && EndDeserved(k, atEnd, snapshot, byParent, targets, rounds, alive))
                  || MarkDeserved(k, atEnd, atMark, snapshot, byParent, targets, rounds, alive, optimistic))
            && (forall k <- written ::
                  (optimistic && EndDeserved(k, atEnd, snapshot, byParent, targets, rounds, alive) ==>
                      written[k] == Ended(atEnd[k]))
                  && (MarkDeserved(k, atEnd, atMark, snapshot, byParent, targets, rounds, alive, optimistic) ==>
                      written[k] == atMark[k].(killed := true)))
  {
    var accepted, alive;
    unconfirmed, accepted, alive, rounds := ConfirmAndVerify(targets, maxRetry, world, verify, v);
    AttributedIsDeserved(snapshot, byParent, targets, rounds, accepted, alive);
    var changed;
    written, changed := MarkKilled(atEnd, atMark, snapshot, byParent, accepted, alive, optimistic);
  }

  method ConfirmAndVerify(targets: set<Target>, maxRetry: nat, world: (nat, set<Target>) -> Round, verify: bool,
                          v: Verification)
    returns (unconfirmed: nat, accepted: set<Target>, alive: set<Key>, ghost rounds: seq<Round>)
    ensures |rounds| <= maxRetry + 1 && Asked(targets, rounds, world)
    ensures unconfirmed == |Open(targets, rounds)|
    ensures accepted == ClaimedBy(targets, rounds) * ClosedBy(targets, rounds)
    ensures alive == AliveAtMarking(targets, rounds, verify, v)
  {
    var resolved;
    unconfirmed, accepted, resolved, rounds := ConfirmAndCount(targets, maxRetry, world);
    alive := {};
    assert resolved - accepted == ClosedBy(targets, rounds) - ClaimedBy(targets, rounds);
    if verify || resolved - accepted != {} {
      alive := VerifyEither(targets, v);
    }
  }

  method ConfirmAndCount(targets: set<Target>, maxRetry: nat, world: (nat, set<Target>) -> Round)
    returns (unconfirmed: nat, accepted: set<Target>, resolved: set<Target>, ghost rounds: seq<Round>)
    ensures |rounds| <= maxRetry + 1 && Asked(targets, rounds, world)
    ensures unconfirmed == |Open(targets, rounds)|
    ensures resolved == ClosedBy(targets, rounds) && accepted == ClaimedBy(targets, rounds) * resolved
  {
    var pending, attempts, progress;
    pending, accepted, resolved, attempts, progress, rounds := KillConfirm(targets, maxRetry, world);
    unconfirmed := |pending|;
  }

  method VerifyEither(targets: set<Target>, v: Verification) returns (alive: set<Key>)
    ensures alive == AliveBy(v, targets)
  {
    var count;
    match v {
      case InJobset(query) => count, alive := Verify(targets, query);
      case Direct(rows, pool) => count, alive := VerifyDirect(targets, rows, pool);
    }
  }
}
