/** A status query from end to end (lsfmgr/internal_status.py): the interest it registers, the
    fetch it waits for, the answer a callback gave, and what of it reaches the caller. */
module StatusQueries {
  import opened JobModel
  import opened InternalStatus
  import opened LedgerOrder
  import Fetch = FetchProtocol

  /** A callback's answer in full, and the interest as it was when the callback had returned:
      only rows of these jobs are parsed. */
  datatype Payload = Payload(rows: seq<Status>, snapshot: set<nat>)

  datatype Merged = Merged(at: int, now: int, payload: Payload)

  /** Found carries, for the proof, the jobs that were neither forgotten nor expired since the
      query registered them, and how many answers had been merged. */
  datatype Answer =
    | Found(elements: map<nat, Elements>, steady: set<nat>, upTo: nat)
    | Undecided(ids: set<nat>)

  /** seen: how many answers had been merged when the query registered its interest. */
  datatype Query = Query(ids: set<nat>, onlyNew: bool, steady: set<nat>, seen: nat, reader: Option<nat>,
                         answer: Option<Answer>)

  datatype System = System(fetch: Fetch.System, interest: set<nat>, ledger: Entries, held: map<nat, Payload>,
                           merges: seq<Merged>, queries: seq<Query>)

  datatype Action =
    | Register(ids: set<nat>, insist: bool) | Enter(q: nat) | Read(q: nat)
    | Returns(t: nat, rows: Option<seq<Status>>) | End(t: nat, now: int, prune: bool)
    | Forget(ids: set<nat>) | Other(a: Fetch.Action)

  function Kept(rows: seq<Status>, snapshot: set<nat>): seq<Status> {
    if rows == [] then []
    else Kept(rows[..|rows| - 1], snapshot)
         + if rows[|rows| - 1].jobId in snapshot then [rows[|rows| - 1]] else []
  }

  function DropFrom(queries: seq<Query>, gone: set<nat>): seq<Query> {
    seq(|queries|, i requires 0 <= i < |queries| => queries[i].(steady := queries[i].steady - gone))
  }

  /** A query that asks for a job nobody asked for before insists on a new fetch. */
  function DoRegister(s: System, ids: set<nat>, insist: bool): System {
    s.(interest := s.interest + ids,
       queries := s.queries + [Query(ids, insist || !(ids <= s.interest), ids, |s.merges|, None, None)])
  }

  function DoEnter(s: System, q: nat): System {
    if q < |s.queries| && s.queries[q].reader.None? then
      s.(fetch := Fetch.Next(s.fetch, Fetch.Arrive(s.queries[q].onlyNew)),
         queries := s.queries[q := s.queries[q].(reader := Some(|s.fetch.readers|))])
    else s
  }

  /** How the wait for the fetch ended, if it has. */
  function Waited(s: System, q: nat): Option<bool>
    requires q < |s.queries|
  {
    var r := s.queries[q].reader;
    if r.Some? && r.value < |s.fetch.readers| && s.fetch.readers[r.value].pc.Returned?
    then Some(s.fetch.readers[r.value].pc.ok) else None
  }

  function DoRead(s: System, q: nat): System {
    if q < |s.queries| && s.queries[q].answer.None? && Waited(s, q).Some? then
      var query := s.queries[q];
      var answer := if Waited(s, q).value
                    then Found(map id | id in query.ids :: ElementsOf(s.ledger, id), query.steady, |s.merges|)
                    else Undecided(query.ids);
      s.(queries := s.queries[q := query.(answer := Some(answer))])
    else s
  }

  predicate InCallback(s: System, t: nat) {
    t in s.fetch.workers && (s.fetch.workers[t].InPrimary? || s.fetch.workers[t].InFailover?)
  }

  function DoReturns(s: System, t: nat, rows: Option<seq<Status>>): System {
    if InCallback(s, t) then
      var fetch := Fetch.Next(s.fetch, Fetch.CallbackReturns(t, rows.Some?));
      if rows.Some? then s.(fetch := fetch, held := s.held[t := Payload(rows.value, s.interest)])
      else s.(fetch := fetch)
    else s
  }

  /** The closing section of a worker: merge, then perhaps an expiry sweep. */
  function DoEnd(s: System, t: nat, now: int, prune: bool, track: bool, retention: int): System {
    if t in s.fetch.workers && s.fetch.workers[t].Answered? then
      var u := s.(fetch := Fetch.Next(s.fetch, Fetch.EndWorker(t)), held := s.held - {t});
      if s.fetch.workers[t].ok && t in s.held then
        Swept(u.(ledger := Told(s, t, now, track),
                 merges := s.merges + [Merged(s.fetch.workers[t].at, now, s.held[t])]), now, prune, retention)
      else u
    else s
  }

  function Told(s: System, t: nat, now: int, track: bool): Entries
    requires t in s.fetch.workers && !s.fetch.workers[t].Spawned? && t in s.held
  {
    var at := s.fetch.workers[t].at;
    var last := s.fetch.src.lastFetchAt;
    AfterResponse(s.ledger, s.interest, Response(at, now, Kept(s.held[t].rows, s.held[t].snapshot)),
                  track && (last.None? || at >= last.value))
  }

  function Swept(s: System, now: int, prune: bool, retention: int): System {
    if prune then
      var ledger := Pruned(s.ledger, now, retention);
      s.(ledger := ledger, interest := s.interest - (s.ledger.Keys - ledger.Keys),
         queries := DropFrom(s.queries, set id | id in s.ledger && (id !in ledger || ledger[id] != s.ledger[id])))
    else s
  }

  function Next(s: System, a: Action, track: bool, retention: int): System {
    match a
    case Register(ids, insist) => DoRegister(s, ids, insist)
    case Enter(q) => DoEnter(s, q)
    case Read(q) => DoRead(s, q)
    case Returns(t, rows) => DoReturns(s, t, rows)
    case End(t, now, prune) => DoEnd(s, t, now, prune, track, retention)
    case Forget(ids) =>
      s.(interest := s.interest - ids, ledger := s.ledger - ids, queries := DropFrom(s.queries, ids))
    case Other(x) =>
      if x.Arrive? || x.CallbackReturns? || x.EndWorker? then s else s.(fetch := Fetch.Next(s.fetch, x))
  }

  function After(init: Fetch.System, actions: seq<Action>, track: bool, retention: int): System {
    if actions == [] then System(init, {}, map[], map[], [], [])
    else Next(After(init, actions[..|actions| - 1], track, retention), actions[|actions| - 1], track, retention)
  }

  /** The closing section of a worker that merges its answer and then sweeps. */
  predicate SweepsAfter(s: System, a: Action) {
    a.End? && a.prune && a.t in s.fetch.workers && s.fetch.workers[a.t].Answered? && s.fetch.workers[a.t].ok
    && a.t in s.held
  }

  /** Only what ended long ago is dropped by itself. A job leaves the interest only when it is forgotten,
      or when a sweep finds every element of it ended and older than the retention: a job with an
      element on LSF is safe. */
  lemma OnlyOldEndsLeaveTheInterest(s: System, a: Action, track: bool, retention: int, id: nat)
    requires id in s.interest && id !in Next(s, a, track, retention).interest
    ensures || (a.Forget? && id in a.ids)
            || (SweepsAfter(s, a) && var ledger := Told(s, a.t, a.now, track);
                id in ledger && forall x <- ledger[id] :: !Stays(ledger[id][x], a.now, retention))
  {
    if SweepsAfter(s, a) {
      SweepIsRight(Told(s, a.t, a.now, track), s.interest, a.now, retention);
    }
  }

  lemma WhollyKept(ledger: Entries, interest: set<nat>, id: nat, now: int, retention: int)
    requires id in ledger && ledger[id] != map[] && forall x <- ledger[id] :: Stays(ledger[id][x], now, retention)
    ensures id in Pruned(ledger, now, retention) && Pruned(ledger, now, retention)[id] == ledger[id]
  {
    var after := Pruned(ledger, now, retention);
    SweepIsRight(ledger, interest, now, retention);
    var x :| x in ledger[id];
    assert Stays(ledger[id][x], now, retention);
    forall x ensures Lookup(after, id, x) == Lookup(ledger, id, x) {
    }
    forall x ensures x in after[id] <==> x in ledger[id] {
      assert Lookup(after, id, x) == Lookup(ledger, id, x);
    }
    forall x | x in after[id] ensures after[id][x] == ledger[id][x] {
      assert Lookup(after, id, x) == Lookup(ledger, id, x);
    }
  }

  /** And a query that asked for the job counts on all of it until it is forgotten or such an element goes. */
  lemma OnlyOldEndsUnsettleAQuery(s: System, a: Action, track: bool, retention: int, id: nat, q: nat)
    requires q < |s.queries| && id in s.queries[q].steady
    requires id !in Next(s, a, track, retention).queries[q].steady
    ensures || (a.Forget? && id in a.ids)
            || (SweepsAfter(s, a) && var ledger := Told(s, a.t, a.now, track);
                id in ledger
                && (ledger[id] == map[] || exists x <- ledger[id] :: !Stays(ledger[id][x], a.now, retention)))
  {
    if SweepsAfter(s, a) {
      var ledger := Told(s, a.t, a.now, track);
      if id in ledger && ledger[id] != map[] && forall x <- ledger[id] :: Stays(ledger[id][x], a.now, retention) {
        WhollyKept(ledger, s.interest, id, a.now, retention);
      }
    }
  }

  // ---------------------------------------------------------------------
  // The invariant
  // ---------------------------------------------------------------------

  ghost predicate MergesAgree(s: System) {
    && |s.merges| == |s.fetch.merged|
    && (forall j :: 0 <= j < |s.merges| ==> s.merges[j].at == s.fetch.merged[j])
    && (forall t <- s.fetch.workers :: s.fetch.workers[t].Answered? && s.fetch.workers[t].ok ==> t in s.held)
  }

  /** What a merged answer said about an element, and still or more recently stands there. */
  predicate StandsIn(elems: Elements, index: Option<nat>, m: Merged, id: nat) {
    Mention(m.payload.rows, id, index).Some? && id in m.payload.snapshot ==>
      index in elems && elems[index].fetchedAt >= m.at
  }

  /** The source of an entry: it says what that answer said, up to the running time. */
  predicate SaidBy(e: Entry, m: Merged, id: nat, index: Option<nat>) {
    && id in m.payload.snapshot && Mention(m.payload.rows, id, index).Some?
    && Erased(e) == Erased(Entry(Mention(m.payload.rows, id, index).value, m.now, m.at))
  }

  ghost predicate Sourced(elems: Elements, merges: seq<Merged>, id: nat) {
    forall index <- elems :: exists m <- merges :: SaidBy(elems[index], m, id, index)
  }

  ghost predicate LedgerAgrees(s: System) {
    forall id <- s.ledger :: Sourced(s.ledger[id], s.merges, id)
  }

  /** The answers merged in this span cover these jobs as far as they were parsed for them. */
  ghost predicate Complete(elements: Entries, merges: seq<Merged>, ids: set<nat>, from: nat, to: nat)
    requires to <= |merges|
  {
    forall j, id, index | from <= j < to && id in ids :: StandsIn(ElementsOf(elements, id), index, merges[j], id)
  }

  /** A fetch that began after the query was parsed for all its steady jobs. */
  ghost predicate CoversLater(s: System, q: Query) {
    q.reader.Some? ==>
      && q.reader.value < |s.fetch.readers|
      && var r := s.fetch.readers[q.reader.value];
         && r.onlyNew == q.onlyNew && r.started <= s.fetch.clock && q.seen <= r.seen <= |s.merges|
         && (forall j | 0 <= j < |s.merges| && s.merges[j].at > r.started ::
               r.seen <= j && q.steady <= s.merges[j].payload.snapshot)
         && (forall w | Holds(s, w) :: s.fetch.workers[w].at > r.started ==> q.steady <= s.held[w].snapshot)
  }

  ghost predicate QueryAgrees(s: System, q: Query)
    requires |s.merges| == |s.fetch.merged|
  {
    && q.steady <= q.ids && q.steady <= s.interest && q.seen <= |s.merges|
    && Complete(s.ledger, s.merges, q.steady, q.seen, |s.merges|)
    && CoversLater(s, q) && AnswerAgrees(s, q)
  }

  /** What lies behind a decided answer. */
  ghost predicate Backed(s: System, q: Query, r: Fetch.Reader, steady: set<nat>, upTo: nat)
    requires upTo <= |s.merges|
  {
    if q.onlyNew then
      exists j :: 0 <= j < upTo && s.merges[j].at >= r.started
                  && (s.merges[j].at > r.started ==> q.seen <= j && steady <= s.merges[j].payload.snapshot)
    else (exists j :: 0 <= j < upTo && s.merges[j].at >= r.minAt) || upTo > r.seen
  }

  ghost predicate AnswerAgrees(s: System, q: Query) {
    match q.answer
    case None => true
    case Some(Undecided(ids)) =>
      && ids == q.ids && q.reader.Some? && q.reader.value < |s.fetch.readers|
      && s.fetch.readers[q.reader.value].pc == Fetch.Returned(false)
    case Some(Found(elements, steady, upTo)) =>
      && q.reader.Some? && q.reader.value < |s.fetch.readers|
      && s.fetch.readers[q.reader.value].pc == Fetch.Returned(true)
      && elements.Keys == q.ids && steady <= q.ids && upTo <= |s.merges|
      && Complete(elements, s.merges, steady, q.seen, upTo)
      && (forall id <- elements :: Sourced(elements[id], s.merges, id))
      && Backed(s, q, s.fetch.readers[q.reader.value], steady, upTo)
  }

  ghost predicate Inv(s: System) {
    && Fetch.Inv(s.fetch) && MergesAgree(s) && LedgerAgrees(s)
    && forall i :: 0 <= i < |s.queries| ==> QueryAgrees(s, s.queries[i])
  }

  // ---------------------------------------------------------------------
  // What a merge and a sweep do to one element
  // ---------------------------------------------------------------------

  lemma {:induction false} KeptMention(rows: seq<Status>, snapshot: set<nat>, id: nat, index: Option<nat>)
    ensures Mention(Kept(rows, snapshot), id, index) == if id in snapshot then Mention(rows, id, index) else None
  {
    if rows == [] {
    } else {
      var n := |rows| - 1;
      KeptMention(rows[..n], snapshot, id, index);
      var before, kept := Kept(rows[..n], snapshot), Kept(rows, snapshot);
      if rows[n].jobId in snapshot {
        assert kept == before + [rows[n]] && kept[..|before|] == before;
      } else {
        assert kept == before;
      }
    }
  }

  ghost predicate MergesInto(before: Entries, after: Entries, interest: set<nat>, m: Merged) {
    forall id, index ::
      var was, now := Lookup(before, id, index), Lookup(after, id, index);
      if id in interest && id in m.payload.snapshot && Mention(m.payload.rows, id, index).Some?
         && !(was.Some? && was.value.fetchedAt > m.at)
      then now.Some? && now.value.fetchedAt == m.at && SaidBy(now.value, m, id, index)
      else (was.None? <==> now.None?)
           && (was.Some? ==> now.value.fetchedAt == was.value.fetchedAt && Erased(now.value) == Erased(was.value))
  }

  lemma ToldMerges(s: System, t: nat, now: int, track: bool)
    requires t in s.fetch.workers && !s.fetch.workers[t].Spawned? && t in s.held
    ensures MergesInto(s.ledger, Told(s, t, now, track), s.interest, Merged(s.fetch.workers[t].at, now, s.held[t]))
  {
    var at := s.fetch.workers[t].at;
    var kept := Kept(s.held[t].rows, s.held[t].snapshot);
    var merged := Merge(s.ledger, s.interest, kept, now, at);
    forall id, index
      ensures Lookup(merged, id, index)
              == (var was, m := Lookup(s.ledger, id, index), Mention(s.held[t].rows, id, index);
                  if id in s.interest && id in s.held[t].snapshot && m.Some? && !(was.Some? && was.value.fetchedAt > at)
                  then Some(Entry(m.value, now, at)) else was)
      ensures var was := Lookup(merged, id, index);
              var ticked :=
                  Lookup(TickRuntimes(merged, now, MergedKeys(s.ledger, s.interest, kept, now, at)), id, index);
              && (was.None? <==> ticked.None?)
              && (was.Some? ==>
                  Erased(ticked.value) == Erased(was.value) && ticked.value.fetchedAt == was.value.fetchedAt)
    {
      KeptMention(s.held[t].rows, s.held[t].snapshot, id, index);
      MergeLookup(s.ledger, s.interest, kept, now, at, id, index);
      TickLookup(merged, now, MergedKeys(s.ledger, s.interest, kept, now, at), id, index);
    }
  }

  lemma LookupIsIn(ledger: Entries, id: nat, index: Option<nat>)
    ensures Lookup(ledger, id, index).Some? <==> index in ElementsOf(ledger, id)
    ensures index in ElementsOf(ledger, id) ==> Lookup(ledger, id, index) == Some(ElementsOf(ledger, id)[index])
  {
  }

  lemma MergeKeepsComplete(before: Entries, after: Entries, interest: set<nat>, merges: seq<Merged>, m: Merged,
                           ids: set<nat>, from: nat)
    requires MergesInto(before, after, interest, m) && ids <= interest && from <= |merges|
    requires Complete(before, merges, ids, from, |merges|)
    ensures Complete(after, merges + [m], ids, from, |merges| + 1)
  {
    var more := merges + [m];
    forall j, id, index | from <= j < |more| && id in ids ensures StandsIn(ElementsOf(after, id), index, more[j], id) {
      LookupIsIn(before, id, index);
      LookupIsIn(after, id, index);
      if j < |merges| {
        assert StandsIn(ElementsOf(before, id), index, merges[j], id);
      }
    }
  }

  lemma MergeKeepsSourced(before: Entries, after: Entries, interest: set<nat>, merges: seq<Merged>, m: Merged)
    requires MergesInto(before, after, interest, m) && forall id <- before :: Sourced(before[id], merges, id)
    ensures forall id <- after :: Sourced(after[id], merges + [m], id)
  {
    forall id, index | id in after && index in after[id]
      ensures exists x <- merges + [m] :: SaidBy(after[id][index], x, id, index)
    {
      LookupIsIn(before, id, index);
      LookupIsIn(after, id, index);
      if SaidBy(after[id][index], m, id, index) {
        assert m in merges + [m];
      } else {
        var x :| x in merges && SaidBy(before[id][index], x, id, index);
        assert x in merges + [m] && SaidBy(after[id][index], x, id, index);
      }
    }
  }

  // ---------------------------------------------------------------------
  // Every action keeps the invariant
  // ---------------------------------------------------------------------

  /** A reader's call is fixed and its result final. */
  lemma ReadersStand(f: Fetch.System, a: Fetch.Action, i: nat)
    requires i < |f.readers|
    ensures i < |Fetch.Next(f, a).readers|
    ensures Fetch.Next(f, a).readers[i].(pc := Fetch.Checking) == f.readers[i].(pc := Fetch.Checking)
    ensures f.readers[i].pc.Returned? ==> Fetch.Next(f, a).readers[i] == f.readers[i]
  {
  }

  /** What a query relies on in the rest of the state. */
  ghost predicate Stands(s: System, t: System, q: Query)
    requires |s.merges| == |s.fetch.merged| && |t.merges| == |t.fetch.merged|
  {
    && s.merges <= t.merges && s.fetch.clock <= t.fetch.clock && |s.fetch.readers| <= |t.fetch.readers|
    && q.steady <= t.interest
    && Complete(t.ledger, t.merges, q.steady, q.seen, |t.merges|)
    && (forall i :: 0 <= i < |s.fetch.readers| ==>
          && t.fetch.readers[i].(pc := Fetch.Checking) == s.fetch.readers[i].(pc := Fetch.Checking)
          && (s.fetch.readers[i].pc.Returned? ==> t.fetch.readers[i] == s.fetch.readers[i]))
  }

  predicate Holds(s: System, w: nat) {
    w in s.held && w in s.fetch.workers && s.fetch.workers[w].Answered? && s.fetch.workers[w].ok
  }

  /** A newly merged answer is one that a worker held. */
  ghost predicate WasHeld(s: System, t: System) {
    forall j | |s.merges| <= j < |t.merges| ::
      exists w :: Holds(s, w) && t.merges[j].at == s.fetch.workers[w].at && t.merges[j].payload == s.held[w]
  }

  /** An answer a worker holds was held before, or has just been parsed for the query's jobs. */
  ghost predicate HeldStands(s: System, t: System, q: Query) {
    forall w | Holds(t, w) ::
      || (Holds(s, w) && s.held[w] == t.held[w] && s.fetch.workers[w].at == t.fetch.workers[w].at)
      || q.steady <= t.held[w].snapshot
  }

  lemma AnswersStand(s: System, t: System, q: Query, r: Query)
    requires |s.merges| == |s.fetch.merged| && |t.merges| == |t.fetch.merged|
    requires QueryAgrees(s, q) && Stands(s, t, r) && r.steady <= q.steady && r == q.(steady := r.steady)
    ensures AnswerAgrees(t, r)
  {
    if q.answer.Some? && q.answer.value.Found? {
      var answer := q.answer.value;
      forall j, id, index | q.seen <= j < answer.upTo && id in answer.steady
        ensures StandsIn(ElementsOf(answer.elements, id), index, t.merges[j], id)
      {
        assert StandsIn(ElementsOf(answer.elements, id), index, s.merges[j], id);
      }
      forall id <- answer.elements ensures Sourced(answer.elements[id], t.merges, id) {
        MoreSources(answer.elements[id], s.merges, t.merges, id);
      }
      BackingStands(s, t, q, r);
    }
  }

  lemma MoreSources(elems: Elements, merges: seq<Merged>, more: seq<Merged>, id: nat)
    requires Sourced(elems, merges, id) && merges <= more
    ensures Sourced(elems, more, id)
  {
    forall index <- elems ensures exists m <- more :: SaidBy(elems[index], m, id, index) {
      var m :| m in merges && SaidBy(elems[index], m, id, index);
      assert m in more;
    }
  }

  lemma BackingStands(s: System, t: System, q: Query, r: Query)
    requires |s.merges| == |s.fetch.merged| && |t.merges| == |t.fetch.merged| && s.merges <= t.merges
    requires q.answer.Some? && q.answer.value.Found? && AnswerAgrees(s, q) && r == q.(steady := r.steady)
    ensures Backed(t, r, s.fetch.readers[q.reader.value], q.answer.value.steady, q.answer.value.upTo)
  {
    var reader := s.fetch.readers[q.reader.value];
    var steady, upTo := q.answer.value.steady, q.answer.value.upTo;
    if q.onlyNew {
      var j :| 0 <= j < upTo && s.merges[j].at >= reader.started
               && (s.merges[j].at > reader.started ==> q.seen <= j && steady <= s.merges[j].payload.snapshot);
      assert t.merges[j] == s.merges[j];
    } else if exists j :: 0 <= j < upTo && s.merges[j].at >= reader.minAt {
      var j :| 0 <= j < upTo && s.merges[j].at >= reader.minAt;
      assert t.merges[j] == s.merges[j];
    }
  }

  /** Fetches that are under way learn nothing about an older snapshot. */
  lemma CoveringStands(s: System, t: System, q: Query, r: Query)
    requires |s.merges| == |s.fetch.merged| && |t.merges| == |t.fetch.merged|
    requires QueryAgrees(s, q) && Stands(s, t, r) && r.steady <= q.steady && r == q.(steady := r.steady)
    requires WasHeld(s, t) && HeldStands(s, t, r)
    ensures CoversLater(t, r)
  {
    if q.reader.Some? {
      var reader := s.fetch.readers[q.reader.value];
      forall j | 0 <= j < |t.merges| && t.merges[j].at > reader.started
        ensures reader.seen <= j && r.steady <= t.merges[j].payload.snapshot
      {
        if j < |s.merges| {
          assert t.merges[j] == s.merges[j];
        } else {
          var w :| Holds(s, w) && t.merges[j].at == s.fetch.workers[w].at && t.merges[j].payload == s.held[w];
        }
      }
    }
  }

  lemma QueryStands(s: System, t: System, q: Query, r: Query)
    requires |s.merges| == |s.fetch.merged| && |t.merges| == |t.fetch.merged|
    requires QueryAgrees(s, q) && Stands(s, t, r) && r.steady <= q.steady && r == q.(steady := r.steady)
    requires WasHeld(s, t) && HeldStands(s, t, r)
    ensures QueryAgrees(t, r)
  {
    AnswersStand(s, t, q, r);
    CoveringStands(s, t, q, r);
  }

  /** The fetch moves on while no callback returns and no worker ends. */
  ghost predicate Onward(f: Fetch.System, g: Fetch.System) {
    && g.merged == f.merged && f.clock <= g.clock && |f.readers| <= |g.readers|
    && (forall i :: 0 <= i < |f.readers| ==>
          && g.readers[i].(pc := Fetch.Checking) == f.readers[i].(pc := Fetch.Checking)
          && (f.readers[i].pc.Returned? ==> g.readers[i] == f.readers[i]))
    && (forall w | w in g.workers && g.workers[w].Answered? :: w in f.workers && f.workers[w] == g.workers[w])
  }

  lemma NextIsOnward(f: Fetch.System, a: Fetch.Action)
    requires !a.EndWorker? && !a.CallbackReturns?
    ensures Onward(f, Fetch.Next(f, a))
  {
    forall i | 0 <= i < |f.readers|
      ensures i < |Fetch.Next(f, a).readers|
      ensures Fetch.Next(f, a).readers[i].(pc := Fetch.Checking) == f.readers[i].(pc := Fetch.Checking)
      ensures f.readers[i].pc.Returned? ==> Fetch.Next(f, a).readers[i] == f.readers[i]
    {
      ReadersStand(f, a, i);
    }
  }

  lemma OnwardKeeps(s: System, g: Fetch.System)
    requires Inv(s) && Onward(s.fetch, g) && Fetch.Inv(g)
    ensures Inv(s.(fetch := g))
  {
    var t := s.(fetch := g);
    forall i | 0 <= i < |t.queries| ensures QueryAgrees(t, t.queries[i]) {
      var q := s.queries[i];
      assert QueryAgrees(s, q);
      assert HeldStands(s, t, q);
      QueryStands(s, t, q, q);
    }
  }

  lemma RegisterKeeps(s: System, ids: set<nat>, insist: bool)
    requires Inv(s)
    ensures Inv(DoRegister(s, ids, insist))
  {
    var t := DoRegister(s, ids, insist);
    forall i | 0 <= i < |t.queries| ensures QueryAgrees(t, t.queries[i]) {
      if i < |s.queries| {
        QueryStands(s, t, s.queries[i], s.queries[i]);
      }
    }
  }

  lemma EnterKeeps(s: System, q: nat)
    requires Inv(s)
    ensures Inv(DoEnter(s, q))
  {
    if q < |s.queries| && s.queries[q].reader.None? {
      var a := Fetch.Arrive(s.queries[q].onlyNew);
      Fetch.NextKeeps(s.fetch, a);
      NextIsOnward(s.fetch, a);
      OnwardKeeps(s, Fetch.Next(s.fetch, a));
      EnteredAgrees(s.(fetch := Fetch.Next(s.fetch, a)), q);
    }
  }

  /** The newest reader becomes the query's own: every answer known so far began no later. */
  lemma EnteredAgrees(s: System, q: nat)
    requires Inv(s) && q < |s.queries| && s.queries[q].reader.None? && s.fetch.readers != []
    requires var r := s.fetch.readers[|s.fetch.readers| - 1];
             r.onlyNew == s.queries[q].onlyNew && r.started == s.fetch.clock && r.seen == |s.merges|
    ensures Inv(s.(queries := s.queries[q := s.queries[q].(reader := Some(|s.fetch.readers| - 1))]))
  {
    var t := s.(queries := s.queries[q := s.queries[q].(reader := Some(|s.fetch.readers| - 1))]);
    forall i | 0 <= i < |t.queries| ensures QueryAgrees(t, t.queries[i]) {
      assert QueryAgrees(s, s.queries[i]);
      if i != q {
        QueryStands(s, t, s.queries[i], s.queries[i]);
      }
    }
  }

  lemma BackingFound(s: System, q: nat)
    requires Inv(s) && q < |s.queries| && Waited(s, q) == Some(true)
    ensures Backed(s, s.queries[q], s.fetch.readers[s.queries[q].reader.value], s.queries[q].steady, |s.merges|)
  {
    var query := s.queries[q];
    var r := s.fetch.readers[query.reader.value];
    assert QueryAgrees(s, query) && Fetch.ReaderAgrees(s.fetch, r);
    if query.onlyNew {
      var j :| 0 <= j < |s.fetch.merged| && s.fetch.merged[j] >= r.started;
      assert s.merges[j].at >= r.started;
    } else if Fetch.MergedSince(s.fetch, 0, r.minAt) {
      var j :| 0 <= j < |s.fetch.merged| && s.fetch.merged[j] >= r.minAt;
      assert s.merges[j].at >= r.minAt;
    }
  }

  lemma FoundAgrees(s: System, q: nat)
    requires Inv(s) && q < |s.queries| && s.queries[q].answer.None? && Waited(s, q) == Some(true)
    ensures AnswerAgrees(s, DoRead(s, q).queries[q])
  {
    var query := s.queries[q];
    assert QueryAgrees(s, query);
    BackingFound(s, q);
    var elements := map id | id in query.ids :: ElementsOf(s.ledger, id);
    forall j, id, index | query.seen <= j < |s.merges| && id in query.steady
      ensures StandsIn(ElementsOf(elements, id), index, s.merges[j], id)
    {
      assert StandsIn(ElementsOf(s.ledger, id), index, s.merges[j], id);
    }
    assert forall id <- elements :: Sourced(elements[id], s.merges, id);
  }

  lemma ReadKeeps(s: System, q: nat)
    requires Inv(s)
    ensures Inv(DoRead(s, q))
  {
    var t := DoRead(s, q);
    if q < |s.queries| && s.queries[q].answer.None? && Waited(s, q).Some? {
      forall i | 0 <= i < |t.queries| ensures QueryAgrees(t, t.queries[i]) {
        if i != q {
          QueryStands(s, t, s.queries[i], s.queries[i]);
        } else {
          QueryStands(s, t.(queries := s.queries), s.queries[q], s.queries[q]);
          if Waited(s, q).value {
            FoundAgrees(s, q);
          }
        }
      }
    }
  }

  lemma ReturnsKeeps(s: System, w: nat, rows: Option<seq<Status>>)
    requires Inv(s)
    ensures Inv(DoReturns(s, w, rows))
  {
    var t := DoReturns(s, w, rows);
    if InCallback(s, w) {
      var a := Fetch.CallbackReturns(w, rows.Some?);
      Fetch.NextKeeps(s.fetch, a);
      forall i | 0 <= i < |t.queries| ensures QueryAgrees(t, t.queries[i]) {
        assert QueryAgrees(s, s.queries[i]);
        QueryStands(s, t, s.queries[i], s.queries[i]);
      }
    }
  }

  lemma ForgetKeeps(s: System, ids: set<nat>)
    requires Inv(s)
    ensures Inv(Next(s, Forget(ids), false, 0))
  {
    var t := Next(s, Forget(ids), false, 0);
    forall i | 0 <= i < |t.queries| ensures QueryAgrees(t, t.queries[i]) {
      var q, r := s.queries[i], t.queries[i];
      assert QueryAgrees(s, q);
      forall j, id, index | r.seen <= j < |t.merges| && id in r.steady
        ensures StandsIn(ElementsOf(t.ledger, id), index, t.merges[j], id)
      {
        assert StandsIn(ElementsOf(s.ledger, id), index, s.merges[j], id);
      }
      QueryStands(s, t, q, r);
    }
  }

  lemma SweptKeeps(s: System, now: int, prune: bool, retention: int)
    requires Inv(s)
    ensures Inv(Swept(s, now, prune, retention))
  {
    if prune {
      var t := Swept(s, now, prune, retention);
      forall id <- t.ledger ensures Sourced(t.ledger[id], t.merges, id) {
        assert Sourced(s.ledger[id], s.merges, id);
      }
      forall i | 0 <= i < |t.queries| ensures QueryAgrees(t, t.queries[i]) {
        var q, r := s.queries[i], t.queries[i];
        assert QueryAgrees(s, q);
        forall j, id, index | r.seen <= j < |t.merges| && id in r.steady
          ensures StandsIn(ElementsOf(t.ledger, id), index, t.merges[j], id)
        {
          assert StandsIn(ElementsOf(s.ledger, id), index, s.merges[j], id);
        }
        QueryStands(s, t, q, r);
      }
    }
  }

  /** The closing section up to the sweep. */
  function MergedAt(s: System, w: nat, now: int, track: bool): System
    requires w in s.fetch.workers && s.fetch.workers[w].Answered? && w in s.held
  {
    s.(fetch := Fetch.Next(s.fetch, Fetch.EndWorker(w)), held := s.held - {w}, ledger := Told(s, w, now, track),
       merges := s.merges + [Merged(s.fetch.workers[w].at, now, s.held[w])])
  }

  lemma MergedAtKeeps(s: System, w: nat, now: int, track: bool)
    requires Inv(s) && Holds(s, w)
    ensures Inv(MergedAt(s, w, now, track))
  {
    var t := MergedAt(s, w, now, track);
    var m := Merged(s.fetch.workers[w].at, now, s.held[w]);
    Fetch.NextKeeps(s.fetch, Fetch.EndWorker(w));
    ToldMerges(s, w, now, track);
    MergeKeepsSourced(s.ledger, t.ledger, s.interest, s.merges, m);
    forall i | 0 <= i < |t.queries| ensures QueryAgrees(t, t.queries[i]) {
      var q := s.queries[i];
      assert QueryAgrees(s, q);
      MergeKeepsComplete(s.ledger, t.ledger, s.interest, s.merges, m, q.steady, q.seen);
      QueryStands(s, t, q, q);
    }
  }

  lemma EndKeeps(s: System, w: nat, now: int, prune: bool, track: bool, retention: int)
    requires Inv(s)
    ensures Inv(DoEnd(s, w, now, prune, track, retention))
  {
    if Holds(s, w) {
      MergedAtKeeps(s, w, now, track);
      SweptKeeps(MergedAt(s, w, now, track), now, prune, retention);
    } else if w in s.fetch.workers && s.fetch.workers[w].Answered? {
      var t := DoEnd(s, w, now, prune, track, retention);
      Fetch.NextKeeps(s.fetch, Fetch.EndWorker(w));
      forall i | 0 <= i < |t.queries| ensures QueryAgrees(t, t.queries[i]) {
        assert QueryAgrees(s, s.queries[i]);
        QueryStands(s, t, s.queries[i], s.queries[i]);
      }
    }
  }

  lemma OtherKeeps(s: System, x: Fetch.Action)
    requires Inv(s) && !x.Arrive? && !x.CallbackReturns? && !x.EndWorker?
    ensures Inv(s.(fetch := Fetch.Next(s.fetch, x)))
  {
    Fetch.NextKeeps(s.fetch, x);
    NextIsOnward(s.fetch, x);
    OnwardKeeps(s, Fetch.Next(s.fetch, x));
  }

  lemma NextKeeps(s: System, a: Action, track: bool, retention: int)
    requires Inv(s)
    ensures Inv(Next(s, a, track, retention))
  {
    match a
    case Register(ids, insist) => RegisterKeeps(s, ids, insist);
    case Enter(q) => EnterKeeps(s, q);
    case Read(q) => ReadKeeps(s, q);
    case Returns(t, rows) => ReturnsKeeps(s, t, rows);
    case End(t, now, prune) => EndKeeps(s, t, now, prune, track, retention);
    case Forget(ids) => ForgetKeeps(s, ids);
    case Other(x) =>
      if !x.Arrive? && !x.CallbackReturns? && !x.EndWorker? {
        OtherKeeps(s, x);
      }
  }

  function FirstFetch(waitTimeout: int, hasFailover: bool, refreshMin: nat, start: int): Fetch.System {
    Fetch.System(Fetch.Begin(waitTimeout, hasFailover, refreshMin), map[], [], start, [], [])
  }

  lemma {:induction false} RunKeeps(waitTimeout: int, hasFailover: bool, refreshMin: nat, start: int,
                                    actions: seq<Action>, track: bool, retention: int)
    ensures Inv(After(FirstFetch(waitTimeout, hasFailover, refreshMin, start), actions, track, retention))
    decreases |actions|
  {
    if actions == [] {
      Fetch.BeginAgrees(waitTimeout, hasFailover, refreshMin, start);
    } else {
      var before := actions[..|actions| - 1];
      RunKeeps(waitTimeout, hasFailover, refreshMin, start, before, track, retention);
      NextKeeps(After(FirstFetch(waitTimeout, hasFailover, refreshMin, start), before, track, retention),
                actions[|actions| - 1], track, retention);
    }
  }

  // ---------------------------------------------------------------------
  // Main results
  // ---------------------------------------------------------------------

  /** A query that decides has waited for a fetch: all its ids are undecided exactly if the wait
      failed, timed out or was cut off, and a decided answer is backed by a merged one. */
  lemma {:induction false} UndecidedExactlyWithoutFetch(waitTimeout: int, hasFailover: bool, refreshMin: nat,
                                                        start: int, actions: seq<Action>, track: bool, retention: int,
                                                        q: nat)
    requires var s := After(FirstFetch(waitTimeout, hasFailover, refreshMin, start), actions, track, retention);
             q < |s.queries| && s.queries[q].answer.Some?
    ensures var s := After(FirstFetch(waitTimeout, hasFailover, refreshMin, start), actions, track, retention);
            var query := s.queries[q]; var answer := query.answer.value;
            && Waited(s, q) == Some(answer.Found?)
            && (answer.Undecided? ==> answer.ids == query.ids)
            && (answer.Found? ==>
                  && answer.elements.Keys == query.ids && answer.upTo <= |s.merges|
                  && Backed(s, query, s.fetch.readers[query.reader.value], answer.steady, answer.upTo))
  {
    RunKeeps(waitTimeout, hasFailover, refreshMin, start, actions, track, retention);
    var s := After(FirstFetch(waitTimeout, hasFailover, refreshMin, start), actions, track, retention);
    assert QueryAgrees(s, s.queries[q]);
  }

  /** Nothing is invented: what a decided answer lists was listed by a callback's answer, parsed
      while its job was of interest. */
  lemma {:induction false} FoundWasSaid(waitTimeout: int, hasFailover: bool, refreshMin: nat, start: int,
                                        actions: seq<Action>, track: bool, retention: int,
                                        q: nat, id: nat, index: Option<nat>)
    requires var s := After(FirstFetch(waitTimeout, hasFailover, refreshMin, start), actions, track, retention);
             q < |s.queries| && s.queries[q].answer.Some? && s.queries[q].answer.value.Found?
             && id in s.queries[q].answer.value.elements && index in s.queries[q].answer.value.elements[id]
    ensures var s := After(FirstFetch(waitTimeout, hasFailover, refreshMin, start), actions, track, retention);
            exists m <- s.merges :: SaidBy(s.queries[q].answer.value.elements[id][index], m, id, index)
  {
    RunKeeps(waitTimeout, hasFailover, refreshMin, start, actions, track, retention);
    var s := After(FirstFetch(waitTimeout, hasFailover, refreshMin, start), actions, track, retention);
    assert QueryAgrees(s, s.queries[q]);
    assert Sourced(s.queries[q].answer.value.elements[id], s.merges, id);
  }

  /** Nothing is missed, although only rows of jobs already asked for are ever kept. Whatever a
      callback listed of a job it was parsed for, merged since the query registered and not dropped
      meanwhile, is in a decided answer with data at least as new. And if the query insisted on new
      data, or asked for a job nobody had asked for, its answer rests on a fetch that began no
      earlier than the query, and one that began later was parsed for all its jobs: then a job is
      absent only if such a callback did not list it. */
  lemma {:induction false} NothingListedIsMissed(waitTimeout: int, hasFailover: bool, refreshMin: nat, start: int,
                                                 actions: seq<Action>, track: bool, retention: int, q: nat)
    requires var s := After(FirstFetch(waitTimeout, hasFailover, refreshMin, start), actions, track, retention);
             q < |s.queries| && s.queries[q].answer.Some? && s.queries[q].answer.value.Found?
    ensures var s := After(FirstFetch(waitTimeout, hasFailover, refreshMin, start), actions, track, retention);
            var query := s.queries[q]; var answer := query.answer.value;
            && answer.upTo <= |s.merges|
            && forall j, id | query.seen <= j < answer.upTo && id in answer.steady ::
                 id in s.merges[j].payload.snapshot ==> ListedIsIn(answer, s.merges[j], id)
    ensures var s := After(FirstFetch(waitTimeout, hasFailover, refreshMin, start), actions, track, retention);
            var query := s.queries[q]; var answer := query.answer.value;
            && query.reader.Some? && query.reader.value < |s.fetch.readers|
            && var started := s.fetch.readers[query.reader.value].started;
               query.onlyNew ==>
                 exists m <- s.merges ::
                   m.at >= started && (m.at > started ==> forall id <- answer.steady :: ListedIsIn(answer, m, id))
  {
    RunKeeps(waitTimeout, hasFailover, refreshMin, start, actions, track, retention);
    var s := After(FirstFetch(waitTimeout, hasFailover, refreshMin, start), actions, track, retention);
    var query := s.queries[q];
    assert QueryAgrees(s, query);
    AnswerIsComplete(s, query);
  }

  ghost predicate ListedIsIn(answer: Answer, m: Merged, id: nat)
    requires answer.Found?
  {
    forall index :: Mention(m.payload.rows, id, index).Some? ==>
      && index in ElementsOf(answer.elements, id)
      && ElementsOf(answer.elements, id)[index].fetchedAt >= m.at
  }

  lemma AnswerIsComplete(s: System, query: Query)
    requires |s.merges| == |s.fetch.merged| && QueryAgrees(s, query)
    requires query.answer.Some? && query.answer.value.Found?
    ensures var answer := query.answer.value;
            forall j, id | query.seen <= j < answer.upTo && id in answer.steady && id in s.merges[j].payload.snapshot ::
              ListedIsIn(answer, s.merges[j], id)
    ensures var answer := query.answer.value; var started := s.fetch.readers[query.reader.value].started;
            query.onlyNew ==>
              exists m <- s.merges ::
                m.at >= started && (m.at > started ==> forall id <- answer.steady :: ListedIsIn(answer, m, id))
  {
    var answer := query.answer.value;
    forall j, id | query.seen <= j < answer.upTo && id in answer.steady && id in s.merges[j].payload.snapshot
      ensures ListedIsIn(answer, s.merges[j], id)
    {
      forall index | Mention(s.merges[j].payload.rows, id, index).Some?
        ensures index in ElementsOf(answer.elements, id)
                && ElementsOf(answer.elements, id)[index].fetchedAt >= s.merges[j].at
      {
        assert StandsIn(ElementsOf(answer.elements, id), index, s.merges[j], id);
      }
    }
    if query.onlyNew {
      var started := s.fetch.readers[query.reader.value].started;
      var j :| 0 <= j < answer.upTo && s.merges[j].at >= started
               && (s.merges[j].at > started ==> query.seen <= j && answer.steady <= s.merges[j].payload.snapshot);
      assert s.merges[j] in s.merges;
    }
  }

  // ---------------------------------------------------------------------
  // The composed system runs the fetch protocol
  // ---------------------------------------------------------------------

  /** The step of the fetch protocol in an action, if there is one. */
  function FetchStep(s: System, a: Action): Option<Fetch.Action> {
    match a
    case Enter(q) =>
      if q < |s.queries| && s.queries[q].reader == None then Some(Fetch.Arrive(s.queries[q].onlyNew)) else None
    case Returns(t, rows) => Some(Fetch.CallbackReturns(t, rows != None))
    case End(t, _, _) => Some(Fetch.EndWorker(t))
    case Other(x) => match x {
      case Arrive(_) => None
      case CallbackReturns(_, _) => None
      case EndWorker(_) => None
      case _ => Some(x)
    }
    case Register(_, _) => None
    case Read(_) => None
    case Forget(_) => None
  }

  function FetchSteps(init: Fetch.System, actions: seq<Action>, track: bool, retention: int): seq<Fetch.Action> {
    if actions == [] then []
    else
      var n := |actions| - 1;
      var x := FetchStep(After(init, actions[..n], track, retention), actions[n]);
      FetchSteps(init, actions[..n], track, retention) + if x.Some? then [x.value] else []
  }

  lemma NextRunsTheFetch(s: System, a: Action, track: bool, retention: int)
    ensures Next(s, a, track, retention).fetch ==
            var x := FetchStep(s, a); if x.Some? then Fetch.Next(s.fetch, x.value) else s.fetch
  {
  }

  /** Every run of the queries is, for the fetch, a run of the fetch protocol: each of its steps is taken
      there, and none is added, so what FetchProtocol proves over its runs holds here. */
  lemma {:induction false} QueriesRunTheFetchProtocol(src: Fetch.Source, start: int, actions: seq<Action>, track: bool,
                                                      retention: int)
    ensures var init := Fetch.System(src, map[], [], start, [], []);
            After(init, actions, track, retention).fetch
            == Fetch.After(src, start, FetchSteps(init, actions, track, retention))
    decreases |actions|
  {
    if actions == [] {
    } else {
      var n := |actions| - 1;
      var init := Fetch.System(src, map[], [], start, [], []);
      var steps := FetchSteps(init, actions[..n], track, retention);
      var s := After(init, actions[..n], track, retention);
      QueriesRunTheFetchProtocol(src, start, actions[..n], track, retention);
      NextRunsTheFetch(s, actions[n], track, retention);
      var x := FetchStep(s, actions[n]);
      if x.Some? {
        Fetch.AfterOneMore(src, start, steps, x.value);
      } else {
        assert steps + [] == steps;
      }
    }
  }

  /** A query stands for its jobs from its registration on, and insists on new data if it was told to or if
      nobody had asked for one of its jobs before. */
  lemma NewJobsInsistOnNewData(s: System, ids: set<nat>, insist: bool, track: bool, retention: int)
    ensures var t := Next(s, Register(ids, insist), track, retention); var n := |s.queries|;
            && t.interest == s.interest + ids && t.ledger == s.ledger
            && |t.queries| == n + 1 && t.queries[..n] == s.queries
            && t.queries[n].ids == ids && t.queries[n].steady == ids && t.queries[n].answer == None
            && (t.queries[n].onlyNew <==> insist || exists id <- ids :: id !in s.interest)
  {
    if !(ids <= s.interest) {
      var id :| id in ids && id !in s.interest;
    }
  }

  /** What a callback lists is held with the interest of that moment until its thread ends, and is merged then. */
  lemma AnswersAreWorkedIn(s: System, t: nat, rows: seq<Status>, now: int, track: bool, retention: int)
    requires t in s.fetch.workers && !s.fetch.workers[t].Spawned? && !s.fetch.workers[t].Answered?
    ensures var u := Next(s, Returns(t, Some(rows)), track, retention);
            var v := Next(u, End(t, now, false), track, retention);
            && t in u.held && u.held[t] == Payload(rows, s.interest)
            && v.merges == s.merges + [Merged(s.fetch.workers[t].at, now, Payload(rows, s.interest))]
            && t !in v.fetch.workers && v.interest == s.interest
  {
  }

  /** A sweep drops what has ended long ago, from the ledger and from the interest, and nothing else. */
  lemma SweepsDropExactlyOldEnds(s: System, now: int, retention: int)
    ensures var t := Swept(s, now, true, retention);
            SweptRight(s.ledger, t.ledger, s.interest, t.interest, now, retention)
  {
    SweepIsRight(s.ledger, s.interest, now, retention);
  }

  /** Forgetting takes jobs out of the interest, of the ledger and of what queries count on. */
  lemma ForgottenIsGone(s: System, ids: set<nat>, track: bool, retention: int, id: nat)
    ensures var t := Next(s, Forget(ids), track, retention);
            && (id in t.interest <==> id in s.interest && id !in ids)
            && (id in t.ledger <==> id in s.ledger && id !in ids) && (id in t.ledger ==> t.ledger[id] == s.ledger[id])
            && |t.queries| == |s.queries|
            && forall q :: 0 <= q < |s.queries| ==>
                 (id in t.queries[q].steady <==> id in s.queries[q].steady && id !in ids)
  {
  }

  /** What merging an answer does to one element, running times included: these move only with an answer that
      began no earlier than the last fetch. */
  lemma MergedElementIsRight(s: System, t: nat, now: int, track: bool, id: nat, index: Option<nat>)
    requires t in s.fetch.workers && !s.fetch.workers[t].Spawned? && t in s.held
    ensures var at, last := s.fetch.workers[t].at, s.fetch.src.lastFetchAt;
            var was := Lookup(s.ledger, id, index);
            var m := if id in s.held[t].snapshot then Mention(s.held[t].rows, id, index) else None;
            Lookup(Told(s, t, now, track), id, index)
            == if id in s.interest && m.Some? && !(was.Some? && was.value.fetchedAt > at)
               then Some(Entry(m.value, now, at))
               else if was.Some? && track && !(last.Some? && at < last.value)
               then Some(was.value.(status := was.value.status.(runTime := RunTime(was.value, now))))
               else was
  {
    var at := s.fetch.workers[t].at;
    var kept := Kept(s.held[t].rows, s.held[t].snapshot);
    KeptMention(s.held[t].rows, s.held[t].snapshot, id, index);
    AnswerOnOneElement(s.ledger, s.interest, Response(at, now, kept), true, id, index);
    AnswerOnOneElement(s.ledger, s.interest, Response(at, now, kept), false, id, index);
  }
}
