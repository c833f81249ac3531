/** Overlapping fetches may return in any order: the ledger does not depend on it. */
module LedgerOrder {
  import opened JobModel
  import opened Latest
  import opened InternalStatus

  /** An entry up to the running time, which is recomputed whenever an answer leaves it out. */
  function Erased(e: Entry): Entry {
    e.(status := e.status.(runTime := None))
  }

  function Clock(responses: seq<Response>): Option<int> {
    if responses == [] then None
    else
      var n := |responses| - 1;
      var before := Clock(responses[..n]);
      if before.Some? && before.value > responses[n].at then before else Some(responses[n].at)
  }

  /** The ledger after the answers were merged in this order, with no expiry in between. */
  function LedgerAfter(interest: set<nat>, responses: seq<Response>, track: bool): Entries {
    if responses == [] then map[]
    else
      var n := |responses| - 1;
      var clock := Clock(responses[..n]);
      AfterResponse(LedgerAfter(interest, responses[..n], track), interest, responses[n],
                    track && (clock.None? || responses[n].at >= clock.value))
  }

  /** What an answer says about one element; a later row overrides an earlier one. */
  function Mention(statuses: seq<Status>, id: nat, index: Option<nat>): Option<Status> {
    if statuses == [] then None
    else
      var n := |statuses| - 1;
      if statuses[n].jobId == id && statuses[n].index == index then Some(statuses[n])
      else Mention(statuses[..n], id, index)
  }

  function Mentions(responses: seq<Response>, id: nat, index: Option<nat>): seq<Stamped<Entry>> {
    if responses == [] then []
    else
      var n := |responses| - 1;
      var r := responses[n];
      var m := Mention(r.statuses, id, index);
      Mentions(responses[..n], id, index)
      + if m.Some? then [Stamped(r.at, Erased(Entry(m.value, r.now, r.at)))] else []
  }

  ghost predicate DistinctStarts(responses: seq<Response>) {
    forall i, j :: 0 <= i < j < |responses| ==> responses[i].at != responses[j].at
  }

  predicate Matches(e: Option<Entry>, chosen: Option<Stamped<Entry>>) {
    match e
    case None => chosen.None?
    case Some(x) => chosen == Some(Stamped(x.fetchedAt, Erased(x)))
  }

  lemma {:induction false} MergeLookup(ledger: Entries, interest: set<nat>, statuses: seq<Status>, now: int, at: int,
                                       id: nat, index: Option<nat>)
    ensures var was := Lookup(ledger, id, index); var m := Mention(statuses, id, index);
            Lookup(Merge(ledger, interest, statuses, now, at), id, index)
            == if id in interest && m.Some? && !(was.Some? && was.value.fetchedAt > at)
               then Some(Entry(m.value, now, at))
               else was
  {
    if statuses == [] {
    } else {
      var n := |statuses| - 1;
      MergeLookup(ledger, interest, statuses[..n], now, at, id, index);
      MergeOneLookup(Merge(ledger, interest, statuses[..n], now, at), interest, statuses[n], now, at, id, index);
    }
  }

  lemma MergeOneLookup(ledger: Entries, interest: set<nat>, st: Status, now: int, at: int, id: nat, index: Option<nat>)
    ensures var was := Lookup(ledger, id, index);
            Lookup(MergeOne(ledger, interest, st, now, at), id, index)
            == if id in interest && st.jobId == id && st.index == index && !(was.Some? && was.value.fetchedAt > at)
               then Some(Entry(st, now, at)) else was
  {
  }

  lemma TickLookup(ledger: Entries, now: int, arrived: set<(nat, Option<nat>)>, id: nat, index: Option<nat>)
    ensures var was := Lookup(ledger, id, index); var ticked := Lookup(TickRuntimes(ledger, now, arrived), id, index);
            && (was.None? <==> ticked.None?)
            && (was.Some? ==>
                Erased(ticked.value) == Erased(was.value) && ticked.value.fetchedAt == was.value.fetchedAt)
  {
  }

  /** The elements an answer wrote are those it mentions of the jobs of interest, unless a newer answer
      stands there. */
  lemma {:induction false} MergedKeysMeans(ledger: Entries, interest: set<nat>, statuses: seq<Status>, now: int,
                                           at: int, id: nat, index: Option<nat>)
    ensures var was := Lookup(ledger, id, index);
            (id, index) in MergedKeys(ledger, interest, statuses, now, at)
            <==> id in interest && Mention(statuses, id, index).Some? && !(was.Some? && was.value.fetchedAt > at)
  {
    if statuses == [] {
    } else {
      var n := |statuses| - 1;
      var before := Merge(ledger, interest, statuses[..n], now, at);
      MergedKeysMeans(ledger, interest, statuses[..n], now, at, id, index);
      MergeLookup(ledger, interest, statuses[..n], now, at, id, index);
      assert index in ElementsOf(before, id) <==> Lookup(before, id, index).Some?;
    }
  }

  /** How long a job has run, once an answer has been worked in. */
  function RunTime(e: Entry, now: int): Option<int> {
    if e.status.state.IsOnLsf() && e.status.startTime.Some? && e.status.startTime.value <= now
    then Some(now - e.status.startTime.value) else e.status.runTime
  }

  /** The whole effect of an answer on one element, running times included: what it mentions stands there
      as it said; of everything else only the running time moves, and only of a job on LSF that has
      started, which is then the time since its start. */
  lemma AnswerOnOneElement(ledger: Entries, interest: set<nat>, r: Response, tick: bool, id: nat, index: Option<nat>)
    ensures var was, m := Lookup(ledger, id, index), Mention(r.statuses, id, index);
            Lookup(AfterResponse(ledger, interest, r, tick), id, index)
            == if id in interest && m.Some? && !(was.Some? && was.value.fetchedAt > r.at)
               then Some(Entry(m.value, r.now, r.at))
               else if was.Some? && tick
               then Some(was.value.(status := was.value.status.(runTime := RunTime(was.value, r.now))))
               else was
  {
    MergeLookup(ledger, interest, r.statuses, r.now, r.at, id, index);
    MergedKeysMeans(ledger, interest, r.statuses, r.now, r.at, id, index);
  }

  lemma {:induction false} ClockIsTheLatest(responses: seq<Response>)
    ensures Clock(responses).None? <==> responses == []
    ensures forall r <- responses :: Clock(responses).Some? && r.at <= Clock(responses).value
    ensures Clock(responses).Some? ==> exists r <- responses :: r.at == Clock(responses).value
  {
    if responses == [] {
    } else {
      var n := |responses| - 1;
      ClockIsTheLatest(responses[..n]);
      assert responses == responses[..n] + [responses[n]];
      if Clock(responses) == Some(responses[n].at) {
        assert responses[n] in responses;
      } else {
        var r :| r in responses[..n] && Some(r.at) == Clock(responses);
        assert r in responses;
      }
    }
  }

  /** Running times move only with an answer that began no earlier than any merged before it. */
  lemma OnlyTheNewestMovesRuntimes(interest: set<nat>, responses: seq<Response>, r: Response, track: bool, id: nat,
                                   index: Option<nat>)
    ensures var before := LedgerAfter(interest, responses, track);
            var was, m := Lookup(before, id, index), Mention(r.statuses, id, index);
            Lookup(LedgerAfter(interest, responses + [r], track), id, index)
            == if id in interest && m.Some? && !(was.Some? && was.value.fetchedAt > r.at)
               then Some(Entry(m.value, r.now, r.at))
               else if was.Some? && track && forall x <- responses :: x.at <= r.at
               then Some(was.value.(status := was.value.status.(runTime := RunTime(was.value, r.now))))
               else was
  {
    var before := LedgerAfter(interest, responses, track);
    assert (responses + [r])[..|responses|] == responses;
    ClockIsTheLatest(responses);
    AnswerOnOneElement(before, interest, r, true, id, index);
    AnswerOnOneElement(before, interest, r, false, id, index);
  }

  /** The ledger holds, for each element, the answer that started last among those that
      mentioned it; answers that leave an element out do not touch it. */
  lemma {:induction false} LedgerHoldsTheLatestStarted(interest: set<nat>, responses: seq<Response>, track: bool,
                                                        id: nat, index: Option<nat>)
    ensures Matches(Lookup(LedgerAfter(interest, responses, track), id, index),
                    if id in interest then Choose(Mentions(responses, id, index)) else None)
  {
    if responses == [] {
    } else {
      var n := |responses| - 1;
      var r := responses[n];
      var before := LedgerAfter(interest, responses[..n], track);
      LedgerHoldsTheLatestStarted(interest, responses[..n], track, id, index);
      MergeLookup(before, interest, r.statuses, r.now, r.at, id, index);
      var merged := Merge(before, interest, r.statuses, r.now, r.at);
      TickLookup(merged, r.now, MergedKeys(before, interest, r.statuses, r.now, r.at), id, index);
      if Mention(r.statuses, id, index).Some? {
        var ms := Mentions(responses, id, index);
        assert ms[..|ms| - 1] == Mentions(responses[..n], id, index);
      } else {
        assert Mentions(responses, id, index) == Mentions(responses[..n], id, index);
      }
    }
  }

  lemma {:induction false} MentionsComeFromResponses(responses: seq<Response>, id: nat, index: Option<nat>)
    ensures forall x :: x in Mentions(responses, id, index) <==>
              exists r <- responses :: MentionedBy(x, r, id, index)
  {
    if responses == [] {
    } else {
      var n := |responses| - 1;
      MentionsComeFromResponses(responses[..n], id, index);
      assert responses == responses[..n] + [responses[n]];
      var before, all := Mentions(responses[..n], id, index), Mentions(responses, id, index);
      forall x ensures x in all <==> exists r <- responses :: MentionedBy(x, r, id, index) {
        assert x in all <==> x in before || MentionedBy(x, responses[n], id, index);
      }
    }
  }

  lemma {:induction false} DistinctMentions(responses: seq<Response>, id: nat, index: Option<nat>)
    requires DistinctStarts(responses)
    ensures DistinctStamps(Mentions(responses, id, index))
  {
    if responses == [] {
    } else {
      var n := |responses| - 1;
      var before := Mentions(responses[..n], id, index);
      DistinctMentions(responses[..n], id, index);
      MentionsComeFromResponses(responses[..n], id, index);
      forall x <- before ensures x.at != responses[n].at {
        var r :| r in responses[..n] && MentionedBy(x, r, id, index);
        var i :| 0 <= i < n && responses[i] == r;
      }
    }
  }

  predicate MentionedBy(x: Stamped<Entry>, r: Response, id: nat, index: Option<nat>) {
    var m := Mention(r.statuses, id, index);
    m.Some? && x == Stamped(r.at, Erased(Entry(m.value, r.now, r.at)))
  }

  /** Late answers cannot undo newer ones: any two orders of the same answers, with distinct
      start times, leave the same ledger up to running times. */
  lemma {:induction false} CompletionOrderDoesNotMatter(interest: set<nat>, responses: seq<Response>,
                                                        other: seq<Response>, track: bool,
                                                        id: nat, index: Option<nat>)
    requires DistinctStarts(responses) && multiset(responses) == multiset(other)
    ensures var a := Lookup(LedgerAfter(interest, responses, track), id, index);
            var b := Lookup(LedgerAfter(interest, other, track), id, index);
            && (a.None? <==> b.None?)
            && (a.Some? ==> Erased(a.value) == Erased(b.value))
  {
    LedgerHoldsTheLatestStarted(interest, responses, track, id, index);
    LedgerHoldsTheLatestStarted(interest, other, track, id, index);
    MentionsComeFromResponses(responses, id, index);
    MentionsComeFromResponses(other, id, index);
    DistinctMentions(responses, id, index);
    assert forall r :: r in responses <==> r in multiset(responses);
    assert forall r :: r in other <==> r in multiset(other);
    ChoiceIgnoresOrder(Mentions(responses, id, index), Mentions(other, id, index));
  }

  /** The same entry up to running times. */
  predicate Alike(a: Option<Entry>, b: Option<Entry>) {
    (a.None? <==> b.None?) && (a.Some? ==> Erased(a.value) == Erased(b.value))
  }

  function EntryAfter(interest: set<nat>, responses: seq<Response>, track: bool, id: nat,
                      index: Option<nat>): Option<Entry> {
    Lookup(LedgerAfter(interest, responses, track), id, index)
  }

  /** No completion order of these answers leaves another entry for the element. */
  ghost predicate OrderIsIrrelevant(interest: set<nat>, responses: seq<Response>, track: bool, id: nat,
                                    index: Option<nat>) {
    forall other :: multiset(other) == multiset(responses) ==>
      Alike(EntryAfter(interest, responses, track, id, index), EntryAfter(interest, other, track, id, index))
  }

  /** Exactly when the completion order does not matter for an element: nobody asked for its job,
      or the answers that mention it with the latest start time say the same. Distinct start
      times are one way to get that; equal ones are harmless while a later answer mentions the
      element too. */
  lemma OrderIsIrrelevantIffLatestAgree(interest: set<nat>, responses: seq<Response>, track: bool,
                                        id: nat, index: Option<nat>)
    ensures OrderIsIrrelevant(interest, responses, track, id, index)
            <==> id !in interest || LatestAgree(Mentions(responses, id, index))
  {
    if id !in interest || LatestAgree(Mentions(responses, id, index)) {
      forall other | multiset(other) == multiset(responses)
        ensures Alike(EntryAfter(interest, responses, track, id, index), EntryAfter(interest, other, track, id, index))
      {
        AgreeingOrdersAreAlike(interest, responses, other, track, id, index);
      }
    }
    if OrderIsIrrelevant(interest, responses, track, id, index) && id in interest {
      var ms := Mentions(responses, id, index);
      forall x, y | IsLatest(ms, x) && IsLatest(ms, y) ensures x == y {
        LatestCanWin(interest, responses, track, id, index, x);
        LatestCanWin(interest, responses, track, id, index, y);
      }
    }
  }

  lemma AgreeingOrdersAreAlike(interest: set<nat>, responses: seq<Response>, other: seq<Response>, track: bool,
                               id: nat, index: Option<nat>)
    requires multiset(responses) == multiset(other)
    requires id !in interest || LatestAgree(Mentions(responses, id, index))
    ensures Alike(EntryAfter(interest, responses, track, id, index), EntryAfter(interest, other, track, id, index))
  {
    LedgerHoldsTheLatestStarted(interest, responses, track, id, index);
    LedgerHoldsTheLatestStarted(interest, other, track, id, index);
    if id in interest {
      SameMentions(responses, other, id, index);
      ChoiceIgnoresOrderIfLatestAgree(Mentions(responses, id, index), Mentions(other, id, index));
    }
  }

  lemma SameMentions(responses: seq<Response>, other: seq<Response>, id: nat, index: Option<nat>)
    requires multiset(responses) == multiset(other)
    ensures forall x :: x in Mentions(responses, id, index) <==> x in Mentions(other, id, index)
  {
    MentionsComeFromResponses(responses, id, index);
    MentionsComeFromResponses(other, id, index);
    assert forall r :: r in responses <==> r in multiset(responses);
    assert forall r :: r in other <==> r in multiset(other);
  }

  lemma MentionedLast(rest: seq<Response>, r: Response, id: nat, index: Option<nat>, x: Stamped<Entry>)
    requires MentionedBy(x, r, id, index)
    ensures Mentions(rest + [r], id, index) == Mentions(rest, id, index) + [x]
  {
    assert (rest + [r])[..|rest|] == rest;
  }

  /** What the last answer says with the latest start time is what stays. */
  lemma LatestSaidLastStays(interest: set<nat>, rest: seq<Response>, r: Response, track: bool,
                            id: nat, index: Option<nat>, x: Stamped<Entry>)
    requires id in interest && MentionedBy(x, r, id, index)
    requires IsLatest(Mentions(rest + [r], id, index), x)
    ensures Matches(EntryAfter(interest, rest + [r], track, id, index), Some(x))
  {
    MentionedLast(rest, r, id, index, x);
    LastLatestIsChosen(Mentions(rest, id, index), x);
    LedgerHoldsTheLatestStarted(interest, rest + [r], track, id, index);
  }

  /** Whatever is said with the latest start time is what some completion order leaves behind. */
  lemma LatestCanWin(interest: set<nat>, responses: seq<Response>, track: bool, id: nat, index: Option<nat>,
                     x: Stamped<Entry>)
    requires OrderIsIrrelevant(interest, responses, track, id, index) && id in interest
    requires IsLatest(Mentions(responses, id, index), x)
    ensures Matches(EntryAfter(interest, responses, track, id, index), Some(x))
  {
    MentionsComeFromResponses(responses, id, index);
    var r :| r in responses && MentionedBy(x, r, id, index);
    var i :| 0 <= i < |responses| && responses[i] == r;
    var other := MovedToBack(responses, i);
    MovedToBackKeepsItems(responses, i);
    SameMentions(responses, other, id, index);
    LatestSaidLastStays(interest, responses[..i] + responses[i + 1..], r, track, id, index, x);
    assert Alike(EntryAfter(interest, responses, track, id, index), EntryAfter(interest, other, track, id, index));
  }

  /** Equal start times can make the order matter. */
  lemma EqualStartsDoDependOnOrder() returns (first: Response, second: Response)
    ensures first.at == second.at
    ensures !OrderIsIrrelevant({7}, [first, second], false, 7, None)
  {
    var run := Status(7, None, Run, None, None, None, "");
    var done := Status(7, None, Done, None, None, None, "");
    first, second := Response(1, 1, [run]), Response(1, 1, [done]);
    LedgerOfTwo(first, second);
    LedgerOfTwo(second, first);
    assert multiset([second, first]) == multiset([first, second]);
    assert Mention([run], 7, None) == Some(run) && Mention([done], 7, None) == Some(done);
    assert EntryAfter({7}, [first, second], false, 7, None) == Some(Entry(done, 1, 1));
    assert EntryAfter({7}, [second, first], false, 7, None) == Some(Entry(run, 1, 1));
  }

  lemma LedgerOfTwo(a: Response, b: Response)
    requires a.at == b.at && |a.statuses| == |b.statuses| == 1
    requires a.statuses[0].jobId == b.statuses[0].jobId == 7 && a.statuses[0].index == b.statuses[0].index == None
    ensures Lookup(LedgerAfter({7}, [a, b], false), 7, None) == Some(Entry(b.statuses[0], b.now, b.at))
  {
    assert [a, b][..1] == [a] && [a][..0] == [];
    assert LedgerAfter({7}, [a, b], false) == AfterResponse(LedgerAfter({7}, [a], false), {7}, b, false);
    MergeLookup(LedgerAfter({7}, [a], false), {7}, b.statuses, b.now, b.at, 7, None);
    MergeLookup(LedgerAfter({7}, [], false), {7}, a.statuses, a.now, a.at, 7, None);
    assert Mention(b.statuses, 7, None) == Some(b.statuses[0]);
    assert LedgerAfter({7}, [a], false) == AfterResponse(map[], {7}, a, false);
  }

  lemma {:induction false} AnswersKeepTheLedgerTidy(interest: set<nat>, ledger: Entries, statuses: seq<Status>,
                                                    now: int, at: int)
    requires Tidy(ledger, interest)
    ensures Tidy(Merge(ledger, interest, statuses, now, at), interest)
  {
    if statuses == [] {
    } else {
      var n := |statuses| - 1;
      AnswersKeepTheLedgerTidy(interest, ledger, statuses[..n], now, at);
      var mid := Merge(ledger, interest, statuses[..n], now, at);
      var elems := ElementsOf(mid, statuses[n].jobId)[statuses[n].index := Entry(statuses[n], now, at)];
      assert statuses[n].index in elems;
    }
  }
}
