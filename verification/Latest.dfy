/** Choosing the latest-stamped of several reports, whatever order they arrive in. */
module Latest {
  import opened JobModel

  datatype Stamped<T> = Stamped(at: int, value: T)

  /** Arrivals are folded in order; a report replaces the choice unless it is older. */
  function Choose<T>(arrivals: seq<Stamped<T>>): Option<Stamped<T>> {
    if arrivals == [] then None
    else Keep(Choose(arrivals[..|arrivals| - 1]), arrivals[|arrivals| - 1])
  }

  function Keep<T>(chosen: Option<Stamped<T>>, next: Stamped<T>): Option<Stamped<T>> {
    if chosen.Some? && chosen.value.at > next.at then chosen else Some(next)
  }

  ghost predicate DistinctStamps<T>(arrivals: seq<Stamped<T>>) {
    forall i, j :: 0 <= i < j < |arrivals| ==> arrivals[i].at != arrivals[j].at
  }

  lemma {:induction false} ChosenIsLatest<T>(arrivals: seq<Stamped<T>>)
    ensures Choose(arrivals).None? <==> arrivals == []
    ensures Choose(arrivals).Some? ==> Choose(arrivals).value in arrivals
    ensures forall x :: x in arrivals ==> Choose(arrivals).Some? && x.at <= Choose(arrivals).value.at
  {
    if arrivals == [] {
    } else {
      var n := |arrivals| - 1;
      ChosenIsLatest(arrivals[..n]);
      assert arrivals == arrivals[..n] + [arrivals[n]];
    }
  }

  lemma StampsIdentify<T>(arrivals: seq<Stamped<T>>, x: Stamped<T>, y: Stamped<T>)
    requires DistinctStamps(arrivals) && x in arrivals && y in arrivals && x.at == y.at
    ensures x == y
  {
    var i :| 0 <= i < |arrivals| && arrivals[i] == x;
    var j :| 0 <= j < |arrivals| && arrivals[j] == y;
  }

  lemma ChoiceIgnoresOrder<T>(arrivals: seq<Stamped<T>>, other: seq<Stamped<T>>)
    requires DistinctStamps(arrivals) && (forall x :: x in arrivals <==> x in other)
    ensures Choose(arrivals) == Choose(other)
  {
    ChosenIsLatest(arrivals);
    ChosenIsLatest(other);
    if other != [] {
      assert other[0] in arrivals;
    }
    if arrivals != [] {
      assert arrivals[0] in other;
      StampsIdentify(arrivals, Choose(arrivals).value, Choose(other).value);
    }
  }

  ghost predicate IsLatest<T>(arrivals: seq<Stamped<T>>, x: Stamped<T>) {
    x in arrivals && forall y <- arrivals :: y.at <= x.at
  }

  /** The reports that share the latest stamp say the same. */
  ghost predicate LatestAgree<T(!new)>(arrivals: seq<Stamped<T>>) {
    forall x, y :: IsLatest(arrivals, x) && IsLatest(arrivals, y) ==> x == y
  }

  /** The latest report is chosen when it arrives last. */
  lemma LastLatestIsChosen<T>(arrivals: seq<Stamped<T>>, x: Stamped<T>)
    requires forall y <- arrivals :: y.at <= x.at
    ensures Choose(arrivals + [x]) == Some(x)
  {
    assert (arrivals + [x])[..|arrivals|] == arrivals;
    ChosenIsLatest(arrivals);
  }

  lemma ChoiceIgnoresOrderIfLatestAgree<T(!new)>(arrivals: seq<Stamped<T>>, other: seq<Stamped<T>>)
    requires LatestAgree(arrivals) && forall x :: x in arrivals <==> x in other
    ensures Choose(arrivals) == Choose(other)
  {
    ChosenIsLatest(arrivals);
    ChosenIsLatest(other);
    if other != [] {
      assert other[0] in arrivals;
    }
    if arrivals != [] {
      assert arrivals[0] in other;
      assert IsLatest(arrivals, Choose(arrivals).value) && IsLatest(arrivals, Choose(other).value);
    }
  }

  /** One report moved behind all others. */
  function MovedToBack<T>(items: seq<T>, i: nat): seq<T>
    requires i < |items|
  {
    items[..i] + items[i + 1..] + [items[i]]
  }

  lemma MovedToBackKeepsItems<T>(items: seq<T>, i: nat)
    requires i < |items|
    ensures multiset(MovedToBack(items, i)) == multiset(items)
  {
    assert items == items[..i] + [items[i]] + items[i + 1..];
  }
}
