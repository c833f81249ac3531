/** Splitting long argument lists and reading chunk by chunk (lsfmgr/command.py). */
module Chunks {
  import opened JobModel

  /** One command-line argument. */
  datatype Arg = Arg(text: string)

  datatype Result<+T> = Ok(value: T) | TooLong(item: Arg)

  function Weight(chunk: seq<Arg>): nat {
    if chunk == [] then 0 else Weight(chunk[..|chunk| - 1]) + |chunk[|chunk| - 1].text| + 1
  }

  function Flat<T>(chunks: seq<seq<T>>): seq<T> {
    if chunks == [] then [] else Flat(chunks[..|chunks| - 1]) + chunks[|chunks| - 1]
  }

  /** A chunk size below one still lets a chunk hold one item. */
  predicate Fits(chunk: seq<Arg>, size: int, argMax: int, base: int) {
    (|chunk| <= 1 || |chunk| <= size) && base + Weight(chunk) <= argMax
  }

  /** A split of the items, in order, into non-empty chunks within both limits. */
  ghost predicate Splits(chunks: seq<seq<Arg>>, items: seq<Arg>, size: int, argMax: int, base: int) {
    Flat(chunks) == items && AllFit(chunks, size, argMax, base)
  }

  ghost predicate AllFit(chunks: seq<seq<Arg>>, size: int, argMax: int, base: int) {
    forall c <- chunks :: c != [] && Fits(c, size, argMax, base)
  }

  /** No chunk could have taken the first item of the next one. */
  ghost predicate Tight(chunks: seq<seq<Arg>>, size: int, argMax: int, base: int) {
    forall i, j :: 0 <= i && j == i + 1 < |chunks| && chunks[j] != [] ==>
      !Fits(chunks[i] + [chunks[j][0]], size, argMax, base)
  }

  lemma WeightOfOneMore(chunk: seq<Arg>, item: Arg)
    ensures Weight(chunk + [item]) == Weight(chunk) + |item.text| + 1
  {
    assert (chunk + [item])[..|chunk|] == chunk;
  }

  lemma FitsOneMore(chunk: seq<Arg>, item: Arg, size: int, argMax: int, base: int)
    ensures Fits(chunk + [item], size, argMax, base)
            <==> (chunk == [] || |chunk| < size) && base + Weight(chunk) + |item.text| + 1 <= argMax
    ensures Weight(chunk + [item]) == Weight(chunk) + |item.text| + 1
    ensures chunk == [] ==> chunk + [item] == [item]
  {
    WeightOfOneMore(chunk, item);
  }

  lemma FlatOfOneMore<T>(chunks: seq<seq<T>>, chunk: seq<T>)
    ensures Flat(chunks + [chunk]) == Flat(chunks) + chunk
  {
    assert (chunks + [chunk])[..|chunks|] == chunks;
  }

  lemma TightOfOneMore(chunks: seq<seq<Arg>>, chunk: seq<Arg>, size: int, argMax: int, base: int)
    requires Tight(chunks, size, argMax, base)
    requires chunks != [] && chunk != [] ==> !Fits(chunks[|chunks| - 1] + [chunk[0]], size, argMax, base)
    ensures Tight(chunks + [chunk], size, argMax, base)
  {
  }

  /** The chunks closed so far and the open one, after the items done. */
  ghost predicate Progress(chunks: seq<seq<Arg>>, chunk: seq<Arg>, done: seq<Arg>, size: int, argMax: int, base: int) {
    && Flat(chunks) + chunk == done
    && AllFit(chunks, size, argMax, base) && Tight(chunks, size, argMax, base)
    && (chunk == [] ==> chunks == [])
    && (chunk != [] ==> Fits(chunk, size, argMax, base))
    && (chunks != [] && chunk != [] ==> !Fits(chunks[|chunks| - 1] + [chunk[0]], size, argMax, base))
  }

  lemma ChunkGrows(chunks: seq<seq<Arg>>, chunk: seq<Arg>, done: seq<Arg>, item: Arg, size: int, argMax: int, base: int)
    requires Progress(chunks, chunk, done, size, argMax, base) && Fits(chunk + [item], size, argMax, base)
    ensures Progress(chunks, chunk + [item], done + [item], size, argMax, base)
  {
    assert Flat(chunks) + (chunk + [item]) == Flat(chunks) + chunk + [item];
  }

  lemma ChunkCloses(chunks: seq<seq<Arg>>, chunk: seq<Arg>, done: seq<Arg>, size: int, argMax: int, base: int)
    requires Progress(chunks, chunk, done, size, argMax, base) && chunk != []
    ensures Flat(chunks + [chunk]) == done
    ensures AllFit(chunks + [chunk], size, argMax, base) && Tight(chunks + [chunk], size, argMax, base)
  {
    TightOfOneMore(chunks, chunk, size, argMax, base);
    FlatOfOneMore(chunks, chunk);
  }

  lemma ChunkStarts(chunks: seq<seq<Arg>>, chunk: seq<Arg>, done: seq<Arg>, item: Arg, size: int, argMax: int,
                    base: int)
    requires Progress(chunks, chunk, done, size, argMax, base) && chunk != []
    requires !Fits(chunk + [item], size, argMax, base) && Fits([item], size, argMax, base)
    ensures Progress(chunks + [chunk], [item], done + [item], size, argMax, base)
  {
    ChunkCloses(chunks, chunk, done, size, argMax, base);
  }

  lemma ItemFits(chunks: seq<seq<Arg>>, chunk: seq<Arg>, done: seq<Arg>, item: Arg, size: int, argMax: int, base: int)
    requires Progress(chunks, chunk, done, size, argMax, base) && base + |item.text| + 1 <= argMax
    ensures if chunk != [] && (|chunk| >= size || base + Weight(chunk) + |item.text| + 1 > argMax)
            then Progress(chunks + [chunk], [item], done + [item], size, argMax, base)
            else Progress(chunks, chunk + [item], done + [item], size, argMax, base)
    ensures Weight(chunk + [item]) == Weight(chunk) + |item.text| + 1
    ensures Weight([item]) == |item.text| + 1
  {
    FitsOneMore(chunk, item, size, argMax, base);
    FitsOneMore([], item, size, argMax, base);
    if chunk != [] && (|chunk| >= size || base + Weight(chunk) + |item.text| + 1 > argMax) {
      ChunkStarts(chunks, chunk, done, item, size, argMax, base);
    } else {
      ChunkGrows(chunks, chunk, done, item, size, argMax, base);
    }
  }

  /** One item: it closes the open chunk if it does not fit any more. */
  method TakeItem(chunks: seq<seq<Arg>>, chunk: seq<Arg>, length: int, item: Arg, size: int, argMax: int, base: int,
                  ghost done: seq<Arg>)
    returns (chunks': seq<seq<Arg>>, chunk': seq<Arg>, length': int)
    requires Progress(chunks, chunk, done, size, argMax, base) && length == base + Weight(chunk)
    requires base + |item.text| + 1 <= argMax
    ensures Progress(chunks', chunk', done + [item], size, argMax, base) && length' == base + Weight(chunk')
  {
    var add := |item.text| + 1;
    ItemFits(chunks, chunk, done, item, size, argMax, base);
    if chunk != [] && (|chunk| >= size || length + add > argMax) {
      chunks', chunk', length' := chunks + [chunk], [item], base + add;
    } else {
      chunks', chunk', length' := chunks, chunk + [item], length + add;
    }
  }

  method ChunkArgs(items: seq<Arg>, size: int, argMax: int, base: int) returns (r: Result<seq<seq<Arg>>>)
    ensures r.Ok? ==> forall item <- items :: base + |item.text| + 1 <= argMax
    ensures r.Ok? ==> Splits(r.value, items, size, argMax, base) && Tight(r.value, size, argMax, base)
    ensures r.TooLong? ==> r.item in items && base + |r.item.text| + 1 > argMax
  {
    var chunks: seq<seq<Arg>> := [];
    var chunk: seq<Arg> := [];
    var length := base;
    var i := 0;
    while i < |items|
      invariant 0 <= i <= |items|
      invariant Progress(chunks, chunk, items[..i], size, argMax, base)
      invariant length == base + Weight(chunk)
      invariant forall j :: 0 <= j < i ==> base + |items[j].text| + 1 <= argMax
    {
      if base + |items[i].text| + 1 > argMax {
        return TooLong(items[i]);
      }
      chunks, chunk, length := TakeItem(chunks, chunk, length, items[i], size, argMax, base, items[..i]);
      assert items[..i + 1] == items[..i] + [items[i]];
      i := i + 1;
    }
    assert items[..i] == items;
    chunks := CloseLast(chunks, chunk, size, argMax, base, items);
    r := Ok(chunks);
  }

  method CloseLast(chunks: seq<seq<Arg>>, chunk: seq<Arg>, size: int, argMax: int, base: int, ghost done: seq<Arg>)
    returns (all: seq<seq<Arg>>)
    requires Progress(chunks, chunk, done, size, argMax, base)
    ensures Splits(all, done, size, argMax, base) && Tight(all, size, argMax, base)
  {
    if chunk != [] {
      ChunkCloses(chunks, chunk, done, size, argMax, base);
      all := chunks + [chunk];
    } else {
      all := chunks;
    }
  }

  // ---------------------------------------------------------------------
  // No split uses fewer chunks
  // ---------------------------------------------------------------------

  function FlatFront<T>(chunks: seq<seq<T>>): seq<T> {
    if chunks == [] then [] else chunks[0] + FlatFront(chunks[1..])
  }

  lemma {:induction false} FlatBothWays<T>(chunks: seq<seq<T>>)
    ensures Flat(chunks) == FlatFront(chunks)
  {
    if chunks == [] {
    } else if |chunks| == 1 {
      assert chunks[..0] == [] && chunks[1..] == [];
      assert Flat(chunks) == [] + chunks[0] == chunks[0] + [];
    } else {
      var n := |chunks| - 1;
      FlatBothWays(chunks[..n]);
      FlatBothWays(chunks[1..]);
      FlatBothWays(chunks[1..][..n - 1]);
      assert chunks[..n][1..] == chunks[1..][..n - 1];
      assert chunks[1..][n - 1] == chunks[n];
      assert Flat(chunks) == chunks[0] + FlatFront(chunks[1..][..n - 1]) + chunks[n];
      assert FlatFront(chunks) == chunks[0] + (Flat(chunks[1..][..n - 1]) + chunks[n]);
    }
  }

  lemma {:induction false} WeightOfBoth(a: seq<Arg>, b: seq<Arg>)
    ensures Weight(a + b) == Weight(a) + Weight(b)
  {
    if b == [] {
      assert a + b == a;
    } else {
      var n := |b| - 1;
      WeightOfBoth(a, b[..n]);
      assert a + b == a + b[..n] + [b[n]];
      assert (a + b)[..|a + b| - 1] == a + b[..n];
    }
  }

  lemma WeightOfPart(whole: seq<Arg>, from: nat, to: nat)
    requires from <= to <= |whole|
    ensures Weight(whole[from..to]) <= Weight(whole)
  {
    WeightOfBoth(whole[..from], whole[from..to]);
    WeightOfBoth(whole[..from] + whole[from..to], whole[to..]);
    assert whole == whole[..from] + whole[from..to] + whole[to..];
  }

  lemma SomethingIsFlat<T>(chunks: seq<seq<T>>)
    requires chunks != [] && forall c <- chunks :: c != []
    ensures FlatFront(chunks) != []
  {
    assert chunks[0] in chunks;
  }

  lemma FirstAndNext(tight: seq<seq<Arg>>)
    requires |tight| > 1 && tight[1] != []
    ensures tight[0] + [tight[1][0]] <= FlatFront(tight)
  {
    var rest := FlatFront(tight[1..]);
    assert rest == tight[1] + FlatFront(tight[1..][1..]);
    assert FlatFront(tight) == tight[0] + rest && rest[0] == tight[1][0];
  }

  /** Greedy stays ahead: wherever a tight split starts inside the items of another split, it
      needs no more chunks than that one. */
  lemma {:induction false} TightIsAhead(items: seq<Arg>, other: seq<seq<Arg>>, d: nat, tight: seq<seq<Arg>>,
                                        size: int, argMax: int, base: int)
    requires d <= |items| && FlatFront(other) == items && FlatFront(tight) == items[d..]
    requires (forall c <- other :: c != [] && Fits(c, size, argMax, base)) && (forall c <- tight :: c != [])
    requires Tight(tight, size, argMax, base)
    ensures |tight| <= |other|
    decreases |other| + |tight|
  {
    if tight == [] {
    } else if other == [] {
      SomethingIsFlat(tight);
    } else {
      var a, g := |other[0]|, |tight[0]|;
      assert other[0] in other && tight[0] in tight;
      assert forall c <- other[1..] :: c in other;
      assert forall c <- tight[1..] :: c in tight;
      assert items[a..] == FlatFront(other[1..]) && items[..a] == other[0];
      if d >= a {
        assert items[a..][d - a..] == items[d..];
        TightIsAhead(items[a..], other[1..], d - a, tight, size, argMax, base);
      } else {
        assert items[d..][..g] == tight[0] && items[d..][g..] == FlatFront(tight[1..]);
        if |tight| > 1 {
          assert tight[1] in tight;
          TightReaches(items, a, d, tight, size, argMax, base);
          assert items[a..][d + g - a..] == items[d + g..] == items[d..][g..];
          assert Tight(tight[1..], size, argMax, base);
          TightIsAhead(items[a..], other[1..], d + g - a, tight[1..], size, argMax, base);
        }
      }
    }
  }

  lemma TightReaches(items: seq<Arg>, a: nat, d: nat, tight: seq<seq<Arg>>, size: int, argMax: int, base: int)
    requires d < a <= |items| && FlatFront(tight) == items[d..] && |tight| > 1 && tight[0] != [] && tight[1] != []
    requires Fits(items[..a], size, argMax, base) && Tight(tight, size, argMax, base)
    ensures d + |tight[0]| >= a
  {
    var one := tight[0] + [tight[1][0]];
    FirstAndNext(tight);
    if d + |tight[0]| < a {
      PartFits(items, a, d, one, size, argMax, base);
    }
  }

  lemma PartFits(items: seq<Arg>, a: nat, d: nat, one: seq<Arg>, size: int, argMax: int, base: int)
    requires d <= a <= |items| && d + |one| <= a && one <= items[d..] && |one| > 1
    requires Fits(items[..a], size, argMax, base)
    ensures Fits(one, size, argMax, base)
  {
    forall i | 0 <= i < |one| ensures items[..a][d..d + |one|][i] == one[i] {
      assert items[d..][i] == one[i];
    }
    assert items[..a][d..d + |one|] == one;
    WeightOfPart(items[..a], d, d + |one|);
  }

  /** The split of ChunkArgs needs the fewest chunks of all order-preserving splits. */
  lemma NoSplitUsesFewer(items: seq<Arg>, tight: seq<seq<Arg>>, other: seq<seq<Arg>>, size: int, argMax: int, base: int)
    requires Splits(tight, items, size, argMax, base) && Tight(tight, size, argMax, base)
    requires Splits(other, items, size, argMax, base)
    ensures |tight| <= |other|
  {
    FlatBothWays(tight);
    FlatBothWays(other);
    assert items[0..] == items;
    TightIsAhead(items, other, 0, tight, size, argMax, base);
  }

  // ---------------------------------------------------------------------
  // bjobs over chunks
  // ---------------------------------------------------------------------

  /** rows are the classified lines of one successful call; None is a failed call. */
  datatype Answer<Row> = Answer(rows: Option<seq<Row>>)

  /** Two failures in a row end the query early. */
  ghost predicate GivesUpAfter<Row>(answers: seq<Answer<Row>>, i: nat)
    requires i < |answers|
  {
    0 < i && i + 1 < |answers| && answers[i - 1].rows.None? && answers[i].rows.None?
  }

  function AnsweredRows<Row>(answers: seq<Answer<Row>>): seq<Row> {
    if answers == [] then []
    else AnsweredRows(answers[..|answers| - 1]) + answers[|answers| - 1].rows.GetOr([])
  }

  method BjobsByIds<Row>(chunks: seq<seq<nat>>, answers: seq<Answer<Row>>)
    returns (rows: seq<Row>, failed: set<nat>, asked: nat)
    requires |answers| == |chunks|
    ensures asked <= |chunks| && rows == AnsweredRows(answers[..asked])
    ensures forall id ::
              id in failed <==>
              exists i :: 0 <= i < |chunks| && id in chunks[i] && (i >= asked || answers[i].rows.None?)
    ensures asked < |chunks| ==> asked > 0 && GivesUpAfter(answers, asked - 1)
    ensures forall i :: 0 <= i < asked - 1 ==> !GivesUpAfter(answers, i)
  {
    rows, failed, asked := [], {}, 0;
    var consecutive := 0;
    while asked < |chunks|
      invariant asked <= |chunks| && rows == AnsweredRows(answers[..asked])
      invariant forall id :: id in failed <==> exists i :: 0 <= i < asked && id in chunks[i] && answers[i].rows.None?
      invariant 0 <= consecutive && (asked < |chunks| ==> consecutive < 2)
      invariant consecutive > 0 <==> asked > 0 && answers[asked - 1].rows.None?
      invariant forall i :: 0 <= i < asked ==> !GivesUpAfter(answers, i)
    {
      ghost var before := failed;
      var i := asked;
      asked := asked + 1;
      assert answers[..asked][..i] == answers[..i];
      if answers[i].rows.None? {
        failed := failed + (set id | id in chunks[i]);
        consecutive := consecutive + 1;
        if consecutive >= 2 && asked < |chunks| {
          failed := FailRest(chunks, asked, failed);
          assert forall id :: id in failed <==>
            exists j :: 0 <= j < |chunks| && id in chunks[j] && (j >= asked || answers[j].rows.None?);
          return;
        }
      } else {
        rows := rows + answers[i].rows.value;
        consecutive := 0;
      }
    }
  }

  method FailRest(chunks: seq<seq<nat>>, from: nat, failed: set<nat>) returns (all: set<nat>)
    requires from <= |chunks|
    ensures forall id :: id in all <==> id in failed || exists j :: from <= j < |chunks| && id in chunks[j]
  {
    all := failed;
    for j := from to |chunks|
      invariant forall id :: id in all <==> id in failed || exists x :: from <= x < j && id in chunks[x]
    {
      all := all + (set id | id in chunks[j]);
    }
  }
}
