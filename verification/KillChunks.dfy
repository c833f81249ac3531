/**
 * How the open targets of a kill round come to be handed to bkill: the chunks of a list of them,
 * one call each, in whatever order the calls complete.
 */
module KillChunks {
  import Chunks
  import opened Killing

  /** The chunks of the calls in the order the calls complete. */
  function ChunksOf(calls: seq<Call>): seq<seq<Target>> {
    seq(|calls|, i requires 0 <= i < |calls| => calls[i].chunk)
  }

  /** All items of the chunks, whatever their order. */
  function Mixed<T>(chunks: seq<seq<T>>): multiset<T> {
    if chunks == [] then multiset{} else Mixed(chunks[..|chunks| - 1]) + multiset(chunks[|chunks| - 1])
  }

  lemma {:induction false} MixedIsFlat<T>(chunks: seq<seq<T>>)
    ensures multiset(Chunks.Flat(chunks)) == Mixed(chunks)
  {
    if chunks == [] {
    } else {
      MixedIsFlat(chunks[..|chunks| - 1]);
    }
  }

  lemma {:induction false} MixedOfBoth<T>(a: seq<seq<T>>, b: seq<seq<T>>)
    ensures Mixed(a + b) == Mixed(a) + Mixed(b)
  {
    if b == [] {
      assert a + b == a;
    } else {
      var n := |b| - 1;
      MixedOfBoth(a, b[..n]);
      assert (a + b)[..|a + b| - 1] == a + b[..n];
    }
  }

  lemma {:induction false} HandedIsMixed(calls: seq<Call>, n: nat)
    requires n <= |calls|
    ensures Handed(calls, n) == Mixed(ChunksOf(calls)[..n])
  {
    if n == 0 {
    } else {
      HandedIsMixed(calls, n - 1);
      assert ChunksOf(calls)[..n][..n - 1] == ChunksOf(calls)[..n - 1];
    }
  }

  lemma WithoutOne<T>(all: seq<T>, j: nat, chunks: seq<T>)
    requires j < |all| && chunks != [] && all[j] == chunks[|chunks| - 1]
    requires multiset(all) == multiset(chunks)
    ensures multiset(all[..j] + all[j + 1..]) == multiset(chunks[..|chunks| - 1])
  {
    var n := |chunks| - 1;
    assert all == all[..j] + [all[j]] + all[j + 1..];
    assert chunks == chunks[..n] + [chunks[n]];
    forall x: T ensures multiset(all[..j] + all[j + 1..])[x] == multiset(chunks[..n])[x] {
      assert multiset(all)[x] == multiset(all[..j] + all[j + 1..])[x] + multiset([all[j]])[x];
      assert multiset(chunks)[x] == multiset(chunks[..n])[x] + multiset([all[j]])[x];
    }
  }

  lemma MemberOf<T>(all: seq<T>, j: nat, chunks: seq<T>)
    requires j < |all| && multiset(all) == multiset(chunks)
    ensures all[j] in chunks
  {
    assert all[j] in multiset(all);
  }

  /** The items do not depend on the order of the chunks. */
  lemma {:induction false} MixedIgnoresOrder<T>(all: seq<seq<T>>, chunks: seq<seq<T>>)
    requires multiset(all) == multiset(chunks)
    ensures Mixed(all) == Mixed(chunks)
    decreases |chunks|
  {
    if chunks == [] {
      assert |multiset(all)| == |all|;
    } else {
      var n := |chunks| - 1;
      MemberOf(chunks, n, all);
      var j :| 0 <= j < |all| && all[j] == chunks[n];
      WithoutOne(all, j, chunks);
      MixedIgnoresOrder(all[..j] + all[j + 1..], chunks[..n]);
      OneOfThem(all[..j], chunks[n], all[j + 1..]);
      assert all == all[..j] + [chunks[n]] + all[j + 1..];
    }
  }

  lemma MixedOfOneMore<T>(front: seq<seq<T>>, chunk: seq<T>)
    ensures Mixed(front + [chunk]) == Mixed(front) + multiset(chunk)
  {
    assert (front + [chunk])[..|front|] == front;
  }

  lemma OneOfThem<T>(front: seq<seq<T>>, chunk: seq<T>, back: seq<seq<T>>)
    ensures Mixed(front + [chunk] + back) == Mixed(front + back) + multiset(chunk)
  {
    MixedOfBoth(front, back);
    MixedOfBoth(front + [chunk], back);
    MixedOfOneMore(front, chunk);
  }

  /** Chunks that split a list of the open targets with none empty, as Chunks.ChunkArgs promises
      them, each handed to one call, are what a round hands out, in whatever order the calls complete. */
  lemma {:induction false} ChunkedCallsAreInChunks(open: set<Target>, items: seq<Target>, chunks: seq<seq<Target>>,
                                                   calls: seq<Call>)
    requires multiset(items) == multiset(open)
    requires Chunks.Flat(chunks) == items && forall c <- chunks :: c != []
    requires multiset(ChunksOf(calls)) == multiset(chunks)
    ensures InChunks(calls, open)
  {
    HandedIsMixed(calls, |calls|);
    assert ChunksOf(calls)[..|calls|] == ChunksOf(calls);
    MixedIgnoresOrder(ChunksOf(calls), chunks);
    MixedIsFlat(chunks);
    forall i | 0 <= i < |calls| ensures calls[i].chunk != [] {
      MemberOf(ChunksOf(calls), i, chunks);
    }
  }
}
