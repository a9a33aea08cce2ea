/** `chunk_list`: the generator that yields `items[i:i + size]` for every `i`
    in `range(0, len(items), size)`. */
module Chunking {
  function Min(a: int, b: int): int
  {
    if a <= b then a else b
  }

  /** `math.ceil(n / d)` on naturals, by repeated subtraction. */
  function CeilDiv(n: nat, d: nat): nat
    requires d > 0
    decreases n
  {
    if n == 0 then 0
    else if n <= d then 1
    else 1 + CeilDiv(n - d, d)
  }

  /** `CeilDiv(n, d)` is the ceiling of `n / d`: the least `r` with
      `r * d >= n`. */
  lemma {:induction false} CeilDivIsCeiling(n: nat, d: nat)
    requires d > 0
    ensures CeilDiv(n, d) * d >= n
    ensures CeilDiv(n, d) == 0 || (CeilDiv(n, d) - 1) * d < n
    decreases n
  {
    if n > d {
      CeilDivIsCeiling(n - d, d);
      var r := CeilDiv(n - d, d);
      assert (r + 1) * d == r * d + d;
    }
  }

  /** Elements of `items` from `start` on (none when `start` is past the end). */
  function Remaining<T>(items: seq<T>, start: nat): nat
  {
    if start < |items| then |items| - start else 0
  }

  /** The slices the generator yields once its loop variable has reached
      `start`. */
  function ChunksFrom<T>(items: seq<T>, size: nat, start: nat): (chunks: seq<seq<T>>)
    requires size > 0
    ensures |chunks| == CeilDiv(Remaining(items, start), size)
    ensures forall k :: 0 <= k < |chunks| ==> 1 <= |chunks[k]| <= size
    ensures forall k :: 0 <= k < |chunks| - 1 ==> |chunks[k]| == size
    decreases |items| - start
  {
    if start >= |items| then []
    else
      [items[start..Min(start + size, |items|)]] + ChunksFrom(items, size, start + size)
  }

  /** `list(chunk_list(items, size))` for a positive `size`: as many chunks as
      `ceil(len / size)`, each holding between one and `size` elements, and
      only the last one short. */
  function ChunkList<T>(items: seq<T>, size: nat): (chunks: seq<seq<T>>)
    requires size > 0
    ensures |chunks| == CeilDiv(|items|, size)
    ensures |items| == 0 <==> chunks == []
    ensures forall k :: 0 <= k < |chunks| ==> 1 <= |chunks[k]| <= size
    ensures forall k :: 0 <= k < |chunks| - 1 ==> |chunks[k]| == size
  {
    ChunksFrom(items, size, 0)
  }

  /** Concatenation of a sequence of chunks. */
  function Flatten<T>(chunks: seq<seq<T>>): seq<T>
  {
    if chunks == [] then [] else chunks[0] + Flatten(chunks[1..])
  }

  lemma {:induction false} FlattenChunksFrom<T>(items: seq<T>, size: nat, start: nat)
    requires size > 0 && start <= |items|
    ensures Flatten(ChunksFrom(items, size, start)) == items[start..]
    decreases |items| - start
  {
    if start < |items| {
      var end := Min(start + size, |items|);
      var chunks := ChunksFrom(items, size, start);
      assert chunks[1..] == ChunksFrom(items, size, start + size);
      if start + size <= |items| {
        FlattenChunksFrom(items, size, start + size);
        assert items[start..] == items[start..end] + items[start + size..];
      } else {
        assert chunks[1..] == [];
      }
    }
  }

  /** Concatenating the chunks gives back the input, in order: nothing is
      lost, duplicated or moved. */
  lemma ChunkListRoundTrip<T>(items: seq<T>, size: nat)
    requires size > 0
    ensures Flatten(ChunkList(items, size)) == items
  {
    FlattenChunksFrom(items, size, 0);
  }

  /** Where chunk `k` begins when chunking starts at `start`. */
  function ChunkStart(start: nat, size: nat, k: nat): nat
    decreases k
  {
    if k == 0 then start else ChunkStart(start + size, size, k - 1)
  }

  lemma {:induction false} ChunkStartOffset(start: nat, size: nat, k: nat)
    ensures ChunkStart(start, size, k) == start + k * size
    decreases k
  {
    if k > 0 {
      ChunkStartOffset(start + size, size, k - 1);
      assert (k - 1) * size + size == k * size;
    }
  }

  lemma {:induction false} ChunksFromIndex<T>(items: seq<T>, size: nat, start: nat, k: nat)
    requires size > 0
    requires k < |ChunksFrom(items, size, start)|
    ensures ChunkStart(start, size, k) < |items|
    ensures ChunksFrom(items, size, start)[k]
         == items[ChunkStart(start, size, k)..Min(ChunkStart(start, size, k) + size, |items|)]
    decreases k
  {
    if k > 0 {
      var chunks := ChunksFrom(items, size, start);
      assert chunks[k] == ChunksFrom(items, size, start + size)[k - 1];
      ChunksFromIndex(items, size, start + size, k - 1);
    }
  }

  /** Chunk `k` is exactly the Python slice `items[k*size : k*size + size]`,
      clamped at the end of the input as Python slicing is. */
  lemma ChunkListIndex<T>(items: seq<T>, size: nat, k: nat)
    requires size > 0 && k < |ChunkList(items, size)|
    ensures k * size < |items|
    ensures ChunkList(items, size)[k] == items[k * size..Min(k * size + size, |items|)]
  {
    ChunksFromIndex(items, size, 0, k);
    ChunkStartOffset(0, size, k);
  }

  /** An element of the concatenation sits in one of the chunks. */
  lemma {:induction false} FlattenMembership<T>(chunks: seq<seq<T>>, x: T)
    requires x in Flatten(chunks)
    ensures exists k :: 0 <= k < |chunks| && x in chunks[k]
    decreases |chunks|
  {
    if x !in chunks[0] {
      FlattenMembership(chunks[1..], x);
      var k :| 0 <= k < |chunks[1..]| && x in chunks[1..][k];
      assert chunks[k + 1] == chunks[1..][k];
    }
  }

  /** 1200 items in chunks of 500 make three chunks of 500, 500 and 200. */
  lemma TwelveHundredByFiveHundred<T>(items: seq<T>)
    requires |items| == 1200
    ensures var chunks := ChunkList(items, 500);
      |chunks| == 3 && |chunks[0]| == 500 && |chunks[1]| == 500 && |chunks[2]| == 200
  {
    assert CeilDiv(200, 500) == 1;
    assert CeilDiv(700, 500) == 2;
    assert CeilDiv(1200, 500) == 3;
    ChunkListIndex(items, 500, 2);
  }
}
