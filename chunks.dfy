/** The arithmetic of the remote client's chunked mutations and page walks. */
module Paging {
  import opened Collections

  function Min(a: int, b: int): int {
    if a < b then a else b
  }

  /** `n` items need `count` calls of at most `limit` each, and no fewer:
      `count` is the ceiling of n / limit. */
  predicate IsCeilingCount(count: nat, n: nat, limit: nat) {
    if n == 0 then count == 0 else (count - 1) * limit < n <= count * limit
  }

  /** The offsets a loop `for (i = start; i < total; i += limit)` visits. */
  function OffsetsFrom(start: nat, total: nat, limit: nat): (r: seq<nat>)
    requires limit > 0
    ensures forall k :: 0 <= k < |r| ==> r[k] == start + k * limit && r[k] < total
    ensures forall k :: 0 <= k < |r| - 1 ==> r[k + 1] == r[k] + limit
    ensures start < total <==> |r| > 0
    decreases total - start
  {
    if start >= total then []
    else
      var rest := OffsetsFrom(start + limit, total, limit);
      assert forall k :: 0 < k < |rest| + 1 ==> start + limit + (k - 1) * limit == start + k * limit;
      [start] + rest
  }

  /** The pieces the items from offset `i` on are sent in, each call taking
      `[i, min(i + limit, n))` and the next starting `limit` further on. */
  function ChunksFrom<T>(s: seq<T>, i: nat, limit: nat): seq<seq<T>>
    requires limit > 0
    decreases |s| - i
  {
    if i >= |s| then [] else [s[i..Min(i + limit, |s|)]] + ChunksFrom(s, i + limit, limit)
  }

  /** One turn of a chunked loop at offset `i`: when the chunks sent so far
      followed by those from `i` are all the chunks, so are the chunks sent so
      far and the one at `i`, followed by those from `i + limit`. */
  lemma ChunkLoopStep<T>(s: seq<T>, limit: nat, i: nat, sent: seq<seq<T>>, chunk: seq<T>)
    requires limit > 0 && i < |s| && chunk == s[i..Min(i + limit, |s|)]
    requires Chunks(s, limit) == sent + ChunksFrom(s, i, limit)
    ensures Chunks(s, limit) == (sent + [chunk]) + ChunksFrom(s, i + limit, limit)
  {
    assert ChunksFrom(s, i, limit) == [chunk] + ChunksFrom(s, i + limit, limit);
  }

  /** The pieces a whole list is sent in when each call takes at most `limit` items. */
  function Chunks<T>(s: seq<T>, limit: nat): seq<seq<T>>
    requires limit > 0
  {
    ChunksFrom(s, 0, limit)
  }

  /** The page requests a listing issues: the initial request at offset 0, whose
      response serves as page 0, then one request at each further offset
      limit, 2 * limit, ... below the total the initial response reports. */
  function Requests(total: nat, limit: nat): seq<nat>
    requires limit > 0
  {
    [0] + OffsetsFrom(limit, total, limit)
  }

  /** The number of offsets from `start` below `total`. */
  lemma {:induction false} OffsetsCount(start: nat, total: nat, limit: nat)
    requires limit > 0
    ensures start < total ==> |OffsetsFrom(start, total, limit)| * limit < total - start + limit
    ensures start < total ==> total - start <= |OffsetsFrom(start, total, limit)| * limit
    decreases total - start
  {
    if start < total {
      var n := |OffsetsFrom(start + limit, total, limit)|;
      OffsetsCount(start + limit, total, limit);
      assert (n + 1) * limit == n * limit + limit;
    }
  }

  /** A listing of n items issues one request per page, that is ceil(n / limit)
      requests, and still the one initial request when n is 0. */
  lemma RequestCount(total: nat, limit: nat)
    requires limit > 0
    ensures total == 0 ==> |Requests(total, limit)| == 1
    ensures total > 0 ==> IsCeilingCount(|Requests(total, limit)|, total, limit)
  {
    if total > 0 {
      OffsetsCount(0, total, limit);
      OffsetsShift(total, limit);
    }
  }

  /** The requests are exactly the offsets of the loop from 0. */
  lemma OffsetsShift(total: nat, limit: nat)
    requires limit > 0 && total > 0
    ensures Requests(total, limit) == OffsetsFrom(0, total, limit)
  {
  }

  /** The pieces from offset `i` are the slices at the loop's offsets from `i`. */
  lemma {:induction false} ChunksFromAt<T>(s: seq<T>, i: nat, limit: nat)
    requires limit > 0
    ensures |ChunksFrom(s, i, limit)| == |OffsetsFrom(i, |s|, limit)|
    ensures forall k :: 0 <= k < |ChunksFrom(s, i, limit)| ==>
      var o := OffsetsFrom(i, |s|, limit)[k];
      ChunksFrom(s, i, limit)[k] == s[o..Min(o + limit, |s|)]
    decreases |s| - i
  {
    if i < |s| {
      ChunksFromAt(s, i + limit, limit);
    }
  }

  /** There is one chunk per offset of the loop below n: ceil(n / limit) of them. */
  lemma ChunkCount<T>(s: seq<T>, limit: nat)
    requires limit > 0
    ensures |Chunks(s, limit)| == |OffsetsFrom(0, |s|, limit)|
    ensures IsCeilingCount(|Chunks(s, limit)|, |s|, limit)
  {
    ChunksFromAt(s, 0, limit);
    OffsetsCount(0, |s|, limit);
  }

  /** Chunk k is the slice `[o, min(o + limit, n))` at the k-th offset o = k * limit. */
  lemma ChunkAt<T>(s: seq<T>, limit: nat)
    requires limit > 0
    ensures forall k :: 0 <= k < |Chunks(s, limit)| ==>
      k * limit < |s| && Chunks(s, limit)[k] == s[k * limit..Min(k * limit + limit, |s|)]
  {
    ChunksFromAt(s, 0, limit);
    var offsets := OffsetsFrom(0, |s|, limit);
    forall k | 0 <= k < |Chunks(s, limit)|
      ensures k * limit < |s| && Chunks(s, limit)[k] == s[k * limit..Min(k * limit + limit, |s|)]
    {
      assert offsets[k] == k * limit;
    }
  }

  /** Every chunk is non-empty and at most `limit` long, and every chunk but
      the last is exactly `limit` long. */
  lemma ChunkSizes<T>(s: seq<T>, limit: nat)
    requires limit > 0
    ensures forall k :: 0 <= k < |Chunks(s, limit)| ==> 0 < |Chunks(s, limit)[k]| <= limit
    ensures forall k :: 0 <= k < |Chunks(s, limit)| - 1 ==> |Chunks(s, limit)[k]| == limit
  {
    ChunksFromAt(s, 0, limit);
    var offsets := OffsetsFrom(0, |s|, limit);
    forall k | 0 <= k < |Chunks(s, limit)| - 1
      ensures |Chunks(s, limit)[k]| == limit
    {
      assert offsets[k + 1] == offsets[k] + limit < |s|;
    }
  }

  /** The chunks from offset `i` concatenate to the items from `i` on. */
  lemma {:induction false} ChunksFromCover<T>(s: seq<T>, i: nat, limit: nat)
    requires limit > 0
    ensures Flatten(ChunksFrom(s, i, limit)) == s[Min(i, |s|)..]
    decreases |s| - i
  {
    if i < |s| {
      ChunksFromCover(s, i + limit, limit);
      var j := Min(i + limit, |s|);
      assert s[i..] == s[i..j] + s[j..];
    }
  }

  /** The chunks concatenate to the input, in order: every item is sent
      exactly once. */
  lemma ChunksCover<T>(s: seq<T>, limit: nat)
    requires limit > 0
    ensures Flatten(Chunks(s, limit)) == s
  {
    ChunksFromCover(s, 0, limit);
  }
}
