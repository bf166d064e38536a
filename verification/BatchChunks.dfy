/**
 `chunkBatch`: grouping message indices into requests bounded by the two limits SQS enforces.
 A body is represented by its length in UTF-8 bytes.
*/
module BatchChunks {

  const MAX_BATCH_SIZE: nat := 10
  const MAX_PAYLOAD_BYTES: nat := 256 * 1024

  predicate InRange(sizes: seq<nat>, chunk: seq<nat>) {
    forall j | 0 <= j < |chunk| :: chunk[j] < |sizes|
  }

  function Bytes(sizes: seq<nat>, chunk: seq<nat>): nat
    requires InRange(sizes, chunk)
  {
    if chunk == [] then 0 else Bytes(sizes, chunk[..|chunk| - 1]) + sizes[chunk[|chunk| - 1]]
  }

  function Flatten(chunks: seq<seq<nat>>): seq<nat> {
    if chunks == [] then [] else Flatten(chunks[..|chunks| - 1]) + chunks[|chunks| - 1]
  }

  function Upto(n: nat): seq<nat> {
    seq(n, i => i)
  }

  /** One acceptable request. */
  ghost predicate Fits(sizes: seq<nat>, chunk: seq<nat>) {
    && InRange(sizes, chunk)
    && 0 < |chunk| <= MAX_BATCH_SIZE
    && Bytes(sizes, chunk) <= MAX_PAYLOAD_BYTES
  }

  /** The chunks list the first `n` indices in order, each once, in acceptable requests. */
  ghost predicate Partition(sizes: seq<nat>, n: nat, chunks: seq<seq<nat>>) {
    && n <= |sizes|
    && Flatten(chunks) == Upto(n)
    && forall k | 0 <= k < |chunks| :: Fits(sizes, chunks[k])
  }

  /** Where the first `k` chunks end. */
  function End(chunks: seq<seq<nat>>, k: nat): nat
    requires k <= |chunks|
  {
    |Flatten(chunks[..k])|
  }

  /** A chunk that was closed would have broken a limit with the next index in it. */
  ghost predicate Full(sizes: seq<nat>, chunk: seq<nat>, next: nat)
    requires InRange(sizes, chunk) && next < |sizes|
  {
    |chunk| >= MAX_BATCH_SIZE || Bytes(sizes, chunk) + sizes[next] > MAX_PAYLOAD_BYTES
  }

  /** Chunk `k` was closed because the index after it did not fit. */
  ghost predicate ClosedAt(sizes: seq<nat>, chunks: seq<seq<nat>>, k: nat)
    requires k < |chunks|
  {
    && InRange(sizes, chunks[k])
    && End(chunks, k + 1) < |sizes|
    && Full(sizes, chunks[k], End(chunks, k + 1))
  }

  /** Every chunk but the last was closed for that reason. */
  ghost predicate Greedy(sizes: seq<nat>, chunks: seq<seq<nat>>) {
    forall k | 0 <= k < |chunks| - 1 :: ClosedAt(sizes, chunks, k)
  }

  /** The closed chunks and the running one list the first `i` indices; the closed ones are full. */
  ghost predicate Progress(sizes: seq<nat>, i: nat, chunks: seq<seq<nat>>, current: seq<nat>) {
    && i <= |sizes| && InRange(sizes, current)
    && Flatten(chunks) + current == Upto(i)
    && (forall k | 0 <= k < |chunks| :: Fits(sizes, chunks[k]))
    && (if i == 0 then chunks == [] && current == []
        else Fits(sizes, current) && Greedy(sizes, chunks + [current]))
  }

  /** `chunkBatch`, the loop of the source. */
  method ChunkBatch(sizes: seq<nat>) returns (chunks: seq<seq<nat>>)
    requires forall i | 0 <= i < |sizes| :: sizes[i] <= MAX_PAYLOAD_BYTES
    ensures Partition(sizes, |sizes|, chunks) && Greedy(sizes, chunks)
    ensures forall other | Partition(sizes, |sizes|, other) :: |chunks| <= |other|
  {
    hide Progress, Bytes, Partition, Greedy, Full;
    chunks := [];
    var current: seq<nat> := [];
    var currentBytes := 0;
    AtTheStart(sizes);
    for i := 0 to |sizes|
      invariant InRange(sizes, current) && currentBytes == Bytes(sizes, current)
      invariant Progress(sizes, i, chunks, current)
    {
      var bytes := sizes[i];
      var wouldOverflow := |current| >= MAX_BATCH_SIZE || currentBytes + bytes > MAX_PAYLOAD_BYTES;
      FullIff(sizes, current, i);
      if |current| > 0 && wouldOverflow {
        CloseAndPush(sizes, i, chunks, current);
        chunks := chunks + [current];
        current := [];
        currentBytes := 0;
        assert current + [i] == [i];
      } else {
        Push(sizes, i, chunks, current);
      }
      BytesPush(sizes, current, i);
      current := current + [i];
      currentBytes := currentBytes + bytes;
    }
    Finish(sizes, chunks, current);
    if |current| > 0 {
      chunks := chunks + [current];
    }
    forall other | Partition(sizes, |sizes|, other) ensures |chunks| <= |other| {
      GreedyIsMinimal(sizes, chunks, other);
    }
  }

  lemma AtTheStart(sizes: seq<nat>)
    ensures Progress(sizes, 0, [], []) && Bytes(sizes, []) == 0
  {
  }

  lemma FullIff(sizes: seq<nat>, current: seq<nat>, i: nat)
    requires InRange(sizes, current) && i < |sizes|
    ensures Full(sizes, current, i) <==>
              |current| >= MAX_BATCH_SIZE || Bytes(sizes, current) + sizes[i] > MAX_PAYLOAD_BYTES
  {
  }

  lemma BytesPush(sizes: seq<nat>, current: seq<nat>, i: nat)
    requires i < |sizes|
    ensures InRange(sizes, current) ==> InRange(sizes, current + [i])
    ensures InRange(sizes, current) ==> Bytes(sizes, current + [i]) == Bytes(sizes, current) + sizes[i]
    ensures Bytes(sizes, []) == 0
  {
    assert (current + [i])[..|current|] == current;
  }

  lemma Finish(sizes: seq<nat>, chunks: seq<seq<nat>>, current: seq<nat>)
    requires Progress(sizes, |sizes|, chunks, current)
    ensures var all := if |current| > 0 then chunks + [current] else chunks;
            Partition(sizes, |sizes|, all) && Greedy(sizes, all)
  {
    if |current| > 0 { assert (chunks + [current])[..|chunks|] == chunks; }
  }

  lemma CloseAndPush(sizes: seq<nat>, i: nat, chunks: seq<seq<nat>>, current: seq<nat>)
    requires Progress(sizes, i, chunks, current) && i < |sizes| && sizes[i] <= MAX_PAYLOAD_BYTES
    requires |current| > 0 && Full(sizes, current, i)
    ensures Progress(sizes, i + 1, chunks + [current], [i])
  {
    var closed := chunks + [current];
    assert closed[..|chunks|] == chunks;
    assert Flatten(closed) == Upto(i);
    CloseKeepsGreedy(sizes, closed, [i]);
    assert Upto(i) + [i] == Upto(i + 1);
    assert [i][..0] == [] && Bytes(sizes, [i]) == sizes[i];
  }

  lemma Push(sizes: seq<nat>, i: nat, chunks: seq<seq<nat>>, current: seq<nat>)
    requires Progress(sizes, i, chunks, current) && i < |sizes| && sizes[i] <= MAX_PAYLOAD_BYTES
    requires |current| == 0 || !Full(sizes, current, i)
    ensures Progress(sizes, i + 1, chunks, current + [i])
  {
    ExtendKeepsGreedy(sizes, chunks, current, i);
    assert (current + [i])[..|current|] == current;
    assert Flatten(chunks) + (current + [i]) == Upto(i) + [i] == Upto(i + 1);
  }

  lemma CloseKeepsGreedy(sizes: seq<nat>, closed: seq<seq<nat>>, last: seq<nat>)
    requires |closed| > 0 && Greedy(sizes, closed)
    requires InRange(sizes, closed[|closed| - 1]) && |Flatten(closed)| < |sizes|
    requires Full(sizes, closed[|closed| - 1], |Flatten(closed)|)
    ensures Greedy(sizes, closed + [last])
  {
    var all := closed + [last];
    forall k | 0 <= k < |all| - 1
      ensures ClosedAt(sizes, all, k)
    {
      assert all[..k + 1] == closed[..k + 1] && all[k] == closed[k];
      if k == |closed| - 1 {
        assert closed[..k + 1] == closed;
      } else {
        assert ClosedAt(sizes, closed, k);
      }
    }
  }

  lemma ExtendKeepsGreedy(sizes: seq<nat>, chunks: seq<seq<nat>>, current: seq<nat>, i: nat)
    requires current == [] ==> chunks == []
    requires current != [] ==> Greedy(sizes, chunks + [current])
    ensures Greedy(sizes, chunks + [current + [i]])
  {
    var before := chunks + [current];
    var after := chunks + [current + [i]];
    forall k | 0 <= k < |after| - 1
      ensures ClosedAt(sizes, after, k)
    {
      assert after[..k + 1] == before[..k + 1] && after[k] == before[k];
      assert ClosedAt(sizes, before, k);
    }
  }

  // ---------------------------------------------------------- nobody needs fewer requests

  lemma EndStep(chunks: seq<seq<nat>>, k: nat)
    requires k < |chunks|
    ensures End(chunks, k + 1) == End(chunks, k) + |chunks[k]|
  {
    assert chunks[..k + 1][..k] == chunks[..k];
  }

  lemma {:induction false} EndGrows(chunks: seq<seq<nat>>, j: nat, k: nat)
    requires j <= k <= |chunks|
    ensures End(chunks, j) <= End(chunks, k)
    decreases k
  {
    if j < k {
      EndStep(chunks, k - 1);
      EndGrows(chunks, j, k - 1);
    }
  }

  /** The `k`-th chunk of a partition is the stretch of indices between two ends. */
  lemma {:induction false} ChunkIsStretch(chunks: seq<seq<nat>>, k: nat)
    requires k < |chunks|
    ensures End(chunks, k) <= End(chunks, k + 1) <= |Flatten(chunks)|
    ensures chunks[k] == Flatten(chunks)[End(chunks, k)..End(chunks, k + 1)]
    decreases |chunks|
  {
    EndStep(chunks, k);
    if k == |chunks| - 1 {
      assert chunks[..k + 1] == chunks;
    } else {
      var front := chunks[..|chunks| - 1];
      assert front[..k] == chunks[..k] && front[..k + 1] == chunks[..k + 1];
      ChunkIsStretch(front, k);
    }
  }

  function Stretch(from: nat, to: nat): seq<nat>
    requires from <= to
  {
    seq(to - from, i requires 0 <= i => from + i)
  }

  lemma PartitionChunk(sizes: seq<nat>, n: nat, chunks: seq<seq<nat>>, k: nat)
    requires Partition(sizes, n, chunks) && k < |chunks|
    ensures End(chunks, k) < End(chunks, k + 1) <= n
    ensures chunks[k] == Stretch(End(chunks, k), End(chunks, k + 1))
  {
    EndStep(chunks, k);
    ChunkIsStretch(chunks, k);
  }

  /** More indices, at least as many bytes. */
  lemma {:induction false} WiderStretch(sizes: seq<nat>, a: nat, b: nat, c: nat, d: nat)
    requires a <= b <= c <= d <= |sizes|
    ensures Bytes(sizes, Stretch(b, c)) <= Bytes(sizes, Stretch(a, d))
    decreases d
  {
    if c < d {
      assert Stretch(a, d)[..d - a - 1] == Stretch(a, d - 1);
      WiderStretch(sizes, a, b, c, d - 1);
    } else if b < d {
      assert Stretch(a, d)[..d - a - 1] == Stretch(a, d - 1);
      assert Stretch(b, d)[..d - b - 1] == Stretch(b, d - 1);
      WiderStretch(sizes, a, b, d - 1, d - 1);
    }
  }

  /** After the same number of requests the greedy grouping is at least as far as any other. */
  lemma {:induction false} GreedyStaysAhead(sizes: seq<nat>, chunks: seq<seq<nat>>, other: seq<seq<nat>>, k: nat)
    requires Partition(sizes, |sizes|, chunks) && Greedy(sizes, chunks) && Partition(sizes, |sizes|, other)
    requires k <= |other| && k < |chunks|
    ensures End(other, k) <= End(chunks, k)
    decreases k
  {
    if k > 0 {
      GreedyStaysAhead(sizes, chunks, other, k - 1);
      PartitionChunk(sizes, |sizes|, chunks, k - 1);
      PartitionChunk(sizes, |sizes|, other, k - 1);
      var a, b := End(chunks, k - 1), End(chunks, k);
      if End(other, k) > b {
        // The other request would hold the greedy one and the index that did not fit.
        assert ClosedAt(sizes, chunks, k - 1) && Fits(sizes, other[k - 1]);
        assert Stretch(a, b + 1)[..b - a] == Stretch(a, b);
        WiderStretch(sizes, End(other, k - 1), a, b + 1, End(other, k));
        assert false;
      }
    }
  }

  lemma GreedyIsMinimal(sizes: seq<nat>, chunks: seq<seq<nat>>, other: seq<seq<nat>>)
    requires Partition(sizes, |sizes|, chunks) && Greedy(sizes, chunks) && Partition(sizes, |sizes|, other)
    ensures |chunks| <= |other|
  {
    if |other| < |chunks| {
      GreedyStaysAhead(sizes, chunks, other, |other|);
      assert other[..|other|] == other;
      PartitionChunk(sizes, |sizes|, chunks, |other|);
      assert false;
    }
  }
}
