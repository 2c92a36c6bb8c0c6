/**
 * The worker-pool arithmetic of the parallel batch path: how many workers,
 * how large a chunk, and which index ranges the workers receive.
 */
module Partition {

  /** The pool never has more than ten workers. */
  const MaxWorkers := 10

  /** The sequential path is taken below this length, whatever the caller asks. */
  const MinParallelLength := 10

  /** The configured ParallelThreshold of the default configuration. */
  const DefaultParallelThreshold := 100

  /** min(10, length). */
  function WorkerCount(length: nat): (wc: nat)
    ensures wc <= MaxWorkers && wc <= length
    ensures length >= 1 ==> wc >= 1
  {
    if length < MaxWorkers then length else MaxWorkers
  }

  /** ceil(length / workerCount); the division needs at least one worker. */
  function ChunkSize(length: nat): (cs: nat)
    requires length >= 1
    ensures cs >= 1
  {
    var wc := WorkerCount(length);
    (length + wc - 1) / wc
  }

  /** The workers' chunks together cover the slice: workerCount * chunkSize >= length. */
  lemma ChunkSizeCovers(length: nat)
    requires length >= 1
    ensures ChunkSize(length) * WorkerCount(length) >= length
  {
    var wc := WorkerCount(length);
    var cs := ChunkSize(length);
    assert length + wc - 1 == cs * wc + (length + wc - 1) % wc;
  }

  /** The half-open index range [start, end) one worker walks. */
  datatype Chunk = Chunk(start: nat, end: nat)

  /** The chunks of workers i, i + 1, ... up to the first whose start is past the end. */
  function ChunksFrom(length: nat, i: nat): seq<Chunk>
    requires length >= 1
    decreases WorkerCount(length) - i
  {
    var cs := ChunkSize(length);
    if i >= WorkerCount(length) || i * cs >= length then []
    else [Chunk(i * cs, if i * cs + cs > length then length else i * cs + cs)] + ChunksFrom(length, i + 1)
  }

  function Chunks(length: nat): seq<Chunk>
    requires length >= 1
  {
    ChunksFrom(length, 0)
  }

  /** Worker i's chunk [start, end), unless it would start past the end, then the later workers' chunks. */
  lemma ChunksFromStep(length: nat, i: nat, start: nat, end: nat)
    requires length >= 1 && i < WorkerCount(length)
    requires start == i * ChunkSize(length)
    requires end == if start + ChunkSize(length) > length then length else start + ChunkSize(length)
    ensures ChunksFrom(length, i) == if start >= length then [] else [Chunk(start, end)] + ChunksFrom(length, i + 1)
  {
  }

  /** The loop that hands out the chunks, one per worker, stopping at the first empty one. */
  method Partition(length: nat) returns (chunks: seq<Chunk>)
    requires length >= 1
    ensures chunks == Chunks(length)
  {
    var workerCount := WorkerCount(length);
    var chunkSize := ChunkSize(length);
    chunks := [];
    var i := 0;
    while i < workerCount
      invariant 0 <= i <= workerCount
      invariant chunks + ChunksFrom(length, i) == Chunks(length)
      decreases workerCount - i
    {
      var start := i * chunkSize;
      var end := start + chunkSize;
      if end > length {
        end := length;
      }
      ChunksFromStep(length, i, start, end);
      if start >= length {
        break;
      }
      assert chunks + [Chunk(start, end)] + ChunksFrom(length, i + 1) == chunks + ChunksFrom(length, i);
      chunks := chunks + [Chunk(start, end)];
      i := i + 1;
    }
    assert i >= workerCount ==> ChunksFrom(length, i) == [];
  }

  /** Chunk k starts at k * chunkSize and ends a chunk later, or at the length. */
  lemma {:induction false} ChunksFromShape(length: nat, i: nat)
    requires length >= 1
    ensures var ch := ChunksFrom(length, i); var cs := ChunkSize(length);
      && i + |ch| <= (if i <= WorkerCount(length) then WorkerCount(length) else i)
      && (forall k :: 0 <= k < |ch| ==>
           ch[k].start == (i + k) * cs && (i + k) * cs < length
           && ch[k].end == (if (i + k) * cs + cs > length then length else (i + k) * cs + cs))
      && (i + |ch| >= WorkerCount(length) || (i + |ch|) * cs >= length)
    decreases WorkerCount(length) - i
  {
    var cs := ChunkSize(length);
    if !(i >= WorkerCount(length) || i * cs >= length) {
      ChunksFromShape(length, i + 1);
      var ch := ChunksFrom(length, i);
      var rest := ChunksFrom(length, i + 1);
      assert ch == [ch[0]] + rest;
      forall k | 1 <= k < |ch|
        ensures ch[k] == rest[k - 1]
      {
      }
    }
  }

  lemma MulStep(k: int, cs: int)
    ensures (k + 1) * cs == k * cs + cs
  {
  }

  /** There are between one and workerCount chunks; the first starts at 0, the last ends at the length. */
  lemma ChunksBounds(length: nat)
    requires length >= 1
    ensures var ch := Chunks(length);
      && 1 <= |ch| <= WorkerCount(length)
      && ch[0].start == 0 && ch[|ch| - 1].end == length
  {
    var ch := Chunks(length);
    var cs := ChunkSize(length);
    var wc := WorkerCount(length);
    ChunksFromStep(length, 0, 0, if cs > length then length else cs);
    ChunksFromShape(length, 0);
    var n := |ch|;
    assert n >= 1 && n <= wc;
    assert ch[0].start == 0 * cs == 0;
    var p, q := (n - 1) * cs, n * cs;
    MulStep(n - 1, cs);
    assert q == p + cs;
    assert ch[n - 1].start == p && ch[n - 1].end == (if p + cs > length then length else p + cs);
    assert q >= length by {
      if n >= wc {
        ChunkSizeCovers(length);
        assert n == wc && cs * wc >= length;
      }
    }
  }

  /** Each chunk is non-empty, holds at most chunkSize indices and starts where the previous one ended. */
  lemma ChunksContiguous(length: nat)
    requires length >= 1
    ensures var ch := Chunks(length); var cs := ChunkSize(length);
      && (forall k :: 0 <= k < |ch| ==> ch[k].start < ch[k].end <= ch[k].start + cs && ch[k].end <= length)
      && (forall k :: 0 < k < |ch| ==> ch[k].start == ch[k - 1].end)
  {
    var ch := Chunks(length);
    var cs := ChunkSize(length);
    ChunksFromShape(length, 0);
    forall k | 0 < k < |ch|
      ensures ch[k].start == ch[k - 1].end
    {
      MulStep(k - 1, cs);
      assert ch[k - 1].start == (k - 1) * cs && ch[k].start == k * cs;
    }
  }
}
