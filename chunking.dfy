/** WorkerPool.chunk_tasks: derive a chunk size, then cut the task arguments
    into consecutive chunks of that size. */
module Chunking {
  import opened Tasks

  /** The chunk size of chunk_tasks. An explicit size wins; otherwise the
      length is iterable_len if given, else the input's own len(), and the
      size is that length divided by 4 * len(workers), rounded up. */
  function DeriveChunkSize(chunkSize: Option<int>, iterableLen: Option<int>, ownLen: Option<nat>, nWorkers: nat): (r: Result<int>)
    ensures chunkSize.Some? ==> r == Ok(chunkSize.value)
    ensures chunkSize.None? && iterableLen.None? && ownLen.None? ==> r == Err(MissingLength)
    ensures chunkSize.None? && (iterableLen.Some? || ownLen.Some?) && nWorkers == 0 ==> r == Err(ZeroDivision)
    ensures chunkSize.None? && (iterableLen.Some? || ownLen.Some?) && nWorkers > 0 ==>
              r.Ok? && IsCeilDiv(r.value, if iterableLen.Some? then iterableLen.value else ownLen.value, 4 * nWorkers)
  {
    if chunkSize.Some? then Ok(chunkSize.value)
    else
      var len := LengthOf(iterableLen, ownLen);
      if len.Err? then Err(len.error)
      else if nWorkers == 0 then Err(ZeroDivision)
      else
        var d := 4 * nWorkers;
        var q, extra := len.value / d, len.value % d;
        CeilDiv(len.value, d, q, extra);
        Ok(if extra != 0 then q + 1 else q)
  }

  /** c is the ceiling of len / d: the least integer whose multiple of d reaches len. */
  ghost predicate IsCeilDiv(c: int, len: int, d: int)
  {
    (c - 1) * d < len <= c * d
  }

  function LengthOf(iterableLen: Option<int>, ownLen: Option<nat>): (r: Result<int>)
    ensures r.Err? <==> iterableLen.None? && ownLen.None?
    ensures r.Err? ==> r.error == MissingLength
    ensures r.Ok? ==> r.value == if iterableLen.Some? then iterableLen.value else ownLen.value
  {
    if iterableLen.Some? then Ok(iterableLen.value)
    else if ownLen.Some? then Ok(ownLen.value)
    else Err(MissingLength)
  }

  /** divmod followed by "if extra: chunk_size += 1" computes the ceiling,
      for negative lengths too (Python's floor division agrees with Dafny's
      for a positive divisor). */
  lemma CeilDiv(len: int, d: int, q: int, extra: int)
    requires d > 0 && q == len / d && extra == len % d
    ensures IsCeilDiv(if extra != 0 then q + 1 else q, len, d)
  {
    assert len == q * d + extra;
    assert 0 <= extra < d;
    if extra != 0 {
      assert (q + 1 - 1) * d == q * d;
      assert (q + 1) * d == q * d + d;
    } else {
      assert (q - 1) * d == q * d - d;
    }
  }

  /** The slicing loop of chunk_tasks: islice(args_iter, size) until it
      gives an empty tuple. */
  method SliceChunks<T>(args: seq<T>, size: int) returns (r: Result<seq<seq<T>>>)
    ensures r.Err? <==> size < 0
    ensures r.Err? ==> r.error == NegativeChunkSize
    ensures size == 0 ==> r == Ok([])
    ensures size > 0 ==> r.Ok? && IsChunking(r.value, args, size)
  {
    if size < 0 {
      return Err(NegativeChunkSize);
    }
    var chunks: seq<seq<T>> := [];
    var i := 0;
    while true
      invariant 0 <= i <= |args|
      invariant Flatten(chunks) == args[..i]
      invariant forall k | 0 <= k < |chunks| :: 0 < |chunks[k]| <= size
      invariant i < |args| ==> forall k | 0 <= k < |chunks| :: |chunks[k]| == size
      invariant forall k | 0 <= k < |chunks| - 1 :: |chunks[k]| == size
      invariant i < |args| ==> i == |chunks| * size
      invariant |chunks| == 0 ==> i == 0
      invariant |chunks| > 0 ==> (|chunks| - 1) * size < i <= |chunks| * size
      decreases |args| - i
    {
      var end := if i + size < |args| then i + size else |args|;
      var chunk := args[i..end];
      if |chunk| == 0 {
        break;
      }
      FlattenAppend(chunks, [chunk]);
      assert Flatten([chunk]) == chunk + Flatten([]);
      assert args[..i] + args[i..end] == args[..end];
      assert (|chunks| + 1 - 1) * size == |chunks| * size;
      assert (|chunks| + 1) * size == |chunks| * size + size;
      chunks := chunks + [chunk];
      i := end;
    }
    assert args[..|args|] == args;
    return Ok(chunks);
  }

  /** chunks cut args into consecutive, non-empty pieces of at most size
      elements, all but the last exactly size long, ceil(|args| / size) of them. */
  ghost predicate IsChunking<T>(chunks: seq<seq<T>>, args: seq<T>, size: int)
  {
    && Flatten(chunks) == args
    && (forall k | 0 <= k < |chunks| :: 0 < |chunks[k]| <= size)
    && (forall k | 0 <= k < |chunks| - 1 :: |chunks[k]| == size)
    && (|args| == 0 <==> |chunks| == 0)
    && (|chunks| > 0 ==> IsCeilDiv(|chunks|, |args|, size))
  }

  /** WorkerPool.chunk_tasks as a whole: the chunk size first, then the
      slices. ownLen is the input's len() when it has one. */
  method ChunkTasks<T>(args: seq<T>, ownLen: Option<nat>, iterableLen: Option<int>, chunkSize: Option<int>, nWorkers: nat)
    returns (r: Result<seq<seq<T>>>)
    ensures var d := DeriveChunkSize(chunkSize, iterableLen, ownLen, nWorkers);
            && (d.Err? ==> r == Err(d.error))
            && (d.Ok? && d.value < 0 ==> r == Err(NegativeChunkSize))
            && (d.Ok? && d.value == 0 ==> r == Ok([]))
            && (d.Ok? && d.value > 0 ==> r.Ok? && IsChunking(r.value, args, d.value))
  {
    var d := DeriveChunkSize(chunkSize, iterableLen, ownLen, nWorkers);
    if d.Err? {
      return Err(d.error);
    }
    r := SliceChunks(args, d.value);
  }
}
