/** Splitting a push into requests of bounded size. */
module Chunks {

  const DEFAULT_CHUNK_SIZE := 100

  function EffectiveSize(size: int): nat {
    if size <= 0 then DEFAULT_CHUNK_SIZE else size
  }

  function ChunksOf<T>(records: seq<T>, size: nat): seq<seq<T>>
    requires size > 0
  {
    if records == [] then []
    else if |records| <= size then [records]
    else [records[..size]] + ChunksOf(records[size..], size)
  }

  function Flatten<T>(chunks: seq<seq<T>>): seq<T> {
    if chunks == [] then [] else chunks[0] + Flatten(chunks[1..])
  }

  /** Nothing is dropped, repeated or moved. */
  lemma {:induction false} ChunksFlatten<T>(records: seq<T>, size: nat)
    requires size > 0
    ensures Flatten(ChunksOf(records, size)) == records
  {
    if |records| > size {
      ChunksFlatten(records[size..], size);
      assert records[..size] + records[size..] == records;
      assert ChunksOf(records, size)[1..] == ChunksOf(records[size..], size);
    } else if records != [] {
      assert ChunksOf(records, size)[1..] == [];
      assert records + [] == records;
    }
  }

  /** No chunk is empty or too long, and all but the last are full. */
  ghost predicate CutTo<T>(chunks: seq<seq<T>>, size: nat) {
    forall i :: 0 <= i < |chunks| ==> 1 <= |chunks[i]| <= size && (i < |chunks| - 1 ==> |chunks[i]| == size)
  }

  lemma {:induction false} ChunkLengths<T>(records: seq<T>, size: nat)
    requires size > 0
    ensures CutTo(ChunksOf(records, size), size)
  {
    if |records| > size {
      ChunkLengths(records[size..], size);
      ChunkCount(records[size..], size);
    }
  }

  /** There are exactly ceil(n / size) chunks, said without division. */
  lemma {:induction false} ChunkCount<T>(records: seq<T>, size: nat)
    requires size > 0
    ensures var k := |ChunksOf(records, size)|;
      if records == [] then k == 0 else size * k - size < |records| <= size * k
  {
    if |records| > size {
      ChunkCount(records[size..], size);
      var k := |ChunksOf(records[size..], size)|;
      assert |ChunksOf(records, size)| == k + 1;
      assert size * (k + 1) == size * k + size;
    }
  }

  /** What is still to be cut from position i on. */
  ghost function Rest<T>(records: seq<T>, i: nat): seq<T> {
    if i <= |records| then records[i..] else []
  }

  /** One turn of the loop: the slice up to end is the first chunk of the rest. */
  lemma CutNext<T>(records: seq<T>, i: nat, end: nat, size: nat, chunks: seq<seq<T>>)
    requires size > 0 && i < |records| && end == if i + size > |records| then |records| else i + size
    ensures chunks + [records[i..end]] + ChunksOf(Rest(records, i + size), size) ==
            chunks + ChunksOf(Rest(records, i), size)
  {
    var rest := records[i..];
    if i + size < |records| {
      assert records[i..end] == rest[..size] && records[i + size..] == rest[size..];
    } else {
      assert records[i..end] == rest;
      assert Rest(records, i + size) == [];
    }
    assert ChunksOf(rest, size) == [records[i..end]] + ChunksOf(Rest(records, i + size), size);
  }

  method ChunkRecords<T>(records: seq<T>, size: int) returns (chunks: seq<seq<T>>)
    ensures chunks == ChunksOf(records, EffectiveSize(size))
    ensures Flatten(chunks) == records && CutTo(chunks, if size <= 0 then 100 else size)
  {
    var step := if size <= 0 then DEFAULT_CHUNK_SIZE else size;
    chunks := [];
    var i := 0;
    while i < |records|
      invariant 0 <= i
      invariant chunks + ChunksOf(Rest(records, i), step) == ChunksOf(records, step)
    {
      var end := i + step;
      if end > |records| {
        end := |records|;
      }
      CutNext(records, i, end, step, chunks);
      chunks := chunks + [records[i..end]];
      i := i + step;
    }
    ChunksFlatten(records, step);
    ChunkLengths(records, step);
  }
}
