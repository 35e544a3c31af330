/** Cutting a value into equal zero-padded chunks, and putting it together again. */
module Chunking {
  import opened Bytes

  /** The number of chunks of a value: math.Ceil(len / chunkSize), counted out. */
  function ChunkCount(len: nat, chunkSize: nat): nat
    requires chunkSize > 0
    decreases len
  {
    if len == 0 then 0
    else if len <= chunkSize then 1
    else 1 + ChunkCount(len - chunkSize, chunkSize)
  }

  /** Where chunk i starts: at chunkSize * i, written as a sum. */
  function SliceStart(chunkSize: nat, i: nat): nat {
    if i == 0 then 0 else SliceStart(chunkSize, i - 1) + chunkSize
  }

  lemma {:induction false} SliceStartIsProduct(chunkSize: nat, i: nat)
    ensures SliceStart(chunkSize, i) == chunkSize * i
  {
    if i > 0 {
      SliceStartIsProduct(chunkSize, i - 1);
    }
  }

  /** Chunk i starts inside the value exactly when i is below the chunk count. */
  lemma {:induction false} ChunkStarts(len: nat, chunkSize: nat, i: nat)
    requires chunkSize > 0
    ensures i < ChunkCount(len, chunkSize) <==> SliceStart(chunkSize, i) < len
    decreases len
  {
    if i > 0 && len > chunkSize {
      ChunkStarts(len - chunkSize, chunkSize, i - 1);
    }
  }

  /** The chunks cover the value, and the last one is not beyond it. */
  lemma ChunksCover(len: nat, chunkSize: nat)
    requires chunkSize > 0
    ensures len <= SliceStart(chunkSize, ChunkCount(len, chunkSize)) < len + chunkSize
  {
    var n := ChunkCount(len, chunkSize);
    ChunkStarts(len, chunkSize, n);
    if n > 0 {
      ChunkStarts(len, chunkSize, n - 1);
    }
  }

  /** The chunk count is the quotient rounded up. */
  lemma ChunkCountIsCeiling(len: nat, chunkSize: nat)
    requires chunkSize > 0
    ensures ChunkCount(len, chunkSize) == (len + chunkSize - 1) / chunkSize
  {
    var n := ChunkCount(len, chunkSize);
    ChunksCover(len, chunkSize);
    SliceStartIsProduct(chunkSize, n);
    QuotientIs(len + chunkSize - 1, chunkSize, n);
  }

  function SliceEnd(chunkSize: nat, i: nat, len: nat): nat {
    Min(SliceStart(chunkSize, i) + chunkSize, len)
  }

  /** Chunk i of the value, filled up with zeros to the full chunk size. */
  function Padded(data: bytes, chunkSize: nat, i: nat): (c: bytes)
    requires SliceStart(chunkSize, i) <= |data|
    ensures |c| == chunkSize
  {
    var part := data[SliceStart(chunkSize, i)..SliceEnd(chunkSize, i, |data|)];
    part + Zeros(chunkSize - |part|)
  }

  lemma PaddedAt(data: bytes, chunkSize: nat, i: nat, k: nat)
    requires SliceStart(chunkSize, i) <= |data| && k < chunkSize
    ensures Padded(data, chunkSize, i)[k]
         == var at := SliceStart(chunkSize, i) + k; if at < |data| then data[at] else 0
  {
  }

  /** A stretch of a padded chunk is the value's own bytes, or the zeros after its end. */
  lemma PaddedStretch(data: bytes, chunkSize: nat, i: nat, from: nat, n: nat)
    requires SliceStart(chunkSize, i) <= |data| && from + n <= chunkSize
    ensures var at := SliceStart(chunkSize, i) + from;
      && (at + n <= |data| ==> Padded(data, chunkSize, i)[from..from + n] == data[at..at + n])
      && (|data| <= at ==> Padded(data, chunkSize, i)[from..from + n] == Zeros(n))
  {
    var c := Padded(data, chunkSize, i);
    var start := SliceStart(chunkSize, i);
    var stretch := c[from..from + n];
    forall k | 0 <= k < n
      ensures stretch[k] == if start + (from + k) < |data| then data[start + (from + k)] else 0
    {
      PaddedAt(data, chunkSize, i, from + k);
    }
    if start + from + n <= |data| {
      var d := data[start + from..start + from + n];
      assert forall k :: 0 <= k < n ==> d[k] == data[start + (from + k)];
    }
  }

  /** Reading a chunk into its place in the value buffer; padding falls off. */
  function Place(buf: bytes, chunkSize: nat, i: nat, chunk: bytes): (r: bytes)
    requires SliceStart(chunkSize, i) <= |buf| && |chunk| == chunkSize
    ensures |r| == |buf|
  {
    var start, end := SliceStart(chunkSize, i), SliceEnd(chunkSize, i, |buf|);
    buf[..start] + chunk[..end - start] + buf[end..]
  }

  /** The buffer after the first n of a value's chunks are in place: the value so far, then zeros. */
  ghost predicate Filled(buf: bytes, data: bytes, chunkSize: nat, n: nat) {
    |buf| == |data| && var at := Min(SliceStart(chunkSize, n), |data|);
    buf == data[..at] + Zeros(|data| - at)
  }

  lemma FilledStep(buf: bytes, data: bytes, chunkSize: nat, n: nat)
    requires Filled(buf, data, chunkSize, n) && SliceStart(chunkSize, n) <= |data|
    ensures Filled(Place(buf, chunkSize, n, Padded(data, chunkSize, n)), data, chunkSize, n + 1)
  {
    var start, end := SliceStart(chunkSize, n), SliceEnd(chunkSize, n, |data|);
    assert Padded(data, chunkSize, n)[..end - start] == data[start..end];
    assert buf[end..] == Zeros(|data| - end);
    assert buf[..start] + data[start..end] == data[..end];
  }

  /** With all its chunks in place the buffer is the value. */
  lemma FilledIsWhole(buf: bytes, data: bytes, chunkSize: nat)
    requires chunkSize > 0 && Filled(buf, data, chunkSize, ChunkCount(|data|, chunkSize))
    ensures buf == data
  {
    ChunksCover(|data|, chunkSize);
    assert data[..|data|] + Zeros(0) == data;
  }

  function Split(data: bytes, chunkSize: nat): (cs: seq<bytes>)
    requires chunkSize > 0
    ensures |cs| == ChunkCount(|data|, chunkSize)
    ensures forall i :: 0 <= i < |cs| ==> |cs[i]| == chunkSize
  {
    seq(ChunkCount(|data|, chunkSize), i requires 0 <= i < ChunkCount(|data|, chunkSize) =>
      ChunkStarts(|data|, chunkSize, i); Padded(data, chunkSize, i))
  }

  /** The first n chunks of the value. */
  ghost predicate ArePieces(chunks: seq<bytes>, data: bytes, chunkSize: nat, n: nat) {
    && |chunks| == n
    && forall i :: 0 <= i < n ==> SliceStart(chunkSize, i) <= |data| && chunks[i] == Padded(data, chunkSize, i)
  }

  lemma PiecesAreSplit(chunks: seq<bytes>, data: bytes, chunkSize: nat)
    requires chunkSize > 0 && ArePieces(chunks, data, chunkSize, ChunkCount(|data|, chunkSize))
    ensures chunks == Split(data, chunkSize)
  {
  }

  /** Placing chunks number i, i + 1, ... one after another. */
  function PlaceFrom(buf: bytes, chunkSize: nat, i: nat, chunks: seq<bytes>): (r: bytes)
    requires chunkSize > 0 && i + |chunks| <= ChunkCount(|buf|, chunkSize)
    requires forall k :: 0 <= k < |chunks| ==> |chunks[k]| == chunkSize
    ensures |r| == |buf|
    decreases |chunks|
  {
    if chunks == [] then buf
    else
      ChunkStarts(|buf|, chunkSize, i);
      PlaceFrom(Place(buf, chunkSize, i, chunks[0]), chunkSize, i + 1, chunks[1..])
  }

  lemma {:induction false} PlaceFromFills(buf: bytes, data: bytes, chunkSize: nat, i: nat)
    requires chunkSize > 0 && i <= ChunkCount(|data|, chunkSize) && Filled(buf, data, chunkSize, i)
    ensures PlaceFrom(buf, chunkSize, i, Split(data, chunkSize)[i..]) == data
    decreases ChunkCount(|data|, chunkSize) - i
  {
    var n := ChunkCount(|data|, chunkSize);
    if i == n {
      FilledIsWhole(buf, data, chunkSize);
    } else {
      ChunkStarts(|data|, chunkSize, i);
      FilledStep(buf, data, chunkSize, i);
      var rest := Split(data, chunkSize)[i..];
      assert rest[1..] == Split(data, chunkSize)[i + 1..];
      PlaceFromFills(Place(buf, chunkSize, i, rest[0]), data, chunkSize, i + 1);
    }
  }

  /** Split and reassemble is the identity, for every value and every chunk size. */
  lemma SplitThenReassemble(data: bytes, chunkSize: nat)
    requires chunkSize > 0
    ensures PlaceFrom(Zeros(|data|), chunkSize, 0, Split(data, chunkSize)) == data
  {
    assert data[..0] + Zeros(|data|) == Zeros(|data|);
    assert Split(data, chunkSize)[0..] == Split(data, chunkSize);
    PlaceFromFills(Zeros(|data|), data, chunkSize, 0);
  }

  /** The reader under a chunk reader. It may return fewer bytes than asked for, but some. */
  class Source {
    var rest: bytes

    constructor (s: bytes)
      ensures rest == s
    {
      rest := s;
    }

    /** Reads into the first k elements of p. */
    method Read(p: array<byte>, k: nat) returns (n: nat)
      requires k <= p.Length
      modifies this, p
      ensures n <= k && n <= |old(rest)| && (n == 0 ==> k == 0 || old(rest) == [])
      ensures rest == old(rest)[n..]
      ensures p[..n] == old(rest)[..n] && p[n..] == old(p[n..])
    {
      var most := Min(k, |rest|);
      n :| n <= most && (n == 0 ==> most == 0);
      for i := 0 to n
        invariant forall j :: 0 <= j < i ==> p[j] == rest[j]
        invariant forall j :: i <= j < p.Length ==> p[j] == old(p[j])
        modifies p
      {
        p[i] := rest[i];
      }
      rest := rest[n..];
    }
  }

  method FillZeros(p: array<byte>, n: nat)
    requires n <= p.Length
    modifies p
    ensures p[..n] == Zeros(n) && p[n..] == old(p[n..])
  {
    for i := 0 to n
      invariant forall j :: 0 <= j < i ==> p[j] == 0
      invariant forall j :: n <= j < p.Length ==> p[j] == old(p[j])
    {
      p[i] := 0;
    }
  }

  /** The next n bytes of the value are the next n of its chunk. */
  lemma NextBytes(data: bytes, beyond: bytes, chunkSize: nat, i: nat, from: nat, n: nat)
    requires SliceStart(chunkSize, i) + from + n <= |data| && from + n <= chunkSize
    ensures var at := SliceStart(chunkSize, i) + from; var rest := data[at..] + beyond;
      && rest[..n] == Padded(data, chunkSize, i)[from..from + n]
      && rest[n..] == data[at + n..] + beyond
  {
    PaddedStretch(data, chunkSize, i, from, n);
    TakeFromValue(data, beyond, SliceStart(chunkSize, i) + from, n);
  }

  lemma TakeFromValue(data: bytes, beyond: bytes, at: nat, n: nat)
    requires at + n <= |data|
    ensures (data[at..] + beyond)[..n] == data[at..at + n]
    ensures (data[at..] + beyond)[n..] == data[at + n..] + beyond
  {
  }

  /** chunkedLimitedReader with its clrData: an iterator over the chunks of the first `len` bytes of a
      reader. */
  class ChunkedLimitedReader {
    const source: Source
    var remaining: int
    const chunkSize: nat
    var chunkRem: int
    const numChunks: nat
    var doneChunks: nat
    ghost const data: bytes
    ghost const beyond: bytes  // what the source holds after the value

    ghost function Position(): int
      reads this
    {
      SliceStart(chunkSize, doneChunks) + chunkSize - chunkRem
    }

    ghost predicate Valid()
      reads this, source
    {
      && chunkSize > 0 && numChunks == ChunkCount(|data|, chunkSize)
      && doneChunks <= numChunks && 0 <= chunkRem <= chunkSize
      && (doneChunks == numChunks ==> chunkRem == chunkSize)
      && remaining == (if Position() < |data| then |data| - Position() else 0)
      && source.rest == data[|data| - remaining..] + beyond
    }

    constructor (source: Source, chunkSize: nat, totalSize: nat)
      requires chunkSize > 0 && totalSize <= |source.rest|
      ensures Valid() && this.source == source && this.chunkSize == chunkSize
      ensures data == source.rest[..totalSize] && beyond == source.rest[totalSize..]
      ensures doneChunks == 0 && chunkRem == chunkSize
    {
      this.source := source;
      this.remaining := totalSize;
      this.chunkSize := chunkSize;
      this.chunkRem := chunkSize;
      this.numChunks := ChunkCount(totalSize, chunkSize);
      this.doneChunks := 0;
      this.data := source.rest[..totalSize];
      this.beyond := source.rest[totalSize..];
    }

    /** The chunk being read. */
    ghost function Current(): (c: bytes)
      requires Valid() && doneChunks < numChunks
      reads this, source
      ensures |c| == chunkSize
    {
      ChunkStarts(|data|, chunkSize, doneChunks);
      Padded(data, chunkSize, doneChunks)
    }

    /** Delivers the next bytes of the current chunk, padding included; io.EOF at its end and after the
        last chunk. With room in p it makes progress, and it never reads past the value. */
    method Read(p: array<byte>) returns (n: nat, eof: bool)
      requires Valid()
      modifies this`remaining, this`chunkRem, source, p
      ensures Valid() && n <= p.Length && doneChunks == old(doneChunks)
      ensures eof <==> old(doneChunks == numChunks || chunkRem == 0)
      ensures chunkRem == old(chunkRem) - n && (eof ==> n == 0)
      ensures !eof && p.Length > 0 ==> n > 0
      ensures n > 0 ==> var from := old(chunkSize - chunkRem); p[..n] == Current()[from..from + n]
      ensures p[n..] == old(p[n..])
    {
      if doneChunks >= numChunks || (remaining <= 0 && chunkRem <= 0) {
        return 0, true;
      }
      if remaining <= 0 {
        n := Min(p.Length, chunkRem);
        ChunkStarts(|data|, chunkSize, doneChunks);
        PaddedStretch(data, chunkSize, doneChunks, chunkSize - chunkRem, n);
        FillZeros(p, n);
        chunkRem := chunkRem - n;
        return n, false;
      }
      if chunkRem <= 0 {
        return 0, true;
      }
      n := ReadData(p);
      eof := false;
    }

    /** The last branch of Read: neither the value nor the chunk is done. */
    method ReadData(p: array<byte>) returns (n: nat)
      requires Valid() && doneChunks < numChunks && remaining > 0 && chunkRem > 0
      modifies this`remaining, this`chunkRem, source, p
      ensures Valid() && n <= p.Length && doneChunks == old(doneChunks)
      ensures chunkRem == old(chunkRem) - n && (p.Length > 0 ==> n > 0)
      ensures n > 0 ==> var from := old(chunkSize - chunkRem); p[..n] == Current()[from..from + n]
      ensures p[n..] == old(p[n..])
    {
      ChunkStarts(|data|, chunkSize, doneChunks);
      n := FillFromValue(p);
      remaining := remaining - n;
      chunkRem := chunkRem - n;
    }

    method FillFromValue(p: array<byte>) returns (n: nat)
      requires Valid() && doneChunks < numChunks && remaining > 0 && chunkRem > 0
      requires SliceStart(chunkSize, doneChunks) <= |data|
      modifies source, p
      ensures n <= remaining && n <= chunkRem && n <= p.Length && (p.Length > 0 ==> n > 0)
      ensures var from := chunkSize - chunkRem; p[..n] == Padded(data, chunkSize, doneChunks)[from..from + n]
      ensures p[n..] == old(p[n..]) && source.rest == data[|data| - remaining + n..] + beyond
    {
      var k := p.Length;
      if k > remaining || k > chunkRem {
        k := Min(remaining, chunkRem);
      }
      n := source.Read(p, k);
      NextBytes(data, beyond, chunkSize, doneChunks, chunkSize - chunkRem, n);
    }

    /** Moves on once the current chunk has been read to its end. */
    method NextChunk()
      requires Valid() && (doneChunks < numChunks ==> chunkRem == 0)
      modifies this`doneChunks, this`chunkRem
      ensures Valid() && doneChunks == Min(old(doneChunks) + 1, numChunks) && chunkRem == chunkSize
    {
      if doneChunks < numChunks {
        doneChunks := doneChunks + 1;
        chunkRem := chunkSize;
        ChunksCover(|data|, chunkSize);
      }
    }

    method More() returns (b: bool)
      requires Valid()
      ensures b <==> doneChunks < numChunks
    {
      b := doneChunks < numChunks;
    }

    /** io.Copy of one chunk through a buffer of any positive size: it ends, and has delivered exactly the
        padded chunk. */
    method CopyChunk(p: array<byte>, w: Writer)
      requires Valid() && p.Length > 0 && doneChunks < numChunks && chunkRem == chunkSize
      modifies this`remaining, this`chunkRem, source, p, w
      ensures Valid() && doneChunks == old(doneChunks) && chunkRem == 0
      ensures w.out == old(w.out) + Current()
    {
      var eof := false;
      while !eof
        invariant Valid() && doneChunks == old(doneChunks)
        invariant w.out == old(w.out) + Current()[..chunkSize - chunkRem]
        invariant eof ==> chunkRem == 0
        decreases !eof, chunkRem
      {
        ghost var sent := w.out;
        ghost var from := chunkSize - chunkRem;
        var n;
        n, eof := Read(p);
        w.Write(p[..n]);
        assert Current()[..from] + p[..n] == Current()[..from + n];
      }
      assert Current()[..chunkSize] == Current();
    }
  }

  /** The loop of handleSetCommon over a value: More holds once for each chunk and what is written is the
      padded chunks in order. */
  method SplitThroughReader(data: bytes, chunkSize: nat, p: array<byte>) returns (chunks: seq<bytes>)
    requires chunkSize > 0 && p.Length > 0
    modifies p
    ensures chunks == Split(data, chunkSize)
  {
    var source := new Source(data);
    var r := new ChunkedLimitedReader(source, chunkSize, |data|);
    assert data[..|data|] == data;
    chunks := [];
    var more := r.More();
    while more
      invariant r.Valid() && r.chunkRem == chunkSize
      invariant more <==> r.doneChunks < r.numChunks
      invariant ArePieces(chunks, data, chunkSize, r.doneChunks)
      modifies r, source, p
      decreases r.numChunks - r.doneChunks
    {
      chunks := NextPiece(r, p, chunks);
      more := r.More();
    }
    PiecesAreSplit(chunks, data, chunkSize);
  }

  /** One turn of that loop. */
  method NextPiece(r: ChunkedLimitedReader, p: array<byte>, chunks: seq<bytes>) returns (more: seq<bytes>)
    requires r.Valid() && p.Length > 0 && r.doneChunks < r.numChunks && r.chunkRem == r.chunkSize
    requires ArePieces(chunks, r.data, r.chunkSize, r.doneChunks)
    modifies r, r.source, p
    ensures r.Valid() && r.doneChunks == old(r.doneChunks) + 1 && r.chunkRem == r.chunkSize
    ensures ArePieces(more, r.data, r.chunkSize, r.doneChunks)
  {
    var w := new Writer();
    ChunkStarts(|r.data|, r.chunkSize, r.doneChunks);
    r.CopyChunk(p, w);
    more := chunks + [w.out];
    r.NextChunk();
  }
}
