/** The streaming chunker against the slice chunker, for any content-defined cut. */
module Chunking {
  import opened Basics

  /** The cut library with its sizes: `cut(s)` is the length of the first chunk of `s`. */
  datatype Cutter = Cutter(cut: Bytes -> int, min: nat, max: nat)

  /** What FastCDC guarantees: a cut is non-empty and at most `max`, is decided by the first `max`
      bytes, and leaves input of at most `min` bytes whole. */
  ghost predicate Lawful(c: Cutter) {
    && 0 < c.max && c.min <= c.max
    && (forall s: Bytes :: s != [] ==> 0 < c.cut(s) <= Min(|s|, c.max))
    && (forall s: Bytes :: |s| > c.max ==> c.cut(s) == c.cut(s[..c.max]))
    && (forall s: Bytes :: s != [] && |s| <= c.min ==> c.cut(s) == |s|)
  }

  lemma CutLaws(c: Cutter, s: Bytes)
    requires Lawful(c) && s != []
    ensures 0 < c.max && c.min <= c.max && 0 < c.cut(s) <= Min(|s|, c.max)
    ensures |s| > c.max ==> c.cut(s) == c.cut(s[..c.max])
    ensures |s| <= c.min ==> c.cut(s) == |s|
  {
  }

  /** The reference: cut, and continue behind the cut. */
  ghost function Cuts(c: Cutter, data: Bytes): seq<Bytes>
    requires Lawful(c)
    decreases |data|
  {
    if data == [] then [] else [data[..c.cut(data)]] + Cuts(c, data[c.cut(data)..])
  }

  ghost function Joined(chunks: seq<Bytes>): Bytes {
    if chunks == [] then [] else chunks[0] + Joined(chunks[1..])
  }

  lemma CutsStep(c: Cutter, data: Bytes)
    requires Lawful(c) && data != []
    ensures 0 < c.cut(data) <= |data| && c.cut(data) <= c.max
    ensures Cuts(c, data) == [data[..c.cut(data)]] + Cuts(c, data[c.cut(data)..])
  {
  }

  /** No byte is lost, added or moved. */
  lemma {:induction false} CutsPartition(c: Cutter, data: Bytes)
    requires Lawful(c)
    ensures Joined(Cuts(c, data)) == data
    decreases |data|
  {
    hide Lawful;
    if data != [] {
      CutsStep(c, data);
      hide Cuts;
      var n := c.cut(data);
      CutsPartition(c, data[n..]);
      assert Cuts(c, data)[1..] == Cuts(c, data[n..]);
      assert data[..n] + data[n..] == data;
    }
  }

  predicate Sized(chunks: seq<Bytes>, max: nat) {
    forall i :: 0 <= i < |chunks| ==> 0 < |chunks[i]| <= max
  }

  /** No chunk is empty or too long. */
  lemma {:induction false} CutsSized(c: Cutter, data: Bytes)
    requires Lawful(c)
    ensures Sized(Cuts(c, data), c.max)
    decreases |data|
  {
    hide Lawful;
    if data != [] {
      CutsStep(c, data);
      hide Cuts;
      CutsSized(c, data[c.cut(data)..]);
    }
  }

  /** `Chunker::chunks`: small input is one chunk, anything else is walked by the cut iterator. */
  method SliceChunks(c: Cutter, data: Bytes) returns (chunks: seq<Bytes>)
    requires Lawful(c)
    ensures chunks == Cuts(c, data)
  {
    hide Lawful;
    if data == [] { return []; }
    if |data| <= c.min {
      WholeTail(c, data, data);
      return [data];
    }
    hide Cuts;
    assert data[0..] == data;
    chunks := [];
    var offset := 0;
    while offset < |data|
      invariant 0 <= offset <= |data|
      invariant chunks + Cuts(c, data[offset..]) == Cuts(c, data)
    {
      var rest := data[offset..];
      CutsStep(c, rest);
      var length := c.cut(rest);
      assert rest[length..] == data[offset + length..];
      assert rest[..length] == data[offset..offset + length];
      chunks := chunks + [data[offset..offset + length]];
      offset := offset + length;
    }
    assert data[offset..] == [] && Cuts(c, []) == [] by { NoCuts(c); }
  }

  lemma NoCuts(c: Cutter)
    requires Lawful(c)
    ensures Cuts(c, []) == []
  {
  }

  /** A reader that may return fewer bytes than asked for, and zero only at the end. */
  class Reader {
    const data: Bytes
    var pos: nat

    constructor (data: Bytes)
      ensures this.data == data && pos == 0
    {
      this.data := data;
      pos := 0;
    }

    method Read(size: nat) returns (bytes: Bytes)
      requires pos <= |data| && size > 0
      modifies this
      ensures pos <= |data| && pos == old(pos) + |bytes|
      ensures |bytes| <= size && bytes == data[old(pos)..pos]
      ensures bytes == [] ==> pos == |data|
    {
      var left := |data| - pos;
      if left == 0 { return []; }
      assert 1 <= 1 <= size && 1 <= left;
      var n: nat :| 1 <= n <= size && n <= left;   // any short read
      bytes := data[pos..pos + n];
      pos := pos + n;
    }
  }

  const READ_FLOOR: nat := 524288

  class StreamChunker {
    const c: Cutter
    const reader: Reader
    var buffer: Bytes
    var eof: bool
    ghost var peak: nat    // the largest the buffer was ever resized to

    ghost predicate Valid()
      reads this, reader
    {
      && Lawful(c) && 0 < c.max && reader.pos <= |reader.data|
      && (eof ==> reader.pos == |reader.data|)
      && peak <= c.max - 1 + ReadSize()
    }

    function ReadSize(): nat {
      Max(2 * c.max, READ_FLOOR)
    }

    /** What is still to be chunked. */
    ghost function Remaining(): Bytes
      requires reader.pos <= |reader.data|
      reads this, reader
    {
      buffer + reader.data[reader.pos..]
    }

    constructor (c: Cutter, reader: Reader)
      requires Lawful(c) && reader.pos == 0
      ensures Valid() && this.c == c && this.reader == reader && Remaining() == reader.data
    {
      this.c, this.reader := c, reader;
      buffer, eof, peak := [], false, 0;
    }

    /** `next_chunk`: exactly the next chunk of the reference cut of everything remaining. */
    method NextChunk() returns (chunk: Bytes, some: bool)
      requires Valid()
      modifies this, reader
      ensures Valid()
      ensures some <==> old(Remaining()) != []
      ensures !some ==> Remaining() == []
      ensures some ==> Cuts(c, old(Remaining())) == [chunk] + Cuts(c, Remaining()) && chunk != []
      ensures some ==> |Remaining()| < |old(Remaining())|
    {
      hide Lawful;
      ghost var whole := Remaining();
      chunk, some := [], false;
      while true
        invariant Valid() && Remaining() == whole
        decreases |reader.data| - reader.pos, !eof
      {
        if |buffer| >= c.max || (eof && buffer != []) {
          if |buffer| <= c.min && eof {
            assert buffer == whole;
            WholeTail(c, buffer, whole);
            chunk, buffer := buffer, [];
            return chunk, true;
          }
          CutLaws(c, buffer);
          var consumed := c.cut(buffer);
          FirstCut(c, buffer, whole);
          chunk := buffer[..consumed];
          buffer := buffer[consumed..];
          assert Remaining() == whole[consumed..];
          return chunk, true;
        }
        if eof { return [], false; }
        peak := Max(peak, |buffer| + ReadSize());
        var more := reader.Read(ReadSize());
        buffer := buffer + more;
        if more == [] { eof := true; }
      }
    }
  }

  /** The first cut of the buffer is the first cut of everything that remains. */
  lemma FirstCut(c: Cutter, buffer: Bytes, whole: Bytes)
    requires Lawful(c) && buffer != [] && buffer <= whole
    requires |buffer| >= c.max || buffer == whole
    ensures c.cut(buffer) == c.cut(whole)
    ensures Cuts(c, whole) == [buffer[..c.cut(buffer)]] + Cuts(c, whole[c.cut(buffer)..])
  {
    CutLaws(c, buffer);
    CutLaws(c, whole);
    hide Lawful;
    if buffer != whole {
      assert whole[..c.max] == buffer[..c.max];
      if |buffer| == c.max { assert buffer[..c.max] == buffer; }
    }
    assert whole[..c.cut(whole)] == buffer[..c.cut(buffer)];
  }

  lemma WholeTail(c: Cutter, buffer: Bytes, whole: Bytes)
    requires Lawful(c) && buffer != [] && |buffer| <= c.min && buffer == whole
    ensures Cuts(c, whole) == [buffer] + Cuts(c, [])
  {
    CutLaws(c, whole);
    hide Lawful;
    assert whole[|whole|..] == [] && whole[..|whole|] == buffer;
  }

  /** Reading a stream to its end gives the slice chunker's chunks, whatever the short reads; the
      buffer stays below `max - 1 + max(2 * max, 512 KiB)`. */
  method StreamAll(c: Cutter, data: Bytes) returns (chunks: seq<Bytes>, ghost peak: nat)
    requires Lawful(c)
    ensures chunks == Cuts(c, data)
    ensures peak <= c.max - 1 + Max(2 * c.max, READ_FLOOR)
  {
    hide Lawful;
    var reader := new Reader(data);
    var stream := new StreamChunker(c, reader);
    chunks := [];
    var more := true;
    while more
      invariant stream.Valid() && stream.c == c
      invariant chunks + Cuts(c, stream.Remaining()) == Cuts(c, data)
      invariant !more ==> stream.Remaining() == []
      decreases |stream.Remaining()|, more
    {
      ghost var remaining := stream.Remaining();
      var chunk;
      chunk, more := stream.NextChunk();
      if more {
        assert chunks + ([chunk] + Cuts(c, stream.Remaining())) == (chunks + [chunk]) + Cuts(c, stream.Remaining());
        chunks := chunks + [chunk];
      }
    }
    peak := stream.peak;
  }
}
