/** The fixed-size splitter over a reader that may return short reads. */
module Splitter {
  import opened Common
  import opened Planner

  datatype End = More | Eof | Fault

  datatype Read = Read(n: nat, fault: bool)

  ghost predicate Faulty(script: seq<Read>) { exists i :: 0 <= i < |script| && script[i].fault }

  lemma SameSlice(a: Bytes, b: Bytes, from: nat, start: nat, n: nat)
    requires from + n <= |a| && start + n <= |b| && forall k :: from <= k < from + n ==> a[k] == b[start + (k - from)]
    ensures a[from..from + n] == b[start..start + n]
  {
  }

  /** A stream read in pieces: `script` says how long each read is and whether it fails; past it, reads are full. */
  class Reader {
    const data: Bytes
    ghost const plan: seq<Read>
    var pos: nat
    var script: seq<Read>

    ghost predicate Valid()
      reads this
    {
      pos <= |data| && |script| <= |plan| && script == plan[|plan| - |script|..]
    }

    ghost function Left(): nat
      reads this
      requires Valid()
    {
      |script| + |data| - pos
    }

    constructor (data: Bytes, script: seq<Read>)
      ensures this.data == data && plan == script && pos == 0 && this.script == script && Valid()
    {
      this.data, this.script, pos := data, script, 0;
      plan := script;
    }

    /** One read into buf[from..]: never past the end, the end reported only when it is reached. */
    method ReadInto(buf: array<Byte>, from: nat) returns (n: nat, end: End)
      requires Valid() && from < buf.Length
      modifies this`pos, this`script, buf
      ensures Valid() && n <= buf.Length - from && pos == old(pos) + n
      ensures buf[from..from + n] == data[old(pos)..pos]
      ensures forall i :: 0 <= i < buf.Length && (i < from || i >= from + n) ==> buf[i] == old(buf[i])
      ensures end.Eof? ==> pos == |data|
      ensures !end.Eof? ==> Left() < old(Left())
      ensures end.Fault? ==> Faulty(plan)
    {
      var room := Min(buf.Length - from, |data| - pos);
      if |script| > 0 {
        n := Min(script[0].n, room);
        assert script[0] == plan[|plan| - |script|];
        end := if script[0].fault then Fault else More;
        script := script[1..];
      } else {
        n := room;
        end := if n == |data| - pos then Eof else More;
      }
      var start := pos;
      forall i | 0 <= i < n {
        buf[from + i] := data[start + i];
      }
      SameSlice(buf[..], data, from, start, n);
      pos := pos + n;
    }
  }

  datatype Next = Chunk(index: nat, bytes: Bytes) | Done | Failed

  class Fixed {
    const reader: Reader
    const size: nat
    const buf: array<Byte>
    var index: nat
    var done: bool

    ghost predicate Valid()
      reads this, reader
    {
      size > 0 && buf.Length == size && reader.Valid() && (done ==> reader.pos == |reader.data|)
    }

    constructor (reader: Reader, size: nat)
      requires reader.Valid() && MIN_CHUNK_SIZE <= size <= MAX_CHUNK_SIZE
      ensures Valid() && this.reader == reader && this.size == size && index == 0 && !done && fresh(buf)
    {
      this.reader, this.size := reader, size;
      buf := new Byte[size];
      index, done := 0, false;
    }

    /** One read behind what the buffer already holds. */
    method ReadMore(filled: nat, ghost start: nat) returns (n: nat, end: End)
      requires Valid() && filled < size && start + filled == reader.pos
      requires buf[..filled] == reader.data[start..reader.pos]
      modifies reader, buf
      ensures Valid() && filled + n <= size && reader.pos == start + filled + n
      ensures buf[..filled + n] == reader.data[start..reader.pos]
      ensures end.Eof? ==> reader.pos == |reader.data|
      ensures !end.Eof? ==> reader.Left() < old(reader.Left())
      ensures end.Fault? ==> Faulty(reader.plan)
    {
      n, end := reader.ReadInto(buf, filled);
      assert buf[..filled + n] == buf[..filled] + buf[filled..filled + n];
      SliceJoin(reader.data, start, start + filled, reader.pos);
    }

    /** Reads until the buffer is full or the stream ends. */
    method Fill() returns (filled: nat, ok: bool)
      requires Valid() && !done
      modifies reader, buf
      ensures Valid() && filled <= size && reader.pos == old(reader.pos) + filled
      ensures buf[..filled] == reader.data[old(reader.pos)..reader.pos]
      ensures ok && filled < size ==> reader.pos == |reader.data|
      ensures !ok ==> Faulty(reader.plan)
    {
      filled := 0;
      ghost var start := reader.pos;
      while filled < size
        invariant filled <= size && Valid() && !done
        invariant reader.pos == start + filled && buf[..filled] == reader.data[start..reader.pos]
        decreases reader.Left()
      {
        var n, end := ReadMore(filled, start);
        filled := filled + n;
        if n > 0 && filled == size {
          break;
        }
        if end.Eof? {
          break;
        }
        if end.Fault? {
          return filled, false;
        }
      }
      ok := true;
    }

    /** The next chunk holds `size` bytes; only the last one of the stream is shorter. */
    method NextChunk() returns (r: Next)
      requires Valid()
      modifies this, reader, buf
      ensures Valid()
      ensures old(reader.pos) <= reader.pos
      ensures r.Failed? ==> Faulty(reader.plan)
      ensures r.Chunk? ==>
                && r.bytes == reader.data[old(reader.pos)..reader.pos] && 0 < |r.bytes| <= size
                && r.index == old(index) && index == old(index) + 1
                && (|r.bytes| < size ==> done)
      ensures r.Done? ==> done && reader.pos == |reader.data| && reader.pos == old(reader.pos)
      ensures !r.Chunk? ==> index == old(index)
      ensures old(done) ==> r.Done?
    {
      if done {
        return Done;
      }
      var filled, ok := Fill();
      if !ok {
        return Failed;
      }
      if filled == 0 {
        done := true;
        return Done;
      }
      r := Chunk(index, buf[..filled]);
      if filled < size {
        done := true;
      }
      index := index + 1;
    }
  }

  /** Every chunk but the last is full, and none is empty. */
  ghost predicate FixedChunks(chunks: seq<Bytes>, size: nat) {
    && (forall i :: 0 <= i < |chunks| ==> 0 < |chunks[i]| <= size)
    && (forall i :: 0 <= i < |chunks| - 1 ==> |chunks[i]| == size)
  }

  /** The chunks are the stream up to pos, and all full unless the end was reached. */
  ghost predicate SplitUpTo(chunks: seq<Bytes>, data: Bytes, pos: nat, size: nat, done: bool) {
    && pos <= |data| && Flatten(chunks) == data[..pos] && FixedChunks(chunks, size)
    && (!done ==> forall i :: 0 <= i < |chunks| ==> |chunks[i]| == size)
  }

  /** One chunk more, cut where the last one ended. */
  lemma ChunkJoined(chunks: seq<Bytes>, data: Bytes, start: nat, end: nat, size: nat, done: bool)
    requires SplitUpTo(chunks, data, start, size, false) && start < end <= |data| && end - start <= size
    requires end - start < size ==> done
    ensures SplitUpTo(chunks + [data[start..end]], data, end, size, done)
  {
    FlattenSnoc(chunks, data[start..end]);
    SliceJoin(data, 0, start, end);
  }

  /** Chunks until the splitter is done. */
  method Drain(splitter: Fixed) returns (chunks: seq<Bytes>, ok: bool)
    requires splitter.Valid() && !splitter.done && splitter.reader.pos == 0
    modifies splitter, splitter.reader, splitter.buf
    ensures ok ==> SplitUpTo(chunks, splitter.reader.data, |splitter.reader.data|, splitter.size, true)
    ensures !ok ==> Faulty(splitter.reader.plan)
  {
    var reader := splitter.reader;
    chunks := [];
    while true
      invariant splitter.Valid() && SplitUpTo(chunks, reader.data, reader.pos, splitter.size, splitter.done)
      decreases !splitter.done, |reader.data| - reader.pos
    {
      ghost var start := reader.pos;
      var next := splitter.NextChunk();
      if next.Failed? {
        return chunks, false;
      }
      if next.Done? {
        break;
      }
      ChunkJoined(chunks, reader.data, start, reader.pos, splitter.size, splitter.done);
      chunks := chunks + [next.bytes];
    }
    ok := true;
  }

  /** Splitting a whole stream: whatever the reads look like, the chunks concatenate to the stream. */
  method SplitAll(data: Bytes, script: seq<Read>, size: nat) returns (chunks: seq<Bytes>, ok: bool)
    requires MIN_CHUNK_SIZE <= size <= MAX_CHUNK_SIZE
    ensures ok ==> Flatten(chunks) == data && FixedChunks(chunks, size)
    ensures !ok ==> Faulty(script)
  {
    var reader := new Reader(data, script);
    var splitter := new Fixed(reader, size);
    chunks, ok := Drain(splitter);
    assert data[..|data|] == data;
  }
}
