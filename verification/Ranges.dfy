/** Slices of the plaintext stream: what an entry's record is, and which chunks it needs. */
module Ranges {
  import opened Common
  import opened Metadata
  import opened Limits
  import opened Recovery
  import opened Search

  const TRAILER := 1024

  function Slice<T>(b: seq<T>, start: int, end: int): seq<T> {
    if 0 <= start <= end <= |b| then b[start..end] else []
  }

  /**
   * The stream as chunks: where each one starts, its plaintext when it loads and verifies, and the slices of the
   * whole stream in which the plaintexts stand one after the other.
   */
  datatype Tape = Tape(prefix: seq<int>, plain: seq<Option<Bytes>>, cut: (int, int) -> Bytes) {
    ghost predicate Valid() {
      && |prefix| == |plain| + 1 && prefix[0] == 0 && Nondecreasing(prefix)
      && (forall i :: 0 <= i < |plain| ==> SizeAt(i))
      && forall start, end :: CutsAt(start, end)
    }

    predicate CutsAt(start: int, end: int)
      requires |prefix| == |plain| + 1
    {
      cut(start, end) == Slice(Whole(), start, end)
    }

    predicate SizeAt(i: nat)
      requires i < |plain| && i + 1 < |prefix|
    {
      plain[i].Some? ==> |plain[i].value| == prefix[i + 1] - prefix[i]
    }

    function Total(): int
      requires |prefix| > 0
    {
      prefix[|prefix| - 1]
    }

    /** Where the archive's own trailer starts. */
    function ContentEnd(): int
      requires |prefix| > 0
    {
      if Total() >= TRAILER then Total() - TRAILER else Total()
    }

    /** Chunk i as the stream sees it: its plaintext, or that many zeros when it does not load. */
    function Piece(i: nat): Bytes
      requires i < |plain| && i + 1 < |prefix|
    {
      if plain[i].Some? then plain[i].value else Zeros(Max(prefix[i + 1] - prefix[i], 0))
    }

    /** The first n chunks, damaged ones blanked out. */
    function Stream(n: nat): Bytes
      requires n <= |plain| && n < |prefix|
    {
      if n == 0 then [] else Stream(n - 1) + Piece(n - 1)
    }

    function Whole(): Bytes
      requires |prefix| == |plain| + 1
    {
      Stream(|plain|)
    }

    /** Some byte of [start, end) lies in chunk c. */
    predicate Overlaps(start: int, end: int, c: nat)
      requires c + 1 < |prefix|
    {
      Max(start, prefix[c]) < Min(end, prefix[c + 1])
    }

    /** Every chunk the stretch touches loads and verifies. */
    ghost predicate Intact(start: int, end: int)
      requires |prefix| == |plain| + 1
    {
      forall c :: 0 <= c < |plain| && Overlaps(start, end, c) ==> plain[c].Some?
    }
  }

  /** What a stable source holds, as the reader verifies it. */
  ghost function TapeOf(v: Reader, verify: bool): (w: Tape)
    requires v.Laid()
  {
    var plain := seq(|v.chunks|, i requires 0 <= i < |v.chunks| => PlainSpec(v, i, verify));
    var whole := Tape(v.prefix, plain, (_, _) => []).Whole();
    Tape(v.prefix, plain, (start, end) => Slice(whole, start, end))
  }

  lemma {:induction false} StreamIgnoresCut(w: Tape, x: Tape, n: nat)
    requires w.prefix == x.prefix && w.plain == x.plain && n <= |w.plain| && n < |w.prefix|
    ensures w.Stream(n) == x.Stream(n)
  {
    if n > 0 {
      StreamIgnoresCut(w, x, n - 1);
    }
  }

  lemma TapeCuts(v: Reader, verify: bool, start: int, end: int)
    requires v.Laid()
    ensures TapeOf(v, verify).CutsAt(start, end)
  {
    var w := TapeOf(v, verify);
    StreamIgnoresCut(w, Tape(v.prefix, w.plain, (_, _) => []), |w.plain|);
  }

  lemma TapeValid(v: Reader, verify: bool)
    requires v.Laid()
    ensures TapeOf(v, verify).Valid()
  {
    var w := TapeOf(v, verify);
    forall i, j | 0 <= i <= j < |v.prefix| ensures v.prefix[i] <= v.prefix[j] {
      PlainBeforeGrows(v.chunks, i, j);
    }
    forall i | 0 <= i < |w.plain| ensures w.SizeAt(i) {
      assert v.prefix[i + 1] == v.prefix[i] + v.chunks[i].pb;
    }
    forall start, end ensures w.CutsAt(start, end) {
      TapeCuts(v, verify, start, end);
    }
  }

  // ---------- Chunks and the stream ----------

  lemma {:induction false} StreamLength(w: Tape, n: nat)
    requires w.Valid() && n <= |w.plain|
    ensures |w.Stream(n)| == w.prefix[n]
  {
    if n > 0 {
      StreamLength(w, n - 1);
      assert w.SizeAt(n - 1);
    }
  }

  /** Chunk i occupies exactly its interval of the stream. */
  lemma {:induction false} StreamSlice(w: Tape, i: nat, n: nat)
    requires w.Valid() && i < n <= |w.plain|
    ensures 0 <= w.prefix[i] <= w.prefix[i + 1] <= |w.Stream(n)|
    ensures w.Stream(n)[w.prefix[i]..w.prefix[i + 1]] == w.Piece(i)
  {
    StreamLength(w, n);
    StreamLength(w, n - 1);
    if i + 1 < n {
      StreamSlice(w, i, n - 1);
      SliceOfConcat(w.Stream(n - 1), w.Piece(n - 1), w.prefix[i], w.prefix[i + 1]);
    } else {
      assert w.SizeAt(i);
      SliceOfConcat(w.Stream(i), w.Piece(i), 0, 0);
    }
  }

  /** A piece of a chunk is the matching piece of the stream. */
  lemma PieceOfStream(w: Tape, i: nat, off: int, n: int)
    requires w.Valid() && i < |w.plain| && CoversOffset(w.prefix, i, off) && 0 <= n <= w.prefix[i + 1] - off
    ensures w.prefix[i + 1] - w.prefix[i] == |w.Piece(i)|
    ensures 0 <= off <= off + n <= |w.Whole()|
    ensures w.Piece(i)[off - w.prefix[i]..off - w.prefix[i] + n] == w.cut(off, off + n)
  {
    assert w.CutsAt(off, off + n);
    StreamSlice(w, i, |w.plain|);
    SliceOfSlice(w.Whole(), w.prefix[i], w.prefix[i + 1], off - w.prefix[i], off - w.prefix[i] + n);
  }

  /** Going on past off within the chunk that covers it touches that chunk and no other new one. */
  lemma OneMoreChunk(w: Tape, start: int, off: int, i: nat, n: int, c: nat)
    requires w.Valid() && i < |w.plain| && c < |w.plain|
    requires start <= off && CoversOffset(w.prefix, i, off) && 0 < n <= w.prefix[i + 1] - off
    ensures w.Overlaps(start, off + n, c) <==> w.Overlaps(start, off, c) || c == i
  {
    assert c < i ==> w.prefix[c + 1] <= w.prefix[i];
    assert c > i ==> w.prefix[i + 1] <= w.prefix[c];
  }

  // ---------- Entries as ranges ----------

  function EndOf(entries: seq<FileEntry>, i: nat, contentEnd: int): int
    requires i < |entries|
  {
    if i + 1 < |entries| then entries[i + 1].tarOffset else contentEnd
  }

  predicate RangeOk(start: int, end: int, contentEnd: int) { 0 <= start < end <= contentEnd }

  predicate EntryRangeOk(entries: seq<FileEntry>, i: nat, contentEnd: int)
    requires i < |entries|
  {
    RangeOk(entries[i].tarOffset, EndOf(entries, i, contentEnd), contentEnd)
  }

  /** Adjacent slices join, and a shorter slice is a prefix of a longer one. */
  lemma CutsJoin(w: Tape, start: int, middle: int, end: int)
    requires w.Valid() && 0 <= start <= middle <= end <= w.Total()
    ensures w.cut(start, middle) + w.cut(middle, end) == w.cut(start, end)
    ensures w.cut(start, middle) <= w.cut(start, end)
    ensures |w.cut(start, end)| == end - start
  {
    StreamLength(w, |w.plain|);
    assert w.CutsAt(start, middle) && w.CutsAt(middle, end) && w.CutsAt(start, end);
    SliceJoin(w.Whole(), start, middle, end);
  }

  /** The archive bytes of entry i: its header records, content and padding. */
  function Record(w: Tape, entries: seq<FileEntry>, i: nat): Bytes
    requires |w.prefix| > 0 && i < |entries|
  {
    w.cut(entries[i].tarOffset, EndOf(entries, i, w.ContentEnd()))
  }

  ghost predicate EntryIntact(w: Tape, entries: seq<FileEntry>, i: nat)
    requires |w.prefix| == |w.plain| + 1 && i < |entries|
  {
    w.Intact(entries[i].tarOffset, EndOf(entries, i, w.ContentEnd()))
  }
}
