/** The selective restore: merged ranges, a binary search and a one-chunk cache. */
module Selective {
  import opened Common
  import opened Metadata
  import opened Limits
  import opened Entries
  import opened Recovery
  import opened Search
  import opened Ranges

  // ---------- What it must write ----------

  /** The records of the wanted entries among the first n, in archive order. */
  function WantedRecords(w: Tape, entries: seq<FileEntry>, wanted: set<string>, n: nat): Bytes
    requires |w.prefix| == |w.plain| + 1 && n <= |entries|
  {
    if n == 0 then []
    else WantedRecords(w, entries, wanted, n - 1) + if entries[n - 1].path in wanted then Record(w, entries, n - 1) else []
  }

  ghost predicate WantedRangesOk(entries: seq<FileEntry>, wanted: set<string>, contentEnd: int, n: nat)
    requires n <= |entries|
  {
    forall i :: 0 <= i < n && entries[i].path in wanted ==> EntryRangeOk(entries, i, contentEnd)
  }

  /** Entry i has bytes in chunk c. */
  predicate NeededBy(w: Tape, entries: seq<FileEntry>, i: nat, c: nat)
    requires i < |entries| && c + 1 < |w.prefix|
  {
    w.Overlaps(entries[i].tarOffset, EndOf(entries, i, w.ContentEnd()), c)
  }

  /** Some wanted entry among the first n has bytes in chunk c. */
  ghost predicate Needed(w: Tape, entries: seq<FileEntry>, wanted: set<string>, n: nat, c: nat)
    requires n <= |entries| && c + 1 < |w.prefix|
  {
    exists i :: 0 <= i < n && entries[i].path in wanted && NeededBy(w, entries, i, c)
  }

  // ---------- Merged ranges ----------

  datatype Range = Range(start: int, end: int)

  ghost predicate RangesOk(limit: int, ranges: seq<Range>) {
    forall k :: 0 <= k < |ranges| ==> RangeOk(ranges[k].start, ranges[k].end, limit)
  }

  /** The bytes of the first n ranges. */
  function RangeBytes<T>(cut: (int, int) -> seq<T>, ranges: seq<Range>, n: nat): seq<T>
    requires n <= |ranges|
  {
    if n == 0 then [] else RangeBytes(cut, ranges, n - 1) + cut(ranges[n - 1].start, ranges[n - 1].end)
  }

  lemma {:induction false} RangeBytesAgree<T>(cut: (int, int) -> seq<T>, r: seq<Range>, s: seq<Range>, n: nat)
    requires n <= |r| && n <= |s| && forall k :: 0 <= k < n ==> r[k] == s[k]
    ensures RangeBytes(cut, r, n) == RangeBytes(cut, s, n)
  {
    if n > 0 {
      RangeBytesAgree(cut, r, s, n - 1);
    }
  }

  predicate TouchedBy(w: Tape, ranges: seq<Range>, k: nat, c: nat)
    requires k < |ranges| && c + 1 < |w.prefix|
  {
    w.Overlaps(ranges[k].start, ranges[k].end, c)
  }

  /** One of the first n ranges has bytes in chunk c. */
  ghost predicate Touched(w: Tape, ranges: seq<Range>, n: nat, c: nat)
    requires n <= |ranges| && c + 1 < |w.prefix|
  {
    exists k :: 0 <= k < n && TouchedBy(w, ranges, k, c)
  }

  ghost predicate Ascending(ranges: seq<Range>) {
    forall j, k :: 0 <= j < k < |ranges| ==> ranges[j].end <= ranges[k].start
  }

  /** The list after one more entry range: the last range grows when it ends where the entry starts. */
  function Extend(ranges: seq<Range>, start: int, end: int): seq<Range> {
    if |ranges| > 0 && ranges[|ranges| - 1].end == start
    then ranges[..|ranges| - 1] + [Range(ranges[|ranges| - 1].start, end)]
    else ranges + [Range(start, end)]
  }

  lemma ExtendBytes<T>(cut: (int, int) -> seq<T>, ranges: seq<Range>, start: int, end: int)
    requires |ranges| > 0 && ranges[|ranges| - 1].end == start ==>
               cut(ranges[|ranges| - 1].start, start) + cut(start, end) == cut(ranges[|ranges| - 1].start, end)
    ensures RangeBytes(cut, Extend(ranges, start, end), |Extend(ranges, start, end)|)
         == RangeBytes(cut, ranges, |ranges|) + cut(start, end)
  {
    var extended := Extend(ranges, start, end);
    RangeBytesAgree(cut, ranges, extended, |extended| - 1);
    if |ranges| == |extended| {
      var last := ranges[|ranges| - 1];
      ConcatAssociative(RangeBytes(cut, ranges, |ranges| - 1), cut(last.start, start), cut(start, end));
    }
  }

  lemma ExtendTouched(w: Tape, ranges: seq<Range>, start: int, end: int, limit: int, c: nat)
    requires RangesOk(limit, ranges) && RangeOk(start, end, limit) && c + 1 < |w.prefix|
    ensures Touched(w, Extend(ranges, start, end), |Extend(ranges, start, end)|, c)
       <==> Touched(w, ranges, |ranges|, c) || w.Overlaps(start, end, c)
  {
    var extended := Extend(ranges, start, end);
    var n := |extended| - 1;
    assert forall k :: 0 <= k < n ==> extended[k] == ranges[k];
    assert forall k :: 0 <= k < n ==> (TouchedBy(w, extended, k, c) <==> TouchedBy(w, ranges, k, c));
    if |ranges| == |extended| {
      assert TouchedBy(w, extended, n, c) <==> TouchedBy(w, ranges, n, c) || w.Overlaps(start, end, c);
    } else {
      assert TouchedBy(w, extended, n, c) <==> w.Overlaps(start, end, c);
    }
  }

  ghost predicate TouchedIffNeeded(w: Tape, entries: seq<FileEntry>, wanted: set<string>, n: nat, ranges: seq<Range>, c: nat)
    requires n <= |entries| && c + 1 < |w.prefix|
  {
    Touched(w, ranges, |ranges|, c) <==> Needed(w, entries, wanted, n, c)
  }

  /** What merging has produced after the first n entries. */
  ghost predicate Merged(w: Tape, entries: seq<FileEntry>, wanted: set<string>, n: nat, ranges: seq<Range>)
    requires |w.prefix| == |w.plain| + 1 && n <= |entries|
  {
    && RangesOk(w.ContentEnd(), ranges)
    && RangeBytes(w.cut, ranges, |ranges|) == WantedRecords(w, entries, wanted, n)
    && forall c :: 0 <= c < |w.plain| ==> TouchedIffNeeded(w, entries, wanted, n, ranges, c)
  }

  lemma SkipEntry(w: Tape, entries: seq<FileEntry>, wanted: set<string>, i: nat, ranges: seq<Range>)
    requires w.Valid() && i < |entries| && Merged(w, entries, wanted, i, ranges) && entries[i].path !in wanted
    ensures Merged(w, entries, wanted, i + 1, ranges)
  {
    var n := i + 1;
    forall c | 0 <= c < |w.plain| ensures TouchedIffNeeded(w, entries, wanted, n, ranges, c) {
      assert TouchedIffNeeded(w, entries, wanted, i, ranges, c);
    }
  }

  lemma AddTouched(w: Tape, entries: seq<FileEntry>, wanted: set<string>, i: nat, ranges: seq<Range>, end: int, c: nat)
    requires i < |entries| && c + 1 < |w.prefix| && TouchedIffNeeded(w, entries, wanted, i, ranges, c)
    requires entries[i].path in wanted && end == EndOf(entries, i, w.ContentEnd())
    requires RangesOk(w.ContentEnd(), ranges) && RangeOk(entries[i].tarOffset, end, w.ContentEnd())
    ensures TouchedIffNeeded(w, entries, wanted, i + 1, Extend(ranges, entries[i].tarOffset, end), c)
  {
    ExtendTouched(w, ranges, entries[i].tarOffset, end, w.ContentEnd(), c);
    assert NeededBy(w, entries, i, c) <==> w.Overlaps(entries[i].tarOffset, end, c);
  }

  lemma AddBytes(w: Tape, entries: seq<FileEntry>, wanted: set<string>, i: nat, ranges: seq<Range>, end: int)
    requires w.Valid() && i < |entries| && RangesOk(w.ContentEnd(), ranges)
    requires RangeBytes(w.cut, ranges, |ranges|) == WantedRecords(w, entries, wanted, i)
    requires entries[i].path in wanted && end == EndOf(entries, i, w.ContentEnd())
    requires RangeOk(entries[i].tarOffset, end, w.ContentEnd())
    ensures RangesOk(w.ContentEnd(), Extend(ranges, entries[i].tarOffset, end))
    ensures var extended := Extend(ranges, entries[i].tarOffset, end);
            RangeBytes(w.cut, extended, |extended|) == WantedRecords(w, entries, wanted, i + 1)
  {
    StreamLength(w, |w.plain|);
    if |ranges| > 0 && ranges[|ranges| - 1].end == entries[i].tarOffset {
      CutsJoin(w, ranges[|ranges| - 1].start, entries[i].tarOffset, end);
    }
    ExtendBytes(w.cut, ranges, entries[i].tarOffset, end);
  }

  lemma AddEntry(w: Tape, entries: seq<FileEntry>, wanted: set<string>, i: nat, ranges: seq<Range>, end: int)
    requires w.Valid() && i < |entries| && Merged(w, entries, wanted, i, ranges)
    requires entries[i].path in wanted && end == EndOf(entries, i, w.ContentEnd())
    requires RangeOk(entries[i].tarOffset, end, w.ContentEnd())
    ensures Merged(w, entries, wanted, i + 1, Extend(ranges, entries[i].tarOffset, end))
  {
    AddBytes(w, entries, wanted, i, ranges, end);
    var n, extended := i + 1, Extend(ranges, entries[i].tarOffset, end);
    forall c | 0 <= c < |w.plain| ensures TouchedIffNeeded(w, entries, wanted, n, extended, c) {
      AddTouched(w, entries, wanted, i, ranges, end, c);
    }
  }

  /** The ranges found so far ascend and end before entry i. */
  ghost predicate Behind(ranges: seq<Range>, entries: seq<FileEntry>, i: nat) {
    && Ascending(ranges) && (forall k :: 0 <= k < |ranges| ==> ranges[k].start < ranges[k].end)
    && (|ranges| > 0 && i < |entries| ==> ranges[|ranges| - 1].end <= entries[i].tarOffset)
  }

  lemma ExtendBehind(ranges: seq<Range>, entries: seq<FileEntry>, i: nat, contentEnd: int)
    requires GrowingOffsets(entries) && i < |entries| && Behind(ranges, entries, i)
    requires entries[i].tarOffset < EndOf(entries, i, contentEnd)
    ensures Behind(Extend(ranges, entries[i].tarOffset, EndOf(entries, i, contentEnd)), entries, i + 1)
  {
  }

  /** The wanted entries' ranges, neighbours merged; refused when a wanted entry's offsets make no sense. */
  method MergeRanges(contentEnd: int, entries: seq<FileEntry>, wanted: set<string>, ghost w: Tape) returns (r: Option<seq<Range>>)
    requires w.Valid() && contentEnd == w.ContentEnd()
    ensures r.Some? <==> WantedRangesOk(entries, wanted, contentEnd, |entries|)
    ensures r.Some? ==> Merged(w, entries, wanted, |entries|, r.value)
    ensures r.Some? && GrowingOffsets(entries) ==> Ascending(r.value)
  {
    var ranges: seq<Range> := [];
    for i := 0 to |entries|
      invariant WantedRangesOk(entries, wanted, contentEnd, i)
      invariant Merged(w, entries, wanted, i, ranges)
      invariant GrowingOffsets(entries) ==> Behind(ranges, entries, i)
    {
      if entries[i].path !in wanted {
        SkipEntry(w, entries, wanted, i, ranges);
        assert GrowingOffsets(entries) ==> Behind(ranges, entries, i + 1);
        continue;
      }
      var start, end := entries[i].tarOffset, EndOf(entries, i, contentEnd);
      if start < 0 || end <= start || end > contentEnd {
        assert !EntryRangeOk(entries, i, contentEnd);
        return None;
      }
      AddEntry(w, entries, wanted, i, ranges, end);
      if GrowingOffsets(entries) {
        ExtendBehind(ranges, entries, i, contentEnd);
      }
      ranges := Extend(ranges, start, end);
    }
    r := Some(ranges);
  }

  // ---------- The cache ----------

  datatype Cache = Cache(index: int, data: Bytes)

  ghost predicate CacheOk(v: Reader, w: Tape, cache: Cache)
    requires w.Valid()
  {
    cache.index == -1 ||
    (0 <= cache.index < |w.plain| && |cache.data| == w.prefix[cache.index + 1] - w.prefix[cache.index]
     && (v.src.stable ==> w.plain[cache.index] == Some(cache.data)))
  }

  /** The tape is what the reader would load. */
  ghost predicate Plays(v: Reader, verify: bool, w: Tape) {
    && v.Laid() && w.Valid() && w.prefix == v.prefix && |w.plain| == |v.chunks|
    && forall i :: 0 <= i < |v.chunks| ==> PlaysAt(v, verify, w, i)
  }

  ghost predicate PlaysAt(v: Reader, verify: bool, w: Tape, i: nat)
    requires i < |v.chunks| == |v.offsets| && i < |w.plain|
  {
    w.plain[i] == PlainSpec(v, i, verify)
  }

  /** The chunks read once chunk i was asked for: the cached chunk is not read again. */
  ghost function Loading(v: Reader, loads: seq<nat>, cache: Cache, i: nat): seq<nat> {
    if i == cache.index then loads else loads + ReadsOf(v, i)
  }

  method Load(v: Reader, verify: bool, cache: Cache, i: nat, ghost w: Tape) returns (ok: bool, next: Cache)
    requires Plays(v, verify, w) && CacheOk(v, w, cache) && i < |v.chunks|
    modifies v.log
    ensures v.log.fetched == Loading(v, old(v.log.fetched), cache, i) && (ok && i != cache.index ==> !LockedOut(v))
    ensures ok ==> next.index == i && CacheOk(v, w, next) && (cache.index == i ==> next == cache)
    ensures v.src.stable ==> (ok <==> w.plain[i].Some?)
  {
    if i == cache.index {
      return true, cache;
    }
    var data := PlainChunkBytes(v, i, verify);
    assert PlaysAt(v, verify, w, i);
    if data.None? {
      return false, cache;
    }
    assert v.prefix[i + 1] == v.prefix[i] + v.chunks[i].pb;
    return true, Cache(i, data.value);
  }

  /** The chunk that covers the offset, in the cache when it loads. */
  method LoadAt(v: Reader, verify: bool, cache: Cache, off: int, ghost w: Tape) returns (ok: bool, i: nat, next: Cache)
    requires Plays(v, verify, w) && CacheOk(v, w, cache) && 0 <= off < w.Total()
    modifies v.log
    ensures i < |w.plain| && CoversOffset(w.prefix, i, off)
    ensures v.log.fetched == Loading(v, old(v.log.fetched), cache, i) && (ok && i != cache.index ==> !LockedOut(v))
    ensures ok ==> next.index == i && CacheOk(v, w, next) && (cache.index == i ==> next == cache)
    ensures v.src.stable ==> (ok <==> w.plain[i].Some?)
  {
    i := ChunkFor(v.prefix, off);
    ok, next := Load(v, verify, cache, i, w);
  }

  ghost predicate Increasing(s: seq<nat>) { forall i, j :: 0 <= i < j < |s| ==> s[i] < s[j] }

  /** The chunks loaded so far ascend and end with the cached one, which starts at or before the offset. */
  ghost predicate LoadedUpTo(w: Tape, loads: seq<nat>, cache: Cache, off: int) {
    && Increasing(loads)
    && (cache.index == -1 <==> loads == [])
    && (loads != [] ==> loads[|loads| - 1] == cache.index)
    && (0 <= cache.index < |w.prefix| ==> w.prefix[cache.index] <= off)
  }

  ghost predicate LoadedIff(w: Tape, before: seq<nat>, loads: seq<nat>, start: int, off: int, c: nat)
    requires c + 1 < |w.prefix|
  {
    c in loads <==> c in before || w.Overlaps(start, off, c)
  }

  /** The chunks loaded are exactly the chunks the stretch [start, off) touches, on top of earlier ones. */
  ghost predicate LoadedFor(w: Tape, before: seq<nat>, loads: seq<nat>, start: int, off: int) {
    forall c :: 0 <= c < |w.prefix| - 1 ==> LoadedIff(w, before, loads, start, off, c)
  }

  ghost predicate LoadedOnlyIf(w: Tape, before: seq<nat>, loads: seq<nat>, start: int, end: int, c: nat)
    requires c + 1 < |w.prefix|
  {
    c in loads ==> c in before || w.Overlaps(start, end, c)
  }

  /** Nothing was loaded that the stretch does not touch. */
  ghost predicate LoadedWithin(w: Tape, before: seq<nat>, loads: seq<nat>, start: int, end: int) {
    forall c :: 0 <= c < |w.prefix| - 1 ==> LoadedOnlyIf(w, before, loads, start, end, c)
  }

  lemma LoadOne(w: Tape, before: seq<nat>, loads: seq<nat>, start: int, off: int, i: nat, n: int)
    requires w.Valid() && LoadedFor(w, before, loads, start, off) && i < |w.plain|
    requires start <= off && CoversOffset(w.prefix, i, off) && 0 < n <= w.prefix[i + 1] - off
    ensures i in loads ==> LoadedFor(w, before, loads, start, off + n)
    ensures LoadedFor(w, before, loads + [i], start, off + n)
  {
    var next, more := off + n, loads + [i];
    forall c | 0 <= c < |w.plain|
      ensures i in loads ==> LoadedIff(w, before, loads, start, next, c)
      ensures LoadedIff(w, before, more, start, next, c)
    {
      assert LoadedIff(w, before, loads, start, off, c);
      OneMoreChunk(w, start, off, i, n, c);
    }
  }

  lemma IntactOneMore(w: Tape, start: int, off: int, i: nat, n: int)
    requires w.Valid() && w.Intact(start, off) && i < |w.plain| && CoversOffset(w.prefix, i, off)
    requires start <= off && 0 < n <= w.prefix[i + 1] - off && w.plain[i].Some?
    ensures w.Intact(start, off + n)
  {
    forall c | 0 <= c < |w.plain| && w.Overlaps(start, off + n, c) ensures w.plain[c].Some? {
      OneMoreChunk(w, start, off, i, n, c);
    }
  }

  // ---------- Walking one range ----------

  /** The stretch [start, off) has been written. */
  ghost predicate Walked(v: Reader, w: Tape, start: int, off: int, out: Bytes)
    requires w.Valid()
  {
    && 0 <= start <= off <= w.Total() && |out| == off - start
    && (v.src.stable ==> w.Intact(start, off) && out == w.cut(start, off))
  }

  lemma WalkStarts(v: Reader, w: Tape, start: int)
    requires w.Valid() && 0 <= start <= w.Total()
    ensures Walked(v, w, start, start, [])
  {
    CutsJoin(w, start, start, start);
  }

  lemma WalkOn(v: Reader, w: Tape, start: int, off: int, out: Bytes, i: nat, data: Bytes, n: int)
    requires w.Valid() && Walked(v, w, start, off, out) && i < |w.plain| && CoversOffset(w.prefix, i, off)
    requires |data| == w.prefix[i + 1] - w.prefix[i] && (v.src.stable ==> w.plain[i] == Some(data))
    requires 0 < n <= w.prefix[i + 1] - off
    ensures Walked(v, w, start, off + n, out + data[off - w.prefix[i]..off - w.prefix[i] + n])
  {
    assert w.prefix[i + 1] <= w.Total();
    if v.src.stable {
      IntactOneMore(w, start, off, i, n);
      PieceOfStream(w, i, off, n);
      CutsJoin(w, start, off, off + n);
    }
  }

  /** The first chunk that does not load decides the walk. */
  lemma WalkStops(w: Tape, start: int, off: int, end: int, i: nat)
    requires w.Valid() && 0 <= start <= off < end <= w.Total() && i < |w.plain|
    requires CoversOffset(w.prefix, i, off) && w.plain[i].None?
    ensures !w.Intact(start, end)
    ensures w.cut(start, off) <= w.cut(start, end)
  {
    assert w.Overlaps(start, end, i);
    CutsJoin(w, start, off, end);
  }

  /** Where a walk that began at start with these loads and this cache stands. */
  ghost predicate WalkedTo(v: Reader, w: Tape, start: int, off: int, out: Bytes, before: seq<nat>, loads: seq<nat>, cache: Cache)
    requires w.Valid()
  {
    && Walked(v, w, start, off, out) && CacheOk(v, w, cache)
    && LoadedFor(w, before, loads, start, off) && (cache.index == -1 || cache.index in loads)
  }

  lemma LoadedInOrder(v: Reader, w: Tape, loads: seq<nat>, cache: Cache, off: int, i: nat)
    requires Nondecreasing(w.prefix) && LoadedUpTo(w, loads, cache, off) && i + 1 < |w.prefix|
    requires CoversOffset(w.prefix, i, off) && -1 <= cache.index < |w.prefix|
    ensures Increasing(Loading(v, loads, cache, i))
  {
    if cache.index != -1 {
      assert w.prefix[cache.index] < w.prefix[i + 1];
    }
  }

  /** A failed load adds at most the chunk that was asked for. */
  lemma LoadedShort(v: Reader, w: Tape, before: seq<nat>, loads: seq<nat>, start: int, off: int, cache: Cache, i: nat, end: int)
    requires w.Valid() && LoadedFor(w, before, loads, start, off) && i < |w.plain|
    requires start <= off < end && CoversOffset(w.prefix, i, off)
    ensures LoadedWithin(w, before, Loading(v, loads, cache, i), start, end)
  {
    var more := Loading(v, loads, cache, i);
    forall c | 0 <= c < |w.plain| ensures LoadedOnlyIf(w, before, more, start, end, c) {
      assert LoadedIff(w, before, loads, start, off, c);
    }
  }

  lemma StepOn(v: Reader, w: Tape, start: int, off: int, out: Bytes, before: seq<nat>, loads: seq<nat>, cache: Cache,
               i: nat, next: Cache, n: int)
    requires w.Valid() && i < |w.plain| && WalkedTo(v, w, start, off, out, before, loads, cache)
    requires CoversOffset(w.prefix, i, off) && 0 < n <= w.prefix[i + 1] - off && next.index == i && CacheOk(v, w, next)
    requires i == cache.index || !LockedOut(v)
    ensures WalkedTo(v, w, start, off + n, out + next.data[off - w.prefix[i]..off - w.prefix[i] + n],
                     before, Loading(v, loads, cache, i), next)
    ensures LoadedUpTo(w, loads, cache, off) ==> LoadedUpTo(w, Loading(v, loads, cache, i), next, off + n)
  {
    WalkOn(v, w, start, off, out, i, next.data, n);
    LoadOne(w, before, loads, start, off, i, n);
    if LoadedUpTo(w, loads, cache, off) {
      LoadedInOrder(v, w, loads, cache, off, i);
    }
  }

  lemma WalkFails(v: Reader, w: Tape, span: Range, off: int, out: Bytes, before: seq<nat>, loads: seq<nat>, cache: Cache, i: nat)
    requires w.Valid() && i < |w.plain| && WalkedTo(v, w, span.start, off, out, before, loads, cache)
    requires off < span.end <= w.Total() && CoversOffset(w.prefix, i, off) && (v.src.stable ==> w.plain[i].None?)
    ensures v.src.stable ==> !w.Intact(span.start, span.end) && out <= w.cut(span.start, span.end)
    ensures LoadedWithin(w, before, Loading(v, loads, cache, i), span.start, span.end)
    ensures LoadedUpTo(w, loads, cache, off) ==> Increasing(Loading(v, loads, cache, i))
  {
    if v.src.stable {
      WalkStops(w, span.start, off, span.end, i);
    }
    LoadedShort(v, w, before, loads, span.start, off, cache, i, span.end);
    if LoadedUpTo(w, loads, cache, off) {
      LoadedInOrder(v, w, loads, cache, off, i);
    }
  }

  /** One turn of the loop: find the chunk, load it unless cached, take what the range needs of it. */
  method WalkStep(v: Reader, verify: bool, span: Range, off: int, out: Bytes, cache: Cache,
                  ghost before: seq<nat>, ghost loads: seq<nat>, ghost base: seq<nat>, ghost w: Tape)
    returns (ok: bool, n: int, piece: Bytes, next: Cache, ghost after: seq<nat>)
    requires Plays(v, verify, w) && RangeOk(span.start, span.end, w.Total()) && off < span.end
    requires WalkedTo(v, w, span.start, off, out, before, loads, cache) && v.log.fetched == base + loads
    modifies v.log
    ensures v.log.fetched == base + after
    ensures ok ==> 0 < n <= span.end - off && WalkedTo(v, w, span.start, off + n, out + piece, before, after, next)
    ensures ok && LoadedUpTo(w, loads, cache, off) ==> LoadedUpTo(w, after, next, off + n)
    ensures !ok && v.src.stable ==> !w.Intact(span.start, span.end) && out <= w.cut(span.start, span.end)
    ensures !ok ==> LoadedWithin(w, before, after, span.start, span.end) && (LoadedUpTo(w, loads, cache, off) ==> Increasing(after))
  {
    var i;
    ok, i, next := LoadAt(v, verify, cache, off, w);
    after := Loading(v, loads, cache, i);
    assert (base + loads) + ReadsOf(v, i) == base + (loads + ReadsOf(v, i));
    if !ok {
      WalkFails(v, w, span, off, out, before, loads, cache, i);
      return false, 0, [], next, after;
    }
    var within := off - v.prefix[i];
    n := Min(|next.data| - within, span.end - off);
    piece := next.data[within..within + n];
    StepOn(v, w, span.start, off, out, before, loads, cache, i, next, n);
  }

  method WalkRange(v: Reader, verify: bool, span: Range, cache: Cache, ghost loads: seq<nat>, ghost base: seq<nat>, ghost w: Tape)
    returns (out: Bytes, ok: bool, next: Cache, ghost after: seq<nat>)
    requires Plays(v, verify, w) && CacheOk(v, w, cache) && RangeOk(span.start, span.end, w.Total())
    requires (cache.index == -1 || cache.index in loads) && v.log.fetched == base + loads
    modifies v.log
    ensures v.log.fetched == base + after
    ensures v.src.stable ==> (ok <==> w.Intact(span.start, span.end))
    ensures v.src.stable ==> out <= w.cut(span.start, span.end)
    ensures ok ==> WalkedTo(v, w, span.start, span.end, out, loads, after, next)
    ensures ok && LoadedUpTo(w, loads, cache, span.start) ==> LoadedUpTo(w, after, next, span.end)
    ensures !ok ==> LoadedWithin(w, loads, after, span.start, span.end)
    ensures !ok && LoadedUpTo(w, loads, cache, span.start) ==> Increasing(after)
  {
    var off := span.start;
    out, next, after := [], cache, loads;
    WalkStarts(v, w, off);
    while off < span.end
      invariant off <= span.end && WalkedTo(v, w, span.start, off, out, loads, after, next)
      invariant LoadedUpTo(w, loads, cache, span.start) ==> LoadedUpTo(w, after, next, off)
      invariant v.log.fetched == base + after
    {
      var loaded, n, piece, kept;
      ghost var more;
      loaded, n, piece, kept, more := WalkStep(v, verify, span, off, out, next, loads, after, base, w);
      if !loaded {
        return out, false, next, more;
      }
      out, next, off, after := out + piece, kept, off + n, more;
    }
    ok := true;
  }

  // ---------- The whole selection ----------

  ghost predicate LoadedIffTouched(w: Tape, ranges: seq<Range>, n: nat, loads: seq<nat>, c: nat)
    requires n <= |ranges| && c + 1 < |w.prefix|
  {
    c in loads <==> Touched(w, ranges, n, c)
  }

  /** The first n ranges are done: their chunks, and no others, were loaded. */
  ghost predicate LoadsDone(w: Tape, ranges: seq<Range>, n: nat, loads: seq<nat>)
    requires n <= |ranges|
  {
    forall c :: 0 <= c < |w.prefix| - 1 ==> LoadedIffTouched(w, ranges, n, loads, c)
  }

  lemma LoadsNext(w: Tape, ranges: seq<Range>, k: nat, loads: seq<nat>, after: seq<nat>)
    requires k < |ranges| && LoadsDone(w, ranges, k, loads)
    requires LoadedFor(w, loads, after, ranges[k].start, ranges[k].end)
    ensures LoadsDone(w, ranges, k + 1, after)
  {
    var n := k + 1;
    forall c | 0 <= c < |w.prefix| - 1 ensures LoadedIffTouched(w, ranges, n, after, c) {
      assert LoadedIffTouched(w, ranges, k, loads, c) && LoadedIff(w, loads, after, ranges[k].start, ranges[k].end, c);
      assert TouchedBy(w, ranges, k, c) <==> w.Overlaps(ranges[k].start, ranges[k].end, c);
    }
  }

  ghost predicate LoadedOnlyTouched(w: Tape, ranges: seq<Range>, loads: seq<nat>, c: nat)
    requires c + 1 < |w.prefix|
  {
    c in loads ==> Touched(w, ranges, |ranges|, c)
  }

  /** Range k failed: what was loaded by then is touched by some range. */
  lemma LoadsEnd(w: Tape, ranges: seq<Range>, k: nat, loads: seq<nat>, after: seq<nat>)
    requires k < |ranges| && LoadsDone(w, ranges, k, loads)
    requires LoadedWithin(w, loads, after, ranges[k].start, ranges[k].end)
    ensures forall c :: 0 <= c < |w.prefix| - 1 ==> LoadedOnlyTouched(w, ranges, after, c)
  {
    forall c | 0 <= c < |w.prefix| - 1 ensures LoadedOnlyTouched(w, ranges, after, c) {
      assert LoadedIffTouched(w, ranges, k, loads, c) && LoadedOnlyIf(w, loads, after, ranges[k].start, ranges[k].end, c);
      assert TouchedBy(w, ranges, k, c) <==> w.Overlaps(ranges[k].start, ranges[k].end, c);
    }
  }

  ghost predicate AllIntact(w: Tape, ranges: seq<Range>, n: nat)
    requires |w.prefix| == |w.plain| + 1 && n <= |ranges|
  {
    forall k :: 0 <= k < n ==> w.Intact(ranges[k].start, ranges[k].end)
  }

  /** The bytes of ranges k up to n. */
  function BytesAfter<T>(cut: (int, int) -> seq<T>, ranges: seq<Range>, k: nat, n: nat): seq<T>
    requires k <= n <= |ranges|
  {
    if k == n then [] else BytesAfter(cut, ranges, k, n - 1) + cut(ranges[n - 1].start, ranges[n - 1].end)
  }

  lemma {:induction false} BytesSplit<T>(cut: (int, int) -> seq<T>, ranges: seq<Range>, k: nat, n: nat)
    requires k <= n <= |ranges|
    ensures RangeBytes(cut, ranges, n) == RangeBytes(cut, ranges, k) + BytesAfter(cut, ranges, k, n)
  {
    if k == n {
      ConcatEmpty(RangeBytes(cut, ranges, k));
    } else {
      BytesSplit(cut, ranges, k, n - 1);
      ConcatAssociative(RangeBytes(cut, ranges, k), BytesAfter(cut, ranges, k, n - 1),
                        cut(ranges[n - 1].start, ranges[n - 1].end));
    }
  }

  /** The first k ranges have been written, and the loads are theirs. */
  ghost predicate Streamed(v: Reader, w: Tape, ranges: seq<Range>, k: nat, out: Bytes, loads: seq<nat>, cache: Cache)
    requires w.Valid() && k <= |ranges|
  {
    && CacheOk(v, w, cache) && (cache.index == -1 || cache.index in loads) && LoadsDone(w, ranges, k, loads)
    && (v.src.stable ==> out == RangeBytes(w.cut, ranges, k) && AllIntact(w, ranges, k))
    && (Ascending(ranges) ==> LoadedUpTo(w, loads, cache, if k == 0 then 0 else ranges[k - 1].end))
  }

  lemma StreamedNext(v: Reader, w: Tape, ranges: seq<Range>, k: nat, out: Bytes, loads: seq<nat>, cache: Cache,
                     piece: Bytes, after: seq<nat>, kept: Cache)
    requires w.Valid() && k < |ranges| && Streamed(v, w, ranges, k, out, loads, cache)
    requires WalkedTo(v, w, ranges[k].start, ranges[k].end, piece, loads, after, kept)
    requires LoadedUpTo(w, loads, cache, ranges[k].start) ==> LoadedUpTo(w, after, kept, ranges[k].end)
    ensures Streamed(v, w, ranges, k + 1, out + piece, after, kept)
  {
    LoadsNext(w, ranges, k, loads, after);
    if Ascending(ranges) && k > 0 {
      assert ranges[k - 1].end <= ranges[k].start;
    }
  }

  lemma StreamedStart(v: Reader, w: Tape, ranges: seq<Range>, k: nat, out: Bytes, loads: seq<nat>, cache: Cache)
    requires w.Valid() && k < |ranges| && Streamed(v, w, ranges, k, out, loads, cache) && ranges[k].start >= 0
    ensures Ascending(ranges) ==> LoadedUpTo(w, loads, cache, ranges[k].start)
  {
    if Ascending(ranges) && k > 0 {
      assert ranges[k - 1].end <= ranges[k].start;
    }
  }

  lemma StreamedShort<T>(cut: (int, int) -> seq<T>, ranges: seq<Range>, k: nat, piece: seq<T>)
    requires k < |ranges| && piece <= cut(ranges[k].start, ranges[k].end)
    ensures RangeBytes(cut, ranges, k) + piece <= RangeBytes(cut, ranges, |ranges|)
  {
    BytesSplit(cut, ranges, k + 1, |ranges|);
    PrefixInside(RangeBytes(cut, ranges, k), piece, cut(ranges[k].start, ranges[k].end),
                 BytesAfter(cut, ranges, k + 1, |ranges|));
  }

  method WalkRanges(v: Reader, verify: bool, ranges: seq<Range>, ghost w: Tape)
    returns (out: Bytes, ok: bool, ghost loads: seq<nat>)
    requires Plays(v, verify, w) && RangesOk(w.Total(), ranges)
    modifies v.log
    ensures v.log.fetched == old(v.log.fetched) + loads
    ensures v.src.stable ==> (ok <==> AllIntact(w, ranges, |ranges|)) && out <= RangeBytes(w.cut, ranges, |ranges|)
    ensures v.src.stable && ok ==> out == RangeBytes(w.cut, ranges, |ranges|)
    ensures if ok then LoadsDone(w, ranges, |ranges|, loads)
            else forall c :: 0 <= c < |w.prefix| - 1 ==> LoadedOnlyTouched(w, ranges, loads, c)
    ensures Ascending(ranges) ==> Increasing(loads)
  {
    var cache := Cache(-1, []);
    out, loads := [], [];
    for k := 0 to |ranges|
      invariant Streamed(v, w, ranges, k, out, loads, cache) && v.log.fetched == old(v.log.fetched) + loads
    {
      var piece, loaded, kept;
      ghost var after;
      piece, loaded, kept, after := WalkRange(v, verify, ranges[k], cache, loads, old(v.log.fetched), w);
      if !loaded {
        LoadsEnd(w, ranges, k, loads, after);
        StreamedStart(v, w, ranges, k, out, loads, cache);
        if v.src.stable {
          StreamedShort(w.cut, ranges, k, piece);
        }
        return out + piece, false, after;
      }
      StreamedNext(v, w, ranges, k, out, loads, cache, piece, after, kept);
      out, cache, loads := out + piece, kept, after;
    }
    ok := true;
  }

  ghost predicate NeededLoad(w: Tape, entries: seq<FileEntry>, wanted: set<string>)
    requires |w.prefix| == |w.plain| + 1
  {
    forall c :: 0 <= c < |w.plain| && Needed(w, entries, wanted, |entries|, c) ==> w.plain[c].Some?
  }

  lemma IntactIffNeededLoad(w: Tape, entries: seq<FileEntry>, wanted: set<string>, ranges: seq<Range>)
    requires |w.prefix| == |w.plain| + 1 && Merged(w, entries, wanted, |entries|, ranges)
    ensures AllIntact(w, ranges, |ranges|) <==> NeededLoad(w, entries, wanted)
  {
    forall c | 0 <= c < |w.plain| ensures Needed(w, entries, wanted, |entries|, c) <==> Touched(w, ranges, |ranges|, c) {
      assert TouchedIffNeeded(w, entries, wanted, |entries|, ranges, c);
    }
    if NeededLoad(w, entries, wanted) {
      forall k, c | 0 <= k < |ranges| && 0 <= c < |w.plain| && w.Overlaps(ranges[k].start, ranges[k].end, c)
        ensures w.plain[c].Some?
      {
        assert TouchedBy(w, ranges, k, c);
      }
    }
  }

  /** A chunk that no wanted entry has bytes in is not read. */
  ghost predicate LoadedOnlyNeeded(v: Reader, check: bool, entries: seq<FileEntry>, wanted: set<string>, loads: seq<nat>, c: nat)
    requires v.Laid() && c < |v.chunks|
  {
    c in loads ==> Needed(TapeOf(v, MustVerify(v, check)), entries, wanted, |entries|, c)
  }

  /** The selected entries as a tar: their records in archive order, then a fresh trailer. */
  method StreamSelectedTar(v: Reader, entries: seq<FileEntry>, wanted: set<string>, check: bool)
    returns (out: Bytes, ok: bool, ghost loads: seq<nat>)
    requires v.Laid()
    modifies v.log
    ensures v.log.fetched == old(v.log.fetched) + loads
    ensures v.src.stable ==>
              var w := TapeOf(v, MustVerify(v, check));
              && (ok <==> WantedRangesOk(entries, wanted, w.ContentEnd(), |entries|) && NeededLoad(w, entries, wanted))
              && (ok ==> out == WantedRecords(w, entries, wanted, |entries|) + Zeros(TRAILER))
              && (!ok ==> out <= WantedRecords(w, entries, wanted, |entries|))
    ensures forall c :: 0 <= c < |v.chunks| ==> LoadedOnlyNeeded(v, check, entries, wanted, loads, c)
    ensures ok ==> forall c :: 0 <= c < |v.chunks| ==>
                (c in loads <==> Needed(TapeOf(v, MustVerify(v, check)), entries, wanted, |entries|, c))
    ensures GrowingOffsets(entries) ==> Increasing(loads)
  {
    var verify := MustVerify(v, check);
    ghost var w := TapeOf(v, verify);
    TapeValid(v, verify);
    var total := v.prefix[|v.prefix| - 1];
    var contentEnd := if total >= TRAILER then total - TRAILER else total;
    var ranges := MergeRanges(contentEnd, entries, wanted, w);
    if ranges.None? {
      return [], false, [];
    }
    out, ok, loads := WalkRanges(v, verify, ranges.value, w);
    IntactIffNeededLoad(w, entries, wanted, ranges.value);
    forall c | 0 <= c < |v.chunks| ensures LoadedOnlyNeeded(v, check, entries, wanted, loads, c) {
      assert ok ==> LoadedIffTouched(w, ranges.value, |ranges.value|, loads, c);
      assert !ok ==> LoadedOnlyTouched(w, ranges.value, loads, c);
      assert TouchedIffNeeded(w, entries, wanted, |entries|, ranges.value, c);
    }
    if ok {
      forall c | 0 <= c < |v.chunks| ensures c in loads <==> Needed(w, entries, wanted, |entries|, c) {
        assert LoadedIffTouched(w, ranges.value, |ranges.value|, loads, c);
        assert TouchedIffNeeded(w, entries, wanted, |entries|, ranges.value, c);
      }
      out := out + Zeros(TRAILER);
    }
  }
}
