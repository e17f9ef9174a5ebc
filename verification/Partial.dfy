/** Recovery from a damaged backup: every entry whose chunks all load is written whole, the others are named. */
module Partial {
  import opened Common
  import opened Ordering
  import opened Metadata
  import opened Primitives
  import opened Limits
  import opened Entries
  import opened Recovery
  import opened Search
  import opened Ranges
  import opened Selective
  import opened Traces
  import Open = Backup

  const SKIPPED_PATHS_CAP := 50

  /** A cause is the error of one failed load; here it is the chunk the error speaks of. */
  datatype PartialReport = PartialReport(entries: nat, skipped: nat, badChunks: seq<nat>, skippedPaths: seq<string>, causes: seq<nat>)

  /** What became of one entry: written whole, dropped before a byte of it, or cut short by a source that changed. */
  datatype Outcome = Written(out: Bytes) | Dropped | Broken(out: Bytes)

  // ---------- Remembering damaged chunks ----------

  ghost predicate BadOk(v: Reader, w: Tape, bad: set<nat>, causes: seq<nat>) {
    && NoDuplicates(causes) && (forall c :: c in bad <==> c in causes)
    && forall c :: c in bad ==> c < |w.plain| && (v.src.stable ==> w.plain[c].None?)
  }

  /** Chunk c is the first damaged one in the stretch. */
  ghost predicate FirstDamaged(w: Tape, start: int, end: int, c: nat) {
    && |w.prefix| == |w.plain| + 1 && c < |w.plain| && w.Overlaps(start, end, c) && w.plain[c].None?
    && forall d :: 0 <= d < c && w.Overlaps(start, end, d) ==> w.plain[d].Some?
  }

  /** The walk gave up at chunk c. */
  ghost predicate StopsAt(v: Reader, w: Tape, start: int, end: int, c: nat) {
    && c + 1 < |w.prefix| && w.Overlaps(start, end, c)
    && (v.src.stable ==> FirstDamaged(w, start, end, c))
  }

  lemma FirstToFail(v: Reader, w: Tape, start: int, off: int, end: int, c: nat, out: Bytes)
    requires w.Valid() && Walked(v, w, start, off, out) && off < end <= w.Total()
    requires c < |w.plain| && CoversOffset(w.prefix, c, off) && (v.src.stable ==> w.plain[c].None?)
    ensures StopsAt(v, w, start, end, c)
    ensures v.src.stable ==> !w.Intact(start, end)
  {
    assert w.Overlaps(start, end, c);
    if v.src.stable {
      forall d | 0 <= d < c && w.Overlaps(start, end, d) ensures w.plain[d].Some? {
        assert w.prefix[d + 1] <= w.prefix[c];
        assert w.Overlaps(start, off, d);
      }
    }
  }

  /** A pass over [start, off) that has met no chunk it could not load; these are the bytes it saw. */
  ghost predicate Passing(v: Reader, w: Tape, from: Trace, start: int, off: int, walked: Bytes, t: Trace)
    requires w.Valid()
  {
    Walked(v, w, start, off, walked) && t.bad == from.bad && (v.src.stable ==> Toured(v, w, from, start, off, t))
  }

  /** A pass that gave up at the chunk. */
  ghost predicate Stopped(v: Reader, w: Tape, from: Trace, start: int, end: int, t: Trace, stop: nat)
    requires w.Valid()
  {
    && StopsAt(v, w, start, end, stop) && t.bad == from.bad + {stop}
    && (v.src.stable ==> !w.Intact(start, end) && Fell(v, w, from, start, end, t))
  }

  lemma PassStarts(v: Reader, w: Tape, t: Trace, start: int)
    requires w.Valid() && 0 <= start <= w.Total()
    ensures Passing(v, w, t, start, start, [], t)
  {
    WalkStarts(v, w, start);
    TourStarts(v, w, t, start);
  }

  /** Chunk i covers the offset and was loaded; the piece is what [off, end) needs of it. */
  ghost predicate Loaded(v: Reader, w: Tape, t: Trace, off: int, end: int, i: nat, data: Bytes, piece: Bytes)
    requires |w.prefix| == |w.plain| + 1 && i < |w.plain|
  {
    && CoversOffset(w.prefix, i, off) && (i == t.index || (i !in t.bad && !LockedOut(v)))
    && |data| == w.prefix[i + 1] - w.prefix[i] && (v.src.stable ==> w.plain[i] == Some(data))
    && 0 < |piece| <= end - off && off + |piece| <= w.prefix[i + 1]
    && piece == data[off - w.prefix[i]..off - w.prefix[i] + |piece|]
  }

  ghost predicate Unloaded(v: Reader, w: Tape, t: Trace, off: int, i: nat)
    requires |w.prefix| == |w.plain| + 1 && i < |w.plain|
  {
    CoversOffset(w.prefix, i, off) && i != t.index && (v.src.stable ==> w.plain[i].None?)
  }

  lemma PassOn(v: Reader, w: Tape, from: Trace, start: int, off: int, end: int, walked: Bytes, t: Trace, i: nat, data: Bytes, piece: Bytes)
    requires w.Valid() && Passing(v, w, from, start, off, walked, t) && i < |w.plain| && Loaded(v, w, t, off, end, i, data, piece)
    ensures Passing(v, w, from, start, off + |piece|, walked + piece, Asked(v, t, i, true))
  {
    WalkOn(v, w, start, off, walked, i, data, |piece|);
    if v.src.stable {
      TourOn(v, w, from, start, off, t, i, |piece|);
    }
  }

  lemma PassStops(v: Reader, w: Tape, from: Trace, start: int, off: int, end: int, walked: Bytes, t: Trace, i: nat)
    requires w.Valid() && Passing(v, w, from, start, off, walked, t) && i < |w.plain| && Unloaded(v, w, t, off, i)
    requires off < end <= w.Total()
    ensures Stopped(v, w, from, start, end, Asked(v, t, i, false), i)
  {
    FirstToFail(v, w, start, off, end, i, walked);
    if v.src.stable {
      TourEnds(v, w, from, start, off, end, t, i);
    }
  }

  /** The second pass of an entry whose first pass met no damage. */
  lemma TwicePassed(v: Reader, w: Tape, from: Trace, start: int, end: int, mid: Trace, ok: bool, out: Bytes, to: Trace, stop: nat)
    requires w.Valid() && RangeOk(start, end, w.Total()) && exists walked :: Passing(v, w, from, start, end, walked, mid)
    requires if ok then Passing(v, w, mid, start, end, out, to) else Stopped(v, w, mid, start, end, to, stop)
    ensures ok ==> Walked(v, w, start, end, out) && to.bad == from.bad
    ensures v.src.stable ==> ok && w.Intact(start, end) && Handled(v, w, from, start, end, to)
  {
    if v.src.stable {
      var walked :| Passing(v, w, from, start, end, walked, mid);
      assert w.Intact(start, end);
      TwoPasses(v, w, from, start, end, mid, to);
    }
  }

  /** The cache, the damaged chunks and the causes that the loader carries from entry to entry. */
  class Salvage {
    var cache: Cache
    var bad: set<nat>
    var causes: seq<nat>
    ghost const before: seq<nat>
    ghost var log: seq<nat>

    constructor (ghost already: seq<nat>)
      ensures cache.index == -1 && bad == {} && causes == [] && before == already && log == []
    {
      cache, bad, causes := Cache(-1, []), {}, [];
      before, log := already, [];
    }

    /** The cache and the damaged chunks are right, and the log is what was read since the loader was made. */
    ghost predicate Tracks(v: Reader, w: Tape)
      requires w.Valid()
      reads this, v.log
    {
      CacheOk(v, w, cache) && BadOk(v, w, bad, causes) && v.log.fetched == before + log
    }

    ghost function Now(): Trace
      reads this
    {
      Trace(cache.index, bad, log)
    }

    method LoadChunk(v: Reader, verify: bool, i: nat, ghost w: Tape) returns (ok: bool)
      requires Plays(v, verify, w) && Tracks(v, w) && i < |v.chunks|
      modifies this, v.log
      ensures Tracks(v, w) && Now() == Asked(v, old(Now()), i, ok)
      ensures if ok then cache.index == i && bad == old(bad) else bad == old(bad) + {i}
      ensures if ok then i == old(cache.index) || (i !in old(bad) && !LockedOut(v)) else i != old(cache.index)
      ensures v.src.stable ==> (ok <==> w.plain[i].Some?)
    {
      if i == cache.index {
        return true;
      }
      if i in bad {
        assert bad == bad + {i};
        return false;
      }
      cache := cache.(index := -1);
      var data := PlainChunkBytes(v, i, verify);
      log := log + ReadsOf(v, i);
      assert PlaysAt(v, verify, w, i);
      if data.None? {
        bad := bad + {i};
        causes := causes + [i];
        return false;
      }
      assert v.prefix[i + 1] == v.prefix[i] + v.chunks[i].pb;
      cache := Cache(i, data.value);
      ok := true;
    }

    /** Loads the chunk that covers the offset. */
    method LoadCovering(v: Reader, verify: bool, off: int, ghost w: Tape) returns (ok: bool, i: nat)
      requires Plays(v, verify, w) && Tracks(v, w) && 0 <= off < w.Total()
      modifies this, v.log
      ensures Tracks(v, w) && Now() == Asked(v, old(Now()), i, ok)
      ensures i < |w.plain| && |v.prefix| == |w.prefix| && v.prefix[i] == w.prefix[i] && CoversOffset(w.prefix, i, off)
      ensures if ok then i == old(cache.index) || (i !in old(bad) && !LockedOut(v)) else i != old(cache.index)
      ensures ok ==> |cache.data| == w.prefix[i + 1] - w.prefix[i] && (v.src.stable ==> w.plain[i] == Some(cache.data))
      ensures !ok && v.src.stable ==> w.plain[i].None?
    {
      i := ChunkFor(v.prefix, off);
      ok := LoadChunk(v, verify, i, w);
    }

    /** The part of [off, end) that the covering chunk holds. */
    method TakePiece(v: Reader, verify: bool, off: int, end: int, ghost w: Tape) returns (ok: bool, piece: Bytes, ghost i: nat)
      requires Plays(v, verify, w) && Tracks(v, w) && 0 <= off < end <= w.Total()
      modifies this, v.log
      ensures Tracks(v, w) && Now() == Asked(v, old(Now()), i, ok) && i < |w.plain|
      ensures if ok then Loaded(v, w, old(Now()), off, end, i, cache.data, piece) else Unloaded(v, w, old(Now()), off, i)
    {
      var at;
      ok, at := LoadCovering(v, verify, off, w);
      i := at;
      piece := [];
      if ok {
        var within := off - v.prefix[at];
        piece := cache.data[within..within + Min(|cache.data| - within, end - off)];
      }
    }

    /** One turn of a pass. */
    method Step(v: Reader, verify: bool, start: int, off: int, end: int, ghost walked: Bytes, ghost from: Trace, ghost w: Tape)
      returns (ok: bool, piece: Bytes, ghost stop: nat)
      requires Plays(v, verify, w) && Tracks(v, w) && 0 <= off < end <= w.Total()
      requires Passing(v, w, from, start, off, walked, Now())
      modifies this, v.log
      ensures Tracks(v, w)
      ensures ok ==> 0 < |piece| <= end - off && Passing(v, w, from, start, off + |piece|, walked + piece, Now())
      ensures !ok ==> Stopped(v, w, from, start, end, Now(), stop)
    {
      ghost var t := Now();
      ok, piece, stop := TakePiece(v, verify, off, end, w);
      if ok {
        PassOn(v, w, from, start, off, end, walked, t, stop, cache.data, piece);
      } else {
        PassStops(v, w, from, start, off, end, walked, t, stop);
      }
    }

    /** Visits [start, end) chunk by chunk; the first pass consumes nothing, the second writes. */
    method Walk(v: Reader, verify: bool, start: int, end: int, emit: bool, ghost w: Tape)
      returns (out: Bytes, ok: bool, ghost stop: nat)
      requires Plays(v, verify, w) && Tracks(v, w) && RangeOk(start, end, w.Total())
      modifies this, v.log
      ensures Tracks(v, w) && (!emit ==> out == [])
      ensures ok ==> exists walked :: Passing(v, w, old(Now()), start, end, walked, Now()) && (emit ==> out == walked)
      ensures !ok ==> Stopped(v, w, old(Now()), start, end, Now(), stop)
    {
      var off := start;
      ghost var walked: Bytes := [];
      ghost var from := Now();
      out, stop := [], 0;
      PassStarts(v, w, from, start);
      while off < end
        invariant start <= off <= end && Passing(v, w, from, start, off, walked, Now()) && out == if emit then walked else []
        invariant Tracks(v, w)
      {
        var loaded, piece;
        loaded, piece, stop := Step(v, verify, start, off, end, walked, from, w);
        if !loaded {
          return out, false, stop;
        }
        walked := walked + piece;
        out, off := if emit then out + piece else out, off + |piece|;
      }
      ok := true;
    }

    /** First every chunk of the entry is proved to load, then the entry is written. */
    method TakeEntry(v: Reader, verify: bool, start: int, end: int, ghost w: Tape) returns (r: Outcome, ghost stop: nat)
      requires Plays(v, verify, w) && Tracks(v, w) && RangeOk(start, end, w.Total())
      modifies this, v.log
      ensures Tracks(v, w) && (v.src.stable ==> Handled(v, w, old(Now()), start, end, Now()))
      ensures r.Written? ==> bad == old(bad) && Walked(v, w, start, end, r.out)
      ensures r.Dropped? ==> StopsAt(v, w, start, end, stop) && bad == old(bad) + {stop}
      ensures v.src.stable ==> !r.Broken? && (r.Written? <==> w.Intact(start, end))
    {
      var out, ok;
      ghost var from := Now();
      out, ok, stop := Walk(v, verify, start, end, false, w);
      if !ok {
        return Dropped, stop;
      }
      ghost var mid := Now();
      out, ok, stop := Walk(v, verify, start, end, true, w);
      TwicePassed(v, w, from, start, end, mid, ok, out, Now(), stop);
      r := if ok then Written(out) else Broken(out);
    }
  }

  // ---------- What the report must say ----------

  /** No selection means every entry. */
  predicate IsWanted(entries: seq<FileEntry>, wanted: Option<set<string>>, i: nat)
    requires i < |entries|
  {
    wanted.None? || entries[i].path in wanted.value
  }

  function WantedCount(entries: seq<FileEntry>, wanted: Option<set<string>>, n: nat): nat
    requires n <= |entries|
  {
    if n == 0 then 0 else WantedCount(entries, wanted, n - 1) + if IsWanted(entries, wanted, n - 1) then 1 else 0
  }

  ghost predicate AllRangesOk(entries: seq<FileEntry>, contentEnd: int, n: nat)
    requires n <= |entries|
  {
    forall i :: 0 <= i < n ==> EntryRangeOk(entries, i, contentEnd)
  }

  predicate Below(idx: seq<nat>, n: nat) { forall k :: 0 <= k < |idx| ==> idx[k] < n }

  /** Entry i is written or dropped exactly when it is wanted; over a stable source, written exactly when intact. */
  ghost predicate PlacedAt(v: Reader, w: Tape, entries: seq<FileEntry>, wanted: Option<set<string>>, kept: seq<nat>, dropped: seq<nat>, i: nat)
    requires |w.prefix| == |w.plain| + 1 && i < |entries|
  {
    && (i in kept || i in dropped <==> IsWanted(entries, wanted, i)) && !(i in kept && i in dropped)
    && (v.src.stable && IsWanted(entries, wanted, i) ==> (i in kept <==> EntryIntact(w, entries, i)))
  }

  /** The first n entries divide, in archive order, into those written and those dropped. */
  ghost predicate Placed(v: Reader, w: Tape, entries: seq<FileEntry>, wanted: Option<set<string>>, n: nat, kept: seq<nat>, dropped: seq<nat>)
    requires |w.prefix| == |w.plain| + 1 && n <= |entries|
  {
    && Increasing(kept) && Increasing(dropped) && Below(kept, n) && Below(dropped, n)
    && |kept| + |dropped| == WantedCount(entries, wanted, n)
    && forall i :: 0 <= i < n ==> PlacedAt(v, w, entries, wanted, kept, dropped, i)
  }

  /** The records of the given entries, one after the other. */
  function Records(w: Tape, entries: seq<FileEntry>, idx: seq<nat>): seq<Bytes>
    requires |w.prefix| > 0 && Below(idx, |entries|)
  {
    seq(|idx|, k requires 0 <= k < |idx| => Record(w, entries, idx[k]))
  }

  function SamplePaths(entries: seq<FileEntry>, dropped: seq<nat>): seq<string>
    requires Below(dropped, |entries|)
  {
    seq(Min(|dropped|, SKIPPED_PATHS_CAP), k requires 0 <= k < Min(|dropped|, SKIPPED_PATHS_CAP) => entries[dropped[k]].path)
  }

  ghost predicate StopsEntry(v: Reader, w: Tape, entries: seq<FileEntry>, i: nat, c: nat)
    requires |w.prefix| > 0 && i < |entries|
  {
    StopsAt(v, w, entries[i].tarOffset, EndOf(entries, i, w.ContentEnd()), c)
  }

  ghost predicate MeetsBad(v: Reader, w: Tape, entries: seq<FileEntry>, bad: set<nat>, i: nat)
    requires |w.prefix| > 0 && i < |entries|
  {
    exists c :: c in bad && StopsEntry(v, w, entries, i, c)
  }

  ghost predicate StopsSome(v: Reader, w: Tape, entries: seq<FileEntry>, dropped: seq<nat>, c: nat)
    requires |w.prefix| > 0 && Below(dropped, |entries|)
  {
    exists i :: i in dropped && StopsEntry(v, w, entries, i, c)
  }

  /** Every dropped entry meets a reported chunk, and every reported chunk is where a dropped entry stops. */
  ghost predicate Explained(v: Reader, w: Tape, entries: seq<FileEntry>, dropped: seq<nat>, bad: set<nat>)
    requires |w.prefix| > 0 && Below(dropped, |entries|)
  {
    && (forall i :: i in dropped ==> MeetsBad(v, w, entries, bad, i))
    && (forall c :: c in bad ==> StopsSome(v, w, entries, dropped, c))
  }

  // ---------- One entry more ----------

  lemma PlaceSkip(v: Reader, w: Tape, entries: seq<FileEntry>, wanted: Option<set<string>>, n: nat, kept: seq<nat>, dropped: seq<nat>)
    requires |w.prefix| == |w.plain| + 1 && n < |entries| && Placed(v, w, entries, wanted, n, kept, dropped)
    requires !IsWanted(entries, wanted, n)
    ensures Placed(v, w, entries, wanted, n + 1, kept, dropped)
  {
    forall i | 0 <= i < n + 1 ensures PlacedAt(v, w, entries, wanted, kept, dropped, i) {
      if i < n {
        assert PlacedAt(v, w, entries, wanted, kept, dropped, i);
      }
    }
  }

  lemma PlaceKept(v: Reader, w: Tape, entries: seq<FileEntry>, wanted: Option<set<string>>, n: nat, kept: seq<nat>, dropped: seq<nat>)
    requires |w.prefix| == |w.plain| + 1 && n < |entries| && Placed(v, w, entries, wanted, n, kept, dropped)
    requires IsWanted(entries, wanted, n) && (v.src.stable ==> EntryIntact(w, entries, n))
    ensures Placed(v, w, entries, wanted, n + 1, kept + [n], dropped)
  {
    var more := kept + [n];
    forall i | 0 <= i < n + 1 ensures PlacedAt(v, w, entries, wanted, more, dropped, i) {
      if i < n {
        assert PlacedAt(v, w, entries, wanted, kept, dropped, i);
      }
    }
  }

  lemma PlaceDropped(v: Reader, w: Tape, entries: seq<FileEntry>, wanted: Option<set<string>>, n: nat, kept: seq<nat>, dropped: seq<nat>)
    requires |w.prefix| == |w.plain| + 1 && n < |entries| && Placed(v, w, entries, wanted, n, kept, dropped)
    requires IsWanted(entries, wanted, n) && (v.src.stable ==> !EntryIntact(w, entries, n))
    ensures Placed(v, w, entries, wanted, n + 1, kept, dropped + [n])
  {
    var more := dropped + [n];
    forall i | 0 <= i < n + 1 ensures PlacedAt(v, w, entries, wanted, kept, more, i) {
      if i < n {
        assert PlacedAt(v, w, entries, wanted, kept, dropped, i);
      }
    }
  }

  lemma RecordsSnoc(w: Tape, entries: seq<FileEntry>, idx: seq<nat>, i: nat)
    requires |w.prefix| > 0 && i < |entries| && Below(idx, |entries|)
    ensures Flatten(Records(w, entries, idx + [i])) == Flatten(Records(w, entries, idx)) + Record(w, entries, i)
  {
    assert Records(w, entries, idx + [i]) == Records(w, entries, idx) + [Record(w, entries, i)];
    FlattenSnoc(Records(w, entries, idx), Record(w, entries, i));
  }

  lemma MeetsMore(v: Reader, w: Tape, entries: seq<FileEntry>, bad: set<nat>, worse: set<nat>, i: nat)
    requires |w.prefix| > 0 && i < |entries| && MeetsBad(v, w, entries, bad, i) && bad <= worse
    ensures MeetsBad(v, w, entries, worse, i)
  {
    var c :| c in bad && StopsEntry(v, w, entries, i, c);
    assert c in worse;
  }

  lemma StopsMore(v: Reader, w: Tape, entries: seq<FileEntry>, dropped: seq<nat>, more: seq<nat>, c: nat)
    requires |w.prefix| > 0 && Below(dropped, |entries|) && Below(more, |entries|) && StopsSome(v, w, entries, dropped, c)
    requires forall i :: i in dropped ==> i in more
    ensures StopsSome(v, w, entries, more, c)
  {
    var i :| i in dropped && StopsEntry(v, w, entries, i, c);
    assert i in more;
  }

  lemma ExplainOneMore(v: Reader, w: Tape, entries: seq<FileEntry>, dropped: seq<nat>, bad: set<nat>, i: nat, c: nat)
    requires |w.prefix| > 0 && Below(dropped, |entries|) && i < |entries|
    requires Explained(v, w, entries, dropped, bad) && StopsEntry(v, w, entries, i, c)
    ensures Explained(v, w, entries, dropped + [i], bad + {c})
  {
    var more, worse := dropped + [i], bad + {c};
    assert MeetsBad(v, w, entries, worse, i) by {
      assert c in worse;
    }
    assert StopsSome(v, w, entries, more, c) by {
      assert i in more;
    }
    forall j | j in dropped ensures MeetsBad(v, w, entries, worse, j) {
      MeetsMore(v, w, entries, bad, worse, j);
    }
    forall d | d in bad ensures StopsSome(v, w, entries, more, d) {
      StopsMore(v, w, entries, dropped, more, d);
    }
  }

  // ---------- What is read ----------

  /** Entry i is wanted and every chunk it touches loads. */
  ghost predicate Survives(w: Tape, entries: seq<FileEntry>, wanted: Option<set<string>>, i: nat)
    requires |w.prefix| == |w.plain| + 1 && i < |entries|
  {
    IsWanted(entries, wanted, i) && EntryIntact(w, entries, i)
  }

  /** Entry i survives and has bytes in more than one chunk. */
  ghost predicate LongSurvivor(w: Tape, entries: seq<FileEntry>, wanted: Option<set<string>>, i: nat)
    requires |w.prefix| == |w.plain| + 1 && i < |entries|
  {
    Survives(w, entries, wanted, i) && Spread(w, entries[i].tarOffset, EndOf(entries, i, w.ContentEnd()))
  }

  ghost predicate SomeLongSurvivor(w: Tape, entries: seq<FileEntry>, wanted: Option<set<string>>, n: nat)
    requires |w.prefix| == |w.plain| + 1 && n <= |entries|
  {
    exists i :: 0 <= i < n && LongSurvivor(w, entries, wanted, i)
  }

  /** Some wanted entry among the first n has bytes in chunk c. */
  ghost predicate Called(w: Tape, entries: seq<FileEntry>, wanted: Option<set<string>>, n: nat, c: nat)
    requires n <= |entries|
  {
    c + 1 < |w.prefix| && exists i :: 0 <= i < n && IsWanted(entries, wanted, i) && NeededBy(w, entries, i, c)
  }

  /** Where entry i starts, which is where the one before it ends. */
  function StartAt(w: Tape, entries: seq<FileEntry>, i: nat): int
    requires |w.prefix| > 0
  {
    if i < |entries| then entries[i].tarOffset else w.ContentEnd()
  }

  ghost predicate ReadSoFar(v: Reader, w: Tape, entries: seq<FileEntry>, wanted: Option<set<string>>, n: nat, t: Trace)
    requires |w.prefix| == |w.plain| + 1 && n <= |entries|
  {
    && Held(t) && TriedOnce(v, w, t) && (forall c :: c in t.log ==> Called(w, entries, wanted, n, c))
    && if SomeLongSurvivor(w, entries, wanted, n) then !NoDuplicates(t.log) else Quiet(w, t, StartAt(w, entries, n))
  }

  ghost predicate HandledEntry(v: Reader, w: Tape, entries: seq<FileEntry>, i: nat, from: Trace, to: Trace)
    requires w.Valid() && i < |entries|
  {
    Handled(v, w, from, entries[i].tarOffset, EndOf(entries, i, w.ContentEnd()), to)
  }

  lemma NothingRead(v: Reader, w: Tape, entries: seq<FileEntry>, wanted: Option<set<string>>)
    requires |w.prefix| == |w.plain| + 1
    ensures ReadSoFar(v, w, entries, wanted, 0, Trace(-1, {}, []))
  {
  }

  lemma CalledMore(w: Tape, entries: seq<FileEntry>, wanted: Option<set<string>>, i: nat, c: nat)
    requires i < |entries| && Called(w, entries, wanted, i, c)
    ensures Called(w, entries, wanted, i + 1, c)
  {
  }

  lemma CalledByNext(w: Tape, entries: seq<FileEntry>, wanted: Option<set<string>>, i: nat, from: Trace, to: Trace, c: nat)
    requires i < |entries| && IsWanted(entries, wanted, i) && c in to.log && c + 1 < |w.prefix|
    requires c in from.log ==> Called(w, entries, wanted, i, c)
    requires LoadedWithin(w, from.log, to.log, entries[i].tarOffset, EndOf(entries, i, w.ContentEnd()))
    ensures Called(w, entries, wanted, i + 1, c)
  {
    assert LoadedOnlyIf(w, from.log, to.log, entries[i].tarOffset, EndOf(entries, i, w.ContentEnd()), c);
    if c !in from.log {
      assert NeededBy(w, entries, i, c);
    }
  }

  lemma LongSurvivorNext(w: Tape, entries: seq<FileEntry>, wanted: Option<set<string>>, i: nat)
    requires |w.prefix| == |w.plain| + 1 && i < |entries|
    ensures SomeLongSurvivor(w, entries, wanted, i + 1) <==> SomeLongSurvivor(w, entries, wanted, i) || LongSurvivor(w, entries, wanted, i)
  {
  }

  lemma ReadOneMore(v: Reader, w: Tape, entries: seq<FileEntry>, wanted: Option<set<string>>, i: nat, from: Trace, to: Trace)
    requires w.Valid() && i < |entries| && IsWanted(entries, wanted, i)
    requires ReadSoFar(v, w, entries, wanted, i, from) && HandledEntry(v, w, entries, i, from, to)
    ensures ReadSoFar(v, w, entries, wanted, i + 1, to)
  {
    var n := i + 1;
    forall c | c in to.log ensures Called(w, entries, wanted, n, c) {
      CalledByNext(w, entries, wanted, i, from, to, c);
    }
    LongSurvivorNext(w, entries, wanted, i);
    if SomeLongSurvivor(w, entries, wanted, i) && NoDuplicates(to.log) {
      MoreKeepsDuplicate(from.log, to.log);
    }
  }

  lemma ReadNoMore(v: Reader, w: Tape, entries: seq<FileEntry>, wanted: Option<set<string>>, i: nat, t: Trace)
    requires w.Valid() && i < |entries| && !IsWanted(entries, wanted, i) && EntryRangeOk(entries, i, w.ContentEnd())
    requires ReadSoFar(v, w, entries, wanted, i, t)
    ensures ReadSoFar(v, w, entries, wanted, i + 1, t)
  {
    var n := i + 1;
    forall c | c in t.log ensures Called(w, entries, wanted, n, c) {
      CalledMore(w, entries, wanted, i, c);
    }
    LongSurvivorNext(w, entries, wanted, i);
    if !SomeLongSurvivor(w, entries, wanted, i) {
      QuietLater(w, t, StartAt(w, entries, i), StartAt(w, entries, n));
    }
  }

  /**
   * The reads of a whole run: no chunk is read that no wanted entry has bytes in, a damaged chunk is read once and
   * never tried again, and a chunk is read twice exactly when an entry written out has bytes in more than one.
   */
  ghost predicate ReadInAll(v: Reader, w: Tape, entries: seq<FileEntry>, wanted: Option<set<string>>, bad: seq<nat>, log: seq<nat>)
    requires |w.prefix| == |w.plain| + 1
  {
    && (forall c :: c in log ==> Called(w, entries, wanted, |entries|, c))
    && (!LockedOut(v) ==> forall c :: c in bad ==> multiset(log)[c] == 1)
    && (NoDuplicates(log) <==> !SomeLongSurvivor(w, entries, wanted, |entries|))
  }

  lemma AllRead(v: Reader, w: Tape, entries: seq<FileEntry>, wanted: Option<set<string>>, bad: seq<nat>, t: Trace)
    requires |w.prefix| == |w.plain| + 1 && ReadSoFar(v, w, entries, wanted, |entries|, t) && forall c :: c in bad ==> c in t.bad
    ensures ReadInAll(v, w, entries, wanted, bad, t.log)
  {
    forall c | c in bad ensures !LockedOut(v) ==> multiset(t.log)[c] == 1 {
      assert GaveUp(v, w, t, c);
    }
  }

  // ---------- The whole archive ----------

  /** Where a run stands after the first n entries. */
  ghost predicate Progress(v: Reader, w: Tape, entries: seq<FileEntry>, wanted: Option<set<string>>, n: nat,
                           out: Bytes, kept: seq<nat>, dropped: seq<nat>, bad: set<nat>)
    requires |w.prefix| == |w.plain| + 1 && n <= |entries|
  {
    && Placed(v, w, entries, wanted, n, kept, dropped) && Below(kept, |entries|) && Below(dropped, |entries|)
    && (v.src.stable ==> out == Flatten(Records(w, entries, kept)))
    && Explained(v, w, entries, dropped, bad)
  }

  /** The counters and the sample agree with the division. */
  ghost predicate Counts(entries: seq<FileEntry>, kept: seq<nat>, dropped: seq<nat>, report: PartialReport) {
    && report.entries == |kept| && report.skipped == |dropped|
    && Below(dropped, |entries|) && report.skippedPaths == SamplePaths(entries, dropped)
  }

  lemma ProgressStarts(v: Reader, w: Tape, entries: seq<FileEntry>, wanted: Option<set<string>>)
    requires |w.prefix| == |w.plain| + 1
    ensures Progress(v, w, entries, wanted, 0, [], [], [], {})
    ensures Counts(entries, [], [], PartialReport(0, 0, [], [], []))
  {
    assert Records(w, entries, []) == [];
  }

  lemma ProgressKept(v: Reader, w: Tape, entries: seq<FileEntry>, wanted: Option<set<string>>, n: nat,
                     out: Bytes, kept: seq<nat>, dropped: seq<nat>, bad: set<nat>, piece: Bytes)
    requires w.Valid() && n < |entries| && Progress(v, w, entries, wanted, n, out, kept, dropped, bad)
    requires IsWanted(entries, wanted, n)
    requires Walked(v, w, entries[n].tarOffset, EndOf(entries, n, w.ContentEnd()), piece)
    ensures Progress(v, w, entries, wanted, n + 1, out + piece, kept + [n], dropped, bad)
  {
    PlaceKept(v, w, entries, wanted, n, kept, dropped);
    RecordsSnoc(w, entries, kept, n);
  }

  lemma ProgressDropped(v: Reader, w: Tape, entries: seq<FileEntry>, wanted: Option<set<string>>, n: nat,
                        out: Bytes, kept: seq<nat>, dropped: seq<nat>, bad: set<nat>, stop: nat)
    requires w.Valid() && n < |entries| && Progress(v, w, entries, wanted, n, out, kept, dropped, bad)
    requires IsWanted(entries, wanted, n) && StopsEntry(v, w, entries, n, stop)
    requires v.src.stable ==> !EntryIntact(w, entries, n)
    ensures Progress(v, w, entries, wanted, n + 1, out, kept, dropped + [n], bad + {stop})
  {
    PlaceDropped(v, w, entries, wanted, n, kept, dropped);
    ExplainOneMore(v, w, entries, dropped, bad, n, stop);
  }

  /** The report after dropping one more path. */
  function Skipping(report: PartialReport, path: string): PartialReport {
    report.(skipped := report.skipped + 1,
            skippedPaths := if |report.skippedPaths| < SKIPPED_PATHS_CAP then report.skippedPaths + [path] else report.skippedPaths)
  }

  lemma CountsDropped(entries: seq<FileEntry>, kept: seq<nat>, dropped: seq<nat>, report: PartialReport, n: nat)
    requires Counts(entries, kept, dropped, report) && n < |entries|
    ensures Counts(entries, kept, dropped + [n], Skipping(report, entries[n].path))
  {
    assert SamplePaths(entries, dropped + [n])
        == if |dropped| < SKIPPED_PATHS_CAP then SamplePaths(entries, dropped) + [entries[n].path] else SamplePaths(entries, dropped);
  }

  /** The damaged chunks as a sorted list. */
  method ListOf(bad: set<nat>, causes: seq<nat>) returns (list: seq<nat>)
    requires NoDuplicates(causes) && forall c :: c in bad <==> c in causes
    ensures Increasing(list) && (forall c :: c in list <==> c in bad)
    ensures multiset(list) == multiset(causes)
  {
    var keys: seq<nat>, rest := [], bad;
    while rest != {}
      invariant rest <= bad && NoDuplicates(keys) && forall c :: c in keys <==> c in bad - rest
      decreases rest
    {
      var c :| c in rest;
      assert c !in bad - rest && c !in keys;
      keys, rest := keys + [c], rest - {c};
    }
    var less := (a: nat, b: nat) => a < b;
    list := Sort(keys, less);
    SortSorted(keys, less);
    SameElements(keys, causes);
    PermutationMembers(list, keys);
    NoDuplicatesCount(keys);
    NoDuplicatesCount(list);
    forall i, j | 0 <= i < j < |list| ensures list[i] < list[j] {
      assert !less(list[j], list[i]) && list[i] != list[j];
    }
  }

  lemma SameElements(a: seq<nat>, b: seq<nat>)
    requires NoDuplicates(a) && NoDuplicates(b) && forall c :: c in a <==> c in b
    ensures multiset(a) == multiset(b)
  {
    NoDuplicatesCount(a);
    NoDuplicatesCount(b);
    forall c ensures multiset(a)[c] == multiset(b)[c] {
      assert c in multiset(a) <==> c in a;
      assert c in multiset(b) <==> c in b;
    }
  }

  /** What one outcome does to the output, the report and the two lists. */
  function OutAfter(out: Bytes, r: Outcome): Bytes { if r.Dropped? then out else out + r.out }

  function ReportAfter(report: PartialReport, r: Outcome, path: string): PartialReport {
    match r
    case Written(_) => report.(entries := report.entries + 1)
    case Dropped => Skipping(report, path)
    case Broken(_) => report
  }

  function KeptAfter(kept: seq<nat>, r: Outcome, i: nat): seq<nat> { if r.Written? then kept + [i] else kept }

  function DroppedAfter(dropped: seq<nat>, r: Outcome, i: nat): seq<nat> { if r.Dropped? then dropped + [i] else dropped }

  function BadAfter(bad: set<nat>, r: Outcome, stop: nat): set<nat> { if r.Dropped? then bad + {stop} else bad }

  /** The outcome is right for entry i. */
  ghost predicate Took(v: Reader, w: Tape, entries: seq<FileEntry>, i: nat, r: Outcome, stop: nat)
    requires w.Valid() && i < |entries|
  {
    && (r.Written? ==> Walked(v, w, entries[i].tarOffset, EndOf(entries, i, w.ContentEnd()), r.out))
    && (r.Dropped? ==> StopsEntry(v, w, entries, i, stop) && (v.src.stable ==> !EntryIntact(w, entries, i)))
    && (r.Broken? ==> !v.src.stable)
  }

  lemma AccountStep(v: Reader, w: Tape, entries: seq<FileEntry>, wanted: Option<set<string>>, i: nat, out: Bytes,
                    kept: seq<nat>, dropped: seq<nat>, report: PartialReport, bad: set<nat>, r: Outcome, stop: nat)
    requires w.Valid() && i < |entries| && IsWanted(entries, wanted, i) && Counts(entries, kept, dropped, report)
    requires Progress(v, w, entries, wanted, i, out, kept, dropped, bad)
    requires Took(v, w, entries, i, r, stop)
    ensures !r.Broken? ==> Progress(v, w, entries, wanted, i + 1, OutAfter(out, r), KeptAfter(kept, r, i), DroppedAfter(dropped, r, i),
                                    BadAfter(bad, r, stop))
    ensures Counts(entries, KeptAfter(kept, r, i), DroppedAfter(dropped, r, i), ReportAfter(report, r, entries[i].path))
  {
    match r
    case Written(piece) => ProgressKept(v, w, entries, wanted, i, out, kept, dropped, bad, piece);
    case Dropped =>
      ProgressDropped(v, w, entries, wanted, i, out, kept, dropped, bad, stop);
      CountsDropped(entries, kept, dropped, report, i);
    case Broken(_) =>
  }

  /** The archive and the report as they grow. */
  class Recovering {
    const state: Salvage
    var out: Bytes
    var report: PartialReport
    ghost var kept: seq<nat>
    ghost var dropped: seq<nat>

    constructor (ghost already: seq<nat>)
      ensures fresh(state) && state.cache.index == -1 && state.bad == {} && state.causes == []
      ensures state.before == already && state.log == []
      ensures out == [] && report == PartialReport(0, 0, [], [], []) && kept == [] && dropped == []
    {
      state := new Salvage(already);
      out, report, kept, dropped := [], PartialReport(0, 0, [], [], []), [], [];
    }

    ghost predicate Stands(v: Reader, w: Tape, entries: seq<FileEntry>, wanted: Option<set<string>>, n: nat)
      requires w.Valid() && n <= |entries|
      reads this, state, v.log
    {
      && state.Tracks(v, w) && Counts(entries, kept, dropped, report)
      && (v.src.stable ==> ReadSoFar(v, w, entries, wanted, n, state.Now()))
      && Progress(v, w, entries, wanted, n, out, kept, dropped, state.bad)
    }

    method TakeWanted(v: Reader, verify: bool, entries: seq<FileEntry>, i: nat, end: int, ghost w: Tape) returns (r: Outcome, ghost stop: nat)
      requires Plays(v, verify, w) && i < |entries| && state.Tracks(v, w)
      requires end == EndOf(entries, i, w.ContentEnd()) && RangeOk(entries[i].tarOffset, end, w.Total())
      modifies state, v.log
      ensures state.Tracks(v, w) && Took(v, w, entries, i, r, stop)
      ensures v.src.stable ==> HandledEntry(v, w, entries, i, old(state.Now()), state.Now())
      ensures !r.Broken? ==> state.bad == BadAfter(old(state.bad), r, stop)
    {
      r, stop := state.TakeEntry(v, verify, entries[i].tarOffset, end, w);
    }

    /** A wanted entry with sensible offsets. */
    method Account(v: Reader, verify: bool, entries: seq<FileEntry>, wanted: Option<set<string>>, i: nat, end: int, ghost w: Tape)
      returns (ok: bool)
      requires Plays(v, verify, w) && i < |entries| && Stands(v, w, entries, wanted, i) && IsWanted(entries, wanted, i)
      requires end == EndOf(entries, i, w.ContentEnd()) && RangeOk(entries[i].tarOffset, end, w.Total())
      modifies this, state, v.log
      ensures ok ==> Stands(v, w, entries, wanted, i + 1)
      ensures !ok ==> !v.src.stable && Counts(entries, kept, dropped, report) && state.Tracks(v, w)
    {
      ghost var bad, from := state.bad, state.Now();
      var r;
      ghost var stop;
      r, stop := TakeWanted(v, verify, entries, i, end, w);
      AccountStep(v, w, entries, wanted, i, out, kept, dropped, report, bad, r, stop);
      out, report := OutAfter(out, r), ReportAfter(report, r, entries[i].path);
      kept, dropped := KeptAfter(kept, r, i), DroppedAfter(dropped, r, i);
      if v.src.stable {
        ReadOneMore(v, w, entries, wanted, i, from, state.Now());
      }
      ok := !r.Broken?;
    }

    /** The loop over the index; stops at the first entry whose offsets make no sense, wanted or not. */
    method Run(v: Reader, verify: bool, entries: seq<FileEntry>, wanted: Option<set<string>>, contentEnd: int, ghost w: Tape)
      returns (ok: bool, done: nat)
      requires Plays(v, verify, w) && contentEnd == w.ContentEnd() && Stands(v, w, entries, wanted, 0)
      modifies this, state, v.log
      ensures done <= |entries| && AllRangesOk(entries, contentEnd, done) && Counts(entries, kept, dropped, report) && state.Tracks(v, w)
      ensures ok ==> done == |entries|
      ensures !ok && v.src.stable ==> done < |entries| && !EntryRangeOk(entries, done, contentEnd)
      ensures ok || v.src.stable ==> Stands(v, w, entries, wanted, done)
    {
      for i := 0 to |entries|
        invariant Stands(v, w, entries, wanted, i) && AllRangesOk(entries, contentEnd, i)
      {
        var start, end := entries[i].tarOffset, EndOf(entries, i, contentEnd);
        if start < 0 || end <= start || end > contentEnd {
          return false, i;
        }
        if wanted.Some? && entries[i].path !in wanted.value {
          PlaceSkip(v, w, entries, wanted, i, kept, dropped);
          if v.src.stable {
            ReadNoMore(v, w, entries, wanted, i, state.Now());
          }
          continue;
        }
        var fine := Account(v, verify, entries, wanted, i, end, w);
        if !fine {
          return false, i;
        }
      }
      return true, |entries|;
    }
  }

  /** A finished run: the records of the kept entries and a trailer; the report explains the rest. */
  ghost predicate Delivered(v: Reader, w: Tape, entries: seq<FileEntry>, wanted: Option<set<string>>, out: Bytes,
                            report: PartialReport, kept: seq<nat>, dropped: seq<nat>)
    requires w.Valid()
  {
    && AllRangesOk(entries, w.ContentEnd(), |entries|) && Placed(v, w, entries, wanted, |entries|, kept, dropped)
    && Counts(entries, kept, dropped, report) && Below(kept, |entries|)
    && (v.src.stable ==> out == Flatten(Records(w, entries, kept)) + Zeros(TRAILER))
    && Increasing(report.badChunks) && multiset(report.causes) == multiset(report.badChunks)
    && Explained(v, w, entries, dropped, set c | c in report.badChunks)
  }

  /** A refused run: the first entry whose offsets make no sense; what came before it was written. */
  ghost predicate Refused(v: Reader, w: Tape, entries: seq<FileEntry>, wanted: Option<set<string>>, out: Bytes,
                          kept: seq<nat>, dropped: seq<nat>, done: nat)
    requires w.Valid()
  {
    && done < |entries| && !EntryRangeOk(entries, done, w.ContentEnd()) && Placed(v, w, entries, wanted, done, kept, dropped)
    && Below(kept, |entries|) && Below(dropped, |entries|) && out == Flatten(Records(w, entries, kept))
  }

  /** The output of a stable run that was refused. */
  ghost predicate RefusedAt(w: Tape, entries: seq<FileEntry>, wanted: Option<set<string>>, out: Bytes, done: nat)
    requires w.Valid()
  {
    && done < |entries| && !EntryRangeOk(entries, done, w.ContentEnd())
    && out == SurvivingBytes(w, entries, wanted, done)
  }

  lemma Finish(v: Reader, w: Tape, entries: seq<FileEntry>, wanted: Option<set<string>>, out: Bytes, report: PartialReport,
               kept: seq<nat>, dropped: seq<nat>, bad: set<nat>)
    requires w.Valid() && AllRangesOk(entries, w.ContentEnd(), |entries|)
    requires Progress(v, w, entries, wanted, |entries|, out, kept, dropped, bad) && Counts(entries, kept, dropped, report)
    requires Increasing(report.badChunks) && multiset(report.causes) == multiset(report.badChunks)
    requires forall c :: c in report.badChunks <==> c in bad
    ensures Delivered(v, w, entries, wanted, out + Zeros(TRAILER), report, kept, dropped)
  {
    assert (set c | c in report.badChunks) == bad;
  }

  method Recover(v: Reader, verify: bool, entries: seq<FileEntry>, wanted: Option<set<string>>, ghost w: Tape)
    returns (out: Bytes, ok: bool, report: PartialReport, ghost kept: seq<nat>, ghost dropped: seq<nat>, ghost done: nat, ghost log: seq<nat>)
    requires Plays(v, verify, w)
    modifies v.log
    ensures v.log.fetched == old(v.log.fetched) + log
    ensures v.src.stable && ok ==> ReadInAll(v, w, entries, wanted, report.badChunks, log)
    ensures ok ==> Delivered(v, w, entries, wanted, out, report, kept, dropped)
    ensures v.src.stable && !ok ==> Refused(v, w, entries, wanted, out, kept, dropped, done)
  {
    var total := v.prefix[|v.prefix| - 1];
    var run := new Recovering(v.log.fetched);
    ProgressStarts(v, w, entries, wanted);
    NothingRead(v, w, entries, wanted);
    ok, done := run.Run(v, verify, entries, wanted, if total >= TRAILER then total - TRAILER else total, w);
    log := run.state.log;
    out, report, kept, dropped := run.out, run.report, run.kept, run.dropped;
    if ok {
      var list := ListOf(run.state.bad, run.state.causes);
      report := report.(badChunks := list, causes := run.state.causes);
      Finish(v, w, entries, wanted, out, report, kept, dropped, run.state.bad);
      if v.src.stable {
        AllRead(v, w, entries, wanted, list, run.state.Now());
      }
      out := out + Zeros(TRAILER);
    }
  }

  // ---------- What the caller sees ----------

  /** The records of the surviving entries among the first n, in archive order. */
  ghost function SurvivingBytes(w: Tape, entries: seq<FileEntry>, wanted: Option<set<string>>, n: nat): Bytes
    requires |w.prefix| == |w.plain| + 1 && n <= |entries|
  {
    if n == 0 then []
    else if Survives(w, entries, wanted, n - 1) then SurvivingBytes(w, entries, wanted, n - 1) + Record(w, entries, n - 1)
    else SurvivingBytes(w, entries, wanted, n - 1)
  }

  /** The paths of the wanted entries among the first n that do not survive. */
  ghost function LostPaths(w: Tape, entries: seq<FileEntry>, wanted: Option<set<string>>, n: nat): seq<string>
    requires |w.prefix| == |w.plain| + 1 && n <= |entries|
  {
    if n == 0 then []
    else if IsWanted(entries, wanted, n - 1) && !EntryIntact(w, entries, n - 1)
    then LostPaths(w, entries, wanted, n - 1) + [entries[n - 1].path]
    else LostPaths(w, entries, wanted, n - 1)
  }

  /** Chunk c is the first damaged one of some wanted entry. */
  ghost predicate FirstDamageOfSome(w: Tape, entries: seq<FileEntry>, wanted: Option<set<string>>, c: nat)
    requires |w.prefix| > 0
  {
    exists i :: 0 <= i < |entries| && IsWanted(entries, wanted, i) && FirstDamageOf(w, entries, i, c)
  }

  ghost predicate FirstDamageOf(w: Tape, entries: seq<FileEntry>, i: nat, c: nat)
    requires |w.prefix| > 0 && i < |entries|
  {
    FirstDamaged(w, entries[i].tarOffset, EndOf(entries, i, w.ContentEnd()), c)
  }

  /** The report and the archive of a run over a stable source. */
  ghost predicate Salvaged(w: Tape, entries: seq<FileEntry>, wanted: Option<set<string>>, out: Bytes, report: PartialReport)
    requires w.Valid()
  {
    && out == SurvivingBytes(w, entries, wanted, |entries|) + Zeros(TRAILER)
    && report.entries + report.skipped == WantedCount(entries, wanted, |entries|)
    && report.skipped == |LostPaths(w, entries, wanted, |entries|)|
    && report.skippedPaths == LostPaths(w, entries, wanted, |entries|)[..Min(report.skipped, SKIPPED_PATHS_CAP)]
    && (forall c :: c in report.badChunks <==> FirstDamageOfSome(w, entries, wanted, c))
  }

  /** The list holds entry i exactly when it survives. */
  ghost predicate KeptAt(w: Tape, entries: seq<FileEntry>, wanted: Option<set<string>>, kept: seq<nat>, i: nat)
    requires |w.prefix| == |w.plain| + 1 && i < |entries|
  {
    i in kept <==> Survives(w, entries, wanted, i)
  }

  /** The list holds entry i exactly when it is wanted and does not survive. */
  ghost predicate LostAt(w: Tape, entries: seq<FileEntry>, wanted: Option<set<string>>, dropped: seq<nat>, i: nat)
    requires |w.prefix| == |w.plain| + 1 && i < |entries|
  {
    i in dropped <==> IsWanted(entries, wanted, i) && !EntryIntact(w, entries, i)
  }

  lemma PlacedIsChosen(v: Reader, w: Tape, entries: seq<FileEntry>, wanted: Option<set<string>>, n: nat, kept: seq<nat>, dropped: seq<nat>, i: nat)
    requires |w.prefix| == |w.plain| + 1 && i < n <= |entries| && v.src.stable
    requires Placed(v, w, entries, wanted, n, kept, dropped)
    ensures KeptAt(w, entries, wanted, kept, i) && LostAt(w, entries, wanted, dropped, i)
  {
    assert PlacedAt(v, w, entries, wanted, kept, dropped, i);
  }

  lemma LastIsLargest(s: seq<nat>, k: nat)
    requires Increasing(s) && k < |s|
    ensures s[k] <= s[|s| - 1]
  {
  }

  lemma LastOf(s: seq<nat>, last: nat)
    requires Increasing(s) && Below(s, last + 1) && last in s
    ensures s[|s| - 1] == last
    ensures Increasing(s[..|s| - 1]) && Below(s[..|s| - 1], last) && forall i: nat :: i in s[..|s| - 1] <==> i in s && i < last
  {
    var k :| 0 <= k < |s| && s[k] == last;
    LastIsLargest(s, k);
    forall i: nat | i in s && i < last ensures i in s[..|s| - 1] {
      var j :| 0 <= j < |s| && s[j] == i;
      assert s[..|s| - 1][j] == i;
    }
  }

  lemma WithoutLast(s: seq<nat>, last: nat)
    requires Below(s, last + 1) && last !in s
    ensures Below(s, last)
  {
  }

  lemma KeptInit(w: Tape, entries: seq<FileEntry>, wanted: Option<set<string>>, n: nat, kept: seq<nat>, init: seq<nat>)
    requires |w.prefix| == |w.plain| + 1 && n < |entries| && forall i: nat :: i < n ==> KeptAt(w, entries, wanted, kept, i)
    requires forall i: nat :: i in init <==> i in kept && i < n
    ensures forall i: nat :: i < n ==> KeptAt(w, entries, wanted, init, i)
  {
    forall i: nat | i < n ensures KeptAt(w, entries, wanted, init, i) {
      assert KeptAt(w, entries, wanted, kept, i);
    }
  }

  lemma KeptOneMore(w: Tape, entries: seq<FileEntry>, wanted: Option<set<string>>, i: nat, init: seq<nat>, kept: seq<nat>)
    requires |w.prefix| == |w.plain| + 1 && i < |entries| && Survives(w, entries, wanted, i)
    requires Below(kept, |entries|) && Below(init, |entries|) && |kept| == |init| + 1 && init <= kept && kept[|init|] == i
    requires Flatten(Records(w, entries, init)) == SurvivingBytes(w, entries, wanted, i)
    ensures Flatten(Records(w, entries, kept)) == SurvivingBytes(w, entries, wanted, i + 1)
  {
    assert kept == init + [i];
    RecordsSnoc(w, entries, init, i);
  }

  lemma {:induction false} KeptBytes(w: Tape, entries: seq<FileEntry>, wanted: Option<set<string>>, n: nat, kept: seq<nat>)
    requires |w.prefix| == |w.plain| + 1 && n <= |entries| && Increasing(kept) && Below(kept, n) && Below(kept, |entries|)
    requires forall i: nat :: i < n ==> KeptAt(w, entries, wanted, kept, i)
    ensures Flatten(Records(w, entries, kept)) == SurvivingBytes(w, entries, wanted, n)
  {
    if n == 0 {
      assert kept == [] && Records(w, entries, kept) == [];
    } else if n - 1 in kept {
      LastOf(kept, n - 1);
      var init := kept[..|kept| - 1];
      assert KeptAt(w, entries, wanted, kept, n - 1);
      KeptInit(w, entries, wanted, n - 1, kept, init);
      KeptBytes(w, entries, wanted, n - 1, init);
      KeptOneMore(w, entries, wanted, n - 1, init, kept);
    } else {
      assert KeptAt(w, entries, wanted, kept, n - 1);
      WithoutLast(kept, n - 1);
      KeptBytes(w, entries, wanted, n - 1, kept);
    }
  }

  function PathsAt(entries: seq<FileEntry>, idx: seq<nat>): seq<string>
    requires Below(idx, |entries|)
  {
    seq(|idx|, k requires 0 <= k < |idx| => entries[idx[k]].path)
  }

  lemma LostInit(w: Tape, entries: seq<FileEntry>, wanted: Option<set<string>>, n: nat, dropped: seq<nat>, init: seq<nat>)
    requires |w.prefix| == |w.plain| + 1 && n < |entries| && forall i: nat :: i < n ==> LostAt(w, entries, wanted, dropped, i)
    requires forall i: nat :: i in init <==> i in dropped && i < n
    ensures forall i: nat :: i < n ==> LostAt(w, entries, wanted, init, i)
  {
    forall i: nat | i < n ensures LostAt(w, entries, wanted, init, i) {
      assert LostAt(w, entries, wanted, dropped, i);
    }
  }

  lemma LostOneMore(w: Tape, entries: seq<FileEntry>, wanted: Option<set<string>>, i: nat, init: seq<nat>, dropped: seq<nat>)
    requires |w.prefix| == |w.plain| + 1 && i < |entries| && IsWanted(entries, wanted, i) && !EntryIntact(w, entries, i)
    requires Below(dropped, |entries|) && Below(init, |entries|) && |dropped| == |init| + 1 && init <= dropped && dropped[|init|] == i
    requires PathsAt(entries, init) == LostPaths(w, entries, wanted, i)
    ensures PathsAt(entries, dropped) == LostPaths(w, entries, wanted, i + 1)
  {
    assert PathsAt(entries, dropped) == PathsAt(entries, init) + [entries[i].path];
  }

  lemma {:induction false} DroppedPaths(w: Tape, entries: seq<FileEntry>, wanted: Option<set<string>>, n: nat, dropped: seq<nat>)
    requires |w.prefix| == |w.plain| + 1 && n <= |entries| && Increasing(dropped) && Below(dropped, n) && Below(dropped, |entries|)
    requires forall i: nat :: i < n ==> LostAt(w, entries, wanted, dropped, i)
    ensures PathsAt(entries, dropped) == LostPaths(w, entries, wanted, n)
  {
    if n == 0 {
      assert dropped == [];
    } else if n - 1 in dropped {
      LastOf(dropped, n - 1);
      var init := dropped[..|dropped| - 1];
      assert LostAt(w, entries, wanted, dropped, n - 1);
      LostInit(w, entries, wanted, n - 1, dropped, init);
      DroppedPaths(w, entries, wanted, n - 1, init);
      LostOneMore(w, entries, wanted, n - 1, init, dropped);
    } else {
      assert LostAt(w, entries, wanted, dropped, n - 1);
      WithoutLast(dropped, n - 1);
      DroppedPaths(w, entries, wanted, n - 1, dropped);
    }
  }

  lemma FirstDamageUnique(w: Tape, start: int, end: int, c: nat, d: nat)
    requires FirstDamaged(w, start, end, c) && FirstDamaged(w, start, end, d)
    ensures c == d
  {
  }

  /** The reported chunks are the first damaged chunks of the wanted entries. */
  lemma ReportedChunk(v: Reader, w: Tape, entries: seq<FileEntry>, wanted: Option<set<string>>, kept: seq<nat>, dropped: seq<nat>,
                      bad: set<nat>, c: nat)
    requires |w.prefix| == |w.plain| + 1 && v.src.stable && Placed(v, w, entries, wanted, |entries|, kept, dropped)
    requires Below(dropped, |entries|) && Explained(v, w, entries, dropped, bad)
    ensures c in bad <==> FirstDamageOfSome(w, entries, wanted, c)
  {
    if c in bad {
      assert StopsSome(v, w, entries, dropped, c);
      var i :| i in dropped && StopsEntry(v, w, entries, i, c);
      PlacedIsChosen(v, w, entries, wanted, |entries|, kept, dropped, i);
      assert FirstDamageOf(w, entries, i, c);
    }
    if FirstDamageOfSome(w, entries, wanted, c) {
      var i :| 0 <= i < |entries| && IsWanted(entries, wanted, i) && FirstDamageOf(w, entries, i, c);
      PlacedIsChosen(v, w, entries, wanted, |entries|, kept, dropped, i);
      assert i in dropped && MeetsBad(v, w, entries, bad, i);
      var d :| d in bad && StopsEntry(v, w, entries, i, d);
      FirstDamageUnique(w, entries[i].tarOffset, EndOf(entries, i, w.ContentEnd()), c, d);
    }
  }

  /** The written records are those of the survivors, the dropped paths those of the lost. */
  lemma PlacedMeansSurvivors(v: Reader, w: Tape, entries: seq<FileEntry>, wanted: Option<set<string>>, n: nat, kept: seq<nat>, dropped: seq<nat>)
    requires |w.prefix| == |w.plain| + 1 && n <= |entries| && v.src.stable && Placed(v, w, entries, wanted, n, kept, dropped)
    requires Below(kept, |entries|) && Below(dropped, |entries|)
    ensures Flatten(Records(w, entries, kept)) == SurvivingBytes(w, entries, wanted, n)
    ensures PathsAt(entries, dropped) == LostPaths(w, entries, wanted, n)
  {
    forall i: nat | i < n ensures KeptAt(w, entries, wanted, kept, i) && LostAt(w, entries, wanted, dropped, i) {
      PlacedIsChosen(v, w, entries, wanted, n, kept, dropped, i);
    }
    KeptBytes(w, entries, wanted, n, kept);
    DroppedPaths(w, entries, wanted, n, dropped);
  }

  lemma DeliveredIsSalvaged(v: Reader, w: Tape, entries: seq<FileEntry>, wanted: Option<set<string>>, out: Bytes,
                            report: PartialReport, kept: seq<nat>, dropped: seq<nat>)
    requires w.Valid() && v.src.stable && Delivered(v, w, entries, wanted, out, report, kept, dropped)
    ensures Salvaged(w, entries, wanted, out, report)
  {
    PlacedMeansSurvivors(v, w, entries, wanted, |entries|, kept, dropped);
    SampleIsPrefix(entries, dropped);
    var bad := set c | c in report.badChunks;
    forall c ensures c in report.badChunks <==> FirstDamageOfSome(w, entries, wanted, c) {
      assert c in bad <==> c in report.badChunks;
      ReportedChunk(v, w, entries, wanted, kept, dropped, bad, c);
    }
  }

  lemma SampleIsPrefix(entries: seq<FileEntry>, dropped: seq<nat>)
    requires Below(dropped, |entries|)
    ensures SamplePaths(entries, dropped) == PathsAt(entries, dropped)[..Min(|dropped|, SKIPPED_PATHS_CAP)]
  {
  }

  /**
   * Every wanted entry whose chunks all load, as a tar, and a report of the others. Offsets of all entries are
   * checked, wanted or not.
   */
  method StreamTarPartial(v: Reader, entries: seq<FileEntry>, wanted: Option<set<string>>, check: bool)
    returns (out: Bytes, ok: bool, report: PartialReport, ghost log: seq<nat>)
    requires v.Laid()
    modifies v.log
    ensures v.log.fetched == old(v.log.fetched) + log
    ensures v.src.stable && ok ==>
              ReadInAll(v, TapeOf(v, MustVerify(v, check)), entries, wanted, report.badChunks, log)
    ensures TapeOf(v, MustVerify(v, check)).Valid()
    ensures ok ==> AllRangesOk(entries, TapeOf(v, MustVerify(v, check)).ContentEnd(), |entries|)
    ensures ok ==> report.entries + report.skipped == WantedCount(entries, wanted, |entries|)
    ensures ok ==> Increasing(report.badChunks) && multiset(report.causes) == multiset(report.badChunks)
    ensures v.src.stable ==> (ok <==> AllRangesOk(entries, TapeOf(v, MustVerify(v, check)).ContentEnd(), |entries|))
    ensures v.src.stable && ok ==> Salvaged(TapeOf(v, MustVerify(v, check)), entries, wanted, out, report)
    ensures v.src.stable && !ok ==> exists done :: RefusedAt(TapeOf(v, MustVerify(v, check)), entries, wanted, out, done)
  {
    ghost var w := TapeOf(v, MustVerify(v, check));
    TapeValid(v, MustVerify(v, check));
    ghost var kept, dropped, done;
    out, ok, report, kept, dropped, done, log := Recover(v, MustVerify(v, check), entries, wanted, w);
    if v.src.stable && ok {
      DeliveredIsSalvaged(v, w, entries, wanted, out, report, kept, dropped);
    } else if v.src.stable {
      PlacedMeansSurvivors(v, w, entries, wanted, done, kept, dropped);
      assert RefusedAt(w, entries, wanted, out, done);
    }
  }

  // ---------- An undamaged backup ----------

  lemma {:induction false} AllSurvive(w: Tape, entries: seq<FileEntry>, wanted: set<string>, n: nat)
    requires |w.prefix| == |w.plain| + 1 && n <= |entries| && NeededLoad(w, entries, wanted)
    ensures SurvivingBytes(w, entries, Some(wanted), n) == WantedRecords(w, entries, wanted, n)
    ensures LostPaths(w, entries, Some(wanted), n) == []
  {
    if n > 0 {
      AllSurvive(w, entries, wanted, n - 1);
      if entries[n - 1].path in wanted {
        NeededIntact(w, entries, wanted, n - 1);
      }
    }
  }

  lemma NeededIntact(w: Tape, entries: seq<FileEntry>, wanted: set<string>, i: nat)
    requires |w.prefix| == |w.plain| + 1 && i < |entries| && entries[i].path in wanted && NeededLoad(w, entries, wanted)
    ensures EntryIntact(w, entries, i)
  {
    forall c | 0 <= c < |w.plain| && w.Overlaps(entries[i].tarOffset, EndOf(entries, i, w.ContentEnd()), c)
      ensures w.plain[c].Some?
    {
      assert NeededBy(w, entries, i, c);
    }
  }

  /** When every chunk the selection needs loads, partial recovery writes what the selective restore writes. */
  lemma NoDamageSameAsSelective(w: Tape, entries: seq<FileEntry>, wanted: set<string>, out: Bytes, report: PartialReport)
    requires w.Valid() && Salvaged(w, entries, Some(wanted), out, report) && NeededLoad(w, entries, wanted)
    ensures out == WantedRecords(w, entries, wanted, |entries|) + Zeros(TRAILER)
    ensures report.skipped == 0 && report.badChunks == []
  {
    AllSurvive(w, entries, wanted, |entries|);
    forall c: nat ensures c !in report.badChunks {
      NoFirstDamage(w, entries, wanted, c);
    }
    HasMember(report.badChunks);
  }

  lemma NoFirstDamage(w: Tape, entries: seq<FileEntry>, wanted: set<string>, c: nat)
    requires |w.prefix| == |w.plain| + 1 && NeededLoad(w, entries, wanted)
    ensures !FirstDamageOfSome(w, entries, Some(wanted), c)
  {
    forall i | 0 <= i < |entries| && IsWanted(entries, Some(wanted), i) ensures !FirstDamageOf(w, entries, i, c) {
      NeededIntact(w, entries, wanted, i);
    }
  }

  lemma {:induction false} SoundBytesJoin(w: Tape, entries: seq<FileEntry>, n: nat)
    requires w.Valid() && 0 < n <= |entries| && AllRangesOk(entries, w.ContentEnd(), |entries|)
    requires forall c :: 0 <= c < |w.plain| ==> w.plain[c].Some?
    ensures entries[0].tarOffset < EndOf(entries, n - 1, w.ContentEnd())
    ensures SurvivingBytes(w, entries, None, n) == w.cut(entries[0].tarOffset, EndOf(entries, n - 1, w.ContentEnd()))
  {
    assert EntryRangeOk(entries, n - 1, w.ContentEnd()) && EntryRangeOk(entries, 0, w.ContentEnd());
    assert Survives(w, entries, None, n - 1);
    if n == 1 {
      assert SurvivingBytes(w, entries, None, 0) == [];
    } else {
      SoundBytesJoin(w, entries, n - 1);
      CutsJoin(w, entries[0].tarOffset, entries[n - 1].tarOffset, EndOf(entries, n - 1, w.ContentEnd()));
    }
  }

  /** With every chunk sound and no selection, the output is the archive itself under a fresh trailer. */
  lemma NoDamageWholeArchive(w: Tape, entries: seq<FileEntry>, out: Bytes, report: PartialReport)
    requires w.Valid() && Salvaged(w, entries, None, out, report) && AllRangesOk(entries, w.ContentEnd(), |entries|)
    requires |entries| > 0 && entries[0].tarOffset == 0 && forall c :: 0 <= c < |w.plain| ==> w.plain[c].Some?
    ensures out == w.cut(0, w.ContentEnd()) + Zeros(TRAILER)
  {
    SoundBytesJoin(w, entries, |entries|);
  }

  // ---------- An entry in two chunks ----------

  /** The public half of an uncompressed backup of two one-byte chunks in one layer. */
  function TwoChunkManifest(m: Manifest): Manifest {
    m.(encryption := m.encryption.(enabled := false), archive := m.archive.(compression := "store"), private_ := None,
       chunking := m.chunking.(count := 2), layers := [LayerInfo(0, "", 0, 1, 2)])
  }

  function TwoChunkRows(): seq<Chunk> { [Chunk(0, "d", "", "", 1, 1), Chunk(1, "d", "", "", 1, 1)] }

  lemma TwoChunksPass(m: Manifest, schema: int)
    ensures Open.ShapeOk(TwoChunkManifest(m)) && Passes(TwoChunkManifest(m), ChunkTable(schema, TwoChunkRows()))
  {
    var n, rows := TwoChunkManifest(m), TwoChunkRows();
    assert Running(rows, 0, 0) == 0 && Running(rows, 0, 1) == 1 && Running(rows, 0, 2) == 2;
    var bound := MaxStoredChunkBytes(n);
    assert bound > 0 ==> bound >= 2;
    assert RunsAt(rows, 0, 2, bound, 0) && RunsAt(rows, 0, 2, bound, 1);
    assert LayerPassesAt(n, rows, 0);
  }

  lemma TwoChunksLoad(v: Reader, m: Manifest, entry: FileEntry)
    requires v.Laid() && v.chunks == TwoChunkRows() && v.manifest == TwoChunkManifest(m)
    requires v.src.Blobs? && v.src.stable && (forall i :: v.src.blob(i) == Some([0]))
    requires (forall codec, b :: v.lib.decompress(codec, b) == Decoded(b, true)) && entry.tarOffset == 0
    ensures var w := TapeOf(v, false);
            AllRangesOk([entry], w.ContentEnd(), 1) && LongSurvivor(w, [entry], None, 0) && LostPaths(w, [entry], None, 1) == []
  {
    assert PlainBefore(v.chunks, 1) == PlainBefore(v.chunks, 0) + 1 && PlainBefore(v.chunks, 2) == PlainBefore(v.chunks, 1) + 1;
    assert v.prefix[0] == 0 && v.prefix[1] == 1 && v.prefix[2] == 2;
    assert PlainSpec(v, 0, false) == Some([0]) && PlainSpec(v, 1, false) == Some([0]);
    var w := TapeOf(v, false);
    assert w.ContentEnd() == 2 && w.Overlaps(0, 2, 0) && w.Overlaps(0, 2, 1);
    assert LostPaths(w, [entry], None, 0) == [];
  }

  /**
   * A backup of one entry in two chunks opens, nothing in it is damaged, and yet some chunk is read twice: each entry is
   * first proved to load, then written.
   */
  method ReadTwice(lib: Primitives, m: Manifest, schema: int, entry: FileEntry)
    returns (accepted: bool, ok: bool, report: PartialReport, ghost log: seq<nat>)
    requires entry.tarOffset == 0
    ensures accepted && ok && !NoDuplicates(log) && report.skipped == 0
  {
    TwoChunksPass(m, schema);
    var plain := lib.(decompress := (codec, b) => Decoded(b, true));
    var b := Open.NewBackup(plain, Blobs(i => Some([0]), name => None, true), TwoChunkManifest(m), ChunkTable(schema, TwoChunkRows()));
    accepted := b != null;
    var v := b.View();
    TwoChunksLoad(v, m, entry);
    var out;
    out, ok, report, log := StreamTarPartial(v, [entry], None, false);
  }
}
