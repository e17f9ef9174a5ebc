/** What the damage-tolerant loader has read: its cache, the chunks it gave up on, and every read in order. */
module Traces {
  import opened Common
  import opened Ordering
  import opened Recovery
  import opened Search
  import opened Ranges
  import opened Selective

  datatype Trace = Trace(index: int, bad: set<nat>, log: seq<nat>)

  /** The trace once chunk i was asked for: a cached chunk and one already given up on are not read. */
  function Asked(v: Reader, t: Trace, i: nat, ok: bool): Trace {
    if i == t.index || i in t.bad then t
    else if ok then Trace(i, t.bad, t.log + ReadsOf(v, i))
    else Trace(-1, t.bad + {i}, t.log + ReadsOf(v, i))
  }

  /** A chunk that was read starts before the position, and if it goes on past it, it need not be read again. */
  ghost predicate DoneWith(w: Tape, t: Trace, pos: int, c: nat) {
    c + 1 < |w.prefix| && w.prefix[c] < pos && (w.prefix[c + 1] > pos ==> c == t.index || c in t.bad)
  }

  /** No chunk was read twice, and none that was read will be. */
  ghost predicate Quiet(w: Tape, t: Trace, pos: int) {
    NoDuplicates(t.log) && forall c :: c in t.log ==> DoneWith(w, t, pos, c)
  }

  ghost predicate Held(t: Trace) { t.index == -1 || (t.index >= 0 && t.index in t.log) }

  /** A chunk given up on was read exactly once, and a damaged chunk that was read was given up on. */
  ghost predicate TriedOnce(v: Reader, w: Tape, t: Trace) {
    && (forall c :: c in t.bad ==> GaveUp(v, w, t, c))
    && (forall c :: c in t.log ==> c < |w.plain| && (w.plain[c].None? ==> c in t.bad))
  }

  ghost predicate GaveUp(v: Reader, w: Tape, t: Trace, c: nat) {
    c < |w.plain| && w.plain[c].None? && (!LockedOut(v) ==> multiset(t.log)[c] == 1)
  }

  lemma QuietLater(w: Tape, t: Trace, pos: int, later: int)
    requires Quiet(w, t, pos) && pos <= later
    ensures Quiet(w, t, later)
  {
    forall c | c in t.log ensures DoneWith(w, t, later, c) {
      assert DoneWith(w, t, pos, c);
    }
  }

  lemma QuietOn(v: Reader, w: Tape, t: Trace, off: int, i: nat, ok: bool, later: int)
    requires w.Valid() && Quiet(w, t, off) && i < |w.plain| && CoversOffset(w.prefix, i, off) && off < later
    requires if ok then i == t.index || i !in t.bad else i != t.index
    ensures Quiet(w, Asked(v, t, i, ok), later)
  {
    var next := Asked(v, t, i, ok);
    if i in t.log {
      assert DoneWith(w, t, off, i);
    }
    forall c | c in next.log ensures DoneWith(w, next, later, c) {
      if c in t.log {
        assert DoneWith(w, t, off, c);
        if c == t.index && w.prefix[c + 1] > later {
          CoveringChunkUnique(w.prefix, i, c, off);
        }
      }
    }
  }

  lemma TriedOn(v: Reader, w: Tape, t: Trace, i: nat, ok: bool)
    requires TriedOnce(v, w, t) && i < |w.plain| && (ok <==> w.plain[i].Some?)
    ensures TriedOnce(v, w, Asked(v, t, i, ok))
  {
    var next := Asked(v, t, i, ok);
    assert i !in t.log ==> multiset(t.log)[i] == 0;
    forall c | c in next.bad ensures GaveUp(v, w, next, c) {
      assert c in t.bad ==> GaveUp(v, w, t, c);
    }
  }

  lemma MoreKeepsDuplicate(s: seq<nat>, more: seq<nat>)
    requires s <= more && NoDuplicates(more)
    ensures NoDuplicates(s)
  {
  }

  // ---------- One pass over a stretch ----------

  ghost predicate SeenAt(w: Tape, start: int, off: int, log: seq<nat>, c: nat)
    requires c + 1 < |w.prefix|
  {
    w.Overlaps(start, off, c) ==> c in log
  }

  /** Every chunk the stretch touches has been read, now or before. */
  ghost predicate Seen(w: Tape, start: int, off: int, log: seq<nat>) {
    forall c :: 0 <= c < |w.prefix| - 1 ==> SeenAt(w, start, off, log, c)
  }

  /** The stretch lies inside chunk i. */
  predicate Inside(w: Tape, i: int, start: int, off: int) {
    0 <= i < |w.prefix| - 1 && w.prefix[i] <= start && off <= w.prefix[i + 1]
  }

  /** The chunk at the start of the stretch was read before and is no longer cached. */
  ghost predicate Stale(w: Tape, t: Trace, start: int) {
    exists c :: c in t.log && StaleAt(w, t, start, c)
  }

  predicate StaleAt(w: Tape, t: Trace, start: int, c: nat) {
    c + 1 < |w.prefix| && CoversOffset(w.prefix, c, start) && c != t.index
  }

  /** A pass over [start, off) that loaded every chunk it met. */
  ghost predicate Toured(v: Reader, w: Tape, from: Trace, start: int, off: int, to: Trace)
    requires w.Valid()
  {
    && from.log <= to.log && from.bad == to.bad && (off == start ==> to == from)
    && (off > start ==> 0 <= to.index < |w.plain| && CoversOffset(w.prefix, to.index, off - 1))
    && (Quiet(w, from, start) ==> Quiet(w, to, off))
    && (Held(from) ==> Held(to) && Seen(w, start, off, to.log))
    && LoadedWithin(w, from.log, to.log, start, off)
    && (Inside(w, from.index, start, off) ==> to == from)
    && (Stale(w, from, start) && off > start ==> !NoDuplicates(to.log))
    && (TriedOnce(v, w, from) ==> TriedOnce(v, w, to))
  }

  lemma TourStarts(v: Reader, w: Tape, t: Trace, start: int)
    requires w.Valid()
    ensures Toured(v, w, t, start, start, t)
  {
    forall c | 0 <= c < |w.prefix| - 1 ensures SeenAt(w, start, start, t.log, c) && LoadedOnlyIf(w, t.log, t.log, start, start, c) {
    }
  }

  lemma SeenOn(v: Reader, w: Tape, start: int, off: int, t: Trace, i: nat, n: int)
    requires w.Valid() && start <= off && i < |w.plain| && CoversOffset(w.prefix, i, off) && 0 < n <= w.prefix[i + 1] - off
    requires Held(t) && Seen(w, start, off, t.log) && (i == t.index || (i !in t.bad && !LockedOut(v)))
    ensures Held(Asked(v, t, i, true)) && Seen(w, start, off + n, Asked(v, t, i, true).log)
  {
    var next, log := off + n, Asked(v, t, i, true).log;
    forall c | 0 <= c < |w.prefix| - 1 ensures SeenAt(w, start, next, log, c) {
      assert SeenAt(w, start, off, t.log, c);
      OneMoreChunk(w, start, off, i, n, c);
    }
  }

  lemma WithinOn(v: Reader, w: Tape, from: Trace, start: int, off: int, t: Trace, i: nat, ok: bool, next: int)
    requires w.Valid() && start <= off < next && i < |w.plain| && CoversOffset(w.prefix, i, off)
    requires LoadedWithin(w, from.log, t.log, start, off)
    ensures LoadedWithin(w, from.log, Asked(v, t, i, ok).log, start, next)
  {
    var log := Asked(v, t, i, ok).log;
    forall c | 0 <= c < |w.prefix| - 1 ensures LoadedOnlyIf(w, from.log, log, start, next, c) {
      assert LoadedOnlyIf(w, from.log, t.log, start, off, c);
    }
  }

  lemma StaleOn(v: Reader, w: Tape, from: Trace, start: int, off: int, t: Trace, i: nat)
    requires w.Valid() && start <= off && i < |w.plain| && CoversOffset(w.prefix, i, off)
    requires (i == t.index || (i !in t.bad && !LockedOut(v))) && (off == start ==> t == from)
    requires Stale(w, from, start) && (off > start ==> !NoDuplicates(t.log))
    ensures !NoDuplicates(Asked(v, t, i, true).log)
  {
    var log := Asked(v, t, i, true).log;
    if off == start {
      var c :| c in from.log && StaleAt(w, from, start, c);
      CoveringChunkUnique(w.prefix, i, c, off);
      var k :| 0 <= k < |from.log| && from.log[k] == i;
      assert log[k] == log[|from.log|];
    } else if NoDuplicates(log) {
      MoreKeepsDuplicate(t.log, log);
    }
  }

  lemma InsideOn(w: Tape, from: Trace, start: int, off: int, i: nat, n: int)
    requires w.Valid() && start <= off && i < |w.plain| && CoversOffset(w.prefix, i, off) && n > 0
    requires Inside(w, from.index, start, off + n)
    ensures Inside(w, from.index, start, off) && i == from.index
  {
    CoveringChunkUnique(w.prefix, i, from.index, off);
  }

  lemma TourOn(v: Reader, w: Tape, from: Trace, start: int, off: int, t: Trace, i: nat, n: int)
    requires w.Valid() && start <= off && i < |w.plain| && CoversOffset(w.prefix, i, off) && 0 < n <= w.prefix[i + 1] - off
    requires Toured(v, w, from, start, off, t) && w.plain[i].Some? && (i == t.index || (i !in t.bad && !LockedOut(v)))
    ensures Toured(v, w, from, start, off + n, Asked(v, t, i, true))
  {
    if Quiet(w, from, start) {
      QuietOn(v, w, t, off, i, true, off + n);
    }
    if Held(from) {
      SeenOn(v, w, start, off, t, i, n);
    }
    WithinOn(v, w, from, start, off, t, i, true, off + n);
    if Inside(w, from.index, start, off + n) {
      InsideOn(w, from, start, off, i, n);
    }
    if Stale(w, from, start) {
      StaleOn(v, w, from, start, off, t, i);
    }
    if TriedOnce(v, w, from) {
      TriedOn(v, w, t, i, true);
    }
  }

  /** A pass over [start, end) that met a chunk it could not load. */
  ghost predicate Fell(v: Reader, w: Tape, from: Trace, start: int, end: int, to: Trace) {
    && from.log <= to.log && (Held(from) ==> Held(to))
    && (Quiet(w, from, start) ==> Quiet(w, to, end))
    && LoadedWithin(w, from.log, to.log, start, end)
    && (TriedOnce(v, w, from) ==> TriedOnce(v, w, to))
  }

  lemma TourEnds(v: Reader, w: Tape, from: Trace, start: int, off: int, end: int, t: Trace, i: nat)
    requires w.Valid() && start <= off < end && i < |w.plain| && CoversOffset(w.prefix, i, off)
    requires Toured(v, w, from, start, off, t) && w.plain[i].None? && i != t.index
    ensures Fell(v, w, from, start, end, Asked(v, t, i, false))
  {
    if Quiet(w, from, start) {
      QuietOn(v, w, t, off, i, false, end);
    }
    WithinOn(v, w, from, start, off, t, i, false, end);
    if TriedOnce(v, w, from) {
      TriedOn(v, w, t, i, false);
    }
  }

  // ---------- One entry: a pass that proves, a pass that writes ----------

  /** The stretch touches more than one chunk. */
  ghost predicate Spread(w: Tape, start: int, end: int) {
    exists c, d :: 0 <= c < d < |w.prefix| - 1 && w.Overlaps(start, end, c) && w.Overlaps(start, end, d)
  }

  /** What one entry does to the trace: the chunks of an intact entry are read again exactly when it has several. */
  ghost predicate Handled(v: Reader, w: Tape, from: Trace, start: int, end: int, to: Trace)
    requires w.Valid()
  {
    && from.log <= to.log && (Held(from) ==> Held(to))
    && LoadedWithin(w, from.log, to.log, start, end)
    && (TriedOnce(v, w, from) ==> TriedOnce(v, w, to))
    && if w.Intact(start, end) && Spread(w, start, end) then Held(from) ==> !NoDuplicates(to.log)
       else Quiet(w, from, start) ==> Quiet(w, to, end)
  }

  lemma {:induction false} SomeChunkCovers(w: Tape, off: int, n: nat) returns (c: nat)
    requires w.Valid() && n < |w.prefix| && 0 <= off < w.prefix[n]
    ensures c < n && CoversOffset(w.prefix, c, off)
  {
    if w.prefix[n - 1] <= off {
      c := n - 1;
    } else {
      c := SomeChunkCovers(w, off, n - 1);
    }
  }

  lemma NotSpread(w: Tape, start: int, end: int, c: nat, d: nat)
    requires w.Valid() && start < end && c < |w.plain| && d < |w.plain|
    requires CoversOffset(w.prefix, c, start) && CoversOffset(w.prefix, d, end - 1)
    ensures Spread(w, start, end) <==> c != d
  {
    assert w.Overlaps(start, end, c) && w.Overlaps(start, end, d);
    if c != d {
      assert c < d || d < c;
    } else {
      forall a | 0 <= a < |w.prefix| - 1 && w.Overlaps(start, end, a) ensures a == c {
        CoveringChunkUnique(w.prefix, a, c, Max(start, w.prefix[a]));
      }
    }
  }

  lemma LoadedWithinTwice(w: Tape, a: seq<nat>, b: seq<nat>, c: seq<nat>, start: int, end: int)
    requires LoadedWithin(w, a, b, start, end) && LoadedWithin(w, b, c, start, end)
    ensures LoadedWithin(w, a, c, start, end)
  {
    forall i | 0 <= i < |w.prefix| - 1 ensures LoadedOnlyIf(w, a, c, start, end, i) {
      assert LoadedOnlyIf(w, a, b, start, end, i) && LoadedOnlyIf(w, b, c, start, end, i);
    }
  }

  lemma TwoPasses(v: Reader, w: Tape, from: Trace, start: int, end: int, mid: Trace, to: Trace)
    requires w.Valid() && RangeOk(start, end, w.Total()) && w.Intact(start, end)
    requires Toured(v, w, from, start, end, mid) && Toured(v, w, mid, start, end, to)
    ensures Handled(v, w, from, start, end, to)
  {
    var c := SomeChunkCovers(w, start, |w.plain|);
    NotSpread(w, start, end, c, mid.index);
    LoadedWithinTwice(w, from.log, mid.log, to.log, start, end);
    if Spread(w, start, end) {
      if Held(from) {
        assert SeenAt(w, start, end, mid.log, c);
        assert StaleAt(w, mid, start, c);
      }
    } else {
      assert Inside(w, mid.index, start, end);
    }
  }
}
