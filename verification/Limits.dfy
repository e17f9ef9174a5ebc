/** The check of the public chunk table against the public manifest, and the layout it makes safe. */
module Limits {
  import opened Common
  import opened Metadata

  const EXPANSION_DENOMINATOR := 64
  const EXPANSION_FLOOR := 4096

  /** The largest stored size one chunk can plausibly have; 0 when the manifest declares no chunk size. */
  function MaxStoredChunkBytes(m: Manifest): int {
    var plain := if m.chunking.maxChunkBytes > 0 then m.chunking.maxChunkBytes else m.chunking.targetChunkBytes;
    if plain <= 0 then 0 else plain + plain / EXPANSION_DENOMINATOR + EXPANSION_FLOOR
  }

  function MaxPlainChunkBytes(m: Manifest): int {
    if m.chunking.maxChunkBytes > 0 then m.chunking.maxChunkBytes else m.chunking.targetChunkBytes
  }

  const MAX_INT64 := 0x7fff_ffff_ffff_ffff

  /** Two's complement 64-bit addition, which is what the running sum is. */
  function Wrap64(x: int): int {
    var r := x % 0x1_0000_0000_0000_0000;
    if r >= 0x8000_0000_0000_0000 then r - 0x1_0000_0000_0000_0000 else r
  }

  function StoredSum(chunks: seq<Chunk>, from: nat, to: nat): int
    requires from <= to <= |chunks|
  {
    if from == to then 0 else StoredSum(chunks, from, to - 1) + chunks[to - 1].sb
  }

  // ---------- What an accepted table looks like ----------

  ghost predicate RowsOk(chunks: seq<Chunk>) {
    forall i :: 0 <= i < |chunks| ==> chunks[i].i == i && chunks[i].sb > 0 && chunks[i].p != ""
  }

  function NextChunk(layers: seq<LayerInfo>, k: nat): int
    requires k <= |layers|
  {
    if k == 0 then 0 else layers[k - 1].chunkTo + 1
  }

  predicate Within(layer: LayerInfo, chunks: seq<Chunk>) {
    0 <= layer.chunkFrom <= layer.chunkTo < |chunks|
  }

  /** The blob a layer reads: the one its first chunk names. */
  function PathOf(layer: LayerInfo, chunks: seq<Chunk>): string {
    if 0 <= layer.chunkFrom < |chunks| then chunks[layer.chunkFrom].p else ""
  }

  /** The layer's chunks share one path, respect the chunk bound and add up to the layer's size. */
  ghost predicate LayerHolds(layer: LayerInfo, chunks: seq<Chunk>, bound: int) {
    && Within(layer, chunks)
    && (forall i :: layer.chunkFrom <= i <= layer.chunkTo ==>
          chunks[i].p == PathOf(layer, chunks) && (bound > 0 ==> chunks[i].sb <= bound))
    && StoredSum(chunks, layer.chunkFrom, layer.chunkTo + 1) == layer.storedBytes > 0
  }

  /** Layer k starts where the previous one ended and holds what it declares. */
  ghost predicate LayerOk(m: Manifest, chunks: seq<Chunk>, k: nat)
    requires k < |m.layers|
  {
    m.layers[k].chunkFrom == NextChunk(m.layers, k) && LayerHolds(m.layers[k], chunks, MaxStoredChunkBytes(m))
  }

  ghost predicate LayersTile(m: Manifest, chunks: seq<Chunk>, n: nat)
    requires n <= |m.layers|
  {
    && (forall k :: 0 <= k < n ==> LayerOk(m, chunks, k))
    && (forall j, k :: 0 <= j < k < n ==> PathOf(m.layers[j], chunks) != PathOf(m.layers[k], chunks))
  }

  /** The whole table is accepted. */
  ghost predicate Accepted(m: Manifest, t: ChunkTable) {
    && m.chunking.count == |t.chunks|
    && RowsOk(t.chunks)
    && (if |t.chunks| == 0 then forall k :: 0 <= k < |m.layers| ==> m.layers[k].chunkTo < m.layers[k].chunkFrom
        else LayersTile(m, t.chunks, |m.layers|) && NextChunk(m.layers, |m.layers|) == |t.chunks|)
  }

  // ---------- The 64-bit sum ----------

  /** The sum as it runs: it wraps around. */
  function Running(chunks: seq<Chunk>, from: nat, to: nat): int
    requires from <= to <= |chunks|
  {
    if from == to then 0 else Wrap64(Running(chunks, from, to - 1) + chunks[to - 1].sb)
  }

  /** The largest chunk that a layer of this size may hold. */
  function Widest(size: int, bound: int): int { if bound > 0 then Min(size, bound) else size }

  ghost predicate RunsAt(chunks: seq<Chunk>, from: nat, size: int, bound: int, i: nat)
    requires from <= i < |chunks|
  {
    chunks[i].sb <= Widest(size, bound) && Running(chunks, from, i + 1) <= size
  }

  /** What the check accepts of one layer: no chunk too large, the running sum never above the declared size and at it in the end. */
  ghost predicate LayerPasses(layer: LayerInfo, chunks: seq<Chunk>, bound: int) {
    && Within(layer, chunks) && layer.storedBytes > 0
    && (forall i :: layer.chunkFrom <= i <= layer.chunkTo ==> chunks[i].p == PathOf(layer, chunks))
    && (forall i :: layer.chunkFrom <= i <= layer.chunkTo ==> RunsAt(chunks, layer.chunkFrom, layer.storedBytes, bound, i))
    && Running(chunks, layer.chunkFrom, layer.chunkTo + 1) == layer.storedBytes
  }

  ghost predicate LayerPassesAt(m: Manifest, chunks: seq<Chunk>, k: nat)
    requires k < |m.layers|
  {
    m.layers[k].chunkFrom == NextChunk(m.layers, k) && LayerPasses(m.layers[k], chunks, MaxStoredChunkBytes(m))
  }

  ghost predicate LayersPass(m: Manifest, chunks: seq<Chunk>, n: nat)
    requires n <= |m.layers|
  {
    && (forall k :: 0 <= k < n ==> LayerPassesAt(m, chunks, k))
    && (forall j, k :: 0 <= j < k < n ==> PathOf(m.layers[j], chunks) != PathOf(m.layers[k], chunks))
  }

  /** What the check accepts of a whole table, for sizes of any magnitude. */
  ghost predicate Passes(m: Manifest, t: ChunkTable) {
    && m.chunking.count == |t.chunks|
    && RowsOk(t.chunks)
    && (if |t.chunks| == 0 then forall k :: 0 <= k < |m.layers| ==> m.layers[k].chunkTo < m.layers[k].chunkFrom
        else LayersPass(m, t.chunks, |m.layers|) && NextChunk(m.layers, |m.layers|) == |t.chunks|)
  }

  /** No chunk that fits the layer can carry a sum that fits it past the largest 64-bit number. */
  predicate NoWrap(size: int, bound: int) { size + Widest(size, bound) <= MAX_INT64 }

  ghost predicate SumsFit(m: Manifest) {
    forall k :: 0 <= k < |m.layers| ==> NoWrap(m.layers[k].storedBytes, MaxStoredChunkBytes(m))
  }

  lemma FitsUnwrapped(x: int)
    requires -MAX_INT64 - 1 <= x <= MAX_INT64
    ensures Wrap64(x) == x
  {
  }

  lemma {:induction false} SumFits(chunks: seq<Chunk>, from: nat, to: nat, i: nat)
    requires RowsOk(chunks) && from <= i <= to <= |chunks| && StoredSum(chunks, from, to) <= MAX_INT64
    ensures 0 <= Running(chunks, from, i) == StoredSum(chunks, from, i)
  {
    if i > from {
      SumFits(chunks, from, to, i - 1);
      StoredSumGrows(chunks, from, i, to);
      FitsUnwrapped(Running(chunks, from, i - 1) + chunks[i - 1].sb);
    }
  }

  lemma {:induction false} SumStaysFitting(chunks: seq<Chunk>, from: nat, i: nat, size: int, bound: int)
    requires RowsOk(chunks) && from <= i <= |chunks| && NoWrap(size, bound) && size > 0
    requires forall j :: from <= j < i ==> RunsAt(chunks, from, size, bound, j)
    ensures 0 <= Running(chunks, from, i) == StoredSum(chunks, from, i) <= size
  {
    if i > from {
      SumStaysFitting(chunks, from, i - 1, size, bound);
      assert RunsAt(chunks, from, size, bound, i - 1);
      FitsUnwrapped(Running(chunks, from, i - 1) + chunks[i - 1].sb);
    }
  }

  /** Where the sum cannot wrap, the check accepts a layer exactly when its chunks add up. */
  lemma PassesIffHolds(layer: LayerInfo, chunks: seq<Chunk>, bound: int)
    requires RowsOk(chunks) && NoWrap(layer.storedBytes, bound)
    ensures LayerPasses(layer, chunks, bound) <==> LayerHolds(layer, chunks, bound)
  {
    var from, to, size := layer.chunkFrom, layer.chunkTo, layer.storedBytes;
    if LayerPasses(layer, chunks, bound) {
      SumStaysFitting(chunks, from, to + 1, size, bound);
      forall i | from <= i <= to ensures chunks[i].sb <= Widest(size, bound) {
        assert RunsAt(chunks, from, size, bound, i);
      }
    }
    if LayerHolds(layer, chunks, bound) {
      HeldPasses(layer, chunks, bound);
    }
  }

  lemma PartOfSum(chunks: seq<Chunk>, from: nat, to: nat, i: nat)
    requires RowsOk(chunks) && from <= i < to <= |chunks|
    ensures chunks[i].sb <= StoredSum(chunks, from, to)
  {
    StoredSumGrows(chunks, from, i + 1, to);
    StoredSumGrows(chunks, from, from, i);
  }

  /** A layer whose chunks add up always passes. */
  lemma HeldPasses(layer: LayerInfo, chunks: seq<Chunk>, bound: int)
    requires RowsOk(chunks) && LayerHolds(layer, chunks, bound) && layer.storedBytes <= MAX_INT64
    ensures LayerPasses(layer, chunks, bound)
  {
    var from, to, size := layer.chunkFrom, layer.chunkTo, layer.storedBytes;
    forall i | from <= i <= to ensures RunsAt(chunks, from, size, bound, i) {
      PartOfSum(chunks, from, to + 1, i);
      SumFits(chunks, from, to + 1, i + 1);
      StoredSumGrows(chunks, from, i + 1, to + 1);
    }
    SumFits(chunks, from, to + 1, to + 1);
  }

  /** Where no declared size lets the sum wrap, the check accepts exactly the tables that describe their layers. */
  lemma PassesIffAccepted(m: Manifest, t: ChunkTable)
    requires SumsFit(m)
    ensures Passes(m, t) <==> Accepted(m, t)
  {
    if RowsOk(t.chunks) {
      forall k | 0 <= k < |m.layers| ensures LayerPassesAt(m, t.chunks, k) <==> LayerOk(m, t.chunks, k) {
        PassesIffHolds(m.layers[k], t.chunks, MaxStoredChunkBytes(m));
      }
    }
  }

  /** Every declared size is a 64-bit number. */
  ghost predicate Representable(m: Manifest) { forall k :: 0 <= k < |m.layers| ==> m.layers[k].storedBytes <= MAX_INT64 }

  /** A table that describes layers of 64-bit sizes always passes. */
  lemma AcceptedPasses(m: Manifest, t: ChunkTable)
    requires Accepted(m, t) && Representable(m)
    ensures Passes(m, t)
  {
    forall k | 0 <= k < |m.layers| && |t.chunks| > 0 ensures LayerPassesAt(m, t.chunks, k) {
      assert LayerOk(m, t.chunks, k);
      HeldPasses(m.layers[k], t.chunks, MaxStoredChunkBytes(m));
    }
  }

  // ---------- Where the sum wraps ----------

  /** A row of the blob "a". */
  function Piece(i: nat, size: int): Chunk { Chunk(i, "a", "", "", 0, size) }

  /** Rows of one blob that the check has let pass so far. */
  ghost predicate Climbing(chunks: seq<Chunk>, size: int, bound: int) {
    && RowsOk(chunks) && (forall i :: 0 <= i < |chunks| ==> chunks[i].p == "a")
    && forall i :: 0 <= i < |chunks| ==> RunsAt(chunks, 0, size, bound, i)
  }

  lemma {:induction false} SumsAgree(chunks: seq<Chunk>, c: Chunk, to: nat)
    requires to <= |chunks|
    ensures Running(chunks + [c], 0, to) == Running(chunks, 0, to) && StoredSum(chunks + [c], 0, to) == StoredSum(chunks, 0, to)
  {
    if to > 0 {
      SumsAgree(chunks, c, to - 1);
    }
  }

  lemma ClimbOne(chunks: seq<Chunk>, size: int, bound: int, n: int)
    requires Climbing(chunks, size, bound) && 0 < n <= Widest(size, bound) && Wrap64(Running(chunks, 0, |chunks|) + n) <= size
    ensures var more := chunks + [Piece(|chunks|, n)];
            && Climbing(more, size, bound) && Running(more, 0, |more|) == Wrap64(Running(chunks, 0, |chunks|) + n)
            && StoredSum(more, 0, |more|) == StoredSum(chunks, 0, |chunks|) + n
  {
    var more := chunks + [Piece(|chunks|, n)];
    SumsAgree(chunks, Piece(|chunks|, n), |chunks|);
    forall i | 0 <= i < |more| ensures RunsAt(more, 0, size, bound, i) {
      if i < |chunks| {
        assert RunsAt(chunks, 0, size, bound, i);
        SumsAgree(chunks, Piece(|chunks|, n), i + 1);
      }
    }
  }

  /** Rows that bring the running sum up to the declared size without a wrap. */
  lemma {:induction false} ClimbTo(chunks: seq<Chunk>, size: int, bound: int) returns (more: seq<Chunk>)
    requires Climbing(chunks, size, bound) && 0 < size <= MAX_INT64
    requires -MAX_INT64 - 1 <= Running(chunks, 0, |chunks|) <= size
    ensures Climbing(more, size, bound) && |more| >= |chunks| && Running(more, 0, |more|) == size
    ensures StoredSum(more, 0, |more|) == StoredSum(chunks, 0, |chunks|) + size - Running(chunks, 0, |chunks|)
    decreases size - Running(chunks, 0, |chunks|)
  {
    more := chunks;
    var sum := Running(chunks, 0, |chunks|);
    if sum < size {
      var n := Min(size - sum, Widest(size, bound));
      FitsUnwrapped(sum + n);
      ClimbOne(chunks, size, bound, n);
      more := ClimbTo(chunks + [Piece(|chunks|, n)], size, bound);
    }
  }

  /**
   * Wherever a chunk that fits can make the sum wrap, some layer of that size passes although its chunks add up to
   * 2^64 bytes more than it declares.
   */
  lemma WrappedLayerPasses(size: int, bound: int) returns (layer: LayerInfo, chunks: seq<Chunk>)
    requires 0 < size <= MAX_INT64 && !NoWrap(size, bound)
    ensures RowsOk(chunks) && layer.storedBytes == size && layer.chunkFrom == 0 && layer.chunkTo == |chunks| - 1
    ensures LayerPasses(layer, chunks, bound) && !LayerHolds(layer, chunks, bound)
    ensures StoredSum(chunks, 0, |chunks|) == size + 0x1_0000_0000_0000_0000
  {
    var full := ClimbTo([], size, bound);
    var over := MAX_INT64 + 1 - size;
    ClimbOne(full, size, bound, over);
    chunks := ClimbTo(full + [Piece(|full|, over)], size, bound);
    layer := LayerInfo(0, "", 0, |chunks| - 1, size);
  }

  // ---------- The check itself ----------

  method ValidateChunkTable(m: Manifest, t: ChunkTable) returns (ok: bool)
    ensures ok <==> Passes(m, t)
    ensures SumsFit(m) ==> (ok <==> Accepted(m, t))
  {
    if SumsFit(m) {
      PassesIffAccepted(m, t);
    }
    if m.chunking.count != |t.chunks| {
      return false;
    }
    for i := 0 to |t.chunks|
      invariant RowsOk(t.chunks[..i])
    {
      if t.chunks[i].i != i || t.chunks[i].sb <= 0 || t.chunks[i].p == "" {
        return false;
      }
    }
    assert t.chunks[..|t.chunks|] == t.chunks;
    if |t.chunks| == 0 {
      for k := 0 to |m.layers|
        invariant forall j :: 0 <= j < k ==> m.layers[j].chunkTo < m.layers[j].chunkFrom
      {
        if m.layers[k].chunkTo >= m.layers[k].chunkFrom {
          return false;
        }
      }
      return true;
    }
    ok := ValidateLayers(m, t);
  }

  method ValidateLayers(m: Manifest, t: ChunkTable) returns (ok: bool)
    requires |t.chunks| > 0 && RowsOk(t.chunks)
    ensures ok <==> LayersPass(m, t.chunks, |m.layers|) && NextChunk(m.layers, |m.layers|) == |t.chunks|
  {
    var next := 0;
    var byPath: set<string> := {};
    for k := 0 to |m.layers|
      invariant next == NextChunk(m.layers, k) && 0 <= next <= |t.chunks|
      invariant LayersPass(m, t.chunks, k)
      invariant byPath == set j | 0 <= j < k :: PathOf(m.layers[j], t.chunks)
    {
      var layer := m.layers[k];
      if layer.chunkFrom != next {
        assert !LayerPassesAt(m, t.chunks, k);
        return false;
      }
      if layer.chunkTo < layer.chunkFrom || layer.chunkTo >= |t.chunks| {
        assert !LayerPassesAt(m, t.chunks, k);
        return false;
      }
      var path := t.chunks[layer.chunkFrom].p;
      if path in byPath {
        return false;
      }
      byPath := byPath + {path};
      var held := ValidateLayer(layer, t.chunks, MaxStoredChunkBytes(m));
      if !held {
        assert !LayerPassesAt(m, t.chunks, k);
        return false;
      }
      next := layer.chunkTo + 1;
    }
    if next != |t.chunks| {
      return false;
    }
    ok := true;
  }

  /** One layer; the sum is a 64-bit one. */
  method ValidateLayer(layer: LayerInfo, chunks: seq<Chunk>, bound: int) returns (ok: bool)
    requires RowsOk(chunks) && Within(layer, chunks)
    ensures ok <==> LayerPasses(layer, chunks, bound)
    ensures NoWrap(layer.storedBytes, bound) ==> (ok <==> LayerHolds(layer, chunks, bound))
  {
    if NoWrap(layer.storedBytes, bound) {
      PassesIffHolds(layer, chunks, bound);
    }
    if layer.storedBytes <= 0 {
      return false;
    }
    var from, to := layer.chunkFrom, layer.chunkTo;
    var sum := 0;
    var i := from;
    while i <= to
      invariant from <= i <= to + 1 && sum == Running(chunks, from, i)
      invariant forall j :: from <= j < i ==> chunks[j].p == chunks[from].p
      invariant forall j :: from <= j < i ==> RunsAt(chunks, from, layer.storedBytes, bound, j)
    {
      if chunks[i].p != chunks[from].p {
        return false;
      }
      if chunks[i].sb > layer.storedBytes {
        assert !RunsAt(chunks, from, layer.storedBytes, bound, i);
        return false;
      }
      if bound > 0 && chunks[i].sb > bound {
        assert !RunsAt(chunks, from, layer.storedBytes, bound, i);
        return false;
      }
      sum := Wrap64(sum + chunks[i].sb);
      if sum > layer.storedBytes {
        assert !RunsAt(chunks, from, layer.storedBytes, bound, i);
        return false;
      }
      i := i + 1;
    }
    if sum != layer.storedBytes {
      return false;
    }
    ok := true;
  }

  lemma {:induction false} StoredSumGrows(chunks: seq<Chunk>, from: nat, a: nat, b: nat)
    requires RowsOk(chunks) && from <= a <= b <= |chunks|
    ensures StoredSum(chunks, from, a) <= StoredSum(chunks, from, b)
  {
    if a < b { StoredSumGrows(chunks, from, a, b - 1); }
  }

  // ---------- Layout ----------

  /** Stored bytes of the earlier chunks in the same blob. */
  function OffsetIn(chunks: seq<Chunk>, i: nat, path: string): int
    requires i <= |chunks|
  {
    if i == 0 then 0 else OffsetIn(chunks, i - 1, path) + if chunks[i - 1].p == path then chunks[i - 1].sb else 0
  }

  function PlainBefore(chunks: seq<Chunk>, i: nat): int
    requires i <= |chunks|
  {
    if i == 0 then 0 else PlainBefore(chunks, i - 1) + chunks[i - 1].pb
  }

  ghost predicate LaidOut(chunks: seq<Chunk>, offsets: seq<int>, prefix: seq<int>) {
    && |offsets| == |chunks| && |prefix| == |chunks| + 1
    && (forall i {:trigger offsets[i]} :: 0 <= i < |chunks| ==> offsets[i] == OffsetIn(chunks, i, chunks[i].p))
    && (forall i {:trigger prefix[i]} :: 0 <= i <= |chunks| ==> prefix[i] == PlainBefore(chunks, i))
  }

  /** The bytes each blob holds so far. */
  ghost predicate Tallied(byPath: map<string, int>, chunks: seq<Chunk>, i: nat)
    requires i <= |chunks|
  {
    forall p :: (if p in byPath then byPath[p] else 0) == OffsetIn(chunks, i, p)
  }

  lemma TallyOne(byPath: map<string, int>, chunks: seq<Chunk>, i: nat)
    requires i < |chunks| && Tallied(byPath, chunks, i)
    ensures var c := chunks[i];
            Tallied(byPath[c.p := (if c.p in byPath then byPath[c.p] else 0) + c.sb], chunks, i + 1)
  {
    assert (if chunks[i].p in byPath then byPath[chunks[i].p] else 0) == OffsetIn(chunks, i, chunks[i].p);
  }

  /** Offsets inside the shared blobs and prefix sums of the plain sizes, in one pass. */
  method ComputeLayout(chunks: seq<Chunk>) returns (offsets: seq<int>, prefix: seq<int>)
    ensures LaidOut(chunks, offsets, prefix)
  {
    offsets, prefix := [], [0];
    var byPath: map<string, int> := map[];
    for i := 0 to |chunks|
      invariant |offsets| == i && |prefix| == i + 1
      invariant forall j {:trigger offsets[j]} :: 0 <= j < i ==> offsets[j] == OffsetIn(chunks, j, chunks[j].p)
      invariant forall j {:trigger prefix[j]} :: 0 <= j <= i ==> prefix[j] == PlainBefore(chunks, j)
      invariant Tallied(byPath, chunks, i)
    {
      var c := chunks[i];
      var at := if c.p in byPath then byPath[c.p] else 0;
      assert at == OffsetIn(chunks, i, c.p);
      TallyOne(byPath, chunks, i);
      offsets := offsets + [at];
      byPath := byPath[c.p := at + c.sb];
      prefix := prefix + [prefix[i] + c.pb];
    }
  }

  /** Every chunk before layer k belongs to an earlier layer. */
  lemma {:induction false} EarlierLayerOf(m: Manifest, chunks: seq<Chunk>, k: nat, i: nat) returns (j: nat)
    requires k <= |m.layers| && LayersTile(m, chunks, |m.layers|) && i < NextChunk(m.layers, k)
    ensures j < k && m.layers[j].chunkFrom <= i <= m.layers[j].chunkTo
  {
    assert LayerOk(m, chunks, k - 1);
    if i >= m.layers[k - 1].chunkFrom {
      j := k - 1;
    } else {
      j := EarlierLayerOf(m, chunks, k - 1, i);
    }
  }

  lemma {:induction false} NoOffsetElsewhere(chunks: seq<Chunk>, i: nat, path: string)
    requires i <= |chunks| && forall j :: 0 <= j < i ==> chunks[j].p != path
    ensures OffsetIn(chunks, i, path) == 0
  {
    if i > 0 { NoOffsetElsewhere(chunks, i - 1, path); }
  }

  lemma {:induction false} OffsetIsSum(chunks: seq<Chunk>, from: nat, i: nat, path: string)
    requires from <= i <= |chunks| && OffsetIn(chunks, from, path) == 0
    requires forall j :: from <= j < i ==> chunks[j].p == path
    ensures OffsetIn(chunks, i, path) == StoredSum(chunks, from, i)
  {
    if from < i { OffsetIsSum(chunks, from, i - 1, path); }
  }

  /** In an accepted table the chunks of a layer lie one behind the other from 0 to the layer's size. */
  lemma LayoutTiles(m: Manifest, t: ChunkTable, k: nat, i: nat)
    requires Accepted(m, t) && |t.chunks| > 0 && k < |m.layers|
    requires m.layers[k].chunkFrom <= i <= m.layers[k].chunkTo + 1
    ensures Within(m.layers[k], t.chunks)
    ensures OffsetIn(t.chunks, i, PathOf(m.layers[k], t.chunks)) == StoredSum(t.chunks, m.layers[k].chunkFrom, i)
    ensures i == m.layers[k].chunkTo + 1 ==> StoredSum(t.chunks, m.layers[k].chunkFrom, i) == m.layers[k].storedBytes
    ensures i <= m.layers[k].chunkTo ==> t.chunks[i].p == PathOf(m.layers[k], t.chunks)
  {
    var chunks, layer := t.chunks, m.layers[k];
    assert LayerOk(m, chunks, k);
    var path := PathOf(layer, chunks);
    forall j | 0 <= j < layer.chunkFrom ensures chunks[j].p != path {
      var h := EarlierLayerOf(m, chunks, k, j);
      assert LayerOk(m, chunks, h);
    }
    NoOffsetElsewhere(chunks, layer.chunkFrom, path);
    OffsetIsSum(chunks, layer.chunkFrom, i, path);
  }

  /** Every chunk of an accepted table lies in exactly one layer's blob. */
  lemma {:induction false} PassedLayerOf(m: Manifest, chunks: seq<Chunk>, n: nat, i: nat) returns (k: nat)
    requires n <= |m.layers| && LayersPass(m, chunks, n) && i < NextChunk(m.layers, n)
    ensures k < n && LayerPassesAt(m, chunks, k) && m.layers[k].chunkFrom <= i <= m.layers[k].chunkTo
  {
    k := n - 1;
    assert LayerPassesAt(m, chunks, k);
    if i < m.layers[k].chunkFrom {
      k := PassedLayerOf(m, chunks, n - 1, i);
    }
  }

  /** No chunk of a table that passes is larger than its declared plain size allows: a 64th and 4096 bytes more. */
  lemma PassedChunkBounded(m: Manifest, t: ChunkTable, i: nat)
    requires Passes(m, t) && i < |t.chunks|
    ensures m.chunking.maxChunkBytes > 0 ==> t.chunks[i].sb <= m.chunking.maxChunkBytes + m.chunking.maxChunkBytes / 64 + 4096
    ensures m.chunking.maxChunkBytes <= 0 < m.chunking.targetChunkBytes ==>
              t.chunks[i].sb <= m.chunking.targetChunkBytes + m.chunking.targetChunkBytes / 64 + 4096
  {
    var k := PassedLayerOf(m, t.chunks, |m.layers|, i);
    assert RunsAt(t.chunks, m.layers[k].chunkFrom, m.layers[k].storedBytes, MaxStoredChunkBytes(m), i);
  }

  lemma LayerOf(m: Manifest, t: ChunkTable, i: nat) returns (k: nat)
    requires Accepted(m, t) && i < |t.chunks|
    ensures k < |m.layers| && m.layers[k].chunkFrom <= i <= m.layers[k].chunkTo
    ensures forall j :: 0 <= j < |m.layers| && m.layers[j].chunkFrom <= i <= m.layers[j].chunkTo ==> j == k
  {
    k := EarlierLayerOf(m, t.chunks, |m.layers|, i);
    forall j | 0 <= j < |m.layers| && m.layers[j].chunkFrom <= i <= m.layers[j].chunkTo ensures j == k {
      assert LayerOk(m, t.chunks, j) && LayerOk(m, t.chunks, k);
    }
  }
}
