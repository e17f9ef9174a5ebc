/** The write side: chunks are compressed, sealed, spooled, and rolled into layers named by their content. */
module Builder {
  import opened Common
  import opened Metadata
  import opened Primitives
  import opened Keys
  import opened Envelope
  import opened Limits
  import opened Planner

  const MAX_DATA_LAYERS := 118
  const FALLBACK_LAYERS := 110

  datatype Config = Config(codec: Byte, level: int, dedup: bool, maxDataLayers: int, estimatedRaw: int, layerBytes: int)

  /** What seals the blobs of this run, and the nonces the random generator yields for its chunks. */
  datatype Sealer = Clear | Sealed(km: KeyMaterial, draws: nat -> Nonce)

  /** The stored form of chunk i. */
  function StoredForm(lib: Primitives, cfg: Config, sealer: Sealer, i: nat, plain: Bytes): Bytes {
    var compressed := lib.compress(cfg.codec, cfg.level, plain);
    match sealer
    case Clear => compressed
    case Sealed(km, draws) =>
      match Seal(lib, km, if cfg.dedup then Convergent else Random, draws(i), ROLE_DATA, PositionOf(i), cfg.codec, compressed)
      case None => []
      case Some(blob) => blob
  }

  /** With deduplication a chunk is stored as the same bytes in every run under one key, wherever it stands. */
  lemma DuplicatesStoredAlike(lib: Primitives, cfg: Config, a: Sealer, b: Sealer, i: nat, j: nat, plain: Bytes)
    requires cfg.dedup && (a.Clear? <==> b.Clear?) && (a.Sealed? && b.Sealed? ==> a.km == b.km)
    ensures StoredForm(lib, cfg, a, i, plain) == StoredForm(lib, cfg, b, j, plain)
  {
    if a.Sealed? {
      assert ConvergentFlag(SealHeader(Convergent, cfg.codec).flags);
    }
  }

  /** Go's division and remainder, which truncate toward zero. */
  function TruncDiv(a: int, b: int): int
    requires b > 0
  {
    if a >= 0 then a / b else -((-a) / b)
  }

  function SafeLayerMaximum(target: int): int {
    if target <= 0 || target > MAX_INT64 / 4 then MAX_INT64 else target * 4
  }

  /** With deduplication a layer is closed no sooner than at a quarter of the planned size and no later than at four times it. */
  lemma RunBoundary(target: int, layerBytes: int, sum: Bytes)
    requires 4 <= target <= MAX_INT64 / 4
    ensures var b := NewContentBoundary(target, target / 4, SafeLayerMaximum(target));
            && (ShouldClose(b, layerBytes, sum) ==> layerBytes >= target / 4)
            && (layerBytes >= 4 * target ==> ShouldClose(b, layerBytes, sum))
            && (target / 4 <= layerBytes < 4 * target ==> (ShouldClose(b, layerBytes, sum) <==> IsMultiple(DigestPrefix(sum), b.modulus)))
  {
    ContentBoundaryBounds(target, target / 4, 4 * target, layerBytes, sum);
  }

  function FallbackSize(remaining: int): int {
    var eighth := TruncDiv(remaining, 8);
    Max(if eighth * 8 != remaining then eighth + 1 else eighth, MIN_CHUNK_SIZE)
  }

  /** The layers still allowed after a fallback hold what is left, in the smallest size that does or the minimum. */
  lemma FallbackCovers(remaining: int)
    ensures FallbackSize(remaining) >= MIN_CHUNK_SIZE && (MAX_DATA_LAYERS - FALLBACK_LAYERS) * FallbackSize(remaining) >= remaining
    ensures FallbackSize(remaining) > MIN_CHUNK_SIZE ==>
              (MAX_DATA_LAYERS - FALLBACK_LAYERS) * (FallbackSize(remaining) - 1) < remaining
  {
  }

  function Decimal(n: nat): string {
    if n < 10 then ["0123456789"[n]] else Decimal(n / 10) + ["0123456789"[n % 10]]
  }

  function Padded(s: string): string
    decreases 6 - |s|
  {
    if |s| >= 6 then s else Padded("0" + s)
  }

  // ---------- What the written state means ----------

  /** The bytes of layer k: the stored chunks of its range, one behind the other. */
  ghost function Content(layers: seq<LayerInfo>, stored: seq<Bytes>, k: nat): Bytes
    requires k < |layers|
  {
    if 0 <= layers[k].chunkFrom <= layers[k].chunkTo < |stored|
    then Flatten(stored[layers[k].chunkFrom..layers[k].chunkTo + 1]) else []
  }

  ghost predicate RowAt(lib: Primitives, rows: seq<Chunk>, plain: seq<Bytes>, stored: seq<Bytes>, i: nat)
    requires i < |rows| == |plain| == |stored|
  {
    rows[i] == Chunk(i, rows[i].p, lib.sha(plain[i]), lib.sha(stored[i]), |plain[i]|, |stored[i]|)
  }

  ghost predicate RowsDescribe(lib: Primitives, rows: seq<Chunk>, plain: seq<Bytes>, stored: seq<Bytes>) {
    |rows| == |plain| == |stored| && forall i :: 0 <= i < |rows| ==> RowAt(lib, rows, plain, stored, i)
  }

  ghost predicate LayerAt(lib: Primitives, layers: seq<LayerInfo>, rows: seq<Chunk>, stored: seq<Bytes>, k: nat)
    requires k < |layers| && |rows| == |stored|
  {
    && 0 <= layers[k].chunkFrom == NextChunk(layers, k) <= layers[k].chunkTo < |rows|
    && layers[k].index == k
    && layers[k].digest == lib.sha(Content(layers, stored, k))
    && layers[k].storedBytes == |Content(layers, stored, k)|
    && forall i :: layers[k].chunkFrom <= i <= layers[k].chunkTo ==> rows[i].p == DataBlobPath(layers[k].digest)
  }

  ghost predicate LayersDescribe(lib: Primitives, layers: seq<LayerInfo>, rows: seq<Chunk>, stored: seq<Bytes>) {
    |rows| == |stored| && forall k :: 0 <= k < |layers| ==> LayerAt(lib, layers, rows, stored, k)
  }

  /** A layer's blob file holds its content unless a later layer has the same name. */
  ghost predicate FileAt(layers: seq<LayerInfo>, stored: seq<Bytes>, files: map<string, Bytes>, k: nat)
    requires k < |layers|
  {
    || (exists j :: k < j < |layers| && DataBlobPath(layers[j].digest) == DataBlobPath(layers[k].digest))
    || (DataBlobPath(layers[k].digest) in files && files[DataBlobPath(layers[k].digest)] == Content(layers, stored, k))
  }

  ghost predicate FilesDescribe(layers: seq<LayerInfo>, stored: seq<Bytes>, files: map<string, Bytes>) {
    forall k :: 0 <= k < |layers| ==> FileAt(layers, stored, files, k)
  }

  /** A finished run: rows, layers and files describe the stored chunks, and every chunk is in a layer. */
  ghost predicate Written(lib: Primitives, rows: seq<Chunk>, layers: seq<LayerInfo>, files: map<string, Bytes>,
                          plain: seq<Bytes>, stored: seq<Bytes>) {
    && RowsDescribe(lib, rows, plain, stored)
    && LayersDescribe(lib, layers, rows, stored)
    && FilesDescribe(layers, stored, files)
    && NextChunk(layers, |layers|) == |rows|
  }

  ghost predicate StoredForms(lib: Primitives, cfg: Config, sealer: Sealer, plain: seq<Bytes>, stored: seq<Bytes>) {
    |plain| == |stored| && forall i :: 0 <= i < |plain| ==> FormAt(lib, cfg, sealer, plain, stored, i)
  }

  ghost predicate FormAt(lib: Primitives, cfg: Config, sealer: Sealer, plain: seq<Bytes>, stored: seq<Bytes>, i: nat)
    requires i < |plain| == |stored|
  {
    stored[i] == StoredForm(lib, cfg, sealer, i, plain[i])
  }

  /** The spool holds the chunks no layer holds yet. */
  ghost predicate Spooled(layers: seq<LayerInfo>, spool: Option<Bytes>, stored: seq<Bytes>) {
    var next := NextChunk(layers, |layers|);
    && 0 <= next <= |stored|
    && (spool.None? <==> next == |stored|)
    && (spool.Some? ==> spool.value == Flatten(stored[next..]))
  }

  /** Layer k was not already full before its last chunk, and when it was closed for being full, it is. */
  ghost predicate PackedAt(layers: seq<LayerInfo>, stored: seq<Bytes>, limit: int, bytes: int, closed: nat, k: nat)
    requires k < |layers|
  {
    var from, to := layers[k].chunkFrom, layers[k].chunkTo;
    && 0 <= from <= to < |stored| && (k < limit - 1 && from < to ==> |Flatten(stored[from..to])| < bytes)
    && (k < closed ==> |Flatten(stored[from..to + 1])| >= bytes)
  }

  /** Each layer but the last one allowed takes chunks until it holds the target size, and not one more. */
  ghost predicate Packed(layers: seq<LayerInfo>, stored: seq<Bytes>, limit: int, bytes: int, closed: nat) {
    forall k :: 0 <= k < |layers| ==> PackedAt(layers, stored, limit, bytes, closed, k)
  }

  /** Packed so far, and what is in the spool does not fill a layer unless it goes into the last one. */
  ghost predicate Packing(layers: seq<LayerInfo>, spool: Option<Bytes>, stored: seq<Bytes>, limit: int, bytes: int) {
    && Packed(layers, stored, limit, bytes, |layers|)
    && (spool.Some? && |layers| < limit - 1 ==> |spool.value| < bytes)
  }

  // ---------- The builder ----------

  datatype Result = Built | NoData | LayerLimitExceeded

  class Builder {
    const lib: Primitives
    const cfg: Config
    const sealer: Sealer
    var rows: seq<Chunk>
    var layers: seq<LayerInfo>
    var spool: Option<Bytes>
    var chunkIdx: nat
    var blobIdx: nat
    var boundary: Boundary
    var boundaryFallback: bool
    var plainBytes: int
    var files: map<string, Bytes>
    ghost var plain: seq<Bytes>
    ghost var stored: seq<Bytes>

    ghost predicate Valid()
      reads this
    {
      && chunkIdx == |rows|
      && RowsDescribe(lib, rows, plain, stored)
      && LayersDescribe(lib, layers, rows, stored)
      && FilesDescribe(layers, stored, files)
      && Spooled(layers, spool, stored)
      && StoredForms(lib, cfg, sealer, plain, stored)
    }

    constructor (lib: Primitives, cfg: Config, sealer: Sealer)
      ensures Valid() && plain == [] && layers == [] && spool.None?
      ensures this.lib == lib && this.cfg == cfg && this.sealer == sealer
    {
      this.lib, this.cfg, this.sealer := lib, cfg, sealer;
      rows, layers, spool, files := [], [], None, map[];
      chunkIdx, blobIdx, plainBytes := 0, 0, 0;
      boundary, boundaryFallback := Fixed(0), false;
      plain, stored := [], [];
    }

    function LayerLimit(): int { if cfg.maxDataLayers <= 0 then MAX_DATA_LAYERS else cfg.maxDataLayers }

    function ProvisionalPath(): string
      reads this
    {
      "backup/data/" + Padded(Decimal(blobIdx)) + ".blob"
    }

    /** A last, unconstrained layer is always kept available. */
    predicate ShouldRollLayer(sum: Bytes)
      reads this
    {
      spool.Some? && |layers| < LayerLimit() - 1 && ShouldClose(boundary, |spool.value|, sum)
    }

    /** A run with fixed boundaries, packed so far. */
    ghost predicate EvenlyPacking()
      reads this
    {
      && !cfg.dedup && cfg.layerBytes > 0 && boundary == Fixed(cfg.layerBytes)
      && Packing(layers, spool, stored, LayerLimit(), cfg.layerBytes)
    }

    /** Compresses, seals, spools and records one chunk. */
    method StoreChunk(data: Bytes) returns (blob: Bytes)
      requires Valid()
      modifies this`rows, this`spool, this`chunkIdx, this`plainBytes, this`plain, this`stored
      ensures Valid() && spool.Some?
      ensures blob == StoredForm(lib, cfg, sealer, old(chunkIdx), data)
      ensures spool == Some((if old(spool).Some? then old(spool).value else []) + blob)
      ensures plain == old(plain) + [data] && stored == old(stored) + [blob] && chunkIdx == old(chunkIdx) + 1
    {
      blob := StoredForm(lib, cfg, sealer, chunkIdx, data);
      SpoolOne(layers, spool, stored, blob);
      OneMoreRow(lib, rows, plain, stored, ProvisionalPath(), data, blob);
      LayersIgnoreNewRow(lib, layers, rows, stored, files, NewRow(lib, chunkIdx, ProvisionalPath(), data, blob), blob);
      OneMoreForm(lib, cfg, sealer, plain, stored, data);
      spool := Some((if spool.Some? then spool.value else []) + blob);
      rows := rows + [NewRow(lib, chunkIdx, ProvisionalPath(), data, blob)];
      chunkIdx, plainBytes := chunkIdx + 1, plainBytes + |data|;
      plain, stored := plain + [data], stored + [blob];
    }

    /** Rewrites the provisional path of the rows from `from` on. */
    method RenameRows(from: int, path: string)
      requires 0 <= from
      modifies this`rows
      ensures rows == Renamed(old(rows), from, path)
    {
      ghost var before := rows;
      var i := from;
      while i < |rows|
        invariant |rows| == |before| && from <= i && (i <= |rows| || i == from)
        invariant forall j :: 0 <= j < |rows| ==> rows[j] == if from <= j < i then before[j].(p := path) else before[j]
      {
        rows := rows[i := rows[i].(p := path)];
        i := i + 1;
      }
      assert rows == Renamed(before, from, path);
    }

    /** Near the layer limit, content boundaries give way to fixed ones. */
    method FallBack()
      modifies this`boundary, this`boundaryFallback
      ensures boundaryFallback <==> old(boundaryFallback) || (cfg.dedup && |layers| >= FALLBACK_LAYERS)
      ensures boundary == if boundaryFallback && !old(boundaryFallback)
                          then Fixed(FallbackSize(cfg.estimatedRaw - plainBytes)) else old(boundary)
    {
      if cfg.dedup && !boundaryFallback && |layers| >= FALLBACK_LAYERS {
        boundary := Fixed(FallbackSize(cfg.estimatedRaw - plainBytes));
        boundaryFallback := true;
      }
    }

    /** Turns the spool into a layer named by its content. */
    method CloseSpool()
      requires Valid() && spool.Some?
      modifies this`rows, this`layers, this`spool, this`files, this`blobIdx
      ensures Valid() && spool.None?
      ensures layers == old(layers) + [NewLayer(lib, old(layers), chunkIdx, old(spool.value))]
    {
      var content := spool.value;
      var layer := NewLayer(lib, layers, chunkIdx, content);
      var path := DataBlobPath(layer.digest);
      RenamedRows(lib, rows, plain, stored, layer.chunkFrom, path);
      RollLayers(lib, layers, rows, stored, content);
      RollFiles(lib, layers, rows, stored, files, content);
      RenameRows(layer.chunkFrom, path);
      files := files[path := content];
      layers := layers + [layer];
      blobIdx := blobIdx + 1;
      spool := None;
    }

    /** Rolls the spool, if any, into a layer; refused only when the limit is already reached. */
    method RollLayer() returns (ok: bool)
      requires Valid()
      modifies this`rows, this`layers, this`spool, this`files, this`blobIdx, this`boundary, this`boundaryFallback
      ensures Valid()
      ensures ok <==> old(spool.None? || cfg.maxDataLayers <= 0 || |layers| < cfg.maxDataLayers)
      ensures ok ==> spool.None?
      ensures !ok || old(spool.None?) ==> layers == old(layers) && files == old(files) && rows == old(rows)
      ensures ok && old(spool.Some?) ==> layers == old(layers) + [NewLayer(lib, old(layers), chunkIdx, old(spool.value))]
      ensures boundaryFallback <==> old(boundaryFallback) || (ok && old(spool.Some?) && cfg.dedup && |layers| >= FALLBACK_LAYERS)
      ensures boundary == if boundaryFallback && !old(boundaryFallback)
                          then Fixed(FallbackSize(cfg.estimatedRaw - plainBytes)) else old(boundary)
    {
      if spool.None? {
        return true;
      }
      if cfg.maxDataLayers > 0 && |layers| >= cfg.maxDataLayers {
        return false;
      }
      CloseSpool();
      FallBack();
      ok := true;
    }

    /** Stores one chunk and closes the layer when its boundary says so. */
    method AddChunk(data: Bytes) returns (ok: bool)
      requires Valid() && |layers| < LayerLimit()
      modifies this
      ensures Valid() && ok && |layers| < LayerLimit()
      ensures plain == old(plain) + [data]
      ensures old(layers) <= layers && |layers| <= |old(layers)| + 1
      ensures old(EvenlyPacking()) ==> EvenlyPacking()
    {
      ghost var packing := EvenlyPacking();
      ghost var before, held := stored, spool;
      var blob := StoreChunk(data);
      if packing {
        PackOne(lib, layers, held, before, blob, LayerLimit(), cfg.layerBytes);
      }
      if ShouldRollLayer(lib.sum(blob)) {
        ok := RollLayer();
        return;
      }
      ok := true;
    }

    method AddChunks(chunks: seq<Bytes>) returns (ok: bool)
      requires Valid() && plain == [] && |layers| < LayerLimit()
      modifies this
      ensures Valid() && ok && |layers| < LayerLimit() && plain == chunks
      ensures old(EvenlyPacking()) ==> EvenlyPacking()
    {
      for i := 0 to |chunks|
        invariant Valid() && plain == chunks[..i] && |layers| < LayerLimit()
        invariant old(EvenlyPacking()) ==> EvenlyPacking()
      {
        assert chunks[..i + 1] == chunks[..i] + [chunks[i]];
        ok := AddChunk(chunks[i]);
        if !ok {
          return;
        }
      }
      assert chunks[..|chunks|] == chunks;
      ok := true;
    }

    /** The last layer takes whatever the spool still holds. */
    method CloseLast() returns (ok: bool)
      requires Valid() && chunkIdx > 0 && |layers| < LayerLimit()
      modifies this`rows, this`layers, this`spool, this`files, this`blobIdx, this`boundary, this`boundaryFallback
      ensures Valid() && ok && spool.None? && 1 <= |layers| <= LayerLimit()
      ensures Written(lib, rows, layers, files, plain, stored)
      ensures old(EvenlyPacking()) ==> Packed(layers, stored, LayerLimit(), cfg.layerBytes, |layers| - 1)
    {
      if EvenlyPacking() {
        PackLast(lib, layers, spool, stored, LayerLimit(), cfg.layerBytes);
      }
      ok := RollLayer();
    }

    /** The streaming section over the chunks a splitter yields. */
    method Build(chunks: seq<Bytes>) returns (r: Result)
      requires Valid() && plain == [] && layers == [] && spool.None?
      modifies this
      ensures Valid() && (r.NoData? <==> chunks == []) && !r.LayerLimitExceeded?
      ensures r.Built? ==> plain == chunks && spool.None? && Written(lib, rows, layers, files, plain, stored)
      ensures r.Built? ==> 1 <= |layers| <= LayerLimit()
      ensures r.Built? && !cfg.dedup && cfg.layerBytes > 0 ==> Packed(layers, stored, LayerLimit(), cfg.layerBytes, |layers| - 1)
    {
      boundary := if cfg.dedup
                  then NewContentBoundary(cfg.layerBytes, cfg.layerBytes / 4, SafeLayerMaximum(cfg.layerBytes))
                  else Fixed(cfg.layerBytes);
      var added := AddChunks(chunks);
      if !added {
        return LayerLimitExceeded;
      }
      if chunkIdx == 0 {
        return NoData;
      }
      var rolled := CloseLast();
      if !rolled {
        return LayerLimitExceeded;
      }
      r := Built;
    }
  }

  lemma PackedMore(layers: seq<LayerInfo>, stored: seq<Bytes>, blob: Bytes, limit: int, bytes: int)
    requires Packed(layers, stored, limit, bytes, |layers|)
    ensures Packed(layers, stored + [blob], limit, bytes, |layers|)
  {
    var more := stored + [blob];
    forall k | 0 <= k < |layers| ensures PackedAt(layers, more, limit, bytes, |layers|, k) {
      assert PackedAt(layers, stored, limit, bytes, |layers|, k);
      var from, to := layers[k].chunkFrom, layers[k].chunkTo;
      assert more[from..to] == stored[from..to] && more[from..to + 1] == stored[from..to + 1];
    }
  }

  /** The spool becomes a layer; `full` says that it was closed for being full. */
  lemma PackLayer(lib: Primitives, layers: seq<LayerInfo>, spool: Bytes, stored: seq<Bytes>, limit: int, bytes: int, full: bool)
    requires Packed(layers, stored, limit, bytes, |layers|) && Spooled(layers, Some(spool), stored) && (full ==> |spool| >= bytes)
    requires var next := NextChunk(layers, |layers|);
             |layers| < limit - 1 && next < |stored| - 1 ==> |Flatten(stored[next..|stored| - 1])| < bytes
    ensures var all := layers + [NewLayer(lib, layers, |stored|, spool)];
            Packed(all, stored, limit, bytes, if full then |all| else |all| - 1)
  {
    var layer := NewLayer(lib, layers, |stored|, spool);
    var all := layers + [layer];
    var closed := if full then |all| else |all| - 1;
    assert stored[layer.chunkFrom..layer.chunkTo + 1] == stored[layer.chunkFrom..];
    forall k | 0 <= k < |all| ensures PackedAt(all, stored, limit, bytes, closed, k) {
      if k < |layers| {
        assert PackedAt(layers, stored, limit, bytes, |layers|, k);
      }
    }
  }

  /** One chunk more: the layer is closed when it is full, and only then. */
  lemma PackOne(lib: Primitives, layers: seq<LayerInfo>, spool: Option<Bytes>, stored: seq<Bytes>, blob: Bytes, limit: int, bytes: int)
    requires Packing(layers, spool, stored, limit, bytes) && Spooled(layers, spool, stored)
    ensures var held, all := (if spool.Some? then spool.value else []) + blob, stored + [blob];
            && (|layers| < limit - 1 && |held| >= bytes ==>
                  Packing(layers + [NewLayer(lib, layers, |all|, held)], None, all, limit, bytes))
            && (|layers| >= limit - 1 || |held| < bytes ==> Packing(layers, Some(held), all, limit, bytes))
  {
    var held, all := (if spool.Some? then spool.value else []) + blob, stored + [blob];
    PackedMore(layers, stored, blob, limit, bytes);
    SpoolOne(layers, spool, stored, blob);
    var next := NextChunk(layers, |layers|);
    assert all[next..|all| - 1] == stored[next..];
    if |layers| < limit - 1 && |held| >= bytes {
      PackLayer(lib, layers, held, all, limit, bytes, true);
    }
  }

  lemma FlattenShorter(pieces: seq<Bytes>)
    requires |pieces| > 0
    ensures |Flatten(pieces[..|pieces| - 1])| <= |Flatten(pieces)|
  {
    assert pieces == pieces[..|pieces| - 1] + [pieces[|pieces| - 1]];
    FlattenSnoc(pieces[..|pieces| - 1], pieces[|pieces| - 1]);
  }

  /** The last layer takes the rest, full or not. */
  lemma PackLast(lib: Primitives, layers: seq<LayerInfo>, spool: Option<Bytes>, stored: seq<Bytes>, limit: int, bytes: int)
    requires Packing(layers, spool, stored, limit, bytes) && Spooled(layers, spool, stored)
    ensures spool.Some? ==>
              var all := layers + [NewLayer(lib, layers, |stored|, spool.value)];
              Packed(all, stored, limit, bytes, |all| - 1)
    ensures |layers| > 0 ==> Packed(layers, stored, limit, bytes, |layers| - 1)
  {
    if spool.Some? {
      var next := NextChunk(layers, |layers|);
      FlattenShorter(stored[next..]);
      assert stored[next..][..|stored| - next - 1] == stored[next..|stored| - 1];
      PackLayer(lib, layers, spool.value, stored, limit, bytes, false);
    }
    if |layers| > 0 {
      var n := |layers| - 1;
      forall k | 0 <= k < |layers| ensures PackedAt(layers, stored, limit, bytes, n, k) {
        assert PackedAt(layers, stored, limit, bytes, |layers|, k);
      }
    }
  }

  /** Layer k ends before the chunks that are still in the spool. */
  lemma {:induction false} LayerEndsBefore(lib: Primitives, layers: seq<LayerInfo>, rows: seq<Chunk>, stored: seq<Bytes>, k: nat, n: nat)
    requires LayersDescribe(lib, layers, rows, stored) && k < n <= |layers|
    ensures layers[k].chunkTo < NextChunk(layers, n)
  {
    if k < n - 1 {
      LayerEndsBefore(lib, layers, rows, stored, k, n - 1);
      assert LayerAt(lib, layers, rows, stored, n - 1);
    }
  }

  /** No layer is empty. */
  lemma {:induction false} NoMoreLayersThanChunks(lib: Primitives, layers: seq<LayerInfo>, rows: seq<Chunk>, stored: seq<Bytes>, n: nat)
    requires LayersDescribe(lib, layers, rows, stored) && n <= |layers|
    ensures n <= NextChunk(layers, n)
  {
    if n > 0 {
      NoMoreLayersThanChunks(lib, layers, rows, stored, n - 1);
      assert LayerAt(lib, layers, rows, stored, n - 1);
    }
  }

  function Renamed(rows: seq<Chunk>, from: int, path: string): (r: seq<Chunk>)
    ensures |r| == |rows|
  {
    seq(|rows|, i requires 0 <= i < |rows| => if i < from then rows[i] else rows[i].(p := path))
  }

  lemma RenamedRows(lib: Primitives, rows: seq<Chunk>, plain: seq<Bytes>, stored: seq<Bytes>, from: int, path: string)
    requires RowsDescribe(lib, rows, plain, stored)
    ensures RowsDescribe(lib, Renamed(rows, from, path), plain, stored)
  {
    forall i | 0 <= i < |rows| ensures RowAt(lib, Renamed(rows, from, path), plain, stored, i) {
      assert RowAt(lib, rows, plain, stored, i);
    }
  }

  /** The layer that closes the spool. */
  function NewLayer(lib: Primitives, layers: seq<LayerInfo>, chunks: nat, spool: Bytes): LayerInfo {
    LayerInfo(|layers|, lib.sha(spool), NextChunk(layers, |layers|), chunks - 1, |spool|)
  }

  /** A closed layer stays described when another one is appended. */
  lemma KeepLayer(lib: Primitives, layers: seq<LayerInfo>, rows: seq<Chunk>, stored: seq<Bytes>, layer: LayerInfo, path: string, k: nat)
    requires LayersDescribe(lib, layers, rows, stored) && k < |layers| && layer.chunkFrom == NextChunk(layers, |layers|)
    ensures LayerAt(lib, layers + [layer], Renamed(rows, layer.chunkFrom, path), stored, k)
    ensures Content(layers + [layer], stored, k) == Content(layers, stored, k)
  {
    var all := layers + [layer];
    assert LayerAt(lib, layers, rows, stored, k);
    LayerEndsBefore(lib, layers, rows, stored, k, |layers|);
    assert all[k] == layers[k] && NextChunk(all, k) == NextChunk(layers, k);
  }

  lemma LastLayer(lib: Primitives, layers: seq<LayerInfo>, rows: seq<Chunk>, stored: seq<Bytes>, spool: Bytes)
    requires |rows| == |stored| && Spooled(layers, Some(spool), stored)
    ensures var layer := NewLayer(lib, layers, |rows|, spool);
            var path := DataBlobPath(layer.digest);
            && LayerAt(lib, layers + [layer], Renamed(rows, layer.chunkFrom, path), stored, |layers|)
            && Content(layers + [layer], stored, |layers|) == spool
            && Spooled(layers + [layer], None, stored)
  {
    var layer := NewLayer(lib, layers, |rows|, spool);
    var all := layers + [layer];
    assert stored[layer.chunkFrom..layer.chunkTo + 1] == stored[layer.chunkFrom..];
    assert NextChunk(all, |layers|) == NextChunk(layers, |layers|);
  }

  lemma RollLayers(lib: Primitives, layers: seq<LayerInfo>, rows: seq<Chunk>, stored: seq<Bytes>, spool: Bytes)
    requires LayersDescribe(lib, layers, rows, stored) && Spooled(layers, Some(spool), stored)
    ensures var layer := NewLayer(lib, layers, |rows|, spool);
            && LayersDescribe(lib, layers + [layer], Renamed(rows, layer.chunkFrom, DataBlobPath(layer.digest)), stored)
            && Spooled(layers + [layer], None, stored)
  {
    var layer := NewLayer(lib, layers, |rows|, spool);
    var all, renamed := layers + [layer], Renamed(rows, layer.chunkFrom, DataBlobPath(layer.digest));
    LastLayer(lib, layers, rows, stored, spool);
    forall k | 0 <= k < |all| ensures LayerAt(lib, all, renamed, stored, k) {
      if k < |layers| {
        KeepLayer(lib, layers, rows, stored, layer, DataBlobPath(layer.digest), k);
      }
    }
  }

  lemma RollFiles(lib: Primitives, layers: seq<LayerInfo>, rows: seq<Chunk>, stored: seq<Bytes>, files: map<string, Bytes>, spool: Bytes)
    requires LayersDescribe(lib, layers, rows, stored) && FilesDescribe(layers, stored, files)
    requires Spooled(layers, Some(spool), stored)
    ensures var layer := NewLayer(lib, layers, |rows|, spool);
            FilesDescribe(layers + [layer], stored, files[DataBlobPath(layer.digest) := spool])
  {
    var layer := NewLayer(lib, layers, |rows|, spool);
    var all, path := layers + [layer], DataBlobPath(layer.digest);
    var updated := files[path := spool];
    LastLayer(lib, layers, rows, stored, spool);
    forall k | 0 <= k < |all| ensures FileAt(all, stored, updated, k) {
      if k < |layers| {
        assert FileAt(layers, stored, files, k) && LayerAt(lib, layers, rows, stored, k);
        KeepLayer(lib, layers, rows, stored, layer, path, k);
        if DataBlobPath(layers[k].digest) == path {
          assert all[|layers|] == layer;
        } else if j :| k < j < |layers| && DataBlobPath(layers[j].digest) == DataBlobPath(layers[k].digest) {
          assert all[j] == layers[j];
        }
      }
    }
  }

  lemma OneMoreForm(lib: Primitives, cfg: Config, sealer: Sealer, plain: seq<Bytes>, stored: seq<Bytes>, data: Bytes)
    requires StoredForms(lib, cfg, sealer, plain, stored)
    ensures StoredForms(lib, cfg, sealer, plain + [data], stored + [StoredForm(lib, cfg, sealer, |plain|, data)])
  {
    var blob := StoredForm(lib, cfg, sealer, |plain|, data);
    var plains, blobs := plain + [data], stored + [blob];
    forall i | 0 <= i < |plains| ensures FormAt(lib, cfg, sealer, plains, blobs, i) {
      if i < |plain| {
        assert FormAt(lib, cfg, sealer, plain, stored, i) && plains[i] == plain[i] && blobs[i] == stored[i];
      }
    }
  }

  lemma SpoolOne(layers: seq<LayerInfo>, spool: Option<Bytes>, stored: seq<Bytes>, blob: Bytes)
    requires Spooled(layers, spool, stored)
    ensures Spooled(layers, Some((if spool.Some? then spool.value else []) + blob), stored + [blob])
  {
    var next := NextChunk(layers, |layers|);
    assert (stored + [blob])[next..] == stored[next..] + [blob];
    FlattenSnoc(stored[next..], blob);
  }

  function NewRow(lib: Primitives, i: nat, path: string, data: Bytes, blob: Bytes): Chunk {
    Chunk(i, path, lib.sha(data), lib.sha(blob), |data|, |blob|)
  }

  lemma OneMoreRow(lib: Primitives, init: seq<Chunk>, plain: seq<Bytes>, stored: seq<Bytes>, path: string, data: Bytes, blob: Bytes)
    requires RowsDescribe(lib, init, plain, stored)
    ensures RowsDescribe(lib, init + [NewRow(lib, |init|, path, data, blob)], plain + [data], stored + [blob])
  {
    var rows := init + [NewRow(lib, |init|, path, data, blob)];
    forall i | 0 <= i < |init| ensures RowAt(lib, rows, plain + [data], stored + [blob], i) {
      assert RowAt(lib, init, plain, stored, i);
    }
    assert RowAt(lib, rows, plain + [data], stored + [blob], |init|);
  }

  /** Appending a chunk leaves the closed layers as they were. */
  lemma LayersIgnoreNewRow(lib: Primitives, layers: seq<LayerInfo>, init: seq<Chunk>, stored: seq<Bytes>, files: map<string, Bytes>,
                           row: Chunk, blob: Bytes)
    requires LayersDescribe(lib, layers, init, stored) && FilesDescribe(layers, stored, files)
    ensures LayersDescribe(lib, layers, init + [row], stored + [blob]) && FilesDescribe(layers, stored + [blob], files)
  {
    forall k | 0 <= k < |layers|
      ensures LayerAt(lib, layers, init + [row], stored + [blob], k) && FileAt(layers, stored + [blob], files, k)
    {
      assert LayerAt(lib, layers, init, stored, k) && FileAt(layers, stored, files, k);
      var from, to := layers[k].chunkFrom, layers[k].chunkTo;
      assert (stored + [blob])[from..to + 1] == stored[from..to + 1];
    }
  }
}
