/** A stream that repeats one chunk: its first two layers are byte-identical, and the reader refuses the backup. */
module Twins {
  import opened Common
  import opened Metadata
  import opened Primitives
  import opened Limits
  import opened Entries
  import opened Builder
  import opened BuiltLayout
  import opened Finalize
  import opened RoundTrip

  /** n copies, one behind the other. */
  function Copies(z: Bytes, n: nat): Bytes { if n == 0 then [] else Copies(z, n - 1) + z }

  ghost predicate AllAre(stored: seq<Bytes>, z: Bytes) { forall i :: 0 <= i < |stored| ==> stored[i] == z }

  lemma {:induction false} CopiesOf(stored: seq<Bytes>, z: Bytes, lo: nat, hi: nat)
    requires lo <= hi <= |stored| && AllAre(stored, z)
    ensures Flatten(stored[lo..hi]) == Copies(z, hi - lo)
  {
    if lo < hi {
      CopiesOf(stored, z, lo, hi - 1);
      FlattenNext(stored, lo, hi - 1);
    }
  }

  lemma {:induction false} CopiesGrow(z: Bytes, a: nat, b: nat)
    requires a <= b
    ensures |Copies(z, a)| <= |Copies(z, b)|
  {
    if a < b {
      CopiesGrow(z, a, b - 1);
    }
  }

  /** m is the least number of copies that hold so many bytes. */
  predicate Fills(z: Bytes, m: nat, bytes: int) { m > 0 && |Copies(z, m - 1)| < bytes <= |Copies(z, m)| }

  lemma FullFrom(z: Bytes, m: nat, bytes: int, n: nat)
    requires Fills(z, m, bytes)
    ensures |Copies(z, n)| >= bytes <==> n >= m
  {
    if n >= m {
      CopiesGrow(z, m, n);
    } else {
      CopiesGrow(z, n, m - 1);
    }
  }

  /** How many copies of a chunk fill a layer. */
  method CountToFill(z: Bytes, bytes: int) returns (m: nat)
    requires |z| > 0 && bytes > 0
    ensures Fills(z, m, bytes)
  {
    m := 0;
    var held: Bytes := [];
    while |held| < bytes
      invariant held == Copies(z, m) && (m > 0 ==> |Copies(z, m - 1)| < bytes)
      decreases bytes - |held|
    {
      held, m := held + z, m + 1;
    }
  }

  /** A packed layer of copies ends when it is full. */
  lemma LayerOfCopies(layers: seq<LayerInfo>, stored: seq<Bytes>, z: Bytes, m: nat, limit: int, bytes: int, closed: nat, k: nat)
    requires k < |layers| && PackedAt(layers, stored, limit, bytes, closed, k) && AllAre(stored, z) && Fills(z, m, bytes)
    ensures k < limit - 1 ==> layers[k].chunkTo < layers[k].chunkFrom + m
    ensures k < closed ==> layers[k].chunkTo >= layers[k].chunkFrom + m - 1
  {
    var from, to := layers[k].chunkFrom, layers[k].chunkTo;
    CopiesOf(stored, z, from, to);
    CopiesOf(stored, z, from, to + 1);
    FullFrom(z, m, bytes, to - from);
    FullFrom(z, m, bytes, to + 1 - from);
  }

  lemma RoomForNext(lib: Primitives, layers: seq<LayerInfo>, rows: seq<Chunk>, stored: seq<Bytes>, k: nat)
    requires LayersDescribe(lib, layers, rows, stored) && k + 1 < |layers|
    ensures layers[k].chunkTo + 1 < |rows|
  {
    assert LayerAt(lib, layers, rows, stored, k + 1);
  }

  /** Twice as many copies as fill a layer make two layers of as many each. */
  lemma TwoFullLayers(lib: Primitives, layers: seq<LayerInfo>, rows: seq<Chunk>, stored: seq<Bytes>, z: Bytes, m: nat, limit: int, bytes: int)
    requires LayersDescribe(lib, layers, rows, stored) && NextChunk(layers, |layers|) == |rows| == 2 * m && |layers| > 0
    requires Packed(layers, stored, limit, bytes, |layers| - 1) && limit >= 2 && AllAre(stored, z) && Fills(z, m, bytes)
    ensures |layers| == 2 && layers[0].chunkTo == m - 1 && layers[1].chunkTo == 2 * m - 1
    ensures layers[0].chunkFrom == 0 && layers[1].chunkFrom == m
  {
    var closed := |layers| - 1;
    assert LayerAt(lib, layers, rows, stored, 0) && PackedAt(layers, stored, limit, bytes, closed, 0);
    LayerOfCopies(layers, stored, z, m, limit, bytes, closed, 0);
    assert |layers| > 1;
    assert LayerAt(lib, layers, rows, stored, 1) && PackedAt(layers, stored, limit, bytes, closed, 1);
    LayerOfCopies(layers, stored, z, m, limit, bytes, closed, 1);
    if |layers| > 2 {
      RoomForNext(lib, layers, rows, stored, 1);
    }
  }

  /** Two layers of one content have one path, so the table is refused. */
  lemma SameContentRefused(lib: Primitives, cfg: Config, sealer: Sealer, chunks: seq<Bytes>, entries: seq<FileEntry>, k: Backed)
    requires Made(lib, cfg, sealer, chunks, entries, k) && |k.full.layers| == 2
    requires Content(k.full.layers, k.stored, 0) == Content(k.full.layers, k.stored, 1)
    ensures k.full.layers[0].digest == k.full.layers[1].digest && !Passes(k.product.manifest, k.product.table)
  {
    var layers, table := k.full.layers, k.product.table.chunks;
    PublishedRows(lib, cfg, sealer, chunks, entries, k);
    assert LayerAt(lib, layers, k.rows, k.stored, 0) && LayerAt(lib, layers, k.rows, k.stored, 1);
    assert StoredFieldsAt(table, k.rows, layers[0].chunkFrom) && StoredFieldsAt(table, k.rows, layers[1].chunkFrom);
    assert PathOf(layers[0], table) == PathOf(layers[1], table);
  }

  /** The stream of 2m equal chunks, m of which fill a layer, has equal layers. */
  lemma TwinLayers(lib: Primitives, cfg: Config, c: Bytes, m: nat, chunks: seq<Bytes>, entries: seq<FileEntry>, k: Backed)
    requires Made(lib, cfg, Clear, chunks, entries, k) && PackedLayers(cfg, k.full.layers, k.stored) && |chunks| == 2 * m && AllAre(chunks, c)
    requires Fills(lib.compress(cfg.codec, cfg.level, c), m, cfg.layerBytes) && (cfg.maxDataLayers <= 0 || cfg.maxDataLayers >= 2)
    ensures |k.full.layers| == 2 && Content(k.full.layers, k.stored, 0) == Content(k.full.layers, k.stored, 1)
  {
    var z, layers, stored := lib.compress(cfg.codec, cfg.level, c), k.full.layers, k.stored;
    forall i | 0 <= i < |stored| ensures stored[i] == z {
      assert FormAt(lib, cfg, Clear, chunks, stored, i);
    }
    var limit := if cfg.maxDataLayers <= 0 then MAX_DATA_LAYERS else cfg.maxDataLayers;
    TwoFullLayers(lib, layers, k.rows, stored, z, m, limit, cfg.layerBytes);
    CopiesOf(stored, z, 0, m);
    CopiesOf(stored, z, m, 2 * m);
  }

  /**
   * Whatever the layer size and the chunk, a stream that repeats the chunk until two layers are full is written, and the
   * reader refuses it.
   */
  method WriteTwins(lib: Primitives, cfg: Config, d: Details, c: Bytes, entries: seq<FileEntry>)
    returns (product: Option<Product>, chunks: seq<Bytes>)
    requires KnownCodec(cfg.codec) && !cfg.dedup && cfg.layerBytes > 0 && |lib.compress(cfg.codec, cfg.level, c)| > 0
    requires (cfg.maxDataLayers <= 0 || cfg.maxDataLayers >= 2) && ValidEntries(entries)
    ensures AllAre(chunks, c) && product.Some? && |product.value.manifest.layers| == 2
    ensures product.value.manifest.layers[0].digest == product.value.manifest.layers[1].digest
    ensures !Passes(product.value.manifest, product.value.table)
  {
    var m := CountToFill(lib.compress(cfg.codec, cfg.level, c), cfg.layerBytes);
    chunks := seq(2 * m, _ => c);
    var files;
    ghost var k;
    product, files, k := Write(lib, cfg, Clear, d, chunks, entries);
    TwinLayers(lib, cfg, c, m, chunks, entries, k);
    SameContentRefused(lib, cfg, Clear, chunks, entries, k);
    PublishedRows(lib, cfg, Clear, chunks, entries, k);
  }
}
