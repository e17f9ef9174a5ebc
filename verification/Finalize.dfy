/** The last step of a backup: manifest, chunk table, sealed index and sealed confidential metadata. */
module Finalize {
  import opened Common
  import opened Metadata
  import opened Primitives
  import opened Keys
  import opened Envelope
  import opened Entries
  import opened PrivateMetadata
  import opened Builder

  const TOOL_NAME := "backimage"
  const ARCHIVE_FORMAT := "tar"
  const KDF := "scrypt-age"
  const AEAD_NAME := "aes256-gcm"

  /** What a run knows about itself besides its chunks. */
  datatype Details = Details(
    version: string, createdAt: int, sources: seq<string>, host: HostInfo, totals: Totals, keyFingerprint: string,
    recipients: seq<string>, noMetadata: bool, chunkBytes: int, cdcMin: int, cdcAvg: int, cdcMax: int, polynomial: int)

  /** The metadata a run publishes. */
  datatype Product = Product(manifest: Manifest, table: ChunkTable, indexBlob: Bytes, privateBlob: Option<Bytes>)

  function Mode(cfg: Config): NonceMode { if cfg.dedup then Convergent else Random }

  function ChunkingOf(cfg: Config, d: Details, fallback: bool, count: nat): ChunkingInfo {
    if !cfg.dedup then ChunkingInfo("length", 0, d.chunkBytes, 0, 0, false, count)
    else ChunkingInfo("cdc", d.cdcMin, d.cdcAvg, d.cdcMax, d.polynomial, fallback, count)
  }

  function EncryptionOf(cfg: Config, sealer: Sealer, d: Details): EncryptionInfo {
    if sealer.Clear? then EncryptionInfo(false, "", "", 0, "", "", [])
    else EncryptionInfo(true, KDF, AEAD_NAME, ENVELOPE_VERSION, NonceModeName(Mode(cfg)), d.keyFingerprint, d.recipients)
  }

  /** The manifest before anything confidential is moved out of it. */
  function FullManifest(cfg: Config, sealer: Sealer, d: Details, layers: seq<LayerInfo>, fallback: bool, count: nat): Manifest
    requires KnownCodec(cfg.codec)
  {
    Manifest(SCHEMA_VERSION, ToolInfo(TOOL_NAME, d.version), d.createdAt,
             if d.noMetadata then [] else d.sources, if d.noMetadata then NO_HOST else d.host, d.totals,
             ArchiveInfo(ARCHIVE_FORMAT, CodecName(cfg.codec), cfg.level), EncryptionOf(cfg, sealer, d),
             ChunkingOf(cfg, d, fallback, count), layers, Ref(INDEX_PATH, "", sealer.Sealed?), None)
  }

  /** One metadata payload under the key of the run, or as it is when there is none; `n` counts the nonces drawn. */
  function SealMetadata(lib: Primitives, cfg: Config, sealer: Sealer, n: nat, role: Byte, payload: Bytes): Bytes {
    match sealer
    case Clear => payload
    case Sealed(km, draws) =>
      match Seal(lib, km, Mode(cfg), draws(n), role, 0, ZSTD, payload)
      case None => []
      case Some(blob) => blob
  }

  /** The pieces fit: the private half binds the public one, the manifest names the sealed blob. */
  ghost predicate Describes(lib: Primitives, cfg: Config, sealer: Sealer, full: Manifest, rows: seq<Chunk>, entries: seq<FileEntry>, r: Product) {
    var table := ChunkTable(SCHEMA_VERSION, rows);
    if sealer.Clear? then
      r == Product(full, table, lib.encodeIndex(Index(SCHEMA_VERSION, entries)), None)
    else
      && r.table == PublicTable(table) && r.privateBlob.Some?
      && r.indexBlob == SealMetadata(lib, cfg, sealer, |rows|, ROLE_INDEX, lib.encodeIndex(Index(SCHEMA_VERSION_PRIVATE, entries)))
      && var p := PrivateOf(full, table).(binding := Some(NewBinding(lib, PublicManifest(full), r.table, r.indexBlob)));
         && r.privateBlob.value == SealMetadata(lib, cfg, sealer, |rows| + 1, ROLE_PRIVATE, lib.encodePrivate(p))
         && r.manifest == PublicManifest(full).(private_ := Some(Ref(PRIVATE_PATH, lib.sha(r.privateBlob.value), true)))
  }

  /** Index first, because the private half binds its digest; manifest last, because it names the private blob. */
  method Finish(lib: Primitives, cfg: Config, sealer: Sealer, d: Details, layers: seq<LayerInfo>, rows: seq<Chunk>,
                fallback: bool, entries: seq<FileEntry>)
    returns (r: Option<Product>)
    requires KnownCodec(cfg.codec)
    ensures r.Some? <==> ValidEntries(entries)
    ensures r.Some? ==> Describes(lib, cfg, sealer, FullManifest(cfg, sealer, d, layers, fallback, |rows|), rows, entries, r.value)
    ensures r.Some? && sealer.Sealed? ==> HidesAll(r.value.manifest, r.value.table) && r.value.privateBlob.Some?
  {
    var pair := new Pair(FullManifest(cfg, sealer, d, layers, fallback, |rows|), ChunkTable(SCHEMA_VERSION, rows));
    var split := pair.SplitPrivate();
    var fine := ValidateEntries(entries);
    if !fine {
      return None;
    }
    var indexBlob := SealMetadata(lib, cfg, sealer, |rows|, ROLE_INDEX,
                                  lib.encodeIndex(Index(pair.manifest.schemaVersion, entries)));
    if split.None? {
      return Some(Product(pair.manifest, pair.table, indexBlob, None));
    }
    var p := split.value.(binding := Some(NewBinding(lib, pair.manifest, pair.table, indexBlob)));
    var privateBlob := SealMetadata(lib, cfg, sealer, |rows| + 1, ROLE_PRIVATE, lib.encodePrivate(p));
    var ref := pair.manifest.private_.value.(storedSha256 := lib.sha(privateBlob));
    r := Some(Product(pair.manifest.(private_ := Some(ref)), pair.table, indexBlob, Some(privateBlob)));
  }

  /**
   * Non-interference of what is published in clear: two encrypted runs whose manifests and rows differ only in
   * confidential fields publish the same table, and manifests that differ only in the digest of the sealed blob.
   */
  lemma PublishedRevealsNothing(lib: Primitives, cfg: Config, sealer: Sealer, full: Manifest, rows: seq<Chunk>, entries: seq<FileEntry>, r: Product,
                                full2: Manifest, rows2: seq<Chunk>, entries2: seq<FileEntry>, r2: Product)
    requires sealer.Sealed? && SameOpenFields(full, full2)
    requires SameOpenRows(ChunkTable(SCHEMA_VERSION, rows), ChunkTable(SCHEMA_VERSION, rows2))
    requires Describes(lib, cfg, sealer, full, rows, entries, r) && Describes(lib, cfg, sealer, full2, rows2, entries2, r2)
    ensures r.table == r2.table && r.manifest.(private_ := r2.manifest.private_) == r2.manifest
    ensures r.manifest.private_.value.(storedSha256 := "") == r2.manifest.private_.value.(storedSha256 := "")
    ensures entries == entries2 ==> r.indexBlob == r2.indexBlob
  {
    PublicHalfRevealsNothing(full, ChunkTable(SCHEMA_VERSION, rows), full2, ChunkTable(SCHEMA_VERSION, rows2));
  }

  /** Runs over the same chunks that know different things about themselves have manifests that agree on the open fields. */
  lemma DetailsStayConfidential(cfg: Config, sealer: Sealer, d: Details, e: Details, layers: seq<LayerInfo>, fallback: bool, count: nat)
    requires KnownCodec(cfg.codec)
    requires e == d.(sources := e.sources, host := e.host, totals := e.totals, keyFingerprint := e.keyFingerprint,
                     recipients := e.recipients, noMetadata := e.noMetadata)
    ensures SameOpenFields(FullManifest(cfg, sealer, d, layers, fallback, count), FullManifest(cfg, sealer, e, layers, fallback, count))
  {
  }
}
