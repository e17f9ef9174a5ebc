/** What was written is what is read: from the chunks of a stream, through the published files, back to the stream. */
module RoundTrip {
  import opened Common
  import opened Metadata
  import opened Primitives
  import opened Keys
  import opened Envelope
  import opened Limits
  import opened Limiter
  import opened Entries
  import opened PrivateMetadata
  import Builder
  import opened BuiltLayout
  import opened Finalize
  import opened Recovery
  import Open = Backup

  ghost predicate Laws(lib: Primitives) { HashLaw(lib) && CodecLaw(lib) && AeadLaw(lib) && EncodingLaw(lib) }

  /** The key of the run is usable and every drawn nonce has the right length. */
  ghost predicate SealerOk(sealer: Builder.Sealer) {
    sealer.Sealed? ==> sealer.km.Validates() && forall n :: NonceAt(sealer, n)
  }

  predicate NonceAt(sealer: Builder.Sealer, n: nat)
    requires sealer.Sealed?
  {
    |sealer.draws(n)| == NONCE_LEN
  }

  // ---------- One chunk ----------

  /** The reader holds the rows of the run, its key, and the files it wrote. */
  ghost predicate Reads(v: Reader, cfg: Builder.Config, sealer: Builder.Sealer, rows: seq<Chunk>, files: map<string, Bytes>) {
    && v.src.Files? && v.src.stable && v.chunks == rows && v.Laid()
    && KnownCodec(cfg.codec) && v.manifest.archive.compression == CodecName(cfg.codec)
    && v.manifest.encryption.enabled == sealer.Sealed? && (sealer.Sealed? ==> v.opener == Keyed(sealer.km))
    && v.manifest.chunking.count == |rows|
    && forall i :: 0 <= i < |rows| ==> ServedAt(v, files, i)
  }

  ghost predicate ServedAt(v: Reader, files: map<string, Bytes>, i: nat)
    requires i < |v.chunks|
  {
    v.chunks[i].p in files ==> v.src.file(v.chunks[i].p) == Some(files[v.chunks[i].p])
  }

  lemma StoredFound(v: Reader, cfg: Builder.Config, sealer: Builder.Sealer, files: map<string, Bytes>, plain: seq<Bytes>, stored: seq<Bytes>, i: nat)
    requires HashLaw(v.lib) && Reads(v, cfg, sealer, v.chunks, files) && i < |v.chunks|
    requires Builder.Written(v.lib, v.chunks, v.manifest.layers, files, plain, stored)
    requires Plausible(v.manifest, stored) && DistinctDigests(v.manifest.layers)
    ensures i < |stored| && StoredSpec(v, i) == Some(stored[i])
  {
    forall j | 0 <= j < |v.chunks| ensures StoredFieldsAt(v.chunks, v.chunks, j) {
    }
    ChunkFoundAgain(v.lib, v.chunks, files, plain, stored, v.manifest, ChunkTable(0, v.chunks), i);
    assert ServedAt(v, files, i);
  }

  lemma PayloadFound(v: Reader, cfg: Builder.Config, sealer: Builder.Sealer, files: map<string, Bytes>, plain: seq<Bytes>, stored: seq<Bytes>, i: nat)
    requires Laws(v.lib) && SealerOk(sealer) && Reads(v, cfg, sealer, v.chunks, files) && i < |stored|
    requires Builder.StoredForms(v.lib, cfg, sealer, plain, stored)
    ensures PayloadOf(v, i, stored[i]) == Some((v.lib.compress(cfg.codec, cfg.level, plain[i]), cfg.codec as int))
  {
    assert Builder.FormAt(v.lib, cfg, sealer, plain, stored, i);
    var compressed := v.lib.compress(cfg.codec, cfg.level, plain[i]);
    match sealer
    case Clear => CodecNameRoundTrip(cfg.codec);
    case Sealed(km, draws) =>
      assert NonceAt(sealer, i);
      SealedOpens(v.lib, km, Mode(cfg), draws(i), ROLE_DATA, PositionOf(i), cfg.codec, compressed, PositionOf(i));
  }

  lemma PlainFound(v: Reader, cfg: Builder.Config, sealer: Builder.Sealer, files: map<string, Bytes>, plain: seq<Bytes>, stored: seq<Bytes>,
                   verify: bool, i: nat)
    requires Laws(v.lib) && SealerOk(sealer) && Reads(v, cfg, sealer, v.chunks, files) && i < |v.chunks|
    requires Builder.Written(v.lib, v.chunks, v.manifest.layers, files, plain, stored)
    requires Builder.StoredForms(v.lib, cfg, sealer, plain, stored)
    requires Plausible(v.manifest, stored) && DistinctDigests(v.manifest.layers)
    ensures PlainSpec(v, i, verify) == Some(plain[i])
  {
    StoredFound(v, cfg, sealer, files, plain, stored, i);
    IntactOpens(v, cfg, sealer, files, plain, stored, verify, i);
  }

  /** A stored chunk that is the one written gives the plaintext it was made from. */
  lemma IntactOpens(v: Reader, cfg: Builder.Config, sealer: Builder.Sealer, files: map<string, Bytes>, plain: seq<Bytes>, stored: seq<Bytes>,
                    verify: bool, i: nat)
    requires Laws(v.lib) && SealerOk(sealer) && Reads(v, cfg, sealer, v.chunks, files) && i < |v.chunks| == |v.offsets|
    requires Builder.RowsDescribe(v.lib, v.chunks, plain, stored) && Builder.StoredForms(v.lib, cfg, sealer, plain, stored)
    requires StoredSpec(v, i) == Some(stored[i])
    ensures PlainSpec(v, i, verify) == Some(plain[i])
  {
    PayloadFound(v, cfg, sealer, files, plain, stored, i);
    assert Builder.RowAt(v.lib, v.chunks, plain, stored, i);
    var payload := v.lib.compress(cfg.codec, cfg.level, plain[i]);
    assert v.lib.decompress(cfg.codec, payload) == Decoded(plain[i], true);
    assert CopyPass(v, i, payload, cfg.codec) == Capped(Decoded(plain[i], true), PlainCap(v, i));
  }

  /** Every chunk of the reader yields the chunk that went in. */
  ghost predicate Yields(v: Reader, verify: bool, chunks: seq<Bytes>) {
    |v.chunks| == |v.offsets| == |chunks| && forall i :: 0 <= i < |chunks| ==> YieldsAt(v, verify, chunks, i)
  }

  ghost predicate YieldsAt(v: Reader, verify: bool, chunks: seq<Bytes>, i: nat)
    requires i < |chunks| == |v.chunks| == |v.offsets|
  {
    PlainSpec(v, i, verify) == Some(chunks[i])
  }

  lemma {:induction false} StreamFound(v: Reader, verify: bool, plain: seq<Bytes>, n: nat)
    requires Yields(v, verify, plain) && n <= |plain|
    ensures AllPlain(v, verify, n) && PlainStream(v, verify, n) == Flatten(plain[0..n])
  {
    if n > 0 {
      StreamFound(v, verify, plain, n - 1);
      assert YieldsAt(v, verify, plain, n - 1);
      FlattenNext(plain, 0, n - 1);
    }
  }

  // ---------- The metadata ----------

  /** The files of an image: metadata by name, data blobs by path. */
  function Image(files: map<string, Bytes>, r: Product, keyName: string, keyData: Bytes): Source {
    Files(name =>
            if name == INDEX_PATH then Some(r.indexBlob)
            else if name == PRIVATE_PATH then r.privateBlob
            else if name == keyName then Some(keyData)
            else if name in files then Some(files[name]) else None,
          true)
  }

  predicate KeyFileName(name: string) { name == Open.PASSPHRASE_KEYS || name == Open.IDENTITY_KEYS }

  /** No metadata file is named like a data blob. */
  lemma DataPathsApart(digest: string, keyName: string)
    requires KeyFileName(keyName)
    ensures DataBlobPath(digest) != INDEX_PATH && DataBlobPath(digest) != PRIVATE_PATH && DataBlobPath(digest) != keyName
    ensures keyName != INDEX_PATH && keyName != PRIVATE_PATH && INDEX_PATH != PRIVATE_PATH
  {
    assert DataBlobPath(digest)[0] == 'b';
    assert INDEX_PATH[0] == 'i' && PRIVATE_PATH[0] == 'p';
    assert Open.PASSPHRASE_KEYS[0] == 'k' && Open.IDENTITY_KEYS[0] == 'k';
  }

  /** Metadata sealed by a run opens under its key, for its role. */
  lemma MetadataOpens(lib: Primitives, cfg: Builder.Config, sealer: Builder.Sealer, n: nat, role: Byte, payload: Bytes)
    requires Laws(lib) && SealerOk(sealer) && sealer.Sealed? && ValidRole(role)
    ensures var blob := SealMetadata(lib, cfg, sealer, n, role, payload);
            IsEnvelope(blob) && KeyedOpen(lib, sealer.km, role, 0, blob) == Some((payload, ZSTD))
  {
    assert NonceAt(sealer, n);
    SealedOpens(lib, sealer.km, Mode(cfg), sealer.draws(n), role, 0, ZSTD, payload, 0);
  }

  /** The confidential half of a sealed run, as its blob holds it. */
  function SealedHalf(lib: Primitives, full: Manifest, rows: seq<Chunk>, r: Product): Private {
    PrivateOf(full, ChunkTable(SCHEMA_VERSION, rows)).(binding := Some(NewBinding(lib, PublicManifest(full), r.table, r.indexBlob)))
  }

  lemma RowSecrets(lib: Primitives, rows: seq<Chunk>, plain: seq<Bytes>, stored: seq<Bytes>)
    requires HashLaw(lib) && Builder.RowsDescribe(lib, rows, plain, stored)
    ensures forall i :: 0 <= i < |rows| ==> ValidDigest(rows[i].ps) && rows[i].pb >= 0
  {
    forall i | 0 <= i < |rows| ensures ValidDigest(rows[i].ps) && rows[i].pb >= 0 {
      assert Builder.RowAt(lib, rows, plain, stored, i);
      ShaIsDigest(lib, plain[i]);
    }
  }

  lemma PrivateOpens(lib: Primitives, cfg: Builder.Config, sealer: Builder.Sealer, full: Manifest, rows: seq<Chunk>,
                     entries: seq<FileEntry>, r: Product)
    requires Laws(lib) && SealerOk(sealer) && sealer.Sealed? && Describes(lib, cfg, sealer, full, rows, entries, r)
    ensures Open.OpenPrivate(lib, sealer.km, r.privateBlob.value) == Some(SealedHalf(lib, full, rows, r))
  {
    var p := SealedHalf(lib, full, rows, r);
    MetadataOpens(lib, cfg, sealer, |rows| + 1, ROLE_PRIVATE, lib.encodePrivate(p));
    assert lib.decodePrivate(lib.encodePrivate(p)) == Some(p);
  }

  /** The sealed half belongs to the published pair, and merging it gives back what the run recorded. */
  lemma PrivateBelongs(lib: Primitives, cfg: Builder.Config, sealer: Builder.Sealer, full: Manifest, rows: seq<Chunk>,
                       entries: seq<FileEntry>, r: Product)
    requires Laws(lib) && SealerOk(sealer) && sealer.Sealed? && Describes(lib, cfg, sealer, full, rows, entries, r)
    requires forall i :: 0 <= i < |rows| ==> ValidDigest(rows[i].ps) && rows[i].pb >= 0
    ensures Open.Belongs(lib, sealer.km, r.privateBlob.value, r.manifest, r.table)
    ensures var p := SealedHalf(lib, full, rows, r);
            && Mergeable(r.table, p) && MergedTable(r.table, p, |p.chunks|).chunks == rows
            && MergedManifest(r.manifest, p) == full.(schemaVersion := SCHEMA_VERSION_PRIVATE, private_ := r.manifest.private_)
  {
    var table, p := ChunkTable(SCHEMA_VERSION, rows), SealedHalf(lib, full, rows, r);
    PrivateOpens(lib, cfg, sealer, full, rows, entries, r);
    MergeRestoresSplit(full, table, p);
    BindingSurvivesUnlock(lib, PublicManifest(full), r.table, r.indexBlob, p, r.manifest.private_.value);
  }

  /** The index is read back as it was written. */
  lemma IndexFound(v: Reader, cfg: Builder.Config, sealer: Builder.Sealer, full: Manifest, rows: seq<Chunk>,
                   entries: seq<FileEntry>, r: Product)
    requires Laws(v.lib) && SealerOk(sealer) && Describes(v.lib, cfg, sealer, full, rows, entries, r)
    requires v.opener == (match sealer case Clear => Opener.Clear case Sealed(km, _) => Keyed(km))
    requires v.binding == if sealer.Clear? then None else SealedHalf(v.lib, full, rows, r).binding
    requires sealer.Clear? ==> !IsEnvelope(r.indexBlob)
    ensures OpenIndex(v, r.indexBlob) ==
            Some(Index(if sealer.Clear? then SCHEMA_VERSION else SCHEMA_VERSION_PRIVATE, entries))
  {
    var idx := Index(if sealer.Clear? then SCHEMA_VERSION else SCHEMA_VERSION_PRIVATE, entries);
    assert v.lib.decodeIndex(v.lib.encodeIndex(idx)) == Some(idx);
    if sealer.Sealed? {
      MetadataOpens(v.lib, cfg, sealer, |rows|, ROLE_INDEX, v.lib.encodeIndex(idx));
    }
  }

  // ---------- Nothing else belongs ----------

  /**
   * The sealed half of a run belongs to a manifest and table exactly when they carry the open fields and rows of the run:
   * no mix with another backup and no change to what is public unlocks.
   */
  lemma BelongsIffSameBackup(lib: Primitives, cfg: Builder.Config, sealer: Builder.Sealer, full: Manifest, rows: seq<Chunk>,
                             entries: seq<FileEntry>, r: Product, m: Manifest, t: ChunkTable)
    requires Laws(lib) && SealerOk(sealer) && sealer.Sealed? && Describes(lib, cfg, sealer, full, rows, entries, r)
    requires forall i :: 0 <= i < |rows| ==> ValidDigest(rows[i].ps) && rows[i].pb >= 0
    requires NoCollision(lib, {lib.encodeManifest(CanonicalManifest(PublicManifest(full))), lib.encodeManifest(CanonicalManifest(m))})
    requires NoCollision(lib, {lib.encodeTable(CanonicalTable(r.table)), lib.encodeTable(CanonicalTable(t))})
    ensures Open.Belongs(lib, sealer.km, r.privateBlob.value, m, t) <==>
              && m.schemaVersion == SCHEMA_VERSION_PRIVATE && SameOpenFields(m, full)
              && t.schemaVersion == SCHEMA_VERSION_PRIVATE && SameOpenRows(t, ChunkTable(SCHEMA_VERSION, rows))
  {
    var table, p := ChunkTable(SCHEMA_VERSION, rows), SealedHalf(lib, full, rows, r);
    PrivateOpens(lib, cfg, sealer, full, rows, entries, r);
    MergeRestoresSplit(full, table, p);
    SplitHidesAndHolds(full, table);
    CheckIffSameBoundFields(lib, PublicManifest(full), r.table, r.indexBlob, m, t);
    SameRowsAs(t, r.table, table);
  }

  lemma SameRowsAs(t: ChunkTable, u: ChunkTable, w: ChunkTable)
    requires SameOpenRows(u, w)
    ensures SameOpenRows(t, u) <==> SameOpenRows(t, w)
  {
    if |t.chunks| == |u.chunks| {
      forall i | 0 <= i < |t.chunks| ensures SameOpenRow(t.chunks[i], u.chunks[i]) <==> SameOpenRow(t.chunks[i], w.chunks[i]) {
        assert SameOpenRow(u.chunks[i], w.chunks[i]);
      }
    }
  }

  /** Once the sealed half is merged, no other index blob opens than the one the run published. */
  lemma OnlyBoundIndexOpens(v: Reader, full: Manifest, rows: seq<Chunk>, r: Product, blob: Bytes)
    requires HashLaw(v.lib) && v.binding == SealedHalf(v.lib, full, rows, r).binding && NoCollision(v.lib, {blob, r.indexBlob})
    ensures OpenIndex(v, blob).Some? ==> blob == r.indexBlob
  {
    ShaIsDigest(v.lib, r.indexBlob);
    assert v.lib.sha(r.indexBlob) != "";
  }

  // ---------- There and back ----------

  /** Everything a finished run leaves behind, and the bookkeeping behind it. */
  datatype Backed = Backed(product: Product, files: map<string, Bytes>, rows: seq<Chunk>, stored: seq<Bytes>, full: Manifest)

  ghost predicate Made(lib: Primitives, cfg: Builder.Config, sealer: Builder.Sealer, chunks: seq<Bytes>, entries: seq<FileEntry>, k: Backed) {
    && Builder.Written(lib, k.rows, k.full.layers, k.files, chunks, k.stored) && |k.rows| > 0
    && Builder.StoredForms(lib, cfg, sealer, chunks, k.stored)
    && Describes(lib, cfg, sealer, k.full, k.rows, entries, k.product)
    && KnownCodec(cfg.codec) && k.full.archive.compression == CodecName(cfg.codec)
    && k.full.encryption.enabled == sealer.Sealed? && k.full.private_.None? && k.full.schemaVersion == SCHEMA_VERSION
    && k.full.chunking.count == |k.rows| && k.full.index.path == INDEX_PATH
  }

  /** The manifest declares the chunk sizes of the run. */
  predicate ChunkSizes(cfg: Builder.Config, d: Details, m: Manifest) {
    && m.chunking.strategy == (if cfg.dedup then "cdc" else "length")
    && m.chunking.targetChunkBytes == (if cfg.dedup then d.cdcAvg else d.chunkBytes)
    && m.chunking.maxChunkBytes == (if cfg.dedup then d.cdcMax else 0)
    && (cfg.dedup ==> m.chunking.minChunkBytes == d.cdcMin && m.chunking.polynomial == d.polynomial)
  }

  /** The manifest says about the run what the run knew about itself. */
  ghost predicate Tells(cfg: Builder.Config, sealer: Builder.Sealer, d: Details, m: Manifest) {
    && m.tool == ToolInfo("backimage", d.version) && m.createdAt == d.createdAt && m.totals == d.totals
    && (!d.noMetadata ==> m.sources == d.sources && m.host == d.host)
    && (d.noMetadata ==> m.sources == [] && m.host == HostInfo("", "", ""))
    && (sealer.Sealed? ==>
          && m.encryption.keyFingerprint == d.keyFingerprint && m.encryption.recipients == d.recipients
          && m.encryption.aead == "aes256-gcm" && m.encryption.envelopeVersion == 3
          && m.encryption.nonceMode == if cfg.dedup then "convergent" else "random")
  }

  ghost predicate PackedLayers(cfg: Builder.Config, layers: seq<LayerInfo>, stored: seq<Bytes>) {
    var limit := if cfg.maxDataLayers <= 0 then Builder.MAX_DATA_LAYERS else cfg.maxDataLayers;
    |layers| > 0 && Builder.Packed(layers, stored, limit, cfg.layerBytes, |layers| - 1)
  }

  /** The streaming section of one backup. */
  method WriteChunks(lib: Primitives, cfg: Builder.Config, sealer: Builder.Sealer, chunks: seq<Bytes>)
    returns (built: bool, layers: seq<LayerInfo>, rows: seq<Chunk>, files: map<string, Bytes>, fallback: bool, ghost stored: seq<Bytes>)
    ensures built <==> chunks != []
    ensures built ==> |rows| > 0 && Builder.Written(lib, rows, layers, files, chunks, stored)
    ensures built ==> Builder.StoredForms(lib, cfg, sealer, chunks, stored)
    ensures built ==> 1 <= |layers| && (cfg.maxDataLayers == 0 ==> |layers| <= Builder.MAX_DATA_LAYERS)
    ensures built && !cfg.dedup && cfg.layerBytes > 0 ==> PackedLayers(cfg, layers, stored)
  {
    var b := new Builder.Builder(lib, cfg, sealer);
    var r := b.Build(chunks);
    built, layers, rows, files, fallback, stored := r.Built?, b.layers, b.rows, b.files, b.boundaryFallback, b.stored;
  }

  lemma WrittenIsMade(lib: Primitives, cfg: Builder.Config, sealer: Builder.Sealer, d: Details, chunks: seq<Bytes>, entries: seq<FileEntry>,
                      layers: seq<LayerInfo>, fallback: bool, k: Backed)
    requires KnownCodec(cfg.codec) && k.full == FullManifest(cfg, sealer, d, layers, fallback, |k.rows|) && |k.rows| > 0
    requires Builder.Written(lib, k.rows, layers, k.files, chunks, k.stored) && Builder.StoredForms(lib, cfg, sealer, chunks, k.stored)
    requires Describes(lib, cfg, sealer, k.full, k.rows, entries, k.product)
    ensures Made(lib, cfg, sealer, chunks, entries, k) && ChunkSizes(cfg, d, k.full) && Tells(cfg, sealer, d, k.full)
  {
  }

  /** The metadata of the chunks that were written. */
  method Publish(lib: Primitives, cfg: Builder.Config, sealer: Builder.Sealer, d: Details, layers: seq<LayerInfo>, rows: seq<Chunk>,
                 fallback: bool, files: map<string, Bytes>, entries: seq<FileEntry>, ghost chunks: seq<Bytes>, ghost stored: seq<Bytes>)
    returns (product: Option<Product>, ghost k: Backed)
    requires KnownCodec(cfg.codec) && |rows| > 0
    requires Builder.Written(lib, rows, layers, files, chunks, stored) && Builder.StoredForms(lib, cfg, sealer, chunks, stored)
    ensures product.Some? <==> ValidEntries(entries)
    ensures product.Some? ==> Made(lib, cfg, sealer, chunks, entries, k) && ChunkSizes(cfg, d, k.full) && Tells(cfg, sealer, d, k.full)
    ensures product.Some? ==> k == Backed(product.value, files, rows, stored, k.full) && k.full.layers == layers
    ensures product.Some? ==> k.full.chunking.boundaryFallback == (cfg.dedup && fallback)
    ensures product.Some? && sealer.Sealed? ==> HidesAll(product.value.manifest, product.value.table)
  {
    product := Finish(lib, cfg, sealer, d, layers, rows, fallback, entries);
    k := *;
    if product.Some? {
      k := Backed(product.value, files, rows, stored, FullManifest(cfg, sealer, d, layers, fallback, |rows|));
      WrittenIsMade(lib, cfg, sealer, d, chunks, entries, layers, fallback, k);
    }
  }

  /** The streaming section and the metadata of one backup; refused only for an empty stream or an invalid index. */
  method Write(lib: Primitives, cfg: Builder.Config, sealer: Builder.Sealer, d: Details, chunks: seq<Bytes>, entries: seq<FileEntry>)
    returns (product: Option<Product>, files: map<string, Bytes>, ghost k: Backed)
    requires KnownCodec(cfg.codec)
    ensures product.Some? <==> chunks != [] && ValidEntries(entries)
    ensures product.Some? ==> Made(lib, cfg, sealer, chunks, entries, k) && k.product == product.value && k.files == files
    ensures product.Some? ==> 1 <= |k.full.layers| && (cfg.maxDataLayers == 0 ==> |k.full.layers| <= Builder.MAX_DATA_LAYERS)
    ensures product.Some? && !cfg.dedup && cfg.layerBytes > 0 ==> PackedLayers(cfg, k.full.layers, k.stored)
    ensures product.Some? ==> ChunkSizes(cfg, d, k.full) && Tells(cfg, sealer, d, k.full)
    ensures product.Some? && sealer.Sealed? ==> HidesAll(product.value.manifest, product.value.table)
  {
    var built, layers, rows, fallback;
    ghost var stored;
    built, layers, rows, files, fallback, stored := WriteChunks(lib, cfg, sealer, chunks);
    k := *;
    if !built {
      return None, files, k;
    }
    product, k := Publish(lib, cfg, sealer, d, layers, rows, fallback, files, entries, chunks, stored);
  }

  /** The published rows keep the stored fields. */
  lemma PublishedRows(lib: Primitives, cfg: Builder.Config, sealer: Builder.Sealer, chunks: seq<Bytes>, entries: seq<FileEntry>, k: Backed)
    requires Made(lib, cfg, sealer, chunks, entries, k)
    ensures SameStored(k.product.table.chunks, k.rows) && Open.ShapeOk(k.product.manifest)
    ensures k.product.manifest.layers == k.full.layers && k.product.manifest.chunking == k.full.chunking
    ensures Open.SizesReadable(k.product.table.chunks)
  {
    forall i | 0 <= i < |k.rows|
      ensures StoredFieldsAt(k.product.table.chunks, k.rows, i) && k.product.table.chunks[i].pb >= 0
    {
      assert Builder.RowAt(lib, k.rows, chunks, k.stored, i);
    }
  }

  /** The reader accepts the published metadata exactly when no two layers are byte-identical. */
  lemma PublishedAccepted(lib: Primitives, cfg: Builder.Config, sealer: Builder.Sealer, chunks: seq<Bytes>, entries: seq<FileEntry>, k: Backed)
    requires HashLaw(lib) && Made(lib, cfg, sealer, chunks, entries, k) && Plausible(k.full, k.stored)
    ensures Accepted(k.product.manifest, k.product.table) <==> DistinctDigests(k.full.layers)
    ensures Passes(k.product.manifest, k.product.table) ==> DistinctDigests(k.full.layers)
    ensures Representable(k.full) && DistinctDigests(k.full.layers) ==> Passes(k.product.manifest, k.product.table)
  {
    PublishedRows(lib, cfg, sealer, chunks, entries, k);
    WrittenAccepted(lib, k.rows, k.files, chunks, k.stored, k.product.manifest, k.product.table);
    WrittenPasses(lib, k.rows, k.files, chunks, k.stored, k.product.manifest, k.product.table);
  }

  lemma MadeChunk(v: Reader, cfg: Builder.Config, sealer: Builder.Sealer, chunks: seq<Bytes>, entries: seq<FileEntry>, k: Backed, verify: bool, i: nat)
    requires Laws(v.lib) && SealerOk(sealer) && Made(v.lib, cfg, sealer, chunks, entries, k) && i < |chunks|
    requires Plausible(k.full, k.stored) && DistinctDigests(k.full.layers)
    requires Reads(v, cfg, sealer, k.rows, k.files) && v.manifest.layers == k.full.layers && v.manifest.chunking == k.full.chunking
    ensures |v.chunks| == |chunks| && PlainSpec(v, i, verify) == Some(chunks[i])
  {
    PlainFound(v, cfg, sealer, k.files, chunks, k.stored, verify, i);
  }

  /** A reader that opened and unlocked what was made restores the stream. */
  lemma MadeRestores(v: Reader, cfg: Builder.Config, sealer: Builder.Sealer, chunks: seq<Bytes>, entries: seq<FileEntry>, k: Backed, verify: bool)
    requires Laws(v.lib) && SealerOk(sealer) && Made(v.lib, cfg, sealer, chunks, entries, k)
    requires Plausible(k.full, k.stored) && DistinctDigests(k.full.layers)
    requires Reads(v, cfg, sealer, k.rows, k.files) && v.manifest.layers == k.full.layers && v.manifest.chunking == k.full.chunking
    ensures Yields(v, verify, chunks) && AllPlain(v, verify, |v.chunks|) && PlainStream(v, verify, |v.chunks|) == Flatten(chunks)
  {
    assert |v.chunks| == |v.offsets| == |chunks|;
    forall i | 0 <= i < |chunks| ensures YieldsAt(v, verify, chunks, i) {
      MadeChunk(v, cfg, sealer, chunks, entries, k, verify, i);
    }
    StreamFound(v, verify, chunks, |chunks|);
    assert chunks[0..|chunks|] == chunks;
  }

  lemma ImageServes(lib: Primitives, cfg: Builder.Config, sealer: Builder.Sealer, chunks: seq<Bytes>, entries: seq<FileEntry>, k: Backed,
                    keyName: string, keyData: Bytes, i: nat)
    requires Made(lib, cfg, sealer, chunks, entries, k) && KeyFileName(keyName) && i < |k.rows|
    ensures k.rows[i].p in k.files ==> Image(k.files, k.product, keyName, keyData).file(k.rows[i].p) == Some(k.files[k.rows[i].p])
  {
    var layer := WrittenLayerOf(lib, k.rows, k.full.layers, k.stored, |k.full.layers|, i);
    assert Builder.LayerAt(lib, k.full.layers, k.rows, k.stored, layer);
    DataPathsApart(k.full.layers[layer].digest, keyName);
  }

  /** Opened, and unlocked when sealed, the reader holds what the run recorded. */
  ghost predicate HoldsMade(v: Reader, sealer: Builder.Sealer, src: Source, k: Backed) {
    && v.src == src && v.chunks == k.rows && v.Laid()
    && v.manifest == (if sealer.Clear? then k.full
                      else k.full.(schemaVersion := SCHEMA_VERSION_PRIVATE, private_ := k.product.manifest.private_))
    && v.opener == (match sealer case Clear => Opener.Clear case Sealed(km, _) => Keyed(km))
    && v.binding == if sealer.Clear? then None else SealedHalf(v.lib, k.full, k.rows, k.product).binding
  }

  lemma HoldsMadeReads(v: Reader, cfg: Builder.Config, sealer: Builder.Sealer, chunks: seq<Bytes>, entries: seq<FileEntry>, k: Backed,
                       keyName: string, keyData: Bytes)
    requires Made(v.lib, cfg, sealer, chunks, entries, k) && KeyFileName(keyName)
    requires HoldsMade(v, sealer, Image(k.files, k.product, keyName, keyData), k)
    ensures Reads(v, cfg, sealer, k.rows, k.files)
  {
    forall i | 0 <= i < |k.rows| ensures ServedAt(v, k.files, i) {
      ImageServes(v.lib, cfg, sealer, chunks, entries, k, keyName, keyData, i);
    }
  }

  /** What the key file and the sealed blob of an image give. */
  lemma MadeUnlockable(lib: Primitives, cfg: Builder.Config, sealer: Builder.Sealer, chunks: seq<Bytes>, entries: seq<FileEntry>, k: Backed,
                       keyName: string, keyData: Bytes, unwrap: Bytes -> Option<KeyMaterial>)
    requires Laws(lib) && SealerOk(sealer) && sealer.Sealed? && Made(lib, cfg, sealer, chunks, entries, k) && KeyFileName(keyName)
    requires unwrap(keyData) == Some(sealer.km)
    ensures var src := Image(k.files, k.product, keyName, keyData);
            && Open.KeyFrom(src, keyName, unwrap) == Some(sealer.km)
            && Open.Unlockable(lib, src, keyName, unwrap, k.product.manifest, k.product.table)
            && src.file(k.product.manifest.private_.value.path) == k.product.privateBlob
  {
    DataPathsApart("", keyName);
    RowSecrets(lib, k.rows, chunks, k.stored);
    PrivateBelongs(lib, cfg, sealer, k.full, k.rows, entries, k.product);
  }

  /** An image of the run, opened and unlocked, holds what the run recorded. */
  lemma OpenedHoldsMade(v: Reader, cfg: Builder.Config, sealer: Builder.Sealer, chunks: seq<Bytes>, entries: seq<FileEntry>, k: Backed,
                        keyName: string, keyData: Bytes, unwrap: Bytes -> Option<KeyMaterial>)
    requires Laws(v.lib) && SealerOk(sealer) && Made(v.lib, cfg, sealer, chunks, entries, k) && KeyFileName(keyName)
    requires sealer.Sealed? ==> unwrap(keyData) == Some(sealer.km)
    requires Open.OpenedAs(v, v.lib, Image(k.files, k.product, keyName, keyData), keyName, unwrap, k.product.manifest, k.product.table)
    ensures HoldsMade(v, sealer, Image(k.files, k.product, keyName, keyData), k)
  {
    if sealer.Sealed? {
      MadeUnlockable(v.lib, cfg, sealer, chunks, entries, k, keyName, keyData, unwrap);
      RowSecrets(v.lib, k.rows, chunks, k.stored);
      PrivateOpens(v.lib, cfg, sealer, k.full, k.rows, entries, k.product);
      PrivateBelongs(v.lib, cfg, sealer, k.full, k.rows, entries, k.product);
    }
  }

  /** What opening an image of the run checks. */
  lemma MadeOpens(lib: Primitives, cfg: Builder.Config, sealer: Builder.Sealer, chunks: seq<Bytes>, entries: seq<FileEntry>, k: Backed)
    requires HashLaw(lib) && Made(lib, cfg, sealer, chunks, entries, k)
    ensures Open.SizesReadable(k.product.table.chunks) && Open.ShapeOk(k.product.manifest)
    ensures k.product.manifest.encryption.enabled == sealer.Sealed?
    ensures Plausible(k.full, k.stored) && Passes(k.product.manifest, k.product.table) ==> DistinctDigests(k.full.layers)
    ensures Plausible(k.full, k.stored) && Representable(k.full) && DistinctDigests(k.full.layers) ==>
              Passes(k.product.manifest, k.product.table)
  {
    PublishedRows(lib, cfg, sealer, chunks, entries, k);
    if Plausible(k.full, k.stored) {
      PublishedAccepted(lib, cfg, sealer, chunks, entries, k);
    }
  }

  /** Opening and unlocking an image of the run. */
  method Unlocked(lib: Primitives, cfg: Builder.Config, sealer: Builder.Sealer, product: Product, files: map<string, Bytes>,
                  keyName: string, keyData: Bytes, unwrap: Bytes -> Option<KeyMaterial>,
                  ghost chunks: seq<Bytes>, ghost entries: seq<FileEntry>, ghost k: Backed)
    returns (v: Option<Reader>)
    requires Laws(lib) && SealerOk(sealer) && Made(lib, cfg, sealer, chunks, entries, k) && KeyFileName(keyName)
    requires k.product == product && k.files == files && (sealer.Sealed? ==> unwrap(keyData) == Some(sealer.km))
    ensures Plausible(k.full, k.stored) && v.Some? ==> DistinctDigests(k.full.layers)
    ensures Plausible(k.full, k.stored) && Representable(k.full) && DistinctDigests(k.full.layers) ==> v.Some?
    ensures v.Some? ==> v.value.lib == lib && HoldsMade(v.value, sealer, Image(files, product, keyName, keyData), k)
    ensures v.Some? ==> fresh(v.value.log)
  {
    MadeOpens(lib, cfg, sealer, chunks, entries, k);
    if sealer.Sealed? {
      MadeUnlockable(lib, cfg, sealer, chunks, entries, k, keyName, keyData, unwrap);
    }
    v := Open.OpenAndUnlock(lib, Image(files, product, keyName, keyData), keyName, unwrap, product.manifest, product.table);
    if v.Some? {
      OpenedHoldsMade(v.value, cfg, sealer, chunks, entries, k, keyName, keyData, unwrap);
    }
  }

  lemma StreamReady(v: Reader, verify: bool, cfg: Builder.Config, sealer: Builder.Sealer, chunks: seq<Bytes>, entries: seq<FileEntry>,
                    k: Backed, keyName: string, keyData: Bytes)
    requires Laws(v.lib) && SealerOk(sealer) && Made(v.lib, cfg, sealer, chunks, entries, k) && KeyFileName(keyName)
    requires HoldsMade(v, sealer, Image(k.files, k.product, keyName, keyData), k)
    ensures |v.chunks| == |v.offsets| && v.src.stable
    ensures Plausible(k.full, k.stored) && DistinctDigests(k.full.layers) ==>
              && AllPlain(v, MustVerify(v, verify), |v.chunks|)
              && PlainStream(v, MustVerify(v, verify), |v.chunks|) == Flatten(chunks)
  {
    HoldsMadeReads(v, cfg, sealer, chunks, entries, k, keyName, keyData);
    if Plausible(k.full, k.stored) && DistinctDigests(k.full.layers) {
      MadeRestores(v, cfg, sealer, chunks, entries, k, MustVerify(v, verify));
    }
  }

  lemma IndexReady(v: Reader, cfg: Builder.Config, sealer: Builder.Sealer, chunks: seq<Bytes>, entries: seq<FileEntry>, k: Backed,
                   keyName: string, keyData: Bytes)
    requires Laws(v.lib) && SealerOk(sealer) && Made(v.lib, cfg, sealer, chunks, entries, k) && ValidEntries(entries)
    requires HoldsMade(v, sealer, Image(k.files, k.product, keyName, keyData), k)
    ensures (sealer.Clear? ==> !IsEnvelope(k.product.indexBlob)) ==>
              IndexOk(v) && OpenIndex(v, v.src.file(v.manifest.index.path).value).value.entries == entries
  {
    if sealer.Clear? ==> !IsEnvelope(k.product.indexBlob) {
      IndexFound(v, cfg, sealer, k.full, k.rows, entries, k.product);
    }
  }

  /** Streaming the data and reading the index of an unlocked image. */
  method ReadBack(v: Reader, verify: bool, ghost cfg: Builder.Config, ghost sealer: Builder.Sealer, ghost chunks: seq<Bytes>,
                  ghost entries: seq<FileEntry>, ghost k: Backed, ghost keyName: string, ghost keyData: Bytes)
    returns (out: Bytes, ok: bool, idx: Option<Index>)
    requires Laws(v.lib) && SealerOk(sealer) && Made(v.lib, cfg, sealer, chunks, entries, k) && KeyFileName(keyName)
    requires HoldsMade(v, sealer, Image(k.files, k.product, keyName, keyData), k) && ValidEntries(entries)
    modifies v.log
    ensures Plausible(k.full, k.stored) && DistinctDigests(k.full.layers) ==> ok && out == Flatten(chunks)
    ensures (sealer.Clear? ==> !IsEnvelope(k.product.indexBlob)) ==> idx.Some? && idx.value.entries == entries
  {
    StreamReady(v, verify, cfg, sealer, chunks, entries, k, keyName, keyData);
    IndexReady(v, cfg, sealer, chunks, entries, k, keyName, keyData);
    ghost var parts;
    out, ok, parts := StreamTar(v, verify);
    idx := ReadIndex(v);
  }

  /**
   * The whole way: a stream cut into chunks is written, published, opened, unlocked and streamed back. Unless two
   * layers are byte-identical, the stream and the index that come out are the ones that went in. What an encrypted run
   * knew about itself is absent from the published manifest and table, and there again once the backup is unlocked.
   */
  method WriteThenRestore(lib: Primitives, cfg: Builder.Config, sealer: Builder.Sealer, d: Details, chunks: seq<Bytes>,
                          entries: seq<FileEntry>, keyName: string, keyData: Bytes, unwrap: Bytes -> Option<KeyMaterial>, verify: bool)
    returns (written: bool, accepted: bool, ok: bool, out: Bytes, idx: Option<Index>, shown: Option<Manifest>, ghost k: Backed)
    requires Laws(lib) && SealerOk(sealer) && KnownCodec(cfg.codec) && KeyFileName(keyName)
    requires sealer.Sealed? ==> unwrap(keyData) == Some(sealer.km)
    ensures written <==> chunks != [] && ValidEntries(entries)
    ensures written && Representable(k.full) && Plausible(k.full, k.stored) ==> (accepted <==> DistinctDigests(k.full.layers))
    ensures written && accepted && Plausible(k.full, k.stored) ==> ok && out == Flatten(chunks)
    ensures written && accepted && (sealer.Clear? ==> !IsEnvelope(k.product.indexBlob)) ==> idx.Some? && idx.value.entries == entries
    ensures written ==> Made(lib, cfg, sealer, chunks, entries, k)
    ensures written && sealer.Sealed? ==> HidesAll(k.product.manifest, k.product.table)
    ensures written && accepted ==> shown.Some? && Tells(cfg, sealer, d, shown.value)
  {
    written, accepted, ok, out, idx, shown := false, false, false, [], None, None;
    var product, files;
    product, files, k := Write(lib, cfg, sealer, d, chunks, entries);
    if product.None? {
      return;
    }
    written := true;
    var v := Unlocked(lib, cfg, sealer, product.value, files, keyName, keyData, unwrap, chunks, entries, k);
    if v.None? {
      return;
    }
    accepted, shown := true, Some(v.value.manifest);
    out, ok, idx := ReadBack(v.value, verify, cfg, sealer, chunks, entries, k, keyName, keyData);
  }
}
