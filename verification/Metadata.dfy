/** The metadata of a backup: the public manifest and chunk table, the confidential half, the file index. */
module Metadata {
  import opened Common

  const SCHEMA_VERSION := 1
  const SCHEMA_VERSION_PRIVATE := 2
  const PRIVATE_PATH := "private.json.zst"
  const INDEX_PATH := "index.json.zst"

  datatype ToolInfo = ToolInfo(name: string, version: string)
  datatype HostInfo = HostInfo(hostname: string, os: string, arch: string)
  datatype Totals = Totals(files: int, dirs: int, symlinks: int, hardlinks: int, devices: int, bytesRaw: int, bytesStored: int)
  datatype ArchiveInfo = ArchiveInfo(format: string, compression: string, compressionLevel: int)
  datatype EncryptionInfo = EncryptionInfo(
    enabled: bool, kdf: string, aead: string, envelopeVersion: int, nonceMode: string,
    keyFingerprint: string, recipients: seq<string>)
  datatype ChunkingInfo = ChunkingInfo(
    strategy: string, minChunkBytes: int, targetChunkBytes: int, maxChunkBytes: int, polynomial: int,
    boundaryFallback: bool, count: int)
  datatype LayerInfo = LayerInfo(index: int, digest: string, chunkFrom: int, chunkTo: int, storedBytes: int)
  datatype Ref = Ref(path: string, storedSha256: string, encrypted: bool)

  datatype Manifest = Manifest(
    schemaVersion: int, tool: ToolInfo, createdAt: int, sources: seq<string>, host: HostInfo, totals: Totals,
    archive: ArchiveInfo, encryption: EncryptionInfo, chunking: ChunkingInfo, layers: seq<LayerInfo>,
    index: Ref, private_: Option<Ref>)

  /** `p` blob path, `ps`/`ss` digests of the plain and stored bytes, `pb`/`sb` their sizes. */
  datatype Chunk = Chunk(i: int, p: string, ps: string, ss: string, pb: int, sb: int)
  datatype ChunkTable = ChunkTable(schemaVersion: int, chunks: seq<Chunk>)

  datatype FileEntry = FileEntry(
    path: string, kind: string, size: int, mode: string, linkTarget: string, tarOffset: int, sha256: string)
  datatype Index = Index(schemaVersion: int, entries: seq<FileEntry>)

  const TYPE_REGULAR := "reg"
  const TYPE_DIR := "dir"
  const TYPE_SYMLINK := "sym"
  const TYPE_HARDLINK := "hard"
  const TYPE_CHAR := "chr"
  const TYPE_BLOCK := "blk"
  const TYPE_FIFO := "fifo"

  datatype ChunkSecret = ChunkSecret(ps: string, pb: int)
  datatype PrivateEncryption = PrivateEncryption(keyFingerprint: string, recipients: seq<string>)
  datatype BindingPolicy = BindingPolicy(schema: int, aead: string, envelopeVersion: int, nonceMode: string, indexEncrypted: bool)
  datatype Binding = Binding(manifest: string, chunks: string, index: string, policy: BindingPolicy)
  datatype Private = Private(
    schemaVersion: int, binding: Option<Binding>, sources: seq<string>, host: HostInfo, totals: Totals,
    encryption: PrivateEncryption, chunks: seq<ChunkSecret>)

  predicate SupportedSchema(v: int) { v == SCHEMA_VERSION || v == SCHEMA_VERSION_PRIVATE }

  // ---------- Digests ----------

  const DIGEST_PREFIX := "sha256:"

  predicate LowerHex(c: char) { '0' <= c <= '9' || 'a' <= c <= 'f' }

  predicate ValidHex64(s: string) { |s| == 64 && forall i :: 0 <= i < |s| ==> LowerHex(s[i]) }

  predicate ValidDigest(s: string) { DIGEST_PREFIX <= s && ValidHex64(s[|DIGEST_PREFIX|..]) }

  function TrimDigest(s: string): string {
    if DIGEST_PREFIX <= s then s[|DIGEST_PREFIX|..] else s
  }

  /** `got` is a digest as the program computes it, prefix included. */
  predicate DigestMatches(want: string, got: string) { TrimDigest(want) == TrimDigest(got) }

  /** The blob file of a data layer is named after the content it holds. */
  function DataBlobPath(digest: string): string { "backup/data/" + TrimDigest(digest) + ".blob" }

  lemma ValidDigestMatches(a: string, b: string)
    requires ValidDigest(a) && ValidDigest(b)
    ensures DigestMatches(a, b) <==> a == b
  {
    assert a == DIGEST_PREFIX + a[7..] && b == DIGEST_PREFIX + b[7..];
  }

  lemma DataBlobPathInjective(a: string, b: string)
    requires ValidDigest(a) && ValidDigest(b)
    ensures DataBlobPath(a) == DataBlobPath(b) <==> a == b
  {
    if DataBlobPath(a) == DataBlobPath(b) {
      assert TrimDigest(a) == DataBlobPath(a)[12..76];
      assert TrimDigest(b) == DataBlobPath(b)[12..76];
      ValidDigestMatches(a, b);
    }
  }

  // ---------- Codecs ----------

  const STORE := 0
  const GZIP := 1
  const ZSTD := 2
  const XZ := 3
  const LZ4 := 4

  predicate KnownCodec(id: int) { 0 <= id <= 4 }

  function CodecName(id: int): string
    requires KnownCodec(id)
  {
    ["store", "gzip", "zstd", "xz", "lz4"][id]
  }

  function CodecByName(name: string): Option<int> {
    if name == "store" then Some(STORE)
    else if name == "gzip" then Some(GZIP)
    else if name == "zstd" then Some(ZSTD)
    else if name == "xz" then Some(XZ)
    else if name == "lz4" then Some(LZ4)
    else None
  }

  lemma CodecNameRoundTrip(id: int)
    requires KnownCodec(id)
    ensures CodecByName(CodecName(id)) == Some(id)
  {
    assert "store"[0] == 's' && "gzip"[0] == 'g' && "zstd"[0] == 'z' && "xz"[0] == 'x' && "lz4"[0] == 'l';
  }
}
