/** Reading chunks back: one stored chunk, its plaintext, the whole stream, and the integrity pass. */
module Recovery {
  import opened Common
  import opened Metadata
  import opened Primitives
  import opened Keys
  import opened Envelope
  import opened Limits
  import opened Limiter
  import opened Entries
  import opened PrivateMetadata

  /**
   * Where the bytes come from: files of the image, or chunks fetched one by one. A source that is not
   * stable may answer every read differently, with anything.
   */
  datatype Source =
    | Files(file: string -> Option<Bytes>, stable: bool)
    | Blobs(blob: nat -> Option<Bytes>, file: string -> Option<Bytes>, stable: bool)

  method ReadFile(src: Source, name: string) returns (r: Option<Bytes>)
    ensures src.stable ==> r == src.file(name)
  {
    r := *;
    if src.stable {
      r := src.file(name);
    }
  }

  method ReadBlob(src: Source, i: nat) returns (r: Option<Bytes>)
    requires src.Blobs?
    ensures src.stable ==> r == src.blob(i)
  {
    r := *;
    if src.stable {
      r := src.blob(i);
    }
  }

  /** Which chunks were read from the source, in order. */
  class ReadLog {
    ghost var fetched: seq<nat>

    constructor ()
      ensures fetched == []
    {
      fetched := [];
    }
  }

  datatype Opener = Locked | Clear | Keyed(km: KeyMaterial)

  /** What an opened backup reads with. */
  datatype Reader = Reader(
    lib: Primitives, src: Source, manifest: Manifest, chunks: seq<Chunk>, offsets: seq<int>, prefix: seq<int>,
    opener: Opener, binding: Option<Binding>, log: ReadLog)
  {
    /** The layout was computed from this table, whose sizes were checked when it was read. */
    ghost predicate Laid() {
      LaidOut(chunks, offsets, prefix) && forall i :: 0 <= i < |chunks| ==> chunks[i].pb >= 0 && chunks[i].sb > 0
    }
  }

  // ---------- What one chunk is, over a stable source ----------

  function StoredSpec(v: Reader, i: nat): Option<Bytes>
    requires i < |v.chunks| == |v.offsets|
  {
    match v.src
    case Blobs(blob, _, _) =>
      (match blob(i) case None => None case Some(b) => if |b| == v.chunks[i].sb then Some(b) else None)
    case Files(file, _) =>
      (match file(v.chunks[i].p) case None => None case Some(b) => Cut(b, v.offsets[i], v.chunks[i].sb))
  }

  function Cut(b: Bytes, at: int, size: int): Option<Bytes> {
    if 0 <= at <= at + size <= |b| then Some(b[at..at + size]) else None
  }

  /** The compressed payload and its codec. Which opener is used was decided from the manifest alone. */
  function PayloadOf(v: Reader, i: nat, stored: Bytes): Option<(Bytes, int)> {
    if v.manifest.encryption.enabled then
      if v.opener.Keyed? then
        match KeyedOpen(v.lib, v.opener.km, ROLE_DATA, PositionOf(i), stored)
        case None => None
        case Some((payload, codec)) => Some((payload, codec as int))
      else None
    else
      match CodecByName(v.manifest.archive.compression)
      case None => None
      case Some(codec) => Some((stored, codec))
  }

  function PlainCap(v: Reader, i: nat): int
    requires i < |v.chunks|
  {
    if v.chunks[i].pb > 0 then v.chunks[i].pb else MaxPlainChunkBytes(v.manifest)
  }

  /** One decompression pass behind the cap. */
  function CopyPass(v: Reader, i: nat, payload: Bytes, codec: int): Decoded
    requires i < |v.chunks|
  {
    if !KnownCodec(codec) then Decoded([], false) else Capped(v.lib.decompress(codec, payload), PlainCap(v, i))
  }

  predicate RightSize(v: Reader, i: nat, d: Decoded)
    requires i < |v.chunks|
  {
    d.clean && |d.out| == v.chunks[i].pb
  }

  predicate RightDigest(v: Reader, i: nat, out: Bytes)
    requires i < |v.chunks|
  {
    DigestMatches(v.chunks[i].ps, v.lib.sha(out))
  }

  function PlainFrom(v: Reader, i: nat, verify: bool, stored: Bytes): Option<Bytes>
    requires i < |v.chunks|
  {
    match PayloadOf(v, i, stored)
    case None => None
    case Some((payload, codec)) =>
      var d := CopyPass(v, i, payload, codec);
      if RightSize(v, i, d) && (!verify || RightDigest(v, i, d.out)) then Some(d.out) else None
  }

  /** The plaintext of chunk i, when it loads and agrees with what was recorded. */
  function PlainSpec(v: Reader, i: nat, verify: bool): (r: Option<Bytes>)
    requires i < |v.chunks| == |v.offsets|
    ensures r.Some? ==> |r.value| == v.chunks[i].pb
  {
    match StoredSpec(v, i) case None => None case Some(stored) => PlainFrom(v, i, verify, stored)
  }

  /** The digest is always checked on an encrypted backup. */
  predicate MustVerify(v: Reader, verify: bool) { verify || v.manifest.encryption.enabled }

  // ---------- Reading ----------

  /** One stored chunk; the one place where chunks are read. */
  method StoredChunk(v: Reader, i: nat) returns (r: Option<Bytes>)
    requires i < |v.chunks| == |v.offsets|
    modifies v.log
    ensures r.Some? ==> |r.value| == v.chunks[i].sb
    ensures v.src.stable ==> r == StoredSpec(v, i)
    ensures v.log.fetched == old(v.log.fetched) + [i]
  {
    v.log.fetched := v.log.fetched + [i];
    var c := v.chunks[i];
    if v.src.Blobs? {
      var b := ReadBlob(v.src, i);
      if b.None? || |b.value| != c.sb {
        return None;
      }
      return b;
    }
    var b := ReadFile(v.src, c.p);
    if b.None? {
      return None;
    }
    r := Cut(b.value, v.offsets[i], c.sb);
  }

  /** An encrypted backup whose key is missing is not even read. */
  predicate LockedOut(v: Reader) { v.manifest.encryption.enabled && !v.opener.Keyed? }

  /** What asking for chunk i reads. */
  function ReadsOf(v: Reader, i: nat): seq<nat> { if LockedOut(v) then [] else [i] }

  method PlainChunkPayload(v: Reader, i: nat) returns (r: Option<(Bytes, int)>)
    requires i < |v.chunks| == |v.offsets|
    modifies v.log
    ensures v.src.stable ==> r == if StoredSpec(v, i).Some? then PayloadOf(v, i, StoredSpec(v, i).value) else None
    ensures v.log.fetched == old(v.log.fetched) + ReadsOf(v, i)
    ensures r.Some? ==> !LockedOut(v)
  {
    if v.manifest.encryption.enabled && !v.opener.Keyed? {
      return None;
    }
    var stored := StoredChunk(v, i);
    if stored.None? {
      return None;
    }
    r := PayloadOf(v, i, stored.value);
  }

  /** One chunk as a buffer, for the selective and the partial restore. */
  method PlainChunkBytes(v: Reader, i: nat, verify: bool) returns (r: Option<Bytes>)
    requires i < |v.chunks| == |v.offsets|
    modifies v.log
    ensures r.Some? ==> |r.value| == v.chunks[i].pb && (verify ==> RightDigest(v, i, r.value)) && !LockedOut(v)
    ensures v.src.stable ==> r == PlainSpec(v, i, verify)
    ensures v.log.fetched == old(v.log.fetched) + ReadsOf(v, i)
  {
    var payload := PlainChunkPayload(v, i);
    if payload.None? {
      return None;
    }
    var d := CopyPass(v, i, payload.value.0, payload.value.1);
    if !d.clean || |d.out| != v.chunks[i].pb {
      return None;
    }
    if verify && !RightDigest(v, i, d.out) {
      return None;
    }
    r := Some(d.out);
  }

  /** One chunk of the stream. With verification nothing is written before size and digest agree. */
  method StreamOneChunk(v: Reader, i: nat, verify: bool) returns (out: Bytes, ok: bool)
    requires i < |v.chunks| == |v.offsets|
    modifies v.log
    ensures v.log.fetched == old(v.log.fetched) + ReadsOf(v, i) && (ok ==> !LockedOut(v))
    ensures ok ==> |out| == v.chunks[i].pb && (verify ==> RightDigest(v, i, out))
    ensures !ok && verify ==> out == []
    ensures v.chunks[i].pb > 0 ==> |out| <= v.chunks[i].pb
    ensures v.src.stable ==> (ok <==> PlainSpec(v, i, verify).Some?) && (ok ==> out == PlainSpec(v, i, verify).value)
  {
    var payload := PlainChunkPayload(v, i);
    if payload.None? {
      return [], false;
    }
    if !verify {
      var d := CopyPass(v, i, payload.value.0, payload.value.1);
      if !d.clean {
        return d.out, false;
      }
      return d.out, |d.out| == v.chunks[i].pb;
    }
    var first := CopyPass(v, i, payload.value.0, payload.value.1);
    if !first.clean || |first.out| != v.chunks[i].pb {
      return [], false;
    }
    if !RightDigest(v, i, first.out) {
      return [], false;
    }
    var second := CopyPass(v, i, payload.value.0, payload.value.1);
    if !second.clean || |second.out| != |first.out| {
      return [], false;
    }
    return second.out, true;
  }

  // ---------- The whole stream ----------

  function Upto(n: nat): seq<nat> { seq(n, i requires 0 <= i < n => i) }

  /** Part i is a plaintext the recorded size and digest of chunk i allow. */
  ghost predicate Allowed(v: Reader, part: Bytes, i: nat)
    requires i < |v.chunks|
  {
    |part| == v.chunks[i].pb && RightDigest(v, i, part)
  }

  ghost predicate AllowedParts(v: Reader, parts: seq<Bytes>) {
    |parts| <= |v.chunks| && forall i :: 0 <= i < |parts| ==> Allowed(v, parts[i], i)
  }

  ghost predicate AllPlain(v: Reader, verify: bool, n: nat)
    requires |v.chunks| == |v.offsets|
  {
    n <= |v.chunks| && forall i :: 0 <= i < n ==> PlainSpec(v, i, verify).Some?
  }

  /** The plaintext of the first n chunks of a stable source. */
  ghost function PlainStream(v: Reader, verify: bool, n: nat): Bytes
    requires |v.chunks| == |v.offsets| && AllPlain(v, verify, n)
  {
    if n == 0 then [] else PlainStream(v, verify, n - 1) + PlainSpec(v, n - 1, verify).value
  }

  /** The first |parts| chunks have been written. */
  ghost predicate Sent(v: Reader, check: bool, out: Bytes, parts: seq<Bytes>)
    requires |v.chunks| == |v.offsets|
  {
    && out == Flatten(parts) && (check ==> AllowedParts(v, parts))
    && (v.src.stable ==> AllPlain(v, check, |parts|) && out == PlainStream(v, check, |parts|))
  }

  lemma SentOneMore(v: Reader, check: bool, out: Bytes, parts: seq<Bytes>, piece: Bytes)
    requires |parts| < |v.chunks| == |v.offsets| && Sent(v, check, out, parts)
    requires check ==> Allowed(v, piece, |parts|)
    requires v.src.stable ==> PlainSpec(v, |parts|, check) == Some(piece)
    ensures Sent(v, check, out + piece, parts + [piece])
  {
    FlattenSnoc(parts, piece);
  }

  /**
   * The reconstructed tar. Whatever the source answers, a verifying run has written whole chunks that
   * agree with the recorded sizes and digests, in order, and nothing else; `parts` are those chunks.
   */
  method StreamTar(v: Reader, verify: bool) returns (out: Bytes, ok: bool, ghost parts: seq<Bytes>)
    requires |v.chunks| == |v.offsets|
    modifies v.log
    ensures ok ==> v.log.fetched == old(v.log.fetched) + Upto(|v.chunks|)
    ensures verify || v.manifest.encryption.enabled ==> out == Flatten(parts) && AllowedParts(v, parts)
    ensures (verify || v.manifest.encryption.enabled) && ok ==> |parts| == |v.chunks|
    ensures v.src.stable ==> (ok <==> AllPlain(v, MustVerify(v, verify), |v.chunks|))
    ensures v.src.stable && ok ==> out == PlainStream(v, MustVerify(v, verify), |v.chunks|)
  {
    var check := MustVerify(v, verify);
    out, parts := [], [];
    for i := 0 to |v.chunks|
      invariant |parts| == i && Sent(v, check, out, parts)
      invariant v.log.fetched == old(v.log.fetched) + Upto(i)
    {
      var piece, fine := StreamOneChunk(v, i, check);
      if !fine {
        return out + piece, false, parts;
      }
      SentOneMore(v, check, out, parts, piece);
      assert Upto(i + 1) == Upto(i) + [i];
      out, parts := out + piece, parts + [piece];
    }
    ok := true;
  }

  /** When no other input in play shares a recorded digest, the parts are the original chunks. */
  lemma PartsAreOriginal(v: Reader, parts: seq<Bytes>, plain: seq<Bytes>)
    requires AllowedParts(v, parts) && |plain| == |v.chunks|
    requires forall i :: 0 <= i < |plain| ==> v.chunks[i].ps == v.lib.sha(plain[i])
    requires HashLaw(v.lib) && NoCollision(v.lib, (set p | p in parts) + (set p | p in plain))
    ensures parts == plain[..|parts|] && Flatten(parts) <= Flatten(plain)
  {
    forall i | 0 <= i < |parts| ensures parts[i] == plain[i] {
      assert Allowed(v, parts[i], i);
      ShaIsDigest(v.lib, plain[i]);
      ShaIsDigest(v.lib, parts[i]);
      ValidDigestMatches(v.chunks[i].ps, v.lib.sha(parts[i]));
      assert parts[i] in parts && plain[i] in plain;
    }
    FlattenSlice(plain, 0, |parts|);
    assert Flatten(plain[..0]) == [] && plain[0..|parts|] == parts;
  }

  // ---------- The integrity pass ----------

  /** The stored bytes of chunk i are there and have the recorded digest. */
  predicate StoredOk(v: Reader, i: nat)
    requires i < |v.chunks| == |v.offsets|
  {
    match StoredSpec(v, i) case None => false case Some(stored) => DigestMatches(v.chunks[i].ss, v.lib.sha(stored))
  }

  predicate ChunkOk(v: Reader, full: bool, i: nat)
    requires i < |v.chunks| == |v.offsets|
  {
    StoredOk(v, i) && (full ==> PlainSpec(v, i, true).Some?)
  }

  /** The decoded index of a blob: bound to this backup, opened the way the manifest says, and well formed. */
  function OpenIndex(v: Reader, blob: Bytes): Option<Index> {
    if !CheckIndexBlob(v.lib, v.binding, blob) then None
    else
      var payload := match v.opener
                     case Locked => None
                     case Keyed(km) =>
                       if !IsEnvelope(blob) then None else
                         (match KeyedOpen(v.lib, km, ROLE_INDEX, 0, blob) case None => None case Some((p, _)) => Some(p))
                     case Clear =>
                       if !IsEnvelope(blob) then Some(blob) else
                         (match ClearOpen(ROLE_INDEX, blob) case None => None case Some((p, _)) => Some(p));
      match payload
      case None => None
      case Some(p) =>
        match v.lib.decodeIndex(p)
        case None => None
        case Some(idx) => if SupportedSchema(idx.schemaVersion) then Some(idx) else None
  }

  ghost predicate IndexOk(v: Reader) {
    match v.src.file(v.manifest.index.path)
    case None => false
    case Some(blob) => OpenIndex(v, blob).Some? && ValidEntries(OpenIndex(v, blob).value.entries)
  }

  method ReadIndex(v: Reader) returns (r: Option<Index>)
    ensures r.Some? ==> ValidEntries(r.value.entries) && SupportedSchema(r.value.schemaVersion)
    ensures v.src.stable ==> (r.Some? <==> IndexOk(v))
    ensures v.src.stable && r.Some? ==> r == OpenIndex(v, v.src.file(v.manifest.index.path).value)
  {
    var blob := ReadFile(v.src, v.manifest.index.path);
    if blob.None? {
      return None;
    }
    r := OpenIndex(v, blob.value);
    if r.None? {
      return None;
    }
    var fine := ValidateEntries(r.value.entries);
    if !fine {
      return None;
    }
  }

  function Faults(v: Reader, full: bool, n: nat): nat
    requires n <= |v.chunks| == |v.offsets|
  {
    if n == 0 then 0 else Faults(v, full, n - 1) + if ChunkOk(v, full, n - 1) then 0 else 1
  }

  lemma {:induction false} NoFaults(v: Reader, full: bool, n: nat)
    requires n <= |v.chunks| == |v.offsets|
    ensures Faults(v, full, n) == 0 <==> forall i :: 0 <= i < n ==> ChunkOk(v, full, i)
  {
    if n > 0 { NoFaults(v, full, n - 1); }
  }

  method VerifyChunk(v: Reader, i: nat, full: bool) returns (ok: bool)
    requires i < |v.chunks| == |v.offsets|
    modifies v.log
    ensures v.src.stable ==> (ok <==> ChunkOk(v, full, i))
    ensures v.src.stable && ok ==> StoredSpec(v, i).Some? && DigestMatches(v.chunks[i].ss, v.lib.sha(StoredSpec(v, i).value))
    ensures v.src.stable && ok && full ==>
              PlainSpec(v, i, true).Some? && DigestMatches(v.chunks[i].ps, v.lib.sha(PlainSpec(v, i, true).value))
  {
    var stored := StoredChunk(v, i);
    if stored.None? || !DigestMatches(v.chunks[i].ss, v.lib.sha(stored.value)) {
      return false;
    }
    if full {
      var plain := PlainChunkBytes(v, i, true);
      return plain.Some?;
    }
    ok := true;
  }

  /** A clean pass on the bytes: every stored chunk has the recorded digest, and a full pass saw the plaintext agree too. */
  lemma CleanMatches(v: Reader, full: bool)
    requires |v.chunks| == |v.offsets| && forall i :: 0 <= i < |v.chunks| ==> ChunkOk(v, full, i)
    ensures forall i :: 0 <= i < |v.chunks| ==>
              StoredSpec(v, i).Some? && DigestMatches(v.chunks[i].ss, v.lib.sha(StoredSpec(v, i).value))
    ensures full ==> forall i :: 0 <= i < |v.chunks| ==>
              PlainSpec(v, i, true).Some? && DigestMatches(v.chunks[i].ps, v.lib.sha(PlainSpec(v, i, true).value))
  {
    forall i | 0 <= i < |v.chunks|
      ensures StoredSpec(v, i).Some? && DigestMatches(v.chunks[i].ss, v.lib.sha(StoredSpec(v, i).value))
      ensures full ==> PlainSpec(v, i, true).Some? && DigestMatches(v.chunks[i].ps, v.lib.sha(PlainSpec(v, i, true).value))
    {
      assert ChunkOk(v, full, i);
    }
  }

  /** Every fault is counted when asked to keep going; otherwise the pass stops at the first. */
  method Verify(v: Reader, full: bool, keepGoing: bool) returns (ok: bool, errors: nat, entries: nat)
    requires |v.chunks| == |v.offsets|
    modifies v.log
    ensures ok <==> errors == 0
    ensures !keepGoing ==> errors <= 1
    ensures v.src.stable ==>
              (ok <==> (forall i :: 0 <= i < |v.chunks| ==> ChunkOk(v, full, i)) && (full ==> IndexOk(v)))
    ensures v.src.stable && keepGoing ==>
              errors == Faults(v, full, |v.chunks|) + if full && !IndexOk(v) then 1 else 0
    ensures v.src.stable && ok ==> forall i :: 0 <= i < |v.chunks| ==>
              StoredSpec(v, i).Some? && DigestMatches(v.chunks[i].ss, v.lib.sha(StoredSpec(v, i).value))
    ensures v.src.stable && ok && full ==> forall i :: 0 <= i < |v.chunks| ==>
              PlainSpec(v, i, true).Some? && DigestMatches(v.chunks[i].ps, v.lib.sha(PlainSpec(v, i, true).value))
    ensures v.src.stable && ok && full ==>
              IndexOk(v) && entries == |OpenIndex(v, v.src.file(v.manifest.index.path).value).value.entries|
  {
    errors, entries := 0, 0;
    for i := 0 to |v.chunks|
      invariant v.src.stable ==> errors == Faults(v, full, i)
      invariant !keepGoing ==> errors == 0
    {
      var fine := VerifyChunk(v, i, full);
      if !fine {
        errors := errors + 1;
        if !keepGoing {
          return false, errors, 0;
        }
      }
    }
    NoFaults(v, full, |v.chunks|);
    if full {
      var idx := ReadIndex(v);
      if idx.None? {
        errors := errors + 1;
      } else {
        entries := |idx.value.entries|;
      }
    }
    ok := errors == 0;
    if v.src.stable && ok {
      CleanMatches(v, full);
    }
  }

  lemma CleanMeansPlain(v: Reader)
    requires |v.chunks| == |v.offsets| && forall i :: 0 <= i < |v.chunks| ==> ChunkOk(v, true, i)
    ensures AllPlain(v, true, |v.chunks|)
  {
    forall i | 0 <= i < |v.chunks| ensures PlainSpec(v, i, true).Some? {
      assert ChunkOk(v, true, i);
    }
  }

  /** A clean full verification of a stable source is a promise that the restore will succeed. */
  method VerifyThenStream(v: Reader) returns (clean: bool, restored: bool, out: Bytes)
    requires |v.chunks| == |v.offsets|
    modifies v.log
    ensures v.src.stable && clean ==> restored && AllPlain(v, true, |v.chunks|) && out == PlainStream(v, true, |v.chunks|)
  {
    var errors, entries;
    clean, errors, entries := Verify(v, true, true);
    if v.src.stable && clean {
      CleanMeansPlain(v);
    }
    ghost var parts;
    out, restored, parts := StreamTar(v, true);
  }
}
