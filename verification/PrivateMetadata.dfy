/** The confidential half of the metadata: split off by the writer, bound to the public half, merged back by the reader. */
module PrivateMetadata {
  import opened Common
  import opened Metadata
  import opened Primitives

  const NO_HOST := HostInfo("", "", "")
  const NO_TOTALS := Totals(0, 0, 0, 0, 0, 0, 0)

  // ---------- What is moved, and what stays ----------

  function PublicManifest(m: Manifest): Manifest {
    m.(schemaVersion := SCHEMA_VERSION_PRIVATE, sources := [], host := NO_HOST, totals := NO_TOTALS,
       encryption := m.encryption.(keyFingerprint := "", recipients := []),
       private_ := Some(Ref(PRIVATE_PATH, "", true)))
  }

  function HideChunk(c: Chunk): Chunk { c.(ps := "", pb := 0) }

  function PublicTable(t: ChunkTable): ChunkTable {
    ChunkTable(SCHEMA_VERSION_PRIVATE, seq(|t.chunks|, i requires 0 <= i < |t.chunks| => HideChunk(t.chunks[i])))
  }

  function SecretsOf(t: ChunkTable): seq<ChunkSecret> {
    seq(|t.chunks|, i requires 0 <= i < |t.chunks| => ChunkSecret(t.chunks[i].ps, t.chunks[i].pb))
  }

  function PrivateOf(m: Manifest, t: ChunkTable): Private {
    Private(SCHEMA_VERSION_PRIVATE, None, m.sources, m.host, m.totals,
            PrivateEncryption(m.encryption.keyFingerprint, m.encryption.recipients), SecretsOf(t))
  }

  function MergedManifest(m: Manifest, p: Private): Manifest {
    m.(sources := p.sources, host := p.host, totals := p.totals,
       encryption := m.encryption.(keyFingerprint := p.encryption.keyFingerprint, recipients := p.encryption.recipients))
  }

  /** The table with the secrets of the first n chunks put back. */
  function MergedTable(t: ChunkTable, p: Private, n: nat): ChunkTable
    requires n <= |t.chunks| && n <= |p.chunks|
  {
    t.(chunks := seq(|t.chunks|, i requires 0 <= i < |t.chunks| =>
         if i < n then t.chunks[i].(ps := p.chunks[i].ps, pb := p.chunks[i].pb) else t.chunks[i]))
  }

  // ---------- The two halves, field by field ----------

  predicate HiddenRow(c: Chunk) { c.ps == "" && c.pb == 0 }

  /** Nothing confidential is left: who was backed up, how much, for whom, and what the plain chunks are. */
  ghost predicate HidesAll(m: Manifest, t: ChunkTable) {
    && m.sources == [] && m.host == HostInfo("", "", "") && m.totals == Totals(0, 0, 0, 0, 0, 0, 0)
    && m.encryption.keyFingerprint == "" && m.encryption.recipients == []
    && forall i :: 0 <= i < |t.chunks| ==> HiddenRow(t.chunks[i])
  }

  /** The fields that are open in every backup. */
  ghost predicate SameOpenFields(a: Manifest, b: Manifest) {
    && a.tool == b.tool && a.createdAt == b.createdAt && a.archive == b.archive
    && a.chunking == b.chunking && a.layers == b.layers && a.index == b.index
    && a.encryption.enabled == b.encryption.enabled && a.encryption.kdf == b.encryption.kdf
    && a.encryption.aead == b.encryption.aead && a.encryption.envelopeVersion == b.encryption.envelopeVersion
    && a.encryption.nonceMode == b.encryption.nonceMode
  }

  predicate SameOpenRow(a: Chunk, b: Chunk) { a.i == b.i && a.p == b.p && a.ss == b.ss && a.sb == b.sb }

  ghost predicate SameOpenRows(t: ChunkTable, u: ChunkTable) {
    |t.chunks| == |u.chunks| && forall i :: 0 <= i < |t.chunks| ==> SameOpenRow(t.chunks[i], u.chunks[i])
  }

  predicate HoldsRow(s: ChunkSecret, c: Chunk) { s.ps == c.ps && s.pb == c.pb }

  /** The private half has every confidential field of the pair. */
  ghost predicate HoldsAll(p: Private, m: Manifest, t: ChunkTable) {
    && p.sources == m.sources && p.host == m.host && p.totals == m.totals
    && p.encryption.keyFingerprint == m.encryption.keyFingerprint && p.encryption.recipients == m.encryption.recipients
    && |p.chunks| == |t.chunks| && forall i :: 0 <= i < |t.chunks| ==> HoldsRow(p.chunks[i], t.chunks[i])
  }

  /** The public half hides everything confidential and keeps everything else; the private half has what was hidden. */
  lemma SplitHidesAndHolds(m: Manifest, t: ChunkTable)
    ensures HidesAll(PublicManifest(m), PublicTable(t)) && HoldsAll(PrivateOf(m, t), m, t)
    ensures SameOpenFields(PublicManifest(m), m) && SameOpenRows(PublicTable(t), t)
    ensures PublicManifest(m).schemaVersion == PublicTable(t).schemaVersion == PrivateOf(m, t).schemaVersion == SCHEMA_VERSION_PRIVATE
  {
    assert forall i :: 0 <= i < |t.chunks| ==> PublicTable(t).chunks[i] == HideChunk(t.chunks[i]);
  }

  /** Non-interference: pairs that differ only in confidential fields are published alike. */
  lemma PublicHalfRevealsNothing(m: Manifest, t: ChunkTable, m2: Manifest, t2: ChunkTable)
    requires SameOpenFields(m, m2) && SameOpenRows(t, t2)
    ensures PublicManifest(m) == PublicManifest(m2) && PublicTable(t) == PublicTable(t2)
  {
    forall i | 0 <= i < |t.chunks| ensures PublicTable(t).chunks[i] == PublicTable(t2).chunks[i] {
      assert SameOpenRow(t.chunks[i], t2.chunks[i]);
    }
    assert PublicTable(t).chunks == PublicTable(t2).chunks;
  }

  predicate SoundSecret(s: ChunkSecret) { ValidDigest(s.ps) && s.pb >= 0 }

  /** How many secrets are merged before the first unsound one. */
  function SoundPrefix(secrets: seq<ChunkSecret>, n: nat): (k: nat)
    requires n <= |secrets|
    ensures k <= n
    ensures forall i :: 0 <= i < k ==> SoundSecret(secrets[i])
    ensures k < n ==> !SoundSecret(secrets[k])
  {
    if n == 0 then 0
    else
      var k := SoundPrefix(secrets, n - 1);
      if k == n - 1 && SoundSecret(secrets[n - 1]) then n else k
  }

  predicate Mergeable(t: ChunkTable, p: Private) {
    && SupportedSchema(p.schemaVersion)
    && |p.chunks| == |t.chunks|
    && forall i :: 0 <= i < |p.chunks| ==> SoundSecret(p.chunks[i])
  }

  // ---------- In place ----------

  /** The manifest and chunk table one backup works on. */
  class Pair {
    var manifest: Manifest
    var table: ChunkTable

    constructor (m: Manifest, t: ChunkTable)
      ensures manifest == m && table == t
    {
      manifest, table := m, t;
    }

    /** Moves the confidential fields out; an unencrypted backup is left alone. */
    method SplitPrivate() returns (p: Option<Private>)
      modifies this
      ensures p.Some? <==> old(manifest.encryption.enabled)
      ensures p.None? ==> manifest == old(manifest) && table == old(table)
      ensures p.Some? ==> p.value == PrivateOf(old(manifest), old(table))
      ensures p.Some? ==> manifest == PublicManifest(old(manifest)) && table == PublicTable(old(table))
      ensures p.Some? ==> HidesAll(manifest, table) && HoldsAll(p.value, old(manifest), old(table))
      ensures p.Some? ==> SameOpenFields(manifest, old(manifest)) && SameOpenRows(table, old(table))
      ensures p.Some? ==> manifest.schemaVersion == table.schemaVersion == p.value.schemaVersion == SCHEMA_VERSION_PRIVATE
    {
      if !manifest.encryption.enabled {
        return None;
      }
      var m, t := manifest, table;
      var private_ := Private(SCHEMA_VERSION_PRIVATE, None, m.sources, m.host, m.totals,
                              PrivateEncryption(m.encryption.keyFingerprint, m.encryption.recipients), []);
      manifest := m.(schemaVersion := SCHEMA_VERSION_PRIVATE, sources := [], host := NO_HOST, totals := NO_TOTALS,
                     encryption := m.encryption.(keyFingerprint := "", recipients := []),
                     private_ := Some(Ref(PRIVATE_PATH, "", true)));
      table := table.(schemaVersion := SCHEMA_VERSION_PRIVATE);
      var secrets: seq<ChunkSecret> := [];
      for i := 0 to |t.chunks|
        invariant table.schemaVersion == SCHEMA_VERSION_PRIVATE && |table.chunks| == |t.chunks| && |secrets| == i
        invariant forall j :: 0 <= j < i ==> secrets[j] == ChunkSecret(t.chunks[j].ps, t.chunks[j].pb)
        invariant forall j :: 0 <= j < |t.chunks| ==>
                    table.chunks[j] == if j < i then HideChunk(t.chunks[j]) else t.chunks[j]
        invariant manifest == PublicManifest(m)
      {
        secrets := secrets + [ChunkSecret(table.chunks[i].ps, table.chunks[i].pb)];
        table := table.(chunks := table.chunks[i := HideChunk(table.chunks[i])]);
      }
      assert secrets == SecretsOf(t);
      assert table.chunks == PublicTable(t).chunks;
      SplitHidesAndHolds(m, t);
      p := Some(private_.(chunks := secrets));
    }

    /** Puts the confidential fields back. A refusal leaves exactly what was merged before the fault. */
    method MergePrivate(p: Private) returns (ok: bool)
      modifies this
      ensures ok <==> Mergeable(old(table), p)
      ensures !SupportedSchema(p.schemaVersion) ==> manifest == old(manifest)
      ensures SupportedSchema(p.schemaVersion) ==> manifest == MergedManifest(old(manifest), p)
      ensures table == if SupportedSchema(p.schemaVersion) && |p.chunks| == |old(table).chunks|
                       then MergedTable(old(table), p, SoundPrefix(p.chunks, |p.chunks|)) else old(table)
    {
      if !SupportedSchema(p.schemaVersion) {
        return false;
      }
      manifest := manifest.(sources := p.sources, host := p.host, totals := p.totals,
        encryption := manifest.encryption.(keyFingerprint := p.encryption.keyFingerprint, recipients := p.encryption.recipients));
      if |p.chunks| != |table.chunks| {
        return false;
      }
      ghost var t := table;
      for i := 0 to |table.chunks|
        invariant |table.chunks| == |t.chunks| && table == MergedTable(t, p, i) && SoundPrefix(p.chunks, i) == i
        invariant forall j :: 0 <= j < i ==> SoundSecret(p.chunks[j])
        invariant manifest == MergedManifest(old(manifest), p)
      {
        var secret := p.chunks[i];
        if !ValidDigest(secret.ps) {
          SoundPrefixStops(p.chunks, i, |p.chunks|);
          return false;
        }
        if secret.pb < 0 {
          SoundPrefixStops(p.chunks, i, |p.chunks|);
          return false;
        }
        table := table.(chunks := table.chunks[i := table.chunks[i].(ps := secret.ps, pb := secret.pb)]);
        assert table.chunks == MergedTable(t, p, i + 1).chunks;
      }
      ok := true;
    }
  }

  lemma SoundPrefixStops(secrets: seq<ChunkSecret>, k: nat, n: nat)
    requires k < n <= |secrets| && !SoundSecret(secrets[k]) && forall i :: 0 <= i < k ==> SoundSecret(secrets[i])
    ensures SoundPrefix(secrets, n) == k
  {
  }

  /** Merging what was split off restores every confidential field. */
  lemma MergeRestoresSplit(m: Manifest, t: ChunkTable, p: Private)
    requires p == PrivateOf(m, t).(binding := p.binding)
    requires forall i :: 0 <= i < |t.chunks| ==> ValidDigest(t.chunks[i].ps) && t.chunks[i].pb >= 0
    ensures Mergeable(PublicTable(t), p)
    ensures MergedManifest(PublicManifest(m), p) ==
            m.(schemaVersion := SCHEMA_VERSION_PRIVATE, private_ := Some(Ref(PRIVATE_PATH, "", true)))
    ensures MergedTable(PublicTable(t), p, |t.chunks|) == t.(schemaVersion := SCHEMA_VERSION_PRIVATE)
  {
    assert MergedTable(PublicTable(t), p, |t.chunks|).chunks == t.chunks;
  }

  // ---------- The binding ----------

  /** The manifest fields the binding covers. */
  function CanonicalManifest(m: Manifest): Manifest {
    m.(private_ := None, sources := [], host := NO_HOST, totals := NO_TOTALS,
       encryption := m.encryption.(keyFingerprint := "", recipients := []))
  }

  /** The table fields the binding covers. */
  function CanonicalTable(t: ChunkTable): ChunkTable {
    t.(chunks := seq(|t.chunks|, i requires 0 <= i < |t.chunks| => HideChunk(t.chunks[i])))
  }

  function ManifestBindingDigest(lib: Primitives, m: Manifest): string {
    lib.sha(lib.encodeManifest(CanonicalManifest(m)))
  }

  function ChunkTableBindingDigest(lib: Primitives, t: ChunkTable): string {
    lib.sha(lib.encodeTable(CanonicalTable(t)))
  }

  function PolicyOf(m: Manifest): BindingPolicy {
    BindingPolicy(m.schemaVersion, m.encryption.aead, m.encryption.envelopeVersion, m.encryption.nonceMode, m.index.encrypted)
  }

  function NewBinding(lib: Primitives, m: Manifest, t: ChunkTable, indexBlob: Bytes): Binding {
    Binding(ManifestBindingDigest(lib, m), ChunkTableBindingDigest(lib, t), lib.sha(indexBlob), PolicyOf(m))
  }

  predicate Check(lib: Primitives, b: Binding, m: Manifest, t: ChunkTable) {
    && b.policy == PolicyOf(m)
    && ManifestBindingDigest(lib, m) == b.manifest
    && ChunkTableBindingDigest(lib, t) == b.chunks
  }

  predicate CheckIndexBlob(lib: Primitives, b: Option<Binding>, blob: Bytes) {
    b.None? || b.value.index == "" || lib.sha(blob) == b.value.index
  }

  /** What the reader puts back does not move the binding digests. */
  lemma BindingIgnoresMerge(lib: Primitives, m: Manifest, t: ChunkTable, p: Private, n: nat, r: Option<Ref>)
    requires n <= |t.chunks| && n <= |p.chunks|
    ensures CanonicalManifest(MergedManifest(m, p)) == CanonicalManifest(m) == CanonicalManifest(m.(private_ := r))
    ensures CanonicalTable(MergedTable(t, p, n)) == CanonicalTable(t)
  {
    assert CanonicalTable(MergedTable(t, p, n)).chunks == CanonicalTable(t).chunks;
  }

  lemma SameCanonicalManifest(a: Manifest, b: Manifest)
    ensures CanonicalManifest(a) == CanonicalManifest(b) <==> a.schemaVersion == b.schemaVersion && SameOpenFields(a, b)
  {
  }

  lemma SameCanonicalTable(t: ChunkTable, u: ChunkTable)
    ensures CanonicalTable(t) == CanonicalTable(u) <==> t.schemaVersion == u.schemaVersion && SameOpenRows(t, u)
  {
    var x, y := CanonicalTable(t), CanonicalTable(u);
    if x == y {
      forall i | 0 <= i < |t.chunks| ensures SameOpenRow(t.chunks[i], u.chunks[i]) {
        assert x.chunks[i] == HideChunk(t.chunks[i]) && y.chunks[i] == HideChunk(u.chunks[i]);
      }
    }
    if SameOpenRows(t, u) {
      forall i | 0 <= i < |t.chunks| ensures x.chunks[i] == y.chunks[i] {
        assert SameOpenRow(t.chunks[i], u.chunks[i]);
      }
      assert x.chunks == y.chunks;
    }
  }

  /**
   * The binding accepts a manifest and table exactly when they agree with the bound ones on every open field
   * and row and on both schema versions: tampering with any of them is refused, restoring the others is not.
   */
  lemma CheckIffSameBoundFields(lib: Primitives, m0: Manifest, t0: ChunkTable, indexBlob: Bytes, m: Manifest, t: ChunkTable)
    requires EncodingLaw(lib)
    requires NoCollision(lib, {lib.encodeManifest(CanonicalManifest(m0)), lib.encodeManifest(CanonicalManifest(m))})
    requires NoCollision(lib, {lib.encodeTable(CanonicalTable(t0)), lib.encodeTable(CanonicalTable(t))})
    ensures Check(lib, NewBinding(lib, m0, t0, indexBlob), m, t) <==>
              && m.schemaVersion == m0.schemaVersion && SameOpenFields(m, m0)
              && t.schemaVersion == t0.schemaVersion && SameOpenRows(t, t0)
  {
    SameCanonicalManifest(m, m0);
    SameCanonicalTable(t, t0);
    assert PolicyOf(m) == PolicyOf(CanonicalManifest(m)) && PolicyOf(m0) == PolicyOf(CanonicalManifest(m0));
  }

  /**
   * The writer binds the public half before the reference to the sealed blob is filled in; the reader
   * checks it with that reference set, before and after the merge. Both checks pass.
   */
  lemma BindingSurvivesUnlock(lib: Primitives, m: Manifest, t: ChunkTable, indexBlob: Bytes, p: Private, r: Ref)
    requires |p.chunks| == |t.chunks|
    ensures var b := NewBinding(lib, m, t, indexBlob);
            var published := m.(private_ := Some(r));
            && Check(lib, b, published, t)
            && Check(lib, b, MergedManifest(published, p), MergedTable(t, p, |t.chunks|))
  {
    var published := m.(private_ := Some(r));
    BindingIgnoresMerge(lib, m, t, p, |t.chunks|, Some(r));
    BindingIgnoresMerge(lib, published, t, p, |t.chunks|, Some(r));
  }
}
