/** Opening a backup: the public metadata is checked, then the key unlocks and merges the confidential half. */
module Backup {
  import opened Common
  import opened Metadata
  import opened Primitives
  import opened Keys
  import opened Envelope
  import opened Limits
  import opened PrivateMetadata
  import opened Recovery

  const PASSPHRASE_KEYS := "keys.pass.age"
  const IDENTITY_KEYS := "keys.age"

  /** The encryption fields describe a shape the writer produces. */
  predicate ShapeOk(m: Manifest) {
    && (m.private_.Some? ==> m.encryption.enabled)
    && (m.encryption.enabled && m.schemaVersion >= SCHEMA_VERSION_PRIVATE ==> m.private_.Some?)
  }

  // ---------- The sealed half ----------

  /** The confidential metadata in a blob: only a keyed opener reads it, only from an envelope. */
  function OpenPrivate(lib: Primitives, km: KeyMaterial, blob: Bytes): Option<Private> {
    if !IsEnvelope(blob) then None
    else
      match KeyedOpen(lib, km, ROLE_PRIVATE, 0, blob)
      case None => None
      case Some((payload, _)) =>
        match lib.decodePrivate(payload)
        case None => None
        case Some(p) => if SupportedSchema(p.schemaVersion) then Some(p) else None
  }

  /** Confidential metadata is read only from a blob that this key sealed for that role. */
  lemma PrivateWasSealed(lib: Primitives, km: KeyMaterial, blob: Bytes, p: Private) returns (payload: Bytes, codec: Byte, h: Header)
    requires AeadLaw(lib) && OpenPrivate(lib, km, blob) == Some(p)
    ensures SealedWith(lib, km, ROLE_PRIVATE, 0, blob, payload, codec, h)
    ensures lib.decodePrivate(payload) == Some(p) && SupportedSchema(p.schemaVersion)
  {
    payload, codec := KeyedOpen(lib, km, ROLE_PRIVATE, 0, blob).value.0, KeyedOpen(lib, km, ROLE_PRIVATE, 0, blob).value.1;
    OpenedWasSealed(lib, km, ROLE_PRIVATE, 0, blob, payload, codec);
    h :| SealedWith(lib, km, ROLE_PRIVATE, 0, blob, payload, codec, h);
  }

  /** A key that attests the current envelope only opens metadata that is bound. */
  predicate BindingOk(lib: Primitives, km: KeyMaterial, p: Private, m: Manifest, t: ChunkTable) {
    match p.binding
    case None => !(km.Attested() && km.envelopeVersion >= ENVELOPE_VERSION)
    case Some(b) => Check(lib, b, m, t)
  }

  /** The sealed blob belongs to this manifest and table and can be merged into them. */
  predicate Belongs(lib: Primitives, km: KeyMaterial, blob: Bytes, m: Manifest, t: ChunkTable) {
    match OpenPrivate(lib, km, blob)
    case None => false
    case Some(p) => BindingOk(lib, km, p, m, t) && Mergeable(t, p)
  }

  /** The key the source holds for this identity. */
  function KeyFrom(src: Source, name: string, unwrap: Bytes -> Option<KeyMaterial>): Option<KeyMaterial> {
    match src.file(name)
    case None => None
    case Some(data) =>
      match unwrap(data)
      case None => None
      case Some(km) => if km.Validates() then Some(km) else None
  }

  /** Over a stable source: the key opens, and so does the sealed half when there is one. */
  predicate Unlockable(lib: Primitives, src: Source, name: string, unwrap: Bytes -> Option<KeyMaterial>, m: Manifest, t: ChunkTable) {
    match KeyFrom(src, name, unwrap)
    case None => false
    case Some(km) =>
      match m.private_
      case None => true
      case Some(ref) => (match src.file(ref.path) case None => false case Some(blob) => Belongs(lib, km, blob, m, t))
  }

  predicate SizesOk(chunks: seq<Chunk>) { forall i :: 0 <= i < |chunks| ==> chunks[i].pb >= 0 && chunks[i].sb > 0 }

  /** What reading the chunk table already checked. */
  predicate SizesReadable(chunks: seq<Chunk>) { forall i :: 0 <= i < |chunks| ==> chunks[i].pb >= 0 }

  class Backup {
    const lib: Primitives
    const src: Source
    const pair: Pair
    const log: ReadLog
    var offsets: seq<int>
    var prefix: seq<int>
    var opener: Opener
    var binding: Option<Binding>

    ghost predicate Valid()
      reads this, pair
    {
      LaidOut(pair.table.chunks, offsets, prefix) && SizesOk(pair.table.chunks)
    }

    /** What the restores read with. */
    function View(): Reader
      reads this, pair
    {
      Reader(lib, src, pair.manifest, pair.table.chunks, offsets, prefix, opener, binding, log)
    }

    constructor (lib: Primitives, src: Source, m: Manifest, t: ChunkTable)
      requires SizesOk(t.chunks)
      ensures Valid() && fresh(pair) && fresh(log) && pair.manifest == m && pair.table == t
      ensures this.lib == lib && this.src == src && binding.None?
      ensures opener == if m.encryption.enabled then Locked else Clear
    {
      this.lib, this.src, binding := lib, src, None;
      pair := new Pair(m, t);
      log := new ReadLog();
      opener := if m.encryption.enabled then Locked else Clear;
      var at, before := ComputeLayout(t.chunks);
      offsets, prefix := at, before;
    }

    method ReadPrivate(km: KeyMaterial, blob: Bytes) returns (p: Option<Private>)
      ensures p == OpenPrivate(lib, km, blob)
    {
      if !IsEnvelope(blob) {
        return None;
      }
      var payload := KeyedOpen(lib, km, ROLE_PRIVATE, 0, blob);
      if payload.None? {
        return None;
      }
      p := lib.decodePrivate(payload.value.0);
      if p.Some? && !SupportedSchema(p.value.schemaVersion) {
        return None;
      }
    }

    /** Checks the binding before anything is believed, then merges and lays out again. */
    method Merge(km: KeyMaterial, p: Private) returns (ok: bool)
      requires Valid()
      modifies this`offsets, this`prefix, this`binding, pair
      ensures ok <==> BindingOk(lib, km, p, old(pair.manifest), old(pair.table)) && Mergeable(old(pair.table), p)
      ensures ok ==> Valid() && binding == p.binding && pair.manifest == MergedManifest(old(pair.manifest), p)
      ensures ok ==> pair.table == MergedTable(old(pair.table), p, |p.chunks|)
      ensures !ok ==> offsets == old(offsets) && prefix == old(prefix) && binding == old(binding)
    {
      if !BindingOk(lib, km, p, pair.manifest, pair.table) {
        return false;
      }
      ok := pair.MergePrivate(p);
      if !ok {
        return false;
      }
      MergedSizes(old(pair.table), p);
      binding := p.binding;
      offsets, prefix := ComputeLayout(pair.table.chunks);
    }

    /** The sealed half, when the manifest names one; `merged` is what was taken from it. */
    method LoadPrivate(km: KeyMaterial) returns (ok: bool, ghost merged: Option<Private>)
      requires Valid()
      modifies this`offsets, this`prefix, this`binding, pair
      ensures ok ==> Valid() && Holds(old(pair.manifest), old(pair.table), merged)
      ensures ok && merged.Some? ==> BindingOk(lib, km, merged.value, old(pair.manifest), old(pair.table))
      ensures ok && merged.Some? ==> binding == merged.value.binding
      ensures ok ==> (merged.Some? <==> old(pair.manifest).private_.Some?) && (merged.None? ==> binding == old(binding))
      ensures src.stable && old(pair.manifest).private_.None? ==> ok
      ensures src.stable && old(pair.manifest).private_.Some? ==>
                var file := src.file(old(pair.manifest).private_.value.path);
                && (ok <==> file.Some? && Belongs(lib, km, file.value, old(pair.manifest), old(pair.table)))
                && (ok ==> merged == OpenPrivate(lib, km, file.value))
    {
      merged := None;
      if pair.manifest.private_.None? {
        return true, None;
      }
      var blob := ReadFile(src, pair.manifest.private_.value.path);
      if blob.None? {
        return false, None;
      }
      var p := ReadPrivate(km, blob.value);
      if p.None? {
        return false, None;
      }
      ok := Merge(km, p.value);
      merged := p;
    }

    /** The metadata is the given pair with the sealed half put back. */
    ghost predicate Holds(m: Manifest, t: ChunkTable, merged: Option<Private>)
      reads this, pair
    {
      match merged
      case None => pair.manifest == m && pair.table == t
      case Some(p) =>
        Mergeable(t, p) && pair.manifest == MergedManifest(m, p) && pair.table == MergedTable(t, p, |p.chunks|)
    }

    /** Unwraps the key with a passphrase or an identity, and merges the sealed half. */
    method Unlock(name: string, unwrap: Bytes -> Option<KeyMaterial>) returns (ok: bool, ghost merged: Option<Private>)
      requires Valid()
      modifies this, pair
      ensures !old(pair.manifest).encryption.enabled ==>
                ok && merged.None? && View() == old(View()) && Valid() && pair.table == old(pair.table)
      ensures ok ==> Valid() && Holds(old(pair.manifest), old(pair.table), merged)
      ensures ok && old(pair.manifest).encryption.enabled ==>
                && opener.Keyed? && opener.km.Validates() && (merged.Some? <==> old(pair.manifest).private_.Some?)
                && (merged.Some? ==> binding == merged.value.binding
                                     && BindingOk(lib, opener.km, merged.value, old(pair.manifest), old(pair.table)))
      ensures ok && old(pair.manifest).encryption.enabled ==> |opener.km.dek| == 32 && |opener.km.nonceKey| == 32
      ensures ok && merged.Some? && opener.km.schemaVersion >= 2 && opener.km.envelopeVersion >= 3 ==> merged.value.binding.Some?
      ensures src.stable && old(pair.manifest).encryption.enabled ==>
                && (ok <==> Unlockable(lib, src, name, unwrap, old(pair.manifest), old(pair.table)))
                && (ok ==> KeyFrom(src, name, unwrap) == Some(opener.km))
                && (ok && merged.Some? ==>
                      && src.file(old(pair.manifest).private_.value.path).Some?
                      && merged == OpenPrivate(lib, opener.km, src.file(old(pair.manifest).private_.value.path).value))
      ensures ok && merged.None? ==> binding == old(binding)
    {
      if !pair.manifest.encryption.enabled {
        return true, None;
      }
      merged := None;
      var data := ReadFile(src, name);
      if data.None? {
        return false, None;
      }
      var km := unwrap(data.value);
      if km.None? || !km.value.Validates() {
        return false, None;
      }
      opener := Keyed(km.value);
      ok, merged := LoadPrivate(km.value);
    }
  }

  /** Refused unless counts agree, the encryption fields make sense and the table describes the layers. */
  method NewBackup(lib: Primitives, src: Source, m: Manifest, t: ChunkTable) returns (b: Backup?)
    requires SizesReadable(t.chunks)
    ensures b != null <==> ShapeOk(m) && Passes(m, t)
    ensures SumsFit(m) ==> (b != null <==> ShapeOk(m) && Accepted(m, t))
    ensures b != null ==> fresh(b) && fresh(b.pair) && fresh(b.log) && b.Valid() && b.lib == lib && b.src == src
    ensures b != null ==> b.pair.manifest == m && b.pair.table == t && b.binding.None? && ShapeOk(m)
    ensures b != null ==> b.opener == if m.encryption.enabled then Locked else Clear
  {
    if m.chunking.count != |t.chunks| {
      return null;
    }
    if m.private_.Some? && !m.encryption.enabled {
      return null;
    }
    if m.encryption.enabled && m.schemaVersion >= SCHEMA_VERSION_PRIVATE && m.private_.None? {
      return null;
    }
    var ok := ValidateChunkTable(m, t);
    if !ok {
      return null;
    }
    b := new Backup(lib, src, m, t);
  }

  /** When every secret is sound, all of them are merged. */
  lemma AllSound(secrets: seq<ChunkSecret>)
    requires forall i :: 0 <= i < |secrets| ==> SoundSecret(secrets[i])
    ensures SoundPrefix(secrets, |secrets|) == |secrets|
  {
  }

  lemma MergedSizes(t: ChunkTable, p: Private)
    requires SizesOk(t.chunks) && Mergeable(t, p)
    ensures SoundPrefix(p.chunks, |p.chunks|) == |p.chunks|
    ensures SizesOk(MergedTable(t, p, |p.chunks|).chunks)
  {
    AllSound(p.chunks);
    forall i | 0 <= i < |t.chunks| ensures MergedTable(t, p, |p.chunks|).chunks[i].pb >= 0 {
      assert SoundSecret(p.chunks[i]);
    }
  }

  /** Merging moves nothing the binding covers, so an unlocked backup can be unlocked again, to the same effect. */
  lemma UnlockAgain(lib: Primitives, src: Source, name: string, unwrap: Bytes -> Option<KeyMaterial>, m: Manifest, t: ChunkTable,
                    km: KeyMaterial, blob: Bytes, p: Private)
    requires Unlockable(lib, src, name, unwrap, m, t) && KeyFrom(src, name, unwrap) == Some(km)
    requires m.private_.Some? && src.file(m.private_.value.path) == Some(blob) && OpenPrivate(lib, km, blob) == Some(p)
    ensures Mergeable(t, p)
    ensures Unlockable(lib, src, name, unwrap, MergedManifest(m, p), MergedTable(t, p, |p.chunks|))
    ensures MergedManifest(MergedManifest(m, p), p) == MergedManifest(m, p)
    ensures MergedTable(MergedTable(t, p, |p.chunks|), p, |p.chunks|) == MergedTable(t, p, |p.chunks|)
  {
    BindingIgnoresMerge(lib, m, t, p, |p.chunks|, m.private_);
    assert MergedTable(MergedTable(t, p, |p.chunks|), p, |p.chunks|).chunks == MergedTable(t, p, |p.chunks|).chunks;
  }

  /** What an opened and unlocked backup over a stable source reads with. */
  ghost predicate OpenedAs(v: Reader, lib: Primitives, src: Source, name: string, unwrap: Bytes -> Option<KeyMaterial>,
                           m: Manifest, t: ChunkTable) {
    && v.lib == lib && v.src == src && v.Laid()
    && if !m.encryption.enabled then
         v.manifest == m && v.chunks == t.chunks && v.opener == Clear && v.binding.None?
       else
         && KeyFrom(src, name, unwrap).Some? && v.opener == Keyed(KeyFrom(src, name, unwrap).value)
         && if m.private_.None? then
              v.manifest == m && v.chunks == t.chunks && v.binding.None?
            else
              && src.file(m.private_.value.path).Some?
              && OpenPrivate(lib, v.opener.km, src.file(m.private_.value.path).value).Some?
              && var p := OpenPrivate(lib, v.opener.km, src.file(m.private_.value.path).value).value;
                 && Mergeable(t, p) && v.manifest == MergedManifest(m, p)
                 && v.chunks == MergedTable(t, p, |p.chunks|).chunks && v.binding == p.binding
  }

  method OpenAndUnlock(lib: Primitives, src: Source, name: string, unwrap: Bytes -> Option<KeyMaterial>, m: Manifest, t: ChunkTable)
    returns (v: Option<Reader>)
    requires SizesReadable(t.chunks)
    ensures src.stable ==>
              (v.Some? <==> ShapeOk(m) && Passes(m, t) && (m.encryption.enabled ==> Unlockable(lib, src, name, unwrap, m, t)))
    ensures src.stable && SumsFit(m) ==>
              (v.Some? <==> ShapeOk(m) && Accepted(m, t) && (m.encryption.enabled ==> Unlockable(lib, src, name, unwrap, m, t)))
    ensures src.stable && v.Some? ==> OpenedAs(v.value, lib, src, name, unwrap, m, t)
    ensures v.Some? ==> v.value.Laid() && fresh(v.value.log)
  {
    var b := NewBackup(lib, src, m, t);
    if b == null {
      return None;
    }
    var ok;
    ghost var merged;
    ok, merged := b.Unlock(name, unwrap);
    if !ok {
      return None;
    }
    v := Some(b.View());
  }
}
