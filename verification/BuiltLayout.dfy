/** What the writer produces is what the reader accepts, and the reader's offsets find every chunk again. */
module BuiltLayout {
  import opened Common
  import opened Metadata
  import opened Primitives
  import opened Limits
  import opened Builder

  /** The table rows as published: the confidential fields may be hidden, the stored ones are not. */
  ghost predicate SameStored(chunks: seq<Chunk>, rows: seq<Chunk>) {
    |chunks| == |rows| && forall i :: 0 <= i < |rows| ==> StoredFieldsAt(chunks, rows, i)
  }

  ghost predicate StoredFieldsAt(chunks: seq<Chunk>, rows: seq<Chunk>, i: nat)
    requires i < |chunks| == |rows|
  {
    chunks[i].i == rows[i].i && chunks[i].p == rows[i].p && chunks[i].sb == rows[i].sb && chunks[i].ss == rows[i].ss
  }

  ghost predicate DistinctDigests(layers: seq<LayerInfo>) {
    forall j, k :: 0 <= j < k < |layers| ==> layers[j].digest != layers[k].digest
  }

  /** Every stored chunk is non-empty and within the expansion bound of the manifest. */
  ghost predicate Plausible(m: Manifest, stored: seq<Bytes>) {
    forall i :: 0 <= i < |stored| ==> 0 < |stored[i]| && (MaxStoredChunkBytes(m) > 0 ==> |stored[i]| <= MaxStoredChunkBytes(m))
  }

  lemma {:induction false} StoredSumIsLength(chunks: seq<Chunk>, stored: seq<Bytes>, from: nat, to: nat)
    requires from <= to <= |chunks| == |stored|
    requires forall i :: 0 <= i < |stored| ==> chunks[i].sb == |stored[i]|
    ensures StoredSum(chunks, from, to) == |Flatten(stored[from..to])|
  {
    if from < to {
      StoredSumIsLength(chunks, stored, from, to - 1);
      FlattenNext(stored, from, to - 1);
    }
  }

  lemma StoredSizes(lib: Primitives, chunks: seq<Chunk>, rows: seq<Chunk>, plain: seq<Bytes>, stored: seq<Bytes>, i: nat)
    requires SameStored(chunks, rows) && RowsDescribe(lib, rows, plain, stored) && i < |rows|
    ensures chunks[i].i == i && chunks[i].sb == |stored[i]| && chunks[i].p == rows[i].p
  {
    assert StoredFieldsAt(chunks, rows, i) && RowAt(lib, rows, plain, stored, i);
  }

  /** Layer k of a written backup holds what it declares. */
  lemma WrittenLayerHolds(lib: Primitives, rows: seq<Chunk>, plain: seq<Bytes>, stored: seq<Bytes>, m: Manifest, chunks: seq<Chunk>, k: nat)
    requires RowsDescribe(lib, rows, plain, stored) && LayersDescribe(lib, m.layers, rows, stored)
    requires SameStored(chunks, rows) && Plausible(m, stored) && k < |m.layers|
    ensures LayerOk(m, chunks, k) && PathOf(m.layers[k], chunks) == DataBlobPath(m.layers[k].digest)
  {
    var layer := m.layers[k];
    assert LayerAt(lib, m.layers, rows, stored, k);
    WrittenSize(lib, rows, plain, stored, chunks, layer.chunkFrom, layer.chunkTo);
    forall i | layer.chunkFrom <= i <= layer.chunkTo
      ensures chunks[i].p == DataBlobPath(layer.digest) && (MaxStoredChunkBytes(m) > 0 ==> chunks[i].sb <= MaxStoredChunkBytes(m))
    {
      StoredSizes(lib, chunks, rows, plain, stored, i);
    }
  }

  /** The recorded sizes of a stretch of non-empty chunks add up to what the stretch holds. */
  lemma WrittenSize(lib: Primitives, rows: seq<Chunk>, plain: seq<Bytes>, stored: seq<Bytes>, chunks: seq<Chunk>, from: nat, to: nat)
    requires RowsDescribe(lib, rows, plain, stored) && SameStored(chunks, rows) && from <= to < |stored| && |stored[to]| > 0
    ensures StoredSum(chunks, from, to + 1) == |Flatten(stored[from..to + 1])| > 0
  {
    forall i | 0 <= i < |stored| ensures chunks[i].sb == |stored[i]| {
      StoredSizes(lib, chunks, rows, plain, stored, i);
    }
    StoredSumIsLength(chunks, stored, from, to + 1);
    ContentNotEmpty(stored, from, to);
  }

  lemma ContentNotEmpty(stored: seq<Bytes>, from: nat, to: nat)
    requires from <= to < |stored| && |stored[to]| > 0
    ensures |Flatten(stored[from..to + 1])| > 0
  {
    FlattenNext(stored, from, to);
  }

  /** A written backup's public metadata is accepted exactly when no two of its layers are byte-identical. */
  lemma WrittenAccepted(lib: Primitives, rows: seq<Chunk>, files: map<string, Bytes>, plain: seq<Bytes>, stored: seq<Bytes>,
                        m: Manifest, t: ChunkTable)
    requires HashLaw(lib) && Written(lib, rows, m.layers, files, plain, stored) && |rows| > 0
    requires m.chunking.count == |rows| && SameStored(t.chunks, rows) && Plausible(m, stored)
    ensures Accepted(m, t) <==> DistinctDigests(m.layers)
  {
    forall k | 0 <= k < |m.layers|
      ensures LayerOk(m, t.chunks, k) && PathOf(m.layers[k], t.chunks) == DataBlobPath(m.layers[k].digest)
      ensures ValidDigest(m.layers[k].digest)
    {
      WrittenLayerHolds(lib, rows, plain, stored, m, t.chunks, k);
      assert LayerAt(lib, m.layers, rows, stored, k);
      ShaIsDigest(lib, Content(m.layers, stored, k));
    }
    forall j, k | 0 <= j < k < |m.layers|
      ensures PathOf(m.layers[j], t.chunks) != PathOf(m.layers[k], t.chunks) <==> m.layers[j].digest != m.layers[k].digest
    {
      DataBlobPathInjective(m.layers[j].digest, m.layers[k].digest);
    }
    WrittenRowsOk(lib, rows, m.layers, plain, stored, m, t.chunks);
  }

  /** It passes the reader's check only then, and always then when its layer sizes are 64-bit numbers. */
  lemma WrittenPasses(lib: Primitives, rows: seq<Chunk>, files: map<string, Bytes>, plain: seq<Bytes>, stored: seq<Bytes>,
                      m: Manifest, t: ChunkTable)
    requires HashLaw(lib) && Written(lib, rows, m.layers, files, plain, stored) && |rows| > 0
    requires m.chunking.count == |rows| && SameStored(t.chunks, rows) && Plausible(m, stored)
    ensures Passes(m, t) ==> DistinctDigests(m.layers)
    ensures Representable(m) && DistinctDigests(m.layers) ==> Passes(m, t)
  {
    WrittenAccepted(lib, rows, files, plain, stored, m, t);
    if Representable(m) && DistinctDigests(m.layers) {
      AcceptedPasses(m, t);
    }
    if Passes(m, t) {
      forall j, k | 0 <= j < k < |m.layers| ensures m.layers[j].digest != m.layers[k].digest {
        WrittenLayerHolds(lib, rows, plain, stored, m, t.chunks, j);
        WrittenLayerHolds(lib, rows, plain, stored, m, t.chunks, k);
      }
    }
  }

  lemma WrittenRowsOk(lib: Primitives, rows: seq<Chunk>, layers: seq<LayerInfo>, plain: seq<Bytes>, stored: seq<Bytes>,
                      m: Manifest, chunks: seq<Chunk>)
    requires RowsDescribe(lib, rows, plain, stored) && LayersDescribe(lib, layers, rows, stored)
    requires NextChunk(layers, |layers|) == |rows| && SameStored(chunks, rows) && Plausible(m, stored)
    ensures RowsOk(chunks)
  {
    forall i | 0 <= i < |chunks| ensures chunks[i].i == i && chunks[i].sb > 0 && chunks[i].p != "" {
      StoredSizes(lib, chunks, rows, plain, stored, i);
      var k := WrittenLayerOf(lib, rows, layers, stored, |layers|, i);
      assert LayerAt(lib, layers, rows, stored, k);
      assert |DataBlobPath(layers[k].digest)| > 0;
    }
  }

  lemma {:induction false} WrittenLayerOf(lib: Primitives, rows: seq<Chunk>, layers: seq<LayerInfo>, stored: seq<Bytes>, n: nat, i: nat)
    returns (k: nat)
    requires LayersDescribe(lib, layers, rows, stored) && n <= |layers| && i < NextChunk(layers, n)
    ensures k < n && layers[k].chunkFrom <= i <= layers[k].chunkTo
  {
    assert LayerAt(lib, layers, rows, stored, n - 1);
    if i >= layers[n - 1].chunkFrom {
      k := n - 1;
    } else {
      k := WrittenLayerOf(lib, rows, layers, stored, n - 1, i);
    }
  }

  /** Two byte-identical layers get one name, so the reader refuses the backup. */
  lemma IdenticalLayersRefused(lib: Primitives, rows: seq<Chunk>, files: map<string, Bytes>, plain: seq<Bytes>, stored: seq<Bytes>,
                               m: Manifest, t: ChunkTable, j: nat, k: nat)
    requires HashLaw(lib) && Written(lib, rows, m.layers, files, plain, stored) && |rows| > 0
    requires m.chunking.count == |rows| && SameStored(t.chunks, rows) && Plausible(m, stored)
    requires j < k < |m.layers| && Content(m.layers, stored, j) == Content(m.layers, stored, k)
    ensures !Accepted(m, t)
  {
    assert LayerAt(lib, m.layers, rows, stored, j) && LayerAt(lib, m.layers, rows, stored, k);
    WrittenAccepted(lib, rows, files, plain, stored, m, t);
  }

  /** The reader's offset of a chunk is the length of the chunks before it in the same layer. */
  lemma ChunkOffset(lib: Primitives, rows: seq<Chunk>, plain: seq<Bytes>, stored: seq<Bytes>, m: Manifest, t: ChunkTable, k: nat, i: nat)
    requires RowsDescribe(lib, rows, plain, stored) && SameStored(t.chunks, rows)
    requires Accepted(m, t) && k < |m.layers| && m.layers[k].chunkFrom <= i <= m.layers[k].chunkTo
    ensures 0 <= m.layers[k].chunkFrom && i < |stored|
    ensures OffsetIn(t.chunks, i, t.chunks[i].p) == |Flatten(stored[m.layers[k].chunkFrom..i])|
  {
    LayoutTiles(m, t, k, i);
    forall h | 0 <= h < |stored| ensures t.chunks[h].sb == |stored[h]| {
      StoredSizes(lib, t.chunks, rows, plain, stored, h);
    }
    StoredSumIsLength(t.chunks, stored, m.layers[k].chunkFrom, i);
  }

  /** The blob file of a layer holds its content when no other layer has its digest. */
  lemma LayerFile(lib: Primitives, rows: seq<Chunk>, layers: seq<LayerInfo>, files: map<string, Bytes>, stored: seq<Bytes>, k: nat, i: nat)
    requires HashLaw(lib) && LayersDescribe(lib, layers, rows, stored) && FilesDescribe(layers, stored, files)
    requires DistinctDigests(layers) && k < |layers| && layers[k].chunkFrom <= i <= layers[k].chunkTo
    ensures 0 <= layers[k].chunkFrom && layers[k].chunkTo < |rows| == |stored|
    ensures rows[i].p in files && files[rows[i].p] == Flatten(stored[layers[k].chunkFrom..layers[k].chunkTo + 1])
  {
    assert LayerAt(lib, layers, rows, stored, k) && FileAt(layers, stored, files, k);
    NoLaterTwin(lib, rows, layers, stored, k);
  }

  lemma ChunkFoundIn(lib: Primitives, rows: seq<Chunk>, files: map<string, Bytes>, plain: seq<Bytes>, stored: seq<Bytes>,
                     m: Manifest, t: ChunkTable, k: nat, i: nat)
    requires HashLaw(lib) && RowsDescribe(lib, rows, plain, stored) && LayersDescribe(lib, m.layers, rows, stored)
    requires FilesDescribe(m.layers, stored, files) && SameStored(t.chunks, rows) && DistinctDigests(m.layers) && Accepted(m, t)
    requires k < |m.layers| && m.layers[k].chunkFrom <= i <= m.layers[k].chunkTo && i < |rows|
    ensures var c, at := t.chunks[i], OffsetIn(t.chunks, i, t.chunks[i].p);
            && c.p in files && 0 <= at <= at + c.sb <= |files[c.p]|
            && files[c.p][at..at + c.sb] == stored[i]
  {
    LayerFile(lib, rows, m.layers, files, stored, k, i);
    ChunkOffset(lib, rows, plain, stored, m, t, k, i);
    StoredSizes(lib, t.chunks, rows, plain, stored, i);
    SliceOfLayer(stored, m.layers[k].chunkFrom, i, m.layers[k].chunkTo);
  }

  /** Offset and size taken from the public table cut exactly the stored chunk out of its blob. */
  lemma ChunkFoundAgain(lib: Primitives, rows: seq<Chunk>, files: map<string, Bytes>, plain: seq<Bytes>, stored: seq<Bytes>,
                        m: Manifest, t: ChunkTable, i: nat)
    requires HashLaw(lib) && Written(lib, rows, m.layers, files, plain, stored) && i < |rows|
    requires m.chunking.count == |rows| && SameStored(t.chunks, rows) && Plausible(m, stored) && DistinctDigests(m.layers)
    ensures var c, at := t.chunks[i], OffsetIn(t.chunks, i, t.chunks[i].p);
            && c.p in files && 0 <= at <= at + c.sb <= |files[c.p]|
            && files[c.p][at..at + c.sb] == stored[i]
  {
    WrittenAccepted(lib, rows, files, plain, stored, m, t);
    var k := WrittenLayerOf(lib, rows, m.layers, stored, |m.layers|, i);
    ChunkFoundIn(lib, rows, files, plain, stored, m, t, k, i);
  }

  lemma NoLaterTwin(lib: Primitives, rows: seq<Chunk>, layers: seq<LayerInfo>, stored: seq<Bytes>, k: nat)
    requires HashLaw(lib) && LayersDescribe(lib, layers, rows, stored) && DistinctDigests(layers) && k < |layers|
    ensures forall j :: k < j < |layers| ==> DataBlobPath(layers[j].digest) != DataBlobPath(layers[k].digest)
  {
    forall j | k < j < |layers| ensures DataBlobPath(layers[j].digest) != DataBlobPath(layers[k].digest) {
      assert LayerAt(lib, layers, rows, stored, j) && LayerAt(lib, layers, rows, stored, k);
      ShaIsDigest(lib, Content(layers, stored, j));
      ShaIsDigest(lib, Content(layers, stored, k));
      DataBlobPathInjective(layers[j].digest, layers[k].digest);
    }
  }

  lemma SliceOfLayer(stored: seq<Bytes>, from: nat, i: nat, to: nat)
    requires from <= i <= to < |stored|
    ensures var at := |Flatten(stored[from..i])|;
            var content := Flatten(stored[from..to + 1]);
            at + |stored[i]| <= |content| && content[at..at + |stored[i]|] == stored[i]
  {
    var pieces := stored[from..to + 1];
    FlattenSlice(pieces, i - from, i - from + 1);
    assert pieces[..i - from] == stored[from..i];
    assert pieces[..i - from + 1] == stored[from..i] + [stored[i]];
    FlattenSnoc(stored[from..i], stored[i]);
    assert pieces[i - from..i - from + 1] == [stored[i]];
    FlattenOne(stored[i]);
  }
}
