/** The sizes of a run: layers and chunks from the plan, what is declared from them, and that every stored chunk respects it. */
module Planned {
  import opened Common
  import opened Metadata
  import opened Primitives
  import opened Keys
  import opened Envelope
  import opened Limits
  import opened Planner
  import opened BuiltLayout
  import opened Finalize
  import opened RoundTrip
  import B = Builder
  import Splitter

  /** The configuration with the sizes of the plan. */
  method Plan(cfg: B.Config, d: Details, estimate: int, maxLayerSize: int) returns (c: B.Config, e: Details)
    ensures c.codec == cfg.codec && c.level == cfg.level && c.dedup == cfg.dedup && c.maxDataLayers == B.MAX_DATA_LAYERS
    ensures c.layerBytes >= 0x100_0000 && MIN_CHUNK_SIZE <= e.chunkBytes <= MAX_CHUNK_SIZE
    ensures e.cdcMax == d.cdcMax
    ensures e.chunkBytes > MIN_CHUNK_SIZE ==> 64 * e.chunkBytes <= c.layerBytes
    ensures e.chunkBytes < MAX_PLANNED_CHUNK ==> c.layerBytes < 64 * (e.chunkBytes + 1)
    ensures var target := if maxLayerSize > 0 then maxLayerSize else 0x4000_0000;
            0x100_0000 <= target < estimate && Covers(B.MAX_DATA_LAYERS, target, estimate) ==> c.layerBytes == target
  {
    var plan := PlanLayers(estimate, RunLimits(maxLayerSize));
    ghost var target := if maxLayerSize > 0 then maxLayerSize else 0x4000_0000;
    if 0x100_0000 <= target < estimate && Covers(B.MAX_DATA_LAYERS, target, estimate) {
      CeilDivLeast(estimate, target, B.MAX_DATA_LAYERS);
      CeilDivCovers(estimate, target);
    }
    c := cfg.(layerBytes := plan.value.layerBytes, maxDataLayers := B.MAX_DATA_LAYERS, estimatedRaw := estimate);
    e := d.(chunkBytes := plan.value.chunkBytes);
  }

  /** The largest chunk the splitter of the run yields. */
  function Largest(cfg: B.Config, d: Details): int { if cfg.dedup then d.cdcMax else d.chunkBytes }

  ghost predicate ChunksFit(cfg: B.Config, d: Details, chunks: seq<Bytes>) {
    forall i :: 0 <= i < |chunks| ==> 0 < |chunks[i]| <= Largest(cfg, d)
  }

  /** What a content-defined splitter is relied on for. */
  ghost predicate CutsWell(cdc: (Bytes, seq<Splitter.Read>) -> Option<seq<Bytes>>, largest: int, data: Bytes, script: seq<Splitter.Read>) {
    match cdc(data, script)
    case None => Splitter.Faulty(script)
    case Some(chunks) => Flatten(chunks) == data && forall i :: 0 <= i < |chunks| ==> 0 < |chunks[i]| <= largest
  }

  ghost predicate CdcLaw(cdc: (Bytes, seq<Splitter.Read>) -> Option<seq<Bytes>>, largest: int) {
    largest > 0 && forall data, script :: CutsWell(cdc, largest, data, script)
  }

  /** The stream in chunks, fixed or content-defined. */
  method CutStream(cfg: B.Config, d: Details, data: Bytes, script: seq<Splitter.Read>, cdc: (Bytes, seq<Splitter.Read>) -> Option<seq<Bytes>>)
    returns (chunks: seq<Bytes>, ok: bool)
    requires MIN_CHUNK_SIZE <= d.chunkBytes <= MAX_CHUNK_SIZE && CdcLaw(cdc, d.cdcMax)
    ensures ok ==> Flatten(chunks) == data && ChunksFit(cfg, d, chunks)
    ensures !ok ==> Splitter.Faulty(script)
  {
    if cfg.dedup {
      assert CutsWell(cdc, d.cdcMax, data, script);
      var cut := cdc(data, script);
      if cut.None? {
        return [], false;
      }
      return cut.value, true;
    }
    chunks, ok := Splitter.SplitAll(data, script, d.chunkBytes);
  }

  /** A stored chunk is not empty and hardly larger than the largest chunk. */
  lemma StoredSize(lib: Primitives, cfg: B.Config, sealer: B.Sealer, i: nat, plain: Bytes, largest: int)
    requires SizeLaw(lib) && HashLaw(lib) && SealerOk(sealer) && 0 < |plain| <= largest
    ensures 0 < |B.StoredForm(lib, cfg, sealer, i, plain)| <= largest + largest / EXPANSION_DENOMINATOR + EXPANSION_FLOOR
  {
    var compressed := lib.compress(cfg.codec, cfg.level, plain);
    assert |plain| / 64 <= largest / 64;
    if sealer.Sealed? {
      var mode := if cfg.dedup then Convergent else Random;
      assert NonceAt(sealer, i);
      SealedSize(lib, sealer.km, mode, sealer.draws(i), PositionOf(i), cfg.codec, compressed);
    }
  }

  lemma SealedSize(lib: Primitives, km: KeyMaterial, mode: NonceMode, drawn: Nonce, position: Position, codec: Byte, payload: Bytes)
    requires SizeLaw(lib) && |drawn| == NONCE_LEN
    ensures Seal(lib, km, mode, drawn, ROLE_DATA, position, codec, payload).Some?
    ensures |payload| < |Seal(lib, km, mode, drawn, ROLE_DATA, position, codec, payload).value| <= |payload| + HEADER_MAX + TAG_LEN
  {
    var h := SealHeader(mode, codec).(nonce := SealNonce(lib, km, mode, drawn, ROLE_DATA, position, codec, payload));
    assert |HeaderBytes(h)| <= HEADER_MAX;
    assert |lib.seal(km.dek, h.nonce, payload, Aad(h, ROLE_DATA, position))| == |payload| + TAG_LEN;
  }

  /** What a planned run stores is within the bound its manifest declares. */
  lemma PlannedIsPlausible(lib: Primitives, cfg: B.Config, sealer: B.Sealer, d: Details, chunks: seq<Bytes>, m: Manifest, stored: seq<Bytes>)
    requires SizeLaw(lib) && HashLaw(lib) && SealerOk(sealer) && ChunksFit(cfg, d, chunks) && Largest(cfg, d) > 0
    requires B.StoredForms(lib, cfg, sealer, chunks, stored) && ChunkSizes(cfg, d, m)
    ensures Plausible(m, stored)
  {
    forall i | 0 <= i < |stored| ensures 0 < |stored[i]| && (MaxStoredChunkBytes(m) > 0 ==> |stored[i]| <= MaxStoredChunkBytes(m)) {
      assert B.FormAt(lib, cfg, sealer, chunks, stored, i);
      StoredSize(lib, cfg, sealer, i, chunks[i], Largest(cfg, d));
    }
  }
}
