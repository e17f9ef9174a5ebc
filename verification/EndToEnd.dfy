/** From a tree on disk to the records of a selection: every stage of a backup and a selective restore in one line. */
module EndToEnd {
  import opened Common
  import opened Metadata
  import opened Primitives
  import opened Keys
  import opened Envelope
  import opened Entries
  import opened Recovery
  import opened Ranges
  import opened Selective
  import opened Selection
  import opened BuiltLayout
  import opened Finalize
  import opened RoundTrip
  import Limits
  import Planner
  import Splitter
  import Builder
  import opened Planned
  import opened Roots
  import opened Extract
  import Glob
  import Tar = TarWriter

  /** The records of the wanted entries among the first n, as the walk wrote them. */
  function WrittenRecords(tar: Tar.Tar, entries: seq<FileEntry>, contents: seq<Bytes>, wanted: set<string>, n: nat): Bytes
    requires n <= |entries| == |contents|
  {
    if n == 0 then []
    else
      WrittenRecords(tar, entries, contents, wanted, n - 1) +
      if entries[n - 1].path in wanted then Tar.RecordOf(tar, entries[n - 1], contents[n - 1]) else []
  }

  /** The contents of the wanted entries among the first n. */
  function PickedContents(entries: seq<FileEntry>, contents: seq<Bytes>, wanted: set<string>, n: nat): seq<Bytes>
    requires n <= |entries| == |contents|
  {
    if n == 0 then []
    else PickedContents(entries, contents, wanted, n - 1) + if entries[n - 1].path in wanted then [contents[n - 1]] else []
  }

  /** What is written for a selection is the archive of its slice, which is what the extractor then walks. */
  lemma {:induction false} SliceIsArchive(tar: Tar.Tar, entries: seq<FileEntry>, contents: seq<Bytes>, wanted: set<string>, n: nat)
    requires n <= |entries| == |contents|
    ensures |Picked(entries, wanted, n)| == |PickedContents(entries, contents, wanted, n)|
    ensures WrittenRecords(tar, entries, contents, wanted, n)
         == Tar.Joined(tar, Picked(entries, wanted, n), PickedContents(entries, contents, wanted, n), |Picked(entries, wanted, n)|)
  {
    if n > 0 {
      var picked, bodies := Picked(entries, wanted, n - 1), PickedContents(entries, contents, wanted, n - 1);
      SliceIsArchive(tar, entries, contents, wanted, n - 1);
      if entries[n - 1].path in wanted {
        Tar.JoinedAgree(tar, picked, bodies, entries[n - 1], contents[n - 1], |picked|);
      } else {
        assert bodies + [] == bodies;
      }
    }
  }

  lemma TapePiece(v: Reader, verify: bool, chunks: seq<Bytes>, i: nat)
    requires v.Laid() && Yields(v, verify, chunks) && i < |chunks|
    ensures TapeOf(v, verify).plain[i] == Some(chunks[i]) && TapeOf(v, verify).Piece(i) == chunks[i]
  {
    assert YieldsAt(v, verify, chunks, i);
  }

  lemma {:induction false} TapeIsStream(v: Reader, verify: bool, chunks: seq<Bytes>, n: nat)
    requires v.Laid() && Yields(v, verify, chunks) && n <= |chunks|
    ensures TapeOf(v, verify).Stream(n) == Flatten(chunks[0..n])
  {
    if n > 0 {
      TapeIsStream(v, verify, chunks, n - 1);
      TapePiece(v, verify, chunks, n - 1);
      FlattenNext(chunks, 0, n - 1);
    }
  }

  /** Slice i of the tape is record i of the archive. */
  ghost predicate HoldsRecord(w: Tape, tar: Tar.Tar, entries: seq<FileEntry>, contents: seq<Bytes>, i: nat)
    requires |w.prefix| > 0 && i < |entries| == |contents|
  {
    Record(w, entries, i) == Tar.RecordOf(tar, entries[i], contents[i])
  }

  lemma {:induction false} PickedRecords(w: Tape, tar: Tar.Tar, entries: seq<FileEntry>, contents: seq<Bytes>, wanted: set<string>, n: nat)
    requires |w.prefix| == |w.plain| + 1 && n <= |entries| == |contents|
    requires forall i :: 0 <= i < n ==> HoldsRecord(w, tar, entries, contents, i)
    ensures WantedRecords(w, entries, wanted, n) == WrittenRecords(tar, entries, contents, wanted, n)
  {
    if n > 0 {
      PickedRecords(w, tar, entries, contents, wanted, n - 1);
      assert HoldsRecord(w, tar, entries, contents, n - 1);
    }
  }

  /** Over a sound backup of a walked tree a selection's ranges are fine, its chunks load, and its bytes are its records. */
  lemma SelectionRestored(v: Reader, verify: bool, chunks: seq<Bytes>, tar: Tar.Tar, entries: seq<FileEntry>, items: seq<Tar.Item>,
                          contents: seq<Bytes>, wanted: set<string>)
    requires v.Laid() && Yields(v, verify, chunks) && Tar.TarLaw(tar) && Tar.Archived(tar, Flatten(chunks), entries, items, contents)
    ensures var w := TapeOf(v, verify);
            && WantedRangesOk(entries, wanted, w.ContentEnd(), |entries|) && NeededLoad(w, entries, wanted)
            && WantedRecords(w, entries, wanted, |entries|) == WrittenRecords(tar, entries, contents, wanted, |entries|)
  {
    var w := TapeOf(v, verify);
    TapeValid(v, verify);
    TapeIsStream(v, verify, chunks, |chunks|);
    assert chunks[0..|chunks|] == chunks;
    forall i | 0 <= i < |entries| ensures EntryRangeOk(entries, i, w.ContentEnd()) && HoldsRecord(w, tar, entries, contents, i) {
      RangesAreRecords(w, tar, entries, items, contents, i);
    }
    PickedRecords(w, tar, entries, contents, wanted, |entries|);
    forall c | 0 <= c < |w.plain| ensures w.plain[c].Some? {
      TapePiece(v, verify, chunks, c);
    }
  }

  /** The tree as it was saved: its archive, cut into chunks, written and published. */
  ghost predicate Saved(lib: Primitives, cfg: Builder.Config, sealer: Builder.Sealer, tar: Tar.Tar, chunks: seq<Bytes>,
                        entries: seq<FileEntry>, items: seq<Tar.Item>, contents: seq<Bytes>, k: Backed) {
    Made(lib, cfg, sealer, chunks, entries, k) && Tar.TarLaw(tar) && Tar.Archived(tar, Flatten(chunks), entries, items, contents)
  }

  /** The selective restore of an unlocked image of a saved tree. */
  method Pick(v: Reader, selected: seq<FileEntry>, verify: bool, entries: seq<FileEntry>, ghost cfg: Builder.Config,
              ghost sealer: Builder.Sealer, ghost tar: Tar.Tar, ghost chunks: seq<Bytes>, ghost items: seq<Tar.Item>,
              ghost contents: seq<Bytes>, ghost k: Backed)
    returns (out: Bytes, ok: bool, wanted: set<string>)
    requires Laws(v.lib) && SealerOk(sealer) && Saved(v.lib, cfg, sealer, tar, chunks, entries, items, contents, k)
    requires Reads(v, cfg, sealer, k.rows, k.files) && v.manifest.layers == k.full.layers && v.manifest.chunking == k.full.chunking
    modifies v.log
    ensures Covers(selected, |selected|, wanted) && LinkClosed(entries, wanted) && Least(entries, selected, wanted)
    ensures Plausible(k.full, k.stored) && DistinctDigests(k.full.layers) ==>
              ok && out == WrittenRecords(tar, entries, contents, wanted, |entries|) + Zeros(TRAILER)
  {
    wanted := SelectionSet(entries, selected);
    if Plausible(k.full, k.stored) && DistinctDigests(k.full.layers) {
      MadeRestores(v, cfg, sealer, chunks, entries, k, MustVerify(v, verify));
      SelectionRestored(v, MustVerify(v, verify), chunks, tar, entries, items, contents, wanted);
    }
    ghost var loads;
    out, ok, loads := StreamSelectedTar(v, entries, wanted, verify);
  }

  /** Roots with names of their own that a strict walk gets through, reads that do not fail, objects the index can hold. */
  ghost predicate Savable(excluded: string -> bool, oneFileSystem: bool, roots: seq<Tar.Node>, script: seq<Splitter.Read>) {
    && Tar.DistinctNames(roots) && Tar.AllAddable(oneFileSystem, roots) && !Splitter.Faulty(script)
    && Tar.AllItemsFit(Tar.AllItems(excluded, oneFileSystem, roots, |roots|))
  }

  /** Walk, split and write; refused for a faulty read, an unreadable tree or an entry the index cannot hold. */
  method Save(lib: Primitives, cfg: Builder.Config, sealer: Builder.Sealer, d: Details, tar: Tar.Tar, excluded: string -> bool,
              oneFileSystem: bool, roots: seq<Tar.Node>, script: seq<Splitter.Read>,
              cdc: (Bytes, seq<Splitter.Read>) -> Option<seq<Bytes>>)
    returns (product: Option<Product>, files: map<string, Bytes>, ghost entries: seq<FileEntry>,
             ghost chunks: seq<Bytes>, ghost k: Backed)
    requires KnownCodec(cfg.codec) && Tar.TarLaw(tar) && Tar.RootsOk(roots) && CdcLaw(cdc, d.cdcMax)
    requires Planner.MIN_CHUNK_SIZE <= d.chunkBytes <= Planner.MAX_CHUNK_SIZE
    ensures Savable(excluded, oneFileSystem, roots, script) ==> product.Some?
    ensures product.Some? ==> Tar.DistinctNames(roots) && Tar.AllItemsFit(Tar.AllItems(excluded, oneFileSystem, roots, |roots|))
    ensures product.Some? ==>
              var items := Tar.AllItems(excluded, oneFileSystem, roots, |roots|);
              && ValidEntries(entries) && |entries| == |items|
              && Saved(lib, cfg, sealer, tar, chunks, entries, items, Tar.ContentsOf(entries, items), k)
    ensures product.Some? ==> ChunksFit(cfg, d, chunks) && ChunkSizes(cfg, d, k.full)
    ensures product.Some? ==> ValidEntries(entries) && k.product == product.value && k.files == files
  {
    var fine, archive, walked := Tar.ArchiveRoots(tar, excluded, oneFileSystem, roots);
    entries := walked;
    product, files, chunks := None, map[], [];
    k := *;
    if !fine {
      return;
    }
    ghost var items := Tar.AllItems(excluded, oneFileSystem, roots, |roots|);
    Tar.ArchivedFits(tar, archive, entries, items, Tar.ContentsOf(entries, items));
    var pieces, whole := CutStream(cfg, d, archive, script, cdc);
    chunks := pieces;
    if !whole {
      return;
    }
    product, files, k := Write(lib, cfg, sealer, d, pieces, walked);
  }

  /** An unencrypted index is not mistaken for a sealed one. */
  ghost predicate PlainIndex(lib: Primitives, sealer: Builder.Sealer) {
    sealer.Clear? ==> forall idx :: !IsEnvelope(lib.encodeIndex(idx))
  }

  /** What was walked is what the extractor and the selection rely on. */
  lemma SavedIsWalked(tar: Tar.Tar, excluded: string -> bool, oneFileSystem: bool, roots: seq<Tar.Node>, out: Bytes,
                      entries: seq<FileEntry>, contents: seq<Bytes>)
    requires Tar.RootsOk(roots) && Tar.Archived(tar, out, entries, Tar.AllItems(excluded, oneFileSystem, roots, |roots|), contents)
    ensures WalkedSlice(roots, entries)
  {
    var items := Tar.AllItems(excluded, oneFileSystem, roots, |roots|);
    ArchivedIsWalked(excluded, oneFileSystem, roots, entries, contents);
    ArchivedLinks(entries, items);
    forall i | 0 <= i < |entries| ensures KnownAt(entries, i) {
      assert Tar.EntryAt(tar, entries, contents, i);
    }
  }

  /**
   * What a selective restore must have written: the records of the least closed set with what the patterns select, as the
   * walk wrote them. The archived directories above the selection are among them exactly when none belongs to a root
   * named "." or "/", unless selected.
   */
  ghost predicate RightSlice(segment: (string, string) -> bool, includes: seq<string>, excludes: seq<string>, tar: Tar.Tar,
                             entries: seq<FileEntry>, items: seq<Tar.Item>, wanted: set<string>, out: Bytes) {
    var selected := Glob.Matching(segment, entries, includes, excludes, |entries|);
    && |entries| == |items|
    && Covers(selected, |selected|, wanted) && LinkClosed(entries, wanted) && Least(entries, selected, wanted)
    && (KeepsParents(entries, selected, wanted) <==> NoBareParents(entries, selected))
    && out == WrittenRecords(tar, entries, Tar.ContentsOf(entries, items), wanted, |entries|) + Zeros(TRAILER)
  }

  /** Index, selection and bytes of an unlocked image of a saved tree, from what was published alone. */
  method ReadAndPick(v: Reader, segment: (string, string) -> bool, includes: seq<string>, excludes: seq<string>, verify: bool,
                     ghost cfg: Builder.Config, ghost sealer: Builder.Sealer, ghost tar: Tar.Tar, ghost roots: seq<Tar.Node>,
                     ghost chunks: seq<Bytes>, ghost written: seq<FileEntry>, ghost items: seq<Tar.Item>, ghost k: Backed,
                     ghost keyName: string, ghost keyData: Bytes)
    returns (out: Bytes, ok: bool, wanted: set<string>, entries: seq<FileEntry>)
    requires Laws(v.lib) && SealerOk(sealer) && PlainIndex(v.lib, sealer) && KeyFileName(keyName) && |written| == |items|
    requires Saved(v.lib, cfg, sealer, tar, chunks, written, items, Tar.ContentsOf(written, items), k) && ValidEntries(written)
    requires HoldsMade(v, sealer, Image(k.files, k.product, keyName, keyData), k) && WalkedSlice(roots, written)
    requires Plausible(k.full, k.stored) && DistinctDigests(k.full.layers)
    modifies v.log
    ensures ok && entries == written && RightSlice(segment, includes, excludes, tar, entries, items, wanted, out)
  {
    HoldsMadeReads(v, cfg, sealer, chunks, written, k, keyName, keyData);
    IndexReady(v, cfg, sealer, chunks, written, k, keyName, keyData);
    var idx := ReadIndex(v);
    entries := idx.value.entries;
    var selected := Glob.EntriesMatching(segment, entries, includes, excludes);
    MatchedIsChosen(segment, entries, includes, excludes);
    out, ok, wanted := Pick(v, selected, verify, entries, cfg, sealer, tar, chunks, items, Tar.ContentsOf(written, items), k);
    ParentsKeptIff(roots, entries, selected, wanted);
  }

  lemma MatchedIsChosen(segment: (string, string) -> bool, entries: seq<FileEntry>, includes: seq<string>, excludes: seq<string>)
    ensures Chosen(entries, Glob.Matching(segment, entries, includes, excludes, |entries|))
  {
    var selected := Glob.Matching(segment, entries, includes, excludes, |entries|);
    forall i | 0 <= i < |selected| ensures selected[i] in entries {
      Glob.MatchingMembers(segment, entries, includes, excludes, |entries|, selected[i]);
    }
  }

  /**
   * The whole program: a tree is walked, split as planned, written, published, opened, unlocked, its index read back and a
   * selection restored. It is accepted exactly when no two layers are byte-identical.
   */
  method SaveAndPick(lib: Primitives, config: Builder.Config, sealer: Builder.Sealer, details: Details, estimate: int, maxLayerSize: int,
                     tar: Tar.Tar, excluded: string -> bool, oneFileSystem: bool, roots: seq<Tar.Node>, script: seq<Splitter.Read>,
                     cdc: (Bytes, seq<Splitter.Read>) -> Option<seq<Bytes>>, keyName: string, keyData: Bytes,
                     unwrap: Bytes -> Option<KeyMaterial>, segment: (string, string) -> bool, includes: seq<string>,
                     excludes: seq<string>, verify: bool)
    returns (saved: bool, accepted: bool, ok: bool, out: Bytes, wanted: set<string>, entries: seq<FileEntry>, ghost k: Backed)
    requires Laws(lib) && SizeLaw(lib) && SealerOk(sealer) && PlainIndex(lib, sealer) && KnownCodec(config.codec)
    requires KeyFileName(keyName) && (sealer.Sealed? ==> unwrap(keyData) == Some(sealer.km))
    requires Tar.TarLaw(tar) && Tar.RootsOk(roots) && CdcLaw(cdc, details.cdcMax)
    ensures Savable(excluded, oneFileSystem, roots, script) ==> saved
    ensures saved ==> Tar.DistinctNames(roots) && Tar.AllItemsFit(Tar.AllItems(excluded, oneFileSystem, roots, |roots|))
    ensures saved && Limits.Representable(k.full) ==> (accepted <==> DistinctDigests(k.full.layers))
    ensures accepted ==> saved && ok && WalkedSlice(roots, entries)
    ensures accepted ==>
              RightSlice(segment, includes, excludes, tar, entries, Tar.AllItems(excluded, oneFileSystem, roots, |roots|), wanted, out)
  {
    saved, accepted, ok, out, wanted, entries := false, false, false, [], {}, [];
    var cfg, d := Plan(config, details, estimate, maxLayerSize);
    var product, files;
    ghost var written, chunks;
    product, files, written, chunks, k := Save(lib, cfg, sealer, d, tar, excluded, oneFileSystem, roots, script, cdc);
    if product.None? {
      return;
    }
    saved := true;
    PlannedIsPlausible(lib, cfg, sealer, d, chunks, k.full, k.stored);
    var v := Unlocked(lib, cfg, sealer, product.value, files, keyName, keyData, unwrap, chunks, written, k);
    if v.None? {
      return;
    }
    accepted := true;
    ghost var items := Tar.AllItems(excluded, oneFileSystem, roots, |roots|);
    SavedIsWalked(tar, excluded, oneFileSystem, roots, Flatten(chunks), written, Tar.ContentsOf(written, items));
    out, ok, wanted, entries := ReadAndPick(v.value, segment, includes, excludes, verify, cfg, sealer, tar, roots, chunks, written, items, k,
                                            keyName, keyData);
  }

  /** And on to the destination: the slice is extracted into an empty directory. */
  method SaveAndRestore(lib: Primitives, config: Builder.Config, sealer: Builder.Sealer, details: Details, estimate: int, maxLayerSize: int,
                        tar: Tar.Tar, excluded: string -> bool, oneFileSystem: bool, roots: seq<Tar.Node>, script: seq<Splitter.Read>,
                        cdc: (Bytes, seq<Splitter.Read>) -> Option<seq<Bytes>>, keyName: string, keyData: Bytes,
                        unwrap: Bytes -> Option<KeyMaterial>, segment: (string, string) -> bool, includes: seq<string>,
                        excludes: seq<string>, verify: bool, overwrite: bool, strict: bool)
    returns (saved: bool, accepted: bool, restored: bool, stats: Stats, wanted: set<string>, entries: seq<FileEntry>, ghost k: Backed)
    requires Laws(lib) && SizeLaw(lib) && SealerOk(sealer) && PlainIndex(lib, sealer) && KnownCodec(config.codec)
    requires KeyFileName(keyName) && (sealer.Sealed? ==> unwrap(keyData) == Some(sealer.km))
    requires Tar.TarLaw(tar) && Tar.RootsOk(roots) && CdcLaw(cdc, details.cdcMax)
    ensures Savable(excluded, oneFileSystem, roots, script) ==> saved
    ensures saved && Limits.Representable(k.full) ==> (accepted <==> DistinctDigests(k.full.layers))
    ensures accepted ==> Restored(roots, Picked(entries, wanted, |entries|), overwrite, strict, restored, stats)
    ensures accepted ==>
              var selected := Glob.Matching(segment, entries, includes, excludes, |entries|);
              Covers(selected, |selected|, wanted) && LinkClosed(entries, wanted) && Least(entries, selected, wanted)
  {
    restored, stats := false, NO_STATS;
    var ok, out;
    saved, accepted, ok, out, wanted, entries, k :=
      SaveAndPick(lib, config, sealer, details, estimate, maxLayerSize, tar, excluded, oneFileSystem, roots, script, cdc,
                  keyName, keyData, unwrap, segment, includes, excludes, verify);
    if accepted {
      restored, stats := ExtractSlice(entries, wanted, overwrite, strict, roots);
    }
  }
}
