# backimage in Dafny

A model of backimage, the tool that stores a backup as an OCI image, and proofs about it. The model follows a backup
from the tree on disk to the registry and back: the tar walk, chunking, compression and sealing, layers, public and
sealed metadata, the concurrent push, the retention of old tags, and the full, selective and partial restores.

`dafny verify dfyconfig.toml` checks everything.

What the program only calls is a value the theorems quantify over: hashing, compression, authenticated encryption, keyed
hashing and serialisation (`Primitives`), the tar header encoding (`TarWriter.Tar`), one-segment glob matching (`Glob`),
calendar bucketing and regular expressions (`Retention.Library`, `Retention.Policy`), and key unwrapping
(`Backup.Unlock`). A theorem names the laws it needs of them. No law makes a hash or a truncated MAC injective: absence of
collisions is asked only of the inputs at hand, and freshly drawn secrets and nonces of one trace do not repeat. Sources
of bytes are either stable or answer every read with anything; what needs a stable source says so. Every read of a chunk
is logged where it happens (`Recovery.StoredChunk`), and what is said about loads is said about that log.

| files | what they hold |
|---|---|
| `Common`, `Ordering`, `Paths`, `Metadata`, `Primitives` | lists, sorting, slash-separated paths, the metadata records, the library functions and their laws |
| `TarWriter` | the strict walk, tar offsets and records, hard links |
| `Splitter`, `Planner`, `Builder`, `Finalize` | chunks, layer plan and boundaries, layers, the published metadata |
| `Keys`, `Envelope`, `KeyEpochs`, `PrivateMetadata` | key material, sealed blobs, key reuse over many runs, the confidential half |
| `Limits`, `BuiltLayout`, `Entries`, `Limiter` | what a reader accepts, and that it accepts what the writer makes |
| `Backup`, `Recovery`, `Search`, `Ranges`, `Selective`, `Traces`, `Partial` | opening, unlocking, the three restores and what they read |
| `Glob`, `Selection`, `Roots`, `Extract` | what a pattern selects, what a selection needs, what root names mean for both, how it lands on disk |
| `RoundTrip`, `Twins`, `Planned`, `Audit`, `EndToEnd` | the stages composed, and what a verification finds of damage done since |
| `PushProtocol`, `BlobUpload`, `FrameBuffer` | the push as a state machine, the two double-buffered senders |
| `Retention`, `Recency`, `RetentionPlan`, `Prune` | which tags a policy keeps, that rule on dates alone, the code that decides it, the deletions |

Main results:

- A tree with distinct root names, nothing in it that stops a strict walk and entries the index can hold is saved. Walked,
  split as planned, written, published, opened and unlocked, with its index read back, it yields for any include and
  exclude patterns, exactly as the walk wrote them, the records of the least set that holds what the patterns select, the
  directories `path.Dir` names above it and its hard-link targets. It is accepted exactly when no two layers are
  byte-identical (`EndToEnd.SaveAndPick`, `RoundTrip.WriteThenRestore`, `BuiltLayout.WrittenPasses`).
- What the walk archives is said without the walk: the objects at all places that are reached through listed directories on
  the right device and are neither excluded nor sockets, each once, in the order of the places (`TarWriter.ArchiveRoots`,
  `TarWriter.AllItemsEnumerated`).
- That slice extracts into an empty destination without a skip unless a root is named ".", ".." or "/"
  (`EndToEnd.SaveAndRestore`, `Extract.ExtractableIff`).
- Partial recovery of any damage writes every wanted entry whose chunks all load, whole and in order, and accounts for
  every other one; a damaged chunk is read once (`Partial.StreamTarPartial`).
- The selective restore with merged ranges, binary search and a one-chunk cache is the concatenation of slices of the
  plaintext, and the chunks it reads are the needed ones, once each and in order (`Selective.StreamSelectedTar`).
- A verifying restore writes only whole chunks that agree with the recorded digests, whatever the source returns
  (`Recovery.StreamTar`).
- A verification of a backup that may have been damaged since is clean exactly when every stored chunk is still the one
  written, and counts the ones that are not (`Audit.QuickAudit`, `Audit.FullAudit`).
- The published half of an encrypted backup does not depend on anything confidential, and the sealed half unlocks with a
  manifest and table exactly when every open field and row is the run's own (`Finalize.PublishedRevealsNothing`,
  `RoundTrip.BelongsIffSameBackup`).
- Over all interleavings, failures, crashes and resumptions of a push the tag names the new index only when everything it
  refers to is there; an attempt that succeeds has moved it, and only another client moves it again; a failed attempt
  publishes nothing; a crash loses no confirmation but the one being written; every attempt ends, and one that meets no
  fault succeeds (`PushProtocol.TagOnlyWhenComplete`, `PushProtocol.SuccessMovesTheTag`,
  `PushProtocol.FailurePreventsPublication`, `PushProtocol.ResumeKeepsConfirmed`, `PushProtocol.AttemptEnds`,
  `PushProtocol.FaultlessSucceeds`).
- What a policy keeps has a reason on names and dates, and what has the reason by a clear margin is kept
  (`Recency.KeptForAReason`, `Retention.NewestSurvive`, `Recency.PeriodSurvives`).
- Retention is stable: between the kept set and all tags every set plans to the same kept set, so an interrupted prune
  finishes right (`Retention.RetentionIsResumable`, `Prune.PruneRepeatedly`).
- A sealing key attests what it seals under, a random-mode key seals one backup, and equal convergent nonces mean equal
  messages, over any sequence of runs; under one deduplicating key equal payloads are stored as equal bytes
  (`KeyEpochs.NonceDiscipline`, `KeyEpochs.EqualPayloadsStoredOnce`).

Six properties one might expect are false of the code. Each is stated with an input and its exact condition.

- A finished backup can be read back: not when two of its layers are byte-identical, because they share a blob name. Any
  chunk repeated until it fills two layers makes such a backup, whatever the layer size (`Twins.WriteTwins`). The backup
  passes if and only if layer digests are distinct (`BuiltLayout.WrittenPasses`).
- A selection brings the archived directories above it, as the comment in `selectionSet` says: a root given as "." is
  archived as ".", "./a", "./a/b", and `path.Dir` cleans, so selecting "./a/b" asks for "a" (`Roots.DotLosesParent`,
  `Roots.SlashLosesParent` for "/"). They come along if and only if none of them belongs to a root named "." or "/", unless
  it is selected itself (`Roots.ParentsKeptIff`).
- What was archived can be extracted: roots ".." and "/" are refused whole, and of root "." its own entry. A strict restore
  into an empty destination succeeds only without them, and always then unless root "." was archived beside another one,
  whose names may be the same (`Extract.ExtractableIff`, `Extract.UnsafeIff`, `Extract.DotBesideClashes`); in every case it
  succeeds exactly when the clean names are safe and new (`Extract.Extractor.ExtractAll`).
- A chunk is loaded at most once in a partial restore, as the comment on `StreamTarPartial` says: the code walks every
  entry twice, and `Partial.ReadTwice` is a sound source on which a chunk is read twice. No chunk is read twice if and
  only if no entry that is written out has bytes in more than one chunk (`Partial.StreamTarPartial`).
- The chunks of an accepted layer add up to its declared size: the sum is a 64-bit one. It is right if and only if no chunk
  that fits the layer can carry the sum past the largest 64-bit number (`Limits.PassesIffHolds`,
  `Limits.WrappedLayerPasses`).
- Strengthening a policy never removes more: the empty policy keeps everything and any first rule may remove
  (`Retention.StrongerKeepsMore`, `Retention.EmptyPolicyIsTheException`).

## Model

| member | source | states |
|---|---|---|
| `EndToEnd.SaveAndPick` | pkg/recovery/recovery.go:773-851 | plan, walk, split, write, publish, open, unlock, index and selective restore in one line: saved when root names differ, the walk meets nothing that stops it, no read fails and the objects fit the index; accepted iff layer digests are distinct; then the index read back is the walk's and the output is the records, as the walk wrote them, of the least closed set with what the patterns select, plus 1024 zero bytes; the archived directories above it are included iff none belongs to a root named "." or "/", unless selected |
| `EndToEnd.SaveAndRestore` | pkg/archive/extract_unix.go:134-285 | the same, and on to an empty destination: nothing is skipped when no picked path is of root ".." or "/" or "." itself and "." is not beside another root; a strict run without overwrite succeeds iff the clean names are safe and new |
| `EndToEnd.SliceIsArchive` | pkg/recovery/recovery.go:773-851 | what is written for a selection is the archive of exactly its entries |
| `EndToEnd.Save` | pkg/backup/pipeline.go:875-968 | saved whenever root names differ, roots are sound, reads do not fail and objects fit the index, and only with distinct names and fitting objects; a saved tree is the archive of exactly the items due, cut into chunks of at most the largest size, written and published, with a valid index and the chunk sizes declared |
| `EndToEnd.Pick` | pkg/recovery/recovery.go:773-851 | the selective restore of a saved tree succeeds and returns the records of the least closed set with the selection |
| `EndToEnd.SelectionRestored` | pkg/recovery/recovery.go:780-802 | over a sound backup of a walked tree every wanted range is valid, every needed chunk loads, and the slices are the records |
| `RoundTrip.WriteThenRestore` | pkg/recovery/recovery.go:614-696 | for every chunking, codec, boundary rule and encryption setting the restored stream and index are the ones written, and a backup with 64-bit layer sizes is accepted iff layer digests are distinct; what an encrypted run knew about itself is absent from the published pair and told by the manifest once unlocked |
| `RoundTrip.Write` | pkg/backup/pipeline.go:924-1243 | a run is refused only for an empty stream or an invalid index; otherwise rows, layers, files and metadata describe the chunks, in 1 to 118 layers under the default limit, packed when boundaries are fixed; the full manifest tells version, date, sources, host, totals and recipients, and the published pair of an encrypted run hides all of them but version and date |
| `RoundTrip.WriteChunks` | pkg/backup/pipeline.go:924-968 | nothing is built iff there are no chunks; otherwise rows, layers and files describe the chunks, each in its stored form, in 1 to 118 layers under the default limit, packed when boundaries are fixed |
| `RoundTrip.Publish` | pkg/backup/pipeline.go:1150-1243 | the metadata of written chunks: refused iff the index is invalid, otherwise it describes them and tells what the run knew about itself, the chunking and the cipher included |
| `RoundTrip.ReadBack` | pkg/recovery/recovery.go:357-385 | streaming an unlocked image gives the chunks' concatenation and its index the entries written |
| `RoundTrip.Unlocked` | pkg/recovery/recovery.go:143-172 | an image of a finished run opens and unlocks only if its layer digests are distinct, and always then when its layer sizes are 64-bit numbers; it then holds every field the run recorded |
| `RoundTrip.PlainFound` | pkg/recovery/recovery.go:733-765 | chunk i of the reader is chunk i of the writer, through offsets, opening, codec and cap |
| `RoundTrip.PrivateBelongs` | pkg/backup/pipeline.go:1215-1241 | the sealed half of a run passes the binding check against the published pair and merging it restores rows and manifest |
| `RoundTrip.BelongsIffSameBackup` | pkg/index/binding.go:146-207 | the sealed half of a run belongs to a manifest and table iff both have schema 2 and every open field and row of the run |
| `RoundTrip.OnlyBoundIndexOpens` | pkg/index/binding.go:175-187 | with the binding of a run no index blob opens but the one it published |
| `RoundTrip.IntactOpens` | pkg/recovery/recovery.go:733-765 | a stored chunk that is the one written gives the plaintext it was made from, whatever else is damaged |
| `RoundTrip.IndexFound` | pkg/index/model.go:397-443 | the index blob of a run opens to the entries written, sealed or clear |
| `RoundTrip.PublishedAccepted` | pkg/index/limits.go:64-151 | the published pair, confidential fields hidden, describes its layers iff layer digests are distinct, and passes the reader's check likewise |
| `Twins.WriteTwins` | pkg/index/limits.go:115-119 | whatever the layer size and the chunk, an unencrypted run with fixed boundaries over a stream that repeats the chunk until two layers are full writes one digest twice, and the reader's check fails |
| `Audit.QuickAudit` | pkg/recovery/recovery.go:896-956 | over rows a run wrote and a source of either kind, without the key, a quick pass is clean iff every stored chunk is the one written, and counts exactly those that are not |
| `Audit.FullAudit` | pkg/recovery/recovery.go:896-956 | with the key a full pass is clean iff every stored chunk is the one written and the index opens; then every chunk opens to what went in |
| `Audit.StoredOkIffIntact` | pkg/recovery/recovery.go:906-913 | without a collision a chunk has its recorded digest iff it is the one written |
| `Finalize.Finish` | pkg/backup/pipeline.go:1150-1243 | refused iff the index is invalid; otherwise the private half binds public manifest, table and index blob, and the manifest names the sealed blob by its digest; of an encrypted run sources, host, totals, key fingerprint, recipients and every row's plain digest and size are empty in what is published |
| `Finalize.PublishedRevealsNothing` | pkg/backup/pipeline.go:1150-1243 | encrypted runs that differ only in confidential fields publish the same table and, but for the digest of the sealed blob, the same manifest; the same index blob for the same entries |
| `Finalize.DetailsStayConfidential` | pkg/backup/pipeline.go:1150-1243 | runs over the same chunks that differ in sources, host, totals, key fingerprint, recipients or the choice to record them have manifests that differ in confidential fields only |
| `Builder.Builder.constructor` | pkg/backup/pipeline.go:875-923 | an empty builder describes the empty stream |
| `Builder.Builder.StoreChunk` | pkg/backup/pipeline.go:1016-1051 | one chunk more is stored in its compressed, sealed form, spooled and recorded, and everything recorded before still describes what was stored |
| `Builder.Builder.RenameRows` | pkg/backup/pipeline.go:1080-1083 | exactly the rows of the closing layer get its content name |
| `Builder.FallbackCovers` | pkg/backup/pipeline.go:1109-1123 | after the fallback at 110 layers the eight layers left hold what remains, in the smallest size that does or the minimum |
| `Builder.RunBoundary` | pkg/backup/pipeline.go:900-906 | a deduplicating run closes no layer below a quarter of the planned size and every layer at four times it; in between the digest of the last chunk decides alone |
| `Builder.DuplicatesStoredAlike` | pkg/backup/pipeline.go:1016-1051 | a deduplicating run stores a chunk as the same bytes as any other run under its key, wherever it stands |
| `Builder.Builder.CloseSpool` | pkg/backup/pipeline.go:1061-1108 | the spool becomes a layer with its digest, range and size, its rows renamed, its blob filed under its content name |
| `Builder.Builder.RollLayer` | pkg/backup/pipeline.go:1054-1125 | a no-op without a spool, refused only at the layer limit, otherwise one layer more |
| `Builder.Builder.AddChunk` | pkg/backup/pipeline.go:937-1013 | after every chunk a last layer is still available, so the limit error cannot occur; with fixed boundaries layers stay packed |
| `Builder.Builder.CloseLast` | pkg/backup/pipeline.go:960-968 | the last roll succeeds and every chunk is in a layer |
| `Builder.Builder.Build` | pkg/backup/pipeline.go:924-968 | no data iff no chunks; never the limit error; otherwise between 1 and the limit contiguous layers describing the chunks; with fixed boundaries each layer but the last takes chunks until it holds the target size and not one more |
| `BuiltLayout.WrittenAccepted` | pkg/index/limits.go:64-151 | every builder run's manifest and table are accepted iff its layer digests are pairwise distinct |
| `BuiltLayout.WrittenPasses` | pkg/index/limits.go:64-151 | it passes the reader's check only if its layer digests are pairwise distinct, and always then when its layer sizes are 64-bit numbers |
| `BuiltLayout.IdenticalLayersRefused` | pkg/index/limits.go:115-119 | two byte-identical layers make the reader refuse the backup |
| `BuiltLayout.ChunkFoundAgain` | pkg/recovery/recovery.go:388-426 | the reader's offset and size cut exactly the stored chunk out of its blob file |
| `BuiltLayout.WrittenLayerHolds` | pkg/backup/pipeline.go:1099-1105 | a written layer holds the bytes, range and single path it declares |
| `Limits.ValidateChunkTable` | pkg/index/limits.go:64-93 | accepts exactly the tables whose rows are numbered, non-empty and named and whose layers pass, for sizes of any magnitude; where the 64-bit sum cannot wrap, exactly the tables whose layers tile them |
| `Limits.ValidateLayers` | pkg/index/limits.go:95-151 | accepts exactly layers that are contiguous, complete, differently named and pass one by one |
| `Limits.ValidateLayer` | pkg/index/limits.go:112-144 | accepts exactly a layer whose chunks share its path, respect the bound and whose 64-bit running sum stays below and ends at its size; where the sum cannot wrap, exactly a layer whose chunks add up |
| `Limits.PassesIffHolds` | pkg/index/limits.go:121-144 | where no fitting chunk can make the sum wrap, passing and adding up are the same |
| `Limits.HeldPasses` | pkg/index/limits.go:121-144 | a layer whose chunks add up to a 64-bit size always passes |
| `Limits.WrappedLayerPasses` | pkg/index/limits.go:121-144 | for every size and bound where a fitting chunk can make the sum wrap, some layer passes although its chunks add up to 2^64 bytes more |
| `Limits.PassesIffAccepted` | pkg/index/limits.go:64-151 | a manifest whose sizes cannot wrap passes iff its table describes its layers |
| `Limits.AcceptedPasses` | pkg/index/limits.go:64-151 | a table that describes layers of 64-bit sizes always passes |
| `Limits.PassedChunkBounded` | pkg/index/limits.go:26-58 | no chunk of a table that passes is larger than its declared plain size, a 64th of it and 4096 bytes |
| `Limits.ComputeLayout` | pkg/recovery/recovery.go:199-209 | each offset is the stored bytes before the chunk in its blob, each prefix the plain bytes before it |
| `Limits.LayoutTiles` | pkg/recovery/recovery.go:199-209 | in an accepted table the chunks of a layer tile its blob from 0 to its stored size |
| `Limits.LayerOf` | pkg/index/limits.go:95-151 | every chunk of an accepted table lies in exactly one layer |
| `Entries.ValidateEntries` | pkg/index/model.go:502-551 | accepts exactly entry lists with well-formed entries, unique paths and strictly growing offsets |
| `Limiter.Limited.Read` | pkg/index/limits.go:219-237 | hands out the stream in order, never past the cap, and refuses exactly when the stream is longer |
| `Limiter.CopyLimited` | pkg/index/limits.go:187-192 | copying through the limiter yields the capped stream for every choice of read sizes |
| `Planner.PlanLayers` | pkg/chunk/plan.go:36-86 | between 1 and the maximum layers, whose total covers the estimate: the target size when that needs no more layers, else the least size that covers, never below the minimum, and a single layer of the input's size; 64 chunks to a layer as far as the splitter's bounds allow |
| `Planned.Plan` | pkg/backup/pipeline.go:319-331 | a run's layer size is at least 16 MiB and its chunk size one the splitter takes, a 64th of a layer where it can be; a larger input that fits in 118 layers of the requested size, or of 1 GiB, gets that size |
| `Planned.CutStream` | pkg/backup/pipeline.go:903-912 | fixed or content-defined, the chunks concatenate to the stream, none empty and none above the largest size; fails only for a failed read |
| `Planned.PlannedIsPlausible` | pkg/index/limits.go:26-58 | when codec and cipher add no more than the allowance says, every stored chunk is non-empty and within the bound the manifest declares |
| `Planner.ContentBoundaryBounds` | pkg/chunk/layerbound.go:14-65 | a content boundary never closes below its minimum and always closes at its maximum; in between iff the digest prefix is a multiple of the modulus, the least power of two that makes the expected size reach the target |
| `Planner.DefaultBoundaryBounds` | pkg/chunk/layerbound.go:26-53 | without bounds of its own a boundary keeps layers between a quarter and four times the target |
| `Planner.PrefixTold` | pkg/chunk/layerbound.go:56-65 | the number a boundary looks at is the first eight bytes of the digest, all of them |
| `Planner.LargerLayersCover` | pkg/chunk/plan.go:56-67 | raising the layer size needs no more layers and still covers the estimate |
| `Splitter.Reader.ReadInto` | pkg/chunk/split.go:69-82 | one read of a possibly short-reading stream, the end reported only when reached |
| `Splitter.Fixed.constructor` | pkg/chunk/split.go:51-56 | a fresh splitter of an accepted size |
| `Splitter.Fixed.Fill` | pkg/chunk/split.go:66-83 | fills the buffer with the next bytes of the stream, short only at its end |
| `Splitter.Fixed.NextChunk` | pkg/chunk/split.go:62-100 | the next chunk is the next bytes, full unless it is the last |
| `Splitter.SplitAll` | pkg/chunk/split.go:62-100 | whatever the read sizes, the chunks concatenate to the stream, none empty, all but the last full |
| `TarWriter.ArchiveRoots` | pkg/archive/writer.go:86-135 | succeeds when base names differ and every root is passed over or sound and listable, and never with a repeated name; a successful walk archives exactly the objects at the due places below the roots, each once and in the order of the places, and the archive is their records under a trailer; no directory it got to failed to be listed, and no root was denied |
| `TarWriter.AllItemsEnumerated` | pkg/archive/writer.go:159-310 | the items are those of all due places, given by root number and child indices: every directory above listed and, on one file system, on its root's device, the path not excluded, no socket, on another device only a directory below a root; each place once, directories before their content, children in order |
| `TarWriter.ArchivedIffDue` | pkg/archive/writer.go:238-310 | an object is archived under a path iff a due place has that path and object |
| `TarWriter.RootsReadable` | pkg/archive/writer.go:212-226 | a walk that got through met no directory that failed to be listed other than by permission, and no unlistable root |
| `TarWriter.HeaderTells` | pkg/archive/writer.go:344-440 | a header determines path, type, mode, size and link target; a directory's name ends in a slash, any other name is the path |
| `TarWriter.FitsTellsKind` | pkg/archive/writer.go:247-277 | an entry's recorded type is its object's, one to one |
| `TarWriter.Archive.WriteEntry` | pkg/archive/writer.go:344-492 | fails exactly for an unreadable or size-changing file; otherwise one record more at the rounded offset, with links remembered |
| `TarWriter.Archive.EmitOne` | pkg/archive/writer.go:238-310 | adds nothing for an excluded path or a socket and otherwise exactly this object at its path; an excluded path or a socket leaves archive and links as they were, and a sound object is never refused |
| `TarWriter.Archive.WalkChildren` | pkg/archive/writer.go:159-170 | children in order, each subtree complete before the next sibling |
| `TarWriter.Archive.Walk` | pkg/archive/writer.go:172-234 | a subtree's items, a mount point without content, an unlistable directory alone; sound trees always succeed |
| `TarWriter.Archive.AddRoot` | pkg/archive/writer.go:86-135 | one tree more, refused for a base name already taken; a root with a new name that is passed over or sound and listable is never refused |
| `TarWriter.Archive.Close` | pkg/archive/writer.go:494-499 | the file ends with the last record's padding and 1024 zero bytes |
| `TarWriter.OffsetsTile` | pkg/archive/writer.go:440-446 | offsets are strictly increasing multiples of 512, each record ends where the next begins, the last 1024 bytes before the end |
| `TarWriter.ArchivedIsValid` | pkg/index/model.go:502-551 | the index of a finished archive is valid iff each entry fits the format and there are not too many |
| `TarWriter.ArchivedFits` | pkg/index/model.go:502-551 | the index of a finished archive is valid iff every object on disk has a path, mode and link target the format holds and there are not too many |
| `TarWriter.StoredOnce` | pkg/archive/writer.go:380-393 | no two regular entries of an archive share an inode |
| `TarWriter.GoodOneMore` | pkg/archive/writer.go:380-393 | one entry more keeps tiling, link discipline, directory-first order and distinct paths |
| `TarWriter.SiblingsApart` | pkg/archive/writer.go:159-170 | subtrees of differently named siblings have no path in common |
| `Paths.DirOfParts` | pkg/recovery/recovery.go:868 | the cleaned directory part of a path is its reduced segments without the last |
| `Paths.AncestorIsAbove` | pkg/archive/extract_unix.go:361-368 | the directories above a clean path are written above it |
| `Paths.CleanTwice` | pkg/archive/entry.go:73-75 | cleaning a path twice is cleaning it once |
| `Paths.ReduceIsNormal` | pkg/archive/entry.go:73-75 | cleaning leaves no empty or "." segment, and ".." only at the start of a relative path |
| `Selection.SelectionSet` | pkg/recovery/recovery.go:860-883 | the least set with the selection and the directories path.Dir names above it that is closed under hard-link targets |
| `Selection.AddParents` | pkg/recovery/recovery.go:867-871 | adds exactly the cleaned directories above a path, up to "." or "/" |
| `Selection.AddTargets` | pkg/recovery/recovery.go:873-881 | one pass adds only targets that every closed set with the selection holds; it reports a change iff the set was not closed, and then fewer targets are missing |
| `Selection.SelectionIsUnique` | pkg/recovery/recovery.go:860-883 | there is only one such least set |
| `Roots.ItemHasRoot` | pkg/archive/writer.go:86-170 | every archived path is a root's base name and plain names below it |
| `Roots.CleanIff` | pkg/archive/entry.go:73-75 | an archived path is clean iff its root is neither "." nor "/", or it is the root itself |
| `Roots.ParentTriedIff` | pkg/recovery/recovery.go:864-871 | walking up tries an archived directory above iff its root is neither "." nor "/" |
| `Roots.ParentsKeptIff` | pkg/recovery/recovery.go:864-871 | a selection's set holds every archived directory above it iff none of them belongs to a root named "." or "/", unless it is selected |
| `Roots.NamedRootsKeepParents` | pkg/recovery/recovery.go:864-871 | when no root is named "." or "/", every selection meets that condition |
| `Roots.DotLosesParent` | pkg/recovery/recovery.go:868 | for all names a and b, selecting "./a/b" asks for "a" and not for the archived "./a" |
| `Roots.SlashLosesParent` | pkg/recovery/recovery.go:868 | for all names a and b, selecting "//a/b" asks for "/a" and not for the archived "//a" |
| `Selection.PickedLinks` | pkg/recovery/recovery.go:872-882 | in the slice of a closed set every hard link still follows its regular file |
| `Selection.PickedParents` | pkg/archive/writer.go:153-158 | slices keep directories before their content |
| `Selection.ArchivedLinks` | pkg/archive/writer.go:380-393 | in a walked archive every hard link follows its regular file |
| `Selection.RangesAreRecords` | pkg/recovery/recovery.go:780-802 | when the stream is the archive the range rule cuts out exactly each entry's record |
| `Extract.Extractor.ClearName` | pkg/archive/extract_unix.go:342-357 | a present name is refused without overwrite, kept when directory meets directory, else removed with everything below |
| `Extract.Extractor.CreateOne` | pkg/archive/extract_unix.go:317-536 | exactly when each outcome occurs: a present name without overwrite, a hard link without its file, an unknown type; a hard link is created only to a file this run wrote; exact counters and names for a new name |
| `Extract.Extractor.ExtractOne` | pkg/archive/extract_unix.go:101-240 | names and link targets are cleaned first; ends the run exactly for a refused overwrite or an unknown type, and in a strict run for any failed entry; otherwise the counters are exact, one skip for a failed entry |
| `Extract.Extractor.ExtractAll` | pkg/archive/extract_unix.go:134-285 | an overwriting run that is not strict gets through every archive of known types; into an empty destination nothing is skipped when clean names are safe and new and every link follows its file, and a strict run without overwrite succeeds exactly then |
| `Extract.SelectionExtracts` | pkg/archive/extract_unix.go:408-458 | any closed selection of a walked tree keeps its order, its links behind their files and its roots |
| `Extract.UnsafeIff` | pkg/archive/selection.go:68-75 | an archived path's clean name is refused iff its root is ".." or "/" or it is "." |
| `Extract.UnsafeIffEscapes` | pkg/archive/selection.go:68-75 | a name is refused iff it is empty, ".", absolute, or has a segment ".." anywhere |
| `Extract.TallyCounts` | pkg/archive/extract_unix.go:380-480 | the counters are the numbers of entries of each kind |
| `Extract.DotBesideClashes` | pkg/archive/extract_unix.go:186-228 | when root "." and a root named like one of its children are archived together, a slice with both entries has one clean name twice |
| `Extract.ExtractableIff` | pkg/archive/extract_unix.go:186-228 | a slice of a walked tree extracts without a skip only if it holds no refused path, and always then when root "." is not archived beside another one |
| `Extract.RestoreSelection` | pkg/archive/extract_unix.go:170-173 | restoring a selection of a walked tree into an empty destination restores the least closed set with it and never skips a hard link; exactly which directories above it come along and which root names are refused |
| `Glob.MatchIffAligned` | internal/pathglob/pathglob.go:34-53 | a pattern matches iff the name can be cut into one piece for each of its segments, any run of segments for a double star and otherwise one segment it matches |
| `Glob.ClosingStar` | internal/pathglob/pathglob.go:34-53 | a pattern with a closing double star matches iff the rest matches some leading run of segments |
| `Glob.EmptyMatchesAll` | internal/pathglob/pathglob.go:34-53 | a pattern that matches no segments matches any |
| `Glob.EntryMatches` | pkg/index/lookup.go:115-127 | true iff the path or a cleaned directory above it matches |
| `Glob.EntriesMatching` | pkg/index/lookup.go:83-113 | selects, in index order, exactly the entries that some include pattern, if any, and no exclude pattern matches |
| `Glob.SelectsPrefix` | pkg/index/lookup.go:115-127 | on a clean path, walking up tries exactly the leading runs of segments |
| `Glob.SelectsIsSubtree` | pkg/index/lookup.go:115-127 | for a non-empty pattern without trailing slash and a clean path it equals the match of the pattern with a closing double star |
| `KeyEpochs.SealingKeyAttests` | pkg/backup/pipeline.go:381-397 | every sealing key attests the envelope version and nonce mode it seals under |
| `KeyEpochs.ReusedIffAttested` | pkg/backup/pipeline.go:704-731 | a run seals with a base key iff it deduplicates, no rotation was asked for and the first key file that opens attests epoch, mode and reuse; otherwise with a fresh key |
| `KeyEpochs.RandomKeySealsOnce` | pkg/backup/pipeline.go:381-397 | over any sequence of runs a random-mode key seals one backup only |
| `KeyEpochs.NonceDiscipline` | pkg/crypt/chunk.go:169-227 | over any sequence of runs, equal key and nonce imply equal authenticated data and payload across data, index and private blobs |
| `KeyEpochs.EqualPayloadsStoredOnce` | pkg/crypt/chunk.go:169-227 | runs that deduplicate under one key store equal payloads of a role and codec as equal bytes, at any position |
| `Envelope.MarshalHeader` | pkg/crypt/envelope.go:99-117 | writes the header in place iff it fits and touches nothing else |
| `Envelope.ParsesIff` | pkg/crypt/envelope.go:125-156 | a header parses iff it has the magic, a version from 1 to 3, a known codec and cipher, and room for its nonce |
| `Envelope.ParseInvertsMarshal` | pkg/crypt/envelope.go:125-156 | parsing what was marshalled returns the header and its length |
| `Envelope.MarshalInvertsParse` | pkg/crypt/envelope.go:125-156 | whatever parses starts with the marshalled form of what was parsed |
| `Envelope.AadInjective` | pkg/crypt/envelope.go:179-203 | authenticated data determines version, codec, cipher, flags, role and, in random mode, position; legacy and current forms never coincide |
| `Envelope.SealedOpens` | pkg/crypt/chunk.go:180-256 | a keyed opener returns exactly payload and codec for the same role and, in random mode, position |
| `Envelope.SealedOpensOnlyInPlace` | pkg/crypt/chunk.go:236-256 | and accepts the blob nowhere else |
| `Envelope.OpenedWasSealed` | pkg/crypt/chunk.go:236-256 | a keyed opener accepts exactly the blobs sealed under its key for that role and position |
| `Envelope.OpenersDisagree` | pkg/crypt/chunk.go:263-279 | no blob is acceptable to both the keyed and the clear opener |
| `PrivateMetadata.Pair.SplitPrivate` | pkg/index/private.go:52-84 | nothing of an unencrypted backup; of an encrypted one sources, host, totals, key fingerprint, recipients and every row's plain digest and size move to the private half and are empty in the public one, and no other field but the schema versions and the reference changes |
| `PrivateMetadata.SplitHidesAndHolds` | pkg/index/private.go:52-84 | field by field: the public half hides, the private half holds, everything else stays |
| `PrivateMetadata.PublicHalfRevealsNothing` | pkg/index/private.go:52-84 | pairs that differ only in confidential fields have the same public half |
| `PrivateMetadata.Pair.MergePrivate` | pkg/index/private.go:89-120 | succeeds iff the secrets fit; a refusal leaves exactly what was merged before the fault |
| `PrivateMetadata.MergeRestoresSplit` | pkg/index/private.go:52-120 | merging what was split off restores every confidential field |
| `PrivateMetadata.BindingIgnoresMerge` | pkg/index/binding.go:71-106 | merging and setting the private reference leave the bound forms unchanged |
| `PrivateMetadata.CheckIffSameBoundFields` | pkg/index/binding.go:146-207 | the binding accepts a pair iff it agrees with the sealed one on schema version, tool, date, archive, chunking, layers, index and the five open encryption fields of the manifest, and on schema version, length and number, path, stored digest and stored size of every row of the table |
| `PrivateMetadata.BindingSurvivesUnlock` | pkg/backup/pipeline.go:1215-1241 | the check passes with the reference set, before and after the merge |
| `Backup.NewBackup` | pkg/recovery/recovery.go:143-172 | opens iff the encryption fields make sense and the table passes, for sizes of any magnitude; where no sum can wrap, iff the table describes its layers; the opener follows the manifest alone |
| `Backup.Backup.constructor` | pkg/recovery/recovery.go:156-171 | laid out, clear or locked as the manifest says, unbound |
| `Backup.PrivateWasSealed` | pkg/index/private.go:154-186 | confidential metadata is read only from a blob sealed under this key for its role, and is what that blob's payload decodes to, with a supported schema |
| `Backup.Backup.Merge` | pkg/recovery/recovery.go:238-256 | merged iff the binding holds and the secrets fit, then laid out again |
| `Backup.Backup.LoadPrivate` | pkg/recovery/recovery.go:215-257 | nothing without a reference; otherwise succeeds iff the blob belongs to this manifest and table |
| `Backup.Backup.Unlock` | pkg/recovery/recovery.go:298-349 | a no-op when unencrypted; otherwise succeeds iff the key opens and the sealed half belongs, and whatever was merged passed the binding check; under a key that attests the current envelope it was bound |
| `Backup.OpenAndUnlock` | pkg/recovery/recovery.go:298-349 | the exact condition to get a reader, and every field it then has |
| `Backup.UnlockAgain` | pkg/recovery/recovery.go:269-278 | an unlocked backup can be unlocked again, to the same effect |
| `Recovery.StoredChunk` | pkg/recovery/recovery.go:388-426 | the recorded number of bytes at the computed offset, or nothing; the read is logged |
| `Recovery.PlainChunkBytes` | pkg/recovery/recovery.go:733-765 | a chunk is returned only with its recorded size and, when verifying, digest; one read, none without the key of an encrypted backup |
| `Recovery.StreamOneChunk` | pkg/recovery/recovery.go:651-714 | when verifying nothing is written before size and digest agree; never more than the recorded size is written |
| `Recovery.StreamTar` | pkg/recovery/recovery.go:614-626 | whatever the source answers, a run that verifies or reads an encrypted backup has written whole chunks allowed by the recorded sizes and digests, in order; over a stable source it succeeds iff every chunk loads; a successful run read every chunk once, in order |
| `Recovery.PartsAreOriginal` | pkg/recovery/recovery.go:608-714 | without a collision those chunks are a prefix of the original ones |
| `Recovery.ReadIndex` | pkg/index/model.go:397-443 | returns only valid entries, and over a stable source exactly the decoded index |
| `Recovery.VerifyChunk` | pkg/recovery/recovery.go:906-940 | over a stable source a clean chunk is there with the recorded stored digest and, in full mode, a plaintext with the recorded digest, and only such a chunk is clean |
| `Recovery.Verify` | pkg/recovery/recovery.go:896-956 | over a stable source a clean pass means every stored chunk is there with its recorded digest and, in full mode, every plaintext too and the index opens with the reported number of entries; clean iff every chunk and, in full mode, the index are; the count is exact when asked to keep going |
| `Recovery.VerifyThenStream` | pkg/recovery/recovery.go:896-956 | a clean full verification of a stable source means the restore succeeds |
| `Search.ChunkFor` | pkg/recovery/recovery.go:824-827 | the search of the restore names the chunk that covers the offset |
| `Search.ChunkAt` | pkg/index/lookup.go:68-75 | the locator's search names the chunk that covers the offset |
| `Search.CoveringChunkUnique` | pkg/index/lookup.go:68-75 | at most one chunk covers an offset, so both searches agree |
| `Search.ChunkRange` | pkg/index/lookup.go:60-65 | the range of chunks holds every chunk a valid span touches and is refused iff the span is invalid |
| `Ranges.PieceOfStream` | pkg/recovery/recovery.go:832-842 | a piece of a chunk is the matching slice of the whole plaintext |
| `Selective.MergeRanges` | pkg/recovery/recovery.go:786-802 | refused iff a wanted entry's offsets make no sense; the merged ranges have the records' bytes and touch exactly the needed chunks |
| `Selective.Load` | pkg/recovery/recovery.go:804-820 | the one-chunk cache answers like the source, and the cached chunk is not read again |
| `Selective.WalkRange` | pkg/recovery/recovery.go:822-845 | succeeds iff every touched chunk loads, writes the slice, and the reads are those of the touched chunks that are not cached |
| `Selective.StreamSelectedTar` | pkg/recovery/recovery.go:773-851 | succeeds iff wanted ranges are valid and needed chunks load; writes the wanted records and 1024 zero bytes; the chunks read are exactly the needed ones, ascending, and none outside them in a failed run either |
| `Partial.Salvage.LoadChunk` | pkg/recovery/partial.go:75-98 | a failed chunk is remembered with one cause; neither it nor the cached chunk is read again |
| `Partial.Salvage.Walk` | pkg/recovery/partial.go:170-196 | a pass over a stretch succeeds iff the stretch is intact, else stops at its first damaged chunk; what it adds to the log |
| `Partial.Salvage.TakeEntry` | pkg/recovery/partial.go:121-143 | an entry is written whole or not at all over a stable source; its chunks are read again iff it is written and has several |
| `Partial.Recovering.Run` | pkg/recovery/partial.go:107-144 | every entry's offsets are checked, wanted or not, and the first bad one stops the run |
| `Partial.ListOf` | pkg/recovery/partial.go:148-151 | the damaged chunks ascending, one cause each |
| `Partial.StreamTarPartial` | pkg/recovery/partial.go:63-154 | fails iff some entry's offsets make no sense; otherwise exactly the intact wanted entries, in order and whole, plus a trailer; entries and skips add up to the wanted entries, the sample is the first 50 lost paths, the reported chunks are the first damaged ones, with one cause each; only chunks of wanted entries are read, a reported chunk exactly once, and any chunk twice iff an entry written out has bytes in several |
| `Partial.ReadTwice` | pkg/recovery/partial.go:35-37 | a backup of one entry in two chunks opens, nothing in it is damaged, and some chunk is read twice |
| `Partial.ReportedChunk` | pkg/recovery/partial.go:92-96 | the reported chunks are exactly the first damaged chunks of the wanted entries |
| `Traces.TwoPasses` | pkg/recovery/partial.go:121-143 | proving and then writing an intact entry reads some chunk twice iff the entry has bytes in more than one |
| `Partial.NoDamageSameAsSelective` | pkg/recovery/partial.go:63-154 | without damage the bytes are those of the selective restore |
| `Partial.NoDamageWholeArchive` | pkg/recovery/partial.go:63-154 | without damage or selection the output is the archive under a fresh trailer |
| `PushProtocol.TagOnlyWhenComplete` | pkg/registry/push.go:887-910 | in every state of every run the tag names the new index only when every blob and manifest is present |
| `PushProtocol.SuccessMovesTheTag` | pkg/registry/push.go:885-910 | in every run an attempt past its publication has moved the tag to the index in that attempt, and the tag names it still unless another client moved it since |
| `PushProtocol.VerifiedSuccessSawTheTag` | pkg/registry/push.go:788-883 | with verification, on a registry that names digests, an attempt that finishes saw everything there and the tag on the index after publishing, and only another client undoes that |
| `PushProtocol.FaultlessSucceeds` | pkg/registry/push.go:345-415 | an attempt that met no fault and has nothing left to do has succeeded |
| `PushProtocol.ResumeKeepsConfirmed` | pkg/registry/push.go:423-447 | an attempt that crashed without an error resumes with everything confirmed but the blob whose confirmation was being written |
| `PushProtocol.CheckpointsGrow` | pkg/registry/push.go:423-447 | saved checkpoints form a growing chain of confirmed digests |
| `PushProtocol.FailurePreventsPublication` | pkg/registry/push.go:345-415 | an attempt with a worker error or a cancellation before the join never moves the tag, and every manifest that appears was brought by another client |
| `PushProtocol.DoomedStaysDoomed` | pkg/registry/push.go:345-415 | such an attempt stays that way until it is resumed |
| `PushProtocol.JoinMeansConfirmed` | pkg/registry/push.go:345-415 | when the workers join without error every task is confirmed on the registry |
| `PushProtocol.NoDeadlock` | pkg/registry/push.go:345-415 | an attempt that has not ended can always take a step of its own other than crashing or being cancelled |
| `PushProtocol.OwnStepDecreases` | pkg/registry/push.go:345-415 | every step of an attempt, other clients' steps aside, leaves strictly less to do |
| `PushProtocol.AttemptEnds` | pkg/registry/push.go:345-415 | on every interleaving an attempt takes at most 7 steps per task, plus manifests, workers and 8 |
| `PushProtocol.RunInv` | pkg/registry/push.go:134-149 | the invariant holds in every state of every run, over crashes and resumptions |
| `PushProtocol.StepKeepsInv` | pkg/registry/push.go:490-523 | every step of feeder, worker, publisher, crash or bystander keeps the invariant |
| `BlobUpload.Upload.constructor` | pkg/registry/blob.go:128-156 | a fresh upload has accepted nothing |
| `BlobUpload.Upload.Write` | pkg/registry/blob.go:128-156 | acknowledged, in-flight and buffered bytes together are the bytes accepted |
| `BlobUpload.Upload.StartFlush` | pkg/registry/blob.go:212-231 | at most one send is in flight and its buffer is not the one written |
| `BlobUpload.Upload.WaitFlush` | pkg/registry/blob.go:235-248 | nothing in flight afterwards; an error sticks |
| `BlobUpload.Upload.Flush` | pkg/registry/blob.go:251-265 | on success everything accepted was acknowledged in order |
| `BlobUpload.Upload.Commit` | pkg/registry/blob.go:158-180 | success means the blob holds everything accepted |
| `BlobUpload.Upload.Abort` | pkg/registry/blob.go:182-207 | ends the session without committing |
| `BlobUpload.Upload.RunPatch` | pkg/registry/blob.go:212-231 | each PATCH uses the location the previous one returned |
| `BlobUpload.UploadAll` | pkg/registry/blob.go:128-265 | on every interleaving a successful upload stores the written pieces in order |
| `FrameBuffer.Buffer.Write` | pkg/remote/framebuffer.go:36-57 | sent, in-flight and buffered bytes together are the bytes accepted |
| `FrameBuffer.Buffer.StartSend` | pkg/remote/framebuffer.go:72-90 | one send in flight, from a buffer nobody writes |
| `FrameBuffer.Buffer.Wait` | pkg/remote/framebuffer.go:93-105 | nothing in flight afterwards; an error sticks |
| `FrameBuffer.Buffer.Flush` | pkg/remote/framebuffer.go:61-68 | success means everything accepted was sent in order |
| `FrameBuffer.StreamAll` | pkg/remote/framebuffer.go:36-105 | on every interleaving a successful stream sends the written pieces in order |
| `Retention.RetentionIsResumable` | pkg/registry/retention.go:157-180 | for every set between the kept tags and all tags, under the same clock, the kept set is the same |
| `Retention.RetentionIsIdempotent` | pkg/registry/retention.go:157-180 | the kept set keeps itself |
| `Retention.GroupsAreIndependent` | pkg/registry/retention.go:205-233 | a group's outcome depends only on that group's tags |
| `Retention.UntouchableTags` | pkg/registry/retention.go:205-233 | out-of-scope, ungrouped and undated tags are never removed |
| `Retention.SameGroupIffSameCaptures` | pkg/registry/retention.go:235-251 | two tags in scope share a group iff the pattern captures the same of both |
| `Retention.NewestSurvive` | pkg/registry/retention.go:307-328 | a dated tag survives KeepLast N when fewer than N other dated tags of its group have its date or a later one |
| `Recency.PeriodSurvives` | pkg/registry/retention.go:271-280 | for each calendar rule, while fewer than N other periods of the group reach as late, a period keeps a tag with its latest date |
| `Recency.KeptForAReason` | pkg/registry/retention.go:256-328 | a kept tag of a policy with a rule has no date, a protected name, a date in the window, fewer than N later tags in its group, or the latest date of a period with fewer than N periods reaching later |
| `Recency.ProtectedSurvive` | pkg/registry/retention.go:262-270 | a tag with a protected name or a date in the window is kept |
| `Retention.StrongerKeepsMore` | pkg/registry/retention.go:256-289 | strengthening the rules of a non-empty policy never removes more |
| `Retention.EmptyPolicyIsTheException` | pkg/registry/retention.go:291-293 | the empty policy keeps everything and a first rule may remove, so the condition above is needed |
| `Retention.TagKeyInjective` | pkg/registry/retention.go:340 | tags with equal keys have equal names, names never containing the separator |
| `RetentionPlan.MarkFirst` | pkg/registry/retention.go:307-328 | the pass marks the first tag of each of the first N buckets |
| `RetentionPlan.MarkedMeansSelected` | pkg/registry/retention.go:307-328 | on a newest-first list those are exactly the tags the rule selects |
| `RetentionPlan.SortTagsNewest` | pkg/registry/retention.go:295-305 | latest date first, one date by digest, one digest by name; on tags with distinct names strictly so |
| `RetentionPlan.ApplyOne` | pkg/registry/retention.go:256-289 | one group divides into what the policy keeps and the rest, both newest first |
| `RetentionPlan.NarrowToScope` | pkg/registry/retention.go:207-215 | tags divide into in scope and untouched |
| `RetentionPlan.FileByGroup` | pkg/registry/retention.go:217-232 | every bucket holds the tags of its group in listing order |
| `RetentionPlan.Partition` | pkg/registry/retention.go:205-233 | untouched tags and groups together are the input |
| `RetentionPlan.ResolveGroups` | pkg/registry/retention.go:157-180 | every group is resolved by its own tags, and its shown lists are what the policy keeps and removes of it, newest first |
| `RetentionPlan.PlanFor` | pkg/registry/retention.go:157-180 | keep and remove divide the input into the kept set and the rest, every list with dates descending, the groups' too; the groups shown are resolved by the same policy and together are the two lists; the empty policy touches nothing |
| `RetentionPlan.EveryTagPlaced` | pkg/registry/retention.go:157-180 | kept and untouched tags on one side and removed ones on the other divide the input, and are the kept set and its complement |
| `RetentionPlan.PlanIgnoresListingOrder` | pkg/registry/retention.go:157-180 | the lists to keep and to remove do not depend on the order of the listing |
| `Prune.Registry.DeleteManifest` | internal/cli/repo.go:406-417 | success removed every tag on the manifest; a reported failure removed all of them or none |
| `Prune.PruneDigests` | internal/cli/repo.go:424-439 | the distinct digests of the tags to remove, refused iff one of them has none |
| `Prune.SharedManifestConflicts` | internal/cli/repo.go:444-472 | reports exactly the doomed manifests that a surviving tag shares |
| `Prune.UnsharedDeletionIsExact` | internal/cli/repo.go:395-419 | without a conflict the deletions remove exactly the tags to remove |
| `Prune.PruneDelete` | internal/cli/repo.go:395-419 | deletes nothing on a conflict; otherwise at every point all of keep survives, and on success exactly keep |
| `Prune.PruneProgress` | internal/cli/repo.go:406-417 | stopped after any number of deletions, the tags left lie between keep and all |
| `Prune.RunPrune` | internal/cli/repo.go:321-385 | one run plans and deletes; success leaves exactly the kept set |
| `Prune.PruneRepeatedly` | internal/cli/repo.go:321-385 | runs interrupted anywhere and repeated under the same clock end with exactly the first plan's kept set |

## Left out

- Command wiring, flags, output, exit codes, prompts, progress reporting and passphrase strength.
- HTTP, TLS, credentials and token handling; the registry is a store of blobs, manifests and one tag, the checkpoint store an atomic value.
- The insides of the codecs, AES-GCM, age, scrypt, SHA-256, the Rabin splitter and the tar header encoding; content-defined chunking enters as any list of chunks.
- JSON, zstd and protobuf encodings; `ReadManifest` and `ReadChunkTable` beyond the checks on sizes, and the size limits on metadata blobs.
- `Policy.Select`, which shares `Partition` and applies no rule.
- Degraded archiving and degraded extraction of attributes; ownership, modes, timestamps, extended attributes, sparse files and the copy fallback of a hard link.
- `ChunksFor` and `entryRange`, which no restore relies on.
- Include, exclude and strip options of the extractor, and the refusal of malformed patterns.
- Destination write errors and cancellation of a restore between chunks.
- Extract.Extractor.CreateOne: file system calls are taken to succeed, so a parent that is not a directory and a failing link are not modelled.
