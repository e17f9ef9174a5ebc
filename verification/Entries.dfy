/** The shape every consumer of the file index relies on. */
module Entries {
  import opened Common
  import opened Metadata

  const MAX_INDEX_ENTRIES := 10_000_000
  const MAX_PATH_BYTES := 4096

  predicate KnownType(kind: string) {
    kind in [TYPE_REGULAR, TYPE_DIR, TYPE_SYMLINK, TYPE_HARDLINK, TYPE_CHAR, TYPE_BLOCK, TYPE_FIFO]
  }

  /** An octal mode with a leading zero, at most six digits. */
  predicate ValidMode(s: string) {
    0 < |s| <= 6 && s[0] == '0' && forall i :: 0 <= i < |s| ==> '0' <= s[i] <= '7'
  }

  /** One entry on its own; paths are measured as they are stored. */
  predicate EntryOk(e: FileEntry) {
    && e.path != "" && |e.path| <= MAX_PATH_BYTES && |e.linkTarget| <= MAX_PATH_BYTES
    && KnownType(e.kind) && e.size >= 0 && e.tarOffset >= 0 && ValidMode(e.mode)
    && (e.kind == TYPE_REGULAR ==> ValidHex64(e.sha256))
    && (e.kind == TYPE_SYMLINK || e.kind == TYPE_HARDLINK ==> e.linkTarget != "")
  }

  /** Paths are unique and offsets strictly grow. */
  ghost predicate ValidEntries(entries: seq<FileEntry>) {
    && |entries| <= MAX_INDEX_ENTRIES
    && (forall i {:trigger EntryOk(entries[i])} :: 0 <= i < |entries| ==> EntryOk(entries[i]))
    && (forall i, j :: 0 <= i < j < |entries| ==> entries[i].path != entries[j].path)
    && GrowingOffsets(entries)
  }

  ghost predicate GrowingOffsets(entries: seq<FileEntry>) {
    forall i, j :: 0 <= i < j < |entries| ==> entries[i].tarOffset < entries[j].tarOffset
  }

  method CheckEntry(e: FileEntry) returns (ok: bool)
    ensures ok <==> EntryOk(e)
  {
    if e.path == "" || |e.path| > MAX_PATH_BYTES || |e.linkTarget| > MAX_PATH_BYTES {
      return false;
    }
    if !KnownType(e.kind) || e.size < 0 || e.tarOffset < 0 || !ValidMode(e.mode) {
      return false;
    }
    if e.kind == TYPE_REGULAR && !ValidHex64(e.sha256) {
      return false;
    }
    ok := !((e.kind == TYPE_SYMLINK || e.kind == TYPE_HARDLINK) && e.linkTarget == "");
  }

  method ValidateEntries(entries: seq<FileEntry>) returns (ok: bool)
    ensures ok <==> ValidEntries(entries)
  {
    if |entries| > MAX_INDEX_ENTRIES {
      return false;
    }
    var seen: set<string> := {};
    var previousOffset := -1;
    for i := 0 to |entries|
      invariant forall j {:trigger EntryOk(entries[j])} :: 0 <= j < i ==> EntryOk(entries[j])
      invariant seen == set j | 0 <= j < i :: entries[j].path
      invariant forall j, k :: 0 <= j < k < i ==> entries[j].path != entries[k].path
      invariant forall j, k :: 0 <= j < k < i ==> entries[j].tarOffset < entries[k].tarOffset
      invariant previousOffset == if i == 0 then -1 else entries[i - 1].tarOffset
      invariant forall j :: 0 <= j < i ==> entries[j].tarOffset <= previousOffset
    {
      var e := entries[i];
      var fine := CheckEntry(e);
      if !fine {
        return false;
      }
      if e.path in seen {
        return false;
      }
      seen := seen + {e.path};
      if e.tarOffset <= previousOffset {
        assert i > 0 by { assert EntryOk(e); }
        return false;
      }
      previousOffset := e.tarOffset;
    }
    ok := true;
  }
}
