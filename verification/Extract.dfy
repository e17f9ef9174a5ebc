/** The extractor's bookkeeping: which names exist, which files this run wrote, what was skipped. */
module Extract {
  import opened Common
  import opened Metadata
  import opened Entries
  import opened Paths
  import opened Selection
  import opened Roots
  import Tar = TarWriter

  datatype Stats = Stats(files: nat, dirs: nat, symlinks: nat, hardlinks: nat, devices: nat, fifos: nat, skipped: nat)

  const NO_STATS := Stats(0, 0, 0, 0, 0, 0, 0)

  datatype Outcome = Created | NeedsOverwrite | TargetNotRestored | UnsupportedEntry

  predicate Contains(s: string, part: string) {
    part <= s || (s != "" && Contains(s[1..], part))
  }

  /** Names that never reach the file system. */
  predicate UnsafePath(name: string) {
    || name == "" || name == "." || name == ".." || "/" <= name || "../" <= name
    || Contains(name, "/../") || (|name| >= 3 && name[|name| - 3..] == "/..")
  }

  // ---------- What an unsafe name is ----------

  predicate EndsWith(s: string, part: string) { |s| >= |part| && s[|s| - |part|..] == part }

  lemma FirstSegmentStarts(s: string, c: char, rest: string)
    requires c != '/'
    ensures Split(s)[0] == [c] + rest <==> s != "" && s[0] == c && Split(s[1..])[0] == rest
  {
    if s != "" && s[0] != '/' {
      assert Split(s)[0] == [s[0]] + Split(s[1..])[0];
      assert Split(s)[0][1..] == Split(s[1..])[0] && ([c] + rest)[1..] == rest;
    }
  }

  lemma FirstSegmentEmpty(s: string)
    ensures Split(s)[0] == "" <==> s == "" || s[0] == '/'
  {
  }

  lemma FirstIsParent(s: string)
    ensures Split(s)[0] == ".." <==> s == ".." || "../" <= s
  {
    assert ".." == ['.'] + "." && "." == ['.'] + "";
    FirstSegmentStarts(s, '.', ".");
    if s != "" {
      FirstSegmentStarts(s[1..], '.', "");
      if |s| > 1 {
        assert s[1..][1..] == s[2..];
        FirstSegmentEmpty(s[2..]);
      }
    }
  }

  /** A parent segment after the first one. */
  predicate LaterParent(s: string) { Contains(s, "/../") || EndsWith(s, "/..") }

  lemma LaterParentStep(s: string)
    requires s != ""
    ensures LaterParent(s) <==> (s[0] == '/' && (s[1..] == ".." || "../" <= s[1..])) || LaterParent(s[1..])
  {
    assert "/../" <= s <==> s[0] == '/' && "../" <= s[1..];
    assert s == "/.." <==> s[0] == '/' && s[1..] == "..";
    if |s| > 3 {
      assert s[|s| - 3..] == s[1..][|s| - 4..];
    }
  }

  lemma {:induction false} LaterIsParent(s: string)
    ensures ".." in Split(s)[1..] <==> LaterParent(s)
  {
    if s != "" {
      LaterIsParent(s[1..]);
      LaterParentStep(s);
      if s[0] == '/' {
        FirstIsParent(s[1..]);
        assert Split(s)[1..] == Split(s[1..]);
        assert Split(s[1..]) == [Split(s[1..])[0]] + Split(s[1..])[1..];
      } else {
        assert Split(s)[1..] == Split(s[1..])[1..];
      }
    }
  }

  /** A name is unsafe exactly when it is empty, ".", absolute, or goes through a parent directory anywhere. */
  lemma UnsafeIffEscapes(name: string)
    ensures UnsafePath(name) <==> name == "" || name == "." || Rooted(name) || ".." in Split(name)
  {
    FirstIsParent(name);
    LaterIsParent(name);
    assert Split(name) == [Split(name)[0]] + Split(name)[1..];
  }


  /** The counters after one more object of that kind. */
  function Counted(s: Stats, kind: string): Stats {
    if kind == TYPE_DIR then s.(dirs := s.dirs + 1)
    else if kind == TYPE_REGULAR then s.(files := s.files + 1)
    else if kind == TYPE_SYMLINK then s.(symlinks := s.symlinks + 1)
    else if kind == TYPE_HARDLINK then s.(hardlinks := s.hardlinks + 1)
    else if kind == TYPE_CHAR || kind == TYPE_BLOCK then s.(devices := s.devices + 1)
    else s.(fifos := s.fifos + 1)
  }

  /** The counters of a restore that skips nothing. */
  function Tally(entries: seq<FileEntry>, n: nat): Stats
    requires n <= |entries|
  {
    if n == 0 then NO_STATS else Counted(Tally(entries, n - 1), entries[n - 1].kind)
  }

  /** How many of the first n entries are of one of the kinds. */
  function KindCount(entries: seq<FileEntry>, n: nat, kinds: set<string>): nat
    requires n <= |entries|
  {
    if n == 0 then 0 else KindCount(entries, n - 1, kinds) + if entries[n - 1].kind in kinds then 1 else 0
  }

  lemma KindsApart(kind: string)
    ensures kind == TYPE_DIR ==> kind !in {TYPE_REGULAR, TYPE_SYMLINK, TYPE_HARDLINK, TYPE_CHAR, TYPE_BLOCK, TYPE_FIFO}
    ensures kind == TYPE_REGULAR ==> kind !in {TYPE_SYMLINK, TYPE_HARDLINK, TYPE_CHAR, TYPE_BLOCK, TYPE_FIFO}
    ensures kind == TYPE_SYMLINK ==> kind !in {TYPE_HARDLINK, TYPE_CHAR, TYPE_BLOCK, TYPE_FIFO}
    ensures kind == TYPE_HARDLINK ==> kind !in {TYPE_CHAR, TYPE_BLOCK, TYPE_FIFO}
    ensures kind == TYPE_CHAR || kind == TYPE_BLOCK ==> kind != TYPE_FIFO
  {
    assert "reg"[0] == 'r' && "dir"[0] == 'd' && "sym"[0] == 's' && "hard"[0] == 'h' && "chr"[0] == 'c' && "blk"[0] == 'b' && "fifo"[0] == 'f';
  }

  /** Each entry moves one counter, that of its kind. */
  lemma CountedOne(s: Stats, kind: string)
    requires KnownType(kind)
    ensures var t := Counted(s, kind);
            && t.files == s.files + (if kind in {TYPE_REGULAR} then 1 else 0) && t.dirs == s.dirs + (if kind in {TYPE_DIR} then 1 else 0)
            && t.symlinks == s.symlinks + (if kind in {TYPE_SYMLINK} then 1 else 0)
            && t.hardlinks == s.hardlinks + (if kind in {TYPE_HARDLINK} then 1 else 0)
            && t.devices == s.devices + (if kind in {TYPE_CHAR, TYPE_BLOCK} then 1 else 0)
            && t.fifos == s.fifos + (if kind in {TYPE_FIFO} then 1 else 0) && t.skipped == s.skipped
  {
    KindsApart(kind);
  }

  /** The counters of a run are the numbers of its entries of each kind. */
  lemma {:induction false} TallyCounts(entries: seq<FileEntry>, n: nat)
    requires n <= |entries| && forall i :: 0 <= i < n ==> KnownType(entries[i].kind)
    ensures var s := Tally(entries, n);
            && s.files == KindCount(entries, n, {TYPE_REGULAR}) && s.dirs == KindCount(entries, n, {TYPE_DIR})
            && s.symlinks == KindCount(entries, n, {TYPE_SYMLINK}) && s.hardlinks == KindCount(entries, n, {TYPE_HARDLINK})
            && s.devices == KindCount(entries, n, {TYPE_CHAR, TYPE_BLOCK}) && s.fifos == KindCount(entries, n, {TYPE_FIFO})
            && s.skipped == 0
  {
    if n > 0 {
      TallyCounts(entries, n - 1);
      CountedOne(Tally(entries, n - 1), entries[n - 1].kind);
    }
  }

  predicate IsFile(kind: string) { kind == TYPE_REGULAR || kind == TYPE_HARDLINK }

  /** The entry under the name it is extracted to. */
  function Cleaned(e: FileEntry): FileEntry {
    e.(path := Clean(e.path), linkTarget := if e.kind == TYPE_HARDLINK then Clean(e.linkTarget) else e.linkTarget)
  }

  function CleanedAll(entries: seq<FileEntry>): seq<FileEntry> {
    seq(|entries|, i requires 0 <= i < |entries| => Cleaned(entries[i]))
  }

  /** The name is one of the first n, or a directory above one. */
  ghost predicate Occupied(entries: seq<FileEntry>, n: nat, name: string)
    requires n <= |entries|
  {
    exists j :: 0 <= j < n && OccupiedBy(entries[j].path, name)
  }

  ghost predicate OccupiedBy(path: string, name: string) { name == path || name in Ancestors(path) }

  /** The names present are those. */
  ghost predicate Accounted(entries: seq<FileEntry>, n: nat, names: map<string, bool>)
    requires n <= |entries|
  {
    forall name :: name in names <==> Occupied(entries, n, name)
  }

  ghost predicate FileAmong(entries: seq<FileEntry>, n: nat, path: string)
    requires n <= |entries|
  {
    exists j :: 0 <= j < n && IsFile(entries[j].kind) && entries[j].path == path
  }

  /** This run wrote exactly the files among the first n entries. */
  ghost predicate FilesWritten(entries: seq<FileEntry>, n: nat, written: set<string>)
    requires n <= |entries|
  {
    forall path :: path in written <==> FileAmong(entries, n, path)
  }

  lemma OccupiedMore(entries: seq<FileEntry>, n: nat, name: string)
    requires n < |entries|
    ensures Occupied(entries, n + 1, name) <==> Occupied(entries, n, name) || OccupiedBy(entries[n].path, name)
  {
  }

  lemma AccountedMore(entries: seq<FileEntry>, n: nat, names: map<string, bool>, more: map<string, bool>)
    requires n < |entries| && Accounted(entries, n, names)
    requires more.Keys == names.Keys + Ancestors(entries[n].path) + {entries[n].path}
    ensures Accounted(entries, n + 1, more)
  {
    var next := n + 1;
    forall name ensures name in more <==> Occupied(entries, next, name) {
      OccupiedMore(entries, n, name);
      assert name in more.Keys <==> name in names.Keys || OccupiedBy(entries[n].path, name);
    }
  }

  lemma WrittenMore(entries: seq<FileEntry>, n: nat, written: set<string>, more: set<string>)
    requires n < |entries| && FilesWritten(entries, n, written)
    requires more == written + if IsFile(entries[n].kind) then {entries[n].path} else {}
    ensures FilesWritten(entries, n + 1, more)
  {
    var next := n + 1;
    forall path ensures path in more <==> FileAmong(entries, next, path) {
      assert FileAmong(entries, next, path) <==> FileAmong(entries, n, path) || (IsFile(entries[n].kind) && entries[n].path == path);
    }
  }

  /** One destination; system calls on it succeed. `names` says of every name present whether it is a directory. */
  class Extractor {
    const overwrite: bool
    const strict: bool
    var names: map<string, bool>
    var materialised: set<string>
    var stats: Stats

    constructor (names: map<string, bool>, overwrite: bool, strict: bool)
      ensures this.names == names && this.overwrite == overwrite && this.strict == strict
      ensures materialised == {} && stats == NO_STATS
    {
      this.names, this.overwrite, this.strict, materialised, stats := names, overwrite, strict, {}, NO_STATS;
    }

    /** A present name is refused or removed, unless a directory meets a directory. */
    method ClearName(name: string, kind: string) returns (ok: bool)
      modifies this`names, this`materialised
      ensures ok <==> old(name !in names || overwrite)
      ensures old(name !in names) ==> names == old(names) && materialised == old(materialised)
      ensures ok && old(name in names && !(names[name] && kind == TYPE_DIR)) ==>
                && names == (map n | n in old(names) && !Tar.Under(n, name) :: old(names)[n])
                && materialised == old(materialised) - {name}
      ensures !ok || old(name in names && names[name] && kind == TYPE_DIR) ==> names == old(names) && materialised == old(materialised)
    {
      if name in names {
        if !overwrite {
          return false;
        }
        if !(names[name] && kind == TYPE_DIR) {
          names := map n | n in names && !Tar.Under(n, name) :: names[n];
          materialised := materialised - {name};
        }
      }
      ok := true;
    }

    /** One object. A hard link may only name a file this run wrote. */
    method CreateOne(e: FileEntry) returns (r: Outcome)
      modifies this
      ensures r.NeedsOverwrite? <==> e.path in old(names) && !overwrite
      ensures r.TargetNotRestored? <==> !r.NeedsOverwrite? && e.kind == TYPE_HARDLINK && !Linkable(e, old(names), old(materialised))
      ensures r.UnsupportedEntry? <==> !r.NeedsOverwrite? && !KnownType(e.kind)
      ensures r.Created? ==> e.path in names && stats == Counted(old(stats), e.kind)
      ensures r.Created? && IsFile(e.kind) ==> e.path in materialised
      ensures !r.Created? ==> stats == old(stats)
      ensures e.path !in old(names) && r.Created? ==>
                && names.Keys == old(names).Keys + Ancestors(e.path) + {e.path}
                && materialised == old(materialised) + if IsFile(e.kind) then {e.path} else {}
    {
      var cleared := ClearName(e.path, e.kind);
      if !cleared {
        return NeedsOverwrite;
      }
      names := AddDirs(names, Ancestors(e.path));
      if e.kind == TYPE_HARDLINK && e.linkTarget !in materialised {
        return TargetNotRestored;
      }
      if !KnownType(e.kind) {
        return UnsupportedEntry;
      }
      names := names[e.path := e.kind == TYPE_DIR];
      if IsFile(e.kind) {
        materialised := materialised + {e.path};
      }
      stats := Counted(stats, e.kind);
      r := Created;
    }

    /**
     * One entry under its clean name. A refused overwrite and an unsupported type end every run; an unsafe name and a
     * link without its file end a strict one and cost a skip otherwise.
     */
    method ExtractOne(e: FileEntry) returns (ok: bool)
      modifies this
      ensures ok <==> !Ends(Cleaned(e), old(names), old(materialised), overwrite, strict)
      ensures ok ==> stats == if Skips(Cleaned(e), old(names), old(materialised)) then old(stats).(skipped := old(stats).skipped + 1)
                              else Counted(old(stats), e.kind)
      ensures ok && !Skips(Cleaned(e), old(names), old(materialised)) && Clean(e.path) !in old(names) ==>
                && names.Keys == old(names).Keys + Ancestors(Clean(e.path)) + {Clean(e.path)}
                && materialised == old(materialised) + if IsFile(e.kind) then {Clean(e.path)} else {}
    {
      var c := Cleaned(e);
      var unsafe := UnsafePath(c.path);
      if !unsafe {
        var r := CreateOne(c);
        if r.Created? {
          return true;
        }
        if r.NeedsOverwrite? || r.UnsupportedEntry? {
          return false;
        }
      }
      if strict {
        return false;
      }
      stats := stats.(skipped := stats.skipped + 1);
      ok := true;
    }

    /** Where a restore that skips nothing stands after n entries. */
    ghost predicate OnTrack(named: seq<FileEntry>, n: nat)
      requires n <= |named|
      reads this
    {
      Accounted(named, n, names) && FilesWritten(named, n, materialised) && stats == Tally(named, n)
    }

    /** An entry that fits is extracted, and a strict run that may not overwrite extracts only entries that fit. */
    method ExtractNext(entries: seq<FileEntry>, i: nat, ghost named: seq<FileEntry>) returns (ok: bool)
      requires i < |entries| == |named| && named[i] == Cleaned(entries[i])
      modifies this
      ensures ok <==> !Ends(named[i], old(names), old(materialised), overwrite, strict)
      ensures old(OnTrack(named, i)) && FitsNext(named, i) ==> ok && OnTrack(named, i + 1)
      ensures old(OnTrack(named, i)) && strict && !overwrite && ok ==> FitsNext(named, i)
    {
      ghost var before, written := names, materialised;
      ok := ExtractOne(entries[i]);
      if old(OnTrack(named, i)) {
        NextEnds(named, i, before, written, overwrite, strict);
        if FitsNext(named, i) {
          AccountedMore(named, i, before, names);
          WrittenMore(named, i, written, materialised);
        }
      }
    }

    method ExtractList(entries: seq<FileEntry>, ghost named: seq<FileEntry>) returns (ok: bool)
      requires named == CleanedAll(entries)
      modifies this
      ensures !strict && overwrite && AllKnown(entries) ==> ok
      ensures WellFormed(named) && old(OnTrack(named, 0)) ==> ok && OnTrack(named, |named|)
      ensures old(OnTrack(named, 0)) && strict && !overwrite && ok ==> WellFormed(named)
    {
      ghost var exact := OnTrack(named, 0) && strict && !overwrite;
      ghost var fits := OnTrack(named, 0) && WellFormed(named);
      ok := true;
      for i := 0 to |entries|
        invariant ok && (fits || exact ==> OnTrack(named, i)) && (exact ==> FitsUpTo(named, i))
      {
        assert AllKnown(entries) ==> KnownAt(entries, i);
        assert WellFormed(named) ==> FitsNext(named, i);
        ok := ExtractNext(entries, i, named);
        if !ok {
          return;
        }
      }
    }

    /**
     * The whole archive. Into an empty destination nothing is skipped when the names are safe and new and every link
     * follows its file; a strict run that may not overwrite succeeds exactly then.
     */
    method ExtractAll(entries: seq<FileEntry>) returns (ok: bool)
      requires materialised == {} && stats == NO_STATS
      modifies this
      ensures !strict && overwrite && AllKnown(entries) ==> ok
      ensures WellFormed(CleanedAll(entries)) && old(names) == map[] ==>
                ok && stats == Tally(CleanedAll(entries), |entries|) && stats.skipped == 0
      ensures strict && !overwrite && old(names) == map[] ==> (ok <==> WellFormed(CleanedAll(entries)))
    {
      TallySkipsNothing(CleanedAll(entries), |entries|);
      ok := ExtractList(entries, CleanedAll(entries));
    }
  }

  /** The names with these directories among them. */
  function AddDirs(names: map<string, bool>, dirs: set<string>): (r: map<string, bool>)
    ensures r.Keys == names.Keys + dirs
  {
    (map n | n in dirs :: true) + names
  }

  /** The link's file was written by this run and is not the name being replaced. */
  predicate Linkable(e: FileEntry, names: map<string, bool>, written: set<string>) {
    e.linkTarget in written && (e.path in names ==> e.linkTarget != e.path)
  }

  /** An entry that costs a run that is not strict one skip. */
  predicate Skips(e: FileEntry, names: map<string, bool>, written: set<string>) {
    UnsafePath(e.path) || (e.kind == TYPE_HARDLINK && !Linkable(e, names, written))
  }

  /** An entry that ends the run. */
  predicate Ends(e: FileEntry, names: map<string, bool>, written: set<string>, overwrite: bool, strict: bool) {
    if UnsafePath(e.path) then strict
    else || (e.path in names && !overwrite) || !KnownType(e.kind)
         || (strict && e.kind == TYPE_HARDLINK && !Linkable(e, names, written))
  }

  predicate Extractable(e: FileEntry) { !UnsafePath(e.path) && KnownType(e.kind) }

  /** Entry i has a safe name that is not there yet, and a link has its file. */
  ghost predicate FitsNext(named: seq<FileEntry>, i: nat)
    requires i < |named|
  {
    && Extractable(named[i]) && !Occupied(named, i, named[i].path)
    && (named[i].kind == TYPE_HARDLINK ==> FileAmong(named, i, named[i].linkTarget))
  }

  ghost predicate FitsUpTo(named: seq<FileEntry>, n: nat)
    requires n <= |named|
  {
    forall i :: 0 <= i < n ==> FitsNext(named, i)
  }

  ghost predicate WellFormed(named: seq<FileEntry>) { FitsUpTo(named, |named|) }

  /** When exactly the names and files of the first i entries are there, entry i ends a strict plain run iff it does not fit. */
  lemma NextEnds(named: seq<FileEntry>, i: nat, names: map<string, bool>, written: set<string>, overwrite: bool, strict: bool)
    requires i < |named| && Accounted(named, i, names) && FilesWritten(named, i, written)
    ensures FitsNext(named, i) ==>
              !Ends(named[i], names, written, overwrite, strict) && !Skips(named[i], names, written) && named[i].path !in names
    ensures strict && !overwrite && !Ends(named[i], names, written, overwrite, strict) ==> FitsNext(named, i)
  {
    assert named[i].path in names <==> Occupied(named, i, named[i].path);
    assert named[i].linkTarget in written <==> FileAmong(named, i, named[i].linkTarget);
  }

  predicate KnownAt(entries: seq<FileEntry>, i: nat)
    requires i < |entries|
  {
    KnownType(entries[i].kind)
  }

  ghost predicate AllKnown(entries: seq<FileEntry>) { forall i :: 0 <= i < |entries| ==> KnownAt(entries, i) }

  lemma {:induction false} TallySkipsNothing(entries: seq<FileEntry>, n: nat)
    requires n <= |entries|
    ensures Tally(entries, n).skipped == 0
  {
    if n > 0 {
      TallySkipsNothing(entries, n - 1);
    }
  }

  // ---------- A selection of a walked tree ----------

  lemma {:induction false} ContainsSplits(s: string, part: string) returns (a: string, b: string)
    requires Contains(s, part)
    ensures s == a + part + b
  {
    if part <= s {
      a, b := "", s[|part|..];
    } else {
      var c;
      c, b := ContainsSplits(s[1..], part);
      a := [s[0]] + c;
    }
  }

  lemma InnerSegment(a: string, b: string)
    ensures Split(a + "/../" + b) == Split(a) + [".."] + Split(b)
  {
    SplitJoin(a, "..");
    SplitName("..");
    SplitJoin(a + "/" + "..", b);
    assert a + "/../" + b == (a + "/" + "..") + "/" + b;
  }

  lemma LastDots(path: string)
    requires |path| >= 3 && path[|path| - 3..] == "/.."
    ensures ".." in Split(path)
  {
    var a := path[..|path| - 3];
    assert path == a + "/" + "..";
    SplitJoin(a, "..");
    SplitName("..");
    assert Split(path)[|Split(path)| - 1] == "..";
  }

  lemma FirstDots(path: string)
    requires "../" <= path
    ensures Split(path)[0] == ".."
  {
    var b := path[3..];
    assert path == ".." + "/" + b;
    SplitJoin("..", b);
    SplitName("..");
  }

  lemma InnerDots(path: string)
    requires Contains(path, "/../")
    ensures ".." in Split(path)
  {
    var a, b := ContainsSplits(path, "/../");
    InnerSegment(a, b);
    assert Split(path)[|Split(a)|] == "..";
  }

  /** A relative path of clean segments is safe. */
  lemma CleanIsSafe(path: string)
    requires CleanSegments(Split(path))
    ensures !UnsafePath(path)
  {
    FirstSegment(path);
    SplitName(".");
    SplitName("..");
    if "../" <= path {
      FirstDots(path);
    } else if Contains(path, "/../") {
      InnerDots(path);
    } else if |path| >= 3 && path[|path| - 3..] == "/.." {
      LastDots(path);
    }
  }

  /** The paths an extraction refuses: all of roots ".." and "/", and root "." itself. */
  predicate RefusedPath(path: string) { Tar.RootOf(path) == ".." || Tar.RootOf(path) == "/" || path == "." }

  lemma UnsafeIff(root: string, path: string)
    requires Tar.RootName(root) && WalkedFrom(root, path)
    ensures UnsafePath(Clean(path)) <==> RefusedPath(path)
  {
    WalkedRoot(root, path);
    if root == "/" {
      SlashIsDoubled(path);
    } else if root == "." {
      DotIsTakenAway(path);
      if path == "." {
        CleanIff(root, path);
      } else {
        CleanIsSafe(Clean(path));
      }
    } else {
      NamedIsClean(root, path);
      NamedIsSafe(root, path);
    }
  }

  lemma NamedIsSafe(root: string, path: string)
    requires Tar.RootName(root) && WalkedFrom(root, path) && root != "." && root != "/"
    ensures UnsafePath(path) <==> root == ".."
  {
    RootSegments(root);
    if root == ".." {
      JoinOfSplit(path);
      if |Split(path)| > 1 {
        JoinRest(Split(path), |Split(path)|);
        assert "../" <= path;
      } else {
        assert path == "..";
      }
    } else {
      CleanIsSafe(path);
    }
  }

  /** Root "." is not archived together with another one, whose names could be the same. */
  ghost predicate DotAlone(roots: seq<Tar.Node>) {
    (exists r :: 0 <= r < |roots| && roots[r].name == ".") ==> forall r :: 0 <= r < |roots| ==> roots[r].name == "."
  }

  /** Clean names lie below one another only when the paths do. */
  lemma UnderCleaned(roots: seq<Tar.Node>, path: string, dir: string)
    requires Tar.RootsOk(roots) && DotAlone(roots) && HasRoot(roots, path) && HasRoot(roots, dir)
    requires !RefusedPath(path) && !RefusedPath(dir) && Tar.Under(Clean(path), Clean(dir))
    ensures Tar.Under(path, dir)
  {
    var r :| 0 <= r < |roots| && WalkedFrom(roots[r].name, path);
    var s :| 0 <= s < |roots| && WalkedFrom(roots[s].name, dir);
    assert Tar.RootOk(roots, r) && Tar.RootOk(roots, s);
    WalkedRoot(roots[r].name, path);
    WalkedRoot(roots[s].name, dir);
    if roots[r].name == "." {
      assert roots[s].name == ".";
      DotIsTakenAway(path);
      DotIsTakenAway(dir);
      UnderPrefixed("./", Clean(path), Clean(dir));
    } else {
      NamedIsClean(roots[r].name, path);
      NamedIsClean(roots[s].name, dir);
    }
  }

  lemma UnderPrefixed(lead: string, path: string, dir: string)
    requires Tar.Under(path, dir)
    ensures Tar.Under(lead + path, lead + dir)
  {
    assert (lead + dir) + "/" == lead + (dir + "/");
  }

  lemma OccupiedIsUnder(path: string, name: string)
    requires OccupiedBy(Clean(path), name)
    ensures Tar.Under(Clean(path), name)
  {
    if name != Clean(path) {
      CleanTwice(path);
      AncestorIsAbove(Clean(path), name);
    }
  }

  /** A list whose paths come from a walk, in its order. */
  ghost predicate WalkedSlice(roots: seq<Tar.Node>, entries: seq<FileEntry>) {
    Tar.RootsOk(roots) && Walked(roots, entries) && Tar.ParentsFirst(entries) && LinksEarlier(entries) && AllKnown(entries)
  }

  lemma NameIsNew(roots: seq<Tar.Node>, entries: seq<FileEntry>, i: nat)
    requires WalkedSlice(roots, entries) && DotAlone(roots) && i < |entries|
    requires forall j :: 0 <= j < |entries| ==> !RefusedPath(entries[j].path)
    ensures !Occupied(CleanedAll(entries), i, Clean(entries[i].path))
  {
    var named := CleanedAll(entries);
    forall j | 0 <= j < i ensures !OccupiedBy(named[j].path, Clean(entries[i].path)) {
      assert Tar.FirstAt(entries, i) && HasRoot(roots, entries[i].path) && HasRoot(roots, entries[j].path);
      if OccupiedBy(Clean(entries[j].path), Clean(entries[i].path)) {
        OccupiedIsUnder(entries[j].path, Clean(entries[i].path));
        UnderCleaned(roots, entries[j].path, entries[i].path);
        assert false;
      }
    }
  }

  lemma LinkHasFile(entries: seq<FileEntry>, i: nat)
    requires LinksEarlier(entries) && i < |entries| && entries[i].kind == TYPE_HARDLINK
    ensures FileAmong(CleanedAll(entries), i, Clean(entries[i].linkTarget))
  {
    assert LinkEarlier(entries, i);
    var j :| 0 <= j < i && entries[j].path == entries[i].linkTarget && entries[j].kind == TYPE_REGULAR;
    assert CleanedAll(entries)[j] == Cleaned(entries[j]);
  }

  /**
   * A slice of a walked tree can be extracted without a skip exactly when it holds nothing of a root named ".." or "/"
   * and not the root "." itself.
   */
  lemma ExtractableIff(roots: seq<Tar.Node>, entries: seq<FileEntry>)
    requires WalkedSlice(roots, entries)
    ensures WellFormed(CleanedAll(entries)) ==> forall i :: 0 <= i < |entries| ==> !RefusedPath(entries[i].path)
    ensures DotAlone(roots) && (forall i :: 0 <= i < |entries| ==> !RefusedPath(entries[i].path)) ==> WellFormed(CleanedAll(entries))
  {
    var named := CleanedAll(entries);
    forall i | 0 <= i < |entries| ensures UnsafePath(named[i].path) <==> RefusedPath(entries[i].path) {
      assert HasRoot(roots, entries[i].path);
      var r :| 0 <= r < |roots| && WalkedFrom(roots[r].name, entries[i].path);
      assert Tar.RootOk(roots, r);
      UnsafeIff(roots[r].name, entries[i].path);
    }
    if WellFormed(named) {
      forall i | 0 <= i < |entries| ensures !RefusedPath(entries[i].path) {
        assert FitsNext(named, i);
      }
    }
    if DotAlone(roots) && forall i :: 0 <= i < |entries| ==> !RefusedPath(entries[i].path) {
      forall i | 0 <= i < |named| ensures FitsNext(named, i) {
        NameIsNew(roots, entries, i);
        assert KnownAt(entries, i);
        if entries[i].kind == TYPE_HARDLINK {
          LinkHasFile(entries, i);
        }
      }
    }
  }

  lemma CleanOfTwins(a: string)
    requires FileName(a)
    ensures Clean("./" + a) == a && Clean(a) == a
  {
    LastSegment(".", a);
    SplitName(".");
    SplitName(a);
    assert "./" + a == "." + "/" + a;
    assert WalkedFrom(".", "./" + a) && WalkedFrom(a, a);
    DotIsTakenAway("./" + a);
    assert |"./" + a| > 1;
    NamedIsClean(a, a);
  }

  /** Root "." beside a root named like one of its children: both entries are extracted to one name. */
  lemma DotBesideClashes(entries: seq<FileEntry>, a: string, i: nat, j: nat)
    requires FileName(a) && i < j < |entries| && ((entries[i].path == "./" + a && entries[j].path == a) || (entries[i].path == a && entries[j].path == "./" + a))
    ensures !WellFormed(CleanedAll(entries))
  {
    CleanOfTwins(a);
    var named := CleanedAll(entries);
    assert OccupiedBy(named[i].path, named[j].path);
    assert Occupied(named, j, named[j].path);
    assert !FitsNext(named, j);
  }

  /** A closed selection of a walked tree is a slice of it. */
  lemma SelectionExtracts(roots: seq<Tar.Node>, entries: seq<FileEntry>, wanted: set<string>)
    requires WalkedSlice(roots, entries) && LinkClosed(entries, wanted)
    ensures WalkedSlice(roots, Picked(entries, wanted, |entries|))
  {
    var picked := Picked(entries, wanted, |entries|);
    PickedLinks(entries, wanted, |entries|);
    PickedParents(entries, wanted, |entries|);
    forall i | 0 <= i < |picked| ensures KnownAt(picked, i) && HasRoot(roots, picked[i].path) {
      PickedMembers(entries, wanted, |entries|, picked[i]);
      var j :| 0 <= j < |entries| && entries[j] == picked[i];
      assert KnownAt(entries, j) && HasRoot(roots, entries[j].path);
    }
  }

  /** What restoring a slice into an empty destination must give. */
  ghost predicate Restored(roots: seq<Tar.Node>, picked: seq<FileEntry>, overwrite: bool, strict: bool, ok: bool, stats: Stats) {
    var safe := forall i :: 0 <= i < |picked| ==> !RefusedPath(picked[i].path);
    && (DotAlone(roots) && safe ==> ok && stats == Tally(picked, |picked|) && stats.skipped == 0)
    && (strict && !overwrite && ok ==> safe)
    && (strict && !overwrite ==> (ok <==> WellFormed(CleanedAll(picked))))
  }

  lemma SameCount(s: Stats, a: FileEntry, b: FileEntry)
    requires a == Cleaned(b)
    ensures Counted(s, a.kind) == Counted(s, b.kind)
  {
  }

  lemma {:induction false} TallyIgnoresNames(entries: seq<FileEntry>, n: nat)
    requires n <= |entries|
    ensures Tally(CleanedAll(entries), n) == Tally(entries, n)
  {
    if n > 0 {
      TallyIgnoresNames(entries, n - 1);
      SameCount(Tally(entries, n - 1), CleanedAll(entries)[n - 1], entries[n - 1]);
    }
  }

  /** A closed set's slice of a walked tree, restored into an empty destination. */
  method ExtractSlice(entries: seq<FileEntry>, wanted: set<string>, overwrite: bool, strict: bool, ghost roots: seq<Tar.Node>)
    returns (ok: bool, stats: Stats)
    requires WalkedSlice(roots, entries) && LinkClosed(entries, wanted)
    ensures Restored(roots, Picked(entries, wanted, |entries|), overwrite, strict, ok, stats)
  {
    var picked := Picked(entries, wanted, |entries|);
    SelectionExtracts(roots, entries, wanted);
    ExtractableIff(roots, picked);
    TallyIgnoresNames(picked, |picked|);
    var x := new Extractor(map[], overwrite, strict);
    ok := x.ExtractAll(picked);
    stats := x.stats;
  }

  /** The whole chain: the set of a selection, its slice of a walked tree, and its restore into an empty destination. */
  method RestoreSelection(entries: seq<FileEntry>, selected: seq<FileEntry>, overwrite: bool, strict: bool, ghost roots: seq<Tar.Node>)
    returns (ok: bool, stats: Stats, wanted: set<string>)
    requires WalkedSlice(roots, entries)
    ensures Covers(selected, |selected|, wanted) && LinkClosed(entries, wanted) && Least(entries, selected, wanted)
    ensures Chosen(entries, selected) ==> (KeepsParents(entries, selected, wanted) <==> NoBareParents(entries, selected))
    ensures Restored(roots, Picked(entries, wanted, |entries|), overwrite, strict, ok, stats)
  {
    wanted := SelectionSet(entries, selected);
    if Chosen(entries, selected) {
      ParentsKeptIff(roots, entries, selected, wanted);
    }
    ok, stats := ExtractSlice(entries, wanted, overwrite, strict, roots);
  }
}
