/**
 * What the names of the archived roots mean for the paths of an archive: which directories above a path a selection brings
 * along, and which names an extraction refuses. A root is archived under its base name, which may be ".", ".." or "/".
 */
module Roots {
  import opened Common
  import opened Metadata
  import opened Paths
  import opened Selection
  import Tar = TarWriter

  // ---------- Paths of a walk ----------

  /** The path is the root's name and plain names below it. */
  ghost predicate WalkedFrom(root: string, path: string) {
    && Split(root) <= Split(path)
    && forall i :: |Split(root)| <= i < |Split(path)| ==> CleanSegment(Split(path)[i])
  }

  lemma WalkedChild(root: string, dir: string, name: string)
    requires WalkedFrom(root, dir) && Tar.PlainName(name) && CleanSegment(name)
    ensures WalkedFrom(root, Tar.ChildPath(dir, name))
  {
    LastSegment(dir, name);
  }

  lemma {:induction false} ItemsWalked(excluded: string -> bool, oneFileSystem: bool, root: string, path: string, node: Tar.Node, i: nat)
    requires Tar.Proper(node) && WalkedFrom(root, path) && i < |Tar.Items(excluded, oneFileSystem, path, node)|
    ensures WalkedFrom(root, Tar.Items(excluded, oneFileSystem, path, node)[i].path)
    decreases node, |node.children| + 1
  {
    var own := Tar.Own(excluded, path, node);
    if i >= |own| {
      BelowWalked(excluded, oneFileSystem, root, path, node, |node.children|, i - |own|);
    }
  }

  lemma {:induction false} BelowWalked(excluded: string -> bool, oneFileSystem: bool, root: string, path: string, node: Tar.Node, n: nat, i: nat)
    requires Tar.Proper(node) && WalkedFrom(root, path) && n <= |node.children|
    requires i < |Tar.Below(excluded, oneFileSystem, path, node, n)|
    ensures WalkedFrom(root, Tar.Below(excluded, oneFileSystem, path, node, n)[i].path)
    decreases node, n
  {
    var before := Tar.Below(excluded, oneFileSystem, path, node, n - 1);
    if i < |before| {
      BelowWalked(excluded, oneFileSystem, root, path, node, n - 1, i);
    } else {
      var child := node.children[n - 1];
      assert Tar.NamedAt(node.children, n - 1) && Tar.Proper(child);
      WalkedChild(root, path, child.name);
      ItemsWalked(excluded, oneFileSystem, root, Tar.ChildPath(path, child.name), child, i - |before|);
    }
  }

  /** Item i of a walk comes from one of the roots. */
  lemma {:induction false} ItemHasRoot(excluded: string -> bool, oneFileSystem: bool, roots: seq<Tar.Node>, n: nat, i: nat) returns (r: nat)
    requires Tar.RootsOk(roots) && n <= |roots| && i < |Tar.AllItems(excluded, oneFileSystem, roots, n)|
    ensures r < n && WalkedFrom(roots[r].name, Tar.AllItems(excluded, oneFileSystem, roots, n)[i].path)
  {
    var before := Tar.AllItems(excluded, oneFileSystem, roots, n - 1);
    if i < |before| {
      r := ItemHasRoot(excluded, oneFileSystem, roots, n - 1, i);
    } else {
      r := n - 1;
      assert Tar.RootOk(roots, r);
      ItemsWalked(excluded, oneFileSystem, roots[r].name, roots[r].name, roots[r], i - |before|);
    }
  }

  /** A root's name, and the segments it contributes. */
  lemma RootSegments(root: string)
    requires Tar.RootName(root)
    ensures Split(root) == if root == "/" then ["", ""] else [root]
  {
    if root == "/" {
      TopSplits();
    } else {
      SplitName(root);
    }
  }

  lemma {:induction false} HeadIsFirst(s: string)
    ensures Tar.Head(s) == Split(s)[0]
  {
    if s != "" && s[0] != '/' {
      HeadIsFirst(s[1..]);
    }
  }

  lemma WalkedRoot(root: string, path: string)
    requires Tar.RootName(root) && WalkedFrom(root, path)
    ensures Tar.RootOf(path) == root && Rooted(path) == (root == "/") && path != ""
  {
    RootSegments(root);
    HeadIsFirst(path);
    FirstSegment(path);
    assert Split(path)[0] == Split(root)[0];
    assert |Split("")| == 1;
  }

  // ---------- Directories above ----------

  /** Two roots whose paths path.Dir changes. */
  predicate Bare(path: string) { Tar.RootOf(path) == "." || Tar.RootOf(path) == "/" }

  predicate StrictlyAbove(dir: string, path: string) { dir + "/" <= path }

  lemma AboveSegments(dir: string, path: string)
    requires StrictlyAbove(dir, path)
    ensures |Split(dir)| < |Split(path)| && Split(dir) <= Split(path)
  {
    var rest := path[|dir| + 1..];
    assert path == dir + "/" + rest;
    SplitJoin(dir, rest);
  }

  /** The parts of the directory of a walked path are its segments, unless the root is "." or "/". */
  lemma WalkedDirParts(root: string, path: string)
    requires Tar.RootName(root) && WalkedFrom(root, path) && root != "." && root != "/"
    ensures DirParts(path) == Split(path)[..|Split(path)| - 1]
  {
    RootSegments(root);
    WalkedRoot(root, path);
    assert Split(path)[0] == root;
    NamedReduces(root, Split(path), |Split(path)| - 1);
  }

  lemma NamedReduces(root: string, segs: seq<string>, n: nat)
    requires n <= |segs| && |segs| > 0 && segs[0] == root && root != "" && root != "."
    requires forall i :: 1 <= i < |segs| ==> CleanSegment(segs[i])
    ensures Reduce(false, segs, n) == segs[..n]
  {
    if n > 0 {
      ReduceClean(false, segs, 1, n);
      assert Reduce(false, segs, 0) == [];
      assert segs[..n] == [root] + segs[1..n];
    }
  }

  lemma WalkedDirIsAncestor(root: string, dir: string, path: string)
    requires Tar.RootName(root) && WalkedFrom(root, path) && root != "." && root != "/" && StrictlyAbove(dir, path)
    ensures dir in Ancestors(path)
  {
    AboveSegments(dir, path);
    WalkedDirParts(root, path);
    WalkedRoot(root, path);
    var k := |Split(dir)|;
    JoinOfSplit(dir);
    JoinAgree(Split(dir), DirParts(path), k);
    assert dir == DirAt(path, k);
    AboveMembers(path, 0, dir);
  }

  /** No directory that walking up tries starts with "." or has an empty segment behind its leading slash. */
  lemma AncestorSegments(path: string, dir: string)
    requires dir in Ancestors(path)
    ensures Split(dir)[0] != "." && (Split(dir)[0] == "" ==> |Split(dir)| > 1 && Split(dir)[1] != "")
  {
    AboveMembers(path, 0, dir);
    var k :| 0 < k <= |DirParts(path)| && dir == DirAt(path, k);
    DirPartsReduced(path);
    SplitOfRender(Rooted(path), DirParts(path), k);
    FirstPart(Rooted(path), DirParts(path));
  }

  lemma BareIsNoAncestor(root: string, dir: string, path: string)
    requires WalkedFrom(root, dir) && (root == "." || root == "/")
    ensures dir !in Ancestors(path)
  {
    TopSplits();
    assert Split(dir)[0] == Split(root)[0];
    if dir in Ancestors(path) {
      AncestorSegments(path, dir);
    }
  }

  /** Walking up from a walked path tries the archived directory above it exactly when the root is neither "." nor "/". */
  lemma ParentTriedIff(root: string, dir: string, path: string)
    requires Tar.RootName(root) && WalkedFrom(root, dir) && WalkedFrom(root, path) && StrictlyAbove(dir, path)
    ensures dir in Ancestors(path) <==> !Bare(dir)
  {
    WalkedRoot(root, dir);
    if root == "." || root == "/" {
      BareIsNoAncestor(root, dir, path);
    } else {
      WalkedDirIsAncestor(root, dir, path);
    }
  }

  // ---------- Clean names ----------

  /** Below a root with a name of its own, paths are clean. */
  lemma NamedIsClean(root: string, path: string)
    requires Tar.RootName(root) && WalkedFrom(root, path) && root != "." && root != "/"
    ensures Clean(path) == path
  {
    RootSegments(root);
    WalkedRoot(root, path);
    assert Split(path)[0] == root;
    NamedReduces(root, Split(path), |Split(path)|);
    assert Split(path)[..|Split(path)|] == Split(path);
    JoinOfSplit(path);
  }

  lemma SplitOfNames(names: seq<string>)
    requires Plain(names) && |names| > 0
    ensures Split(Join(names, |names|)) == names
  {
    SplitOfJoin(names, |names|);
    assert names[..|names|] == names;
  }

  lemma CleanBelowDot(path: string)
    requires WalkedFrom(".", path) && |Split(path)| > 1
    ensures Clean(path) == Join(Split(path)[1..], |Split(path)| - 1)
    ensures Split(Clean(path)) == Split(path)[1..]
  {
    DotParts(path);
    SplitOfNames(Split(path)[1..]);
    var rest := Join(Split(path)[1..], |Split(path)| - 1);
    assert "" + rest == rest;
  }

  lemma DotSegments(path: string)
    requires WalkedFrom(".", path)
    ensures |Split(path)| == 1 ==> path == "."
    ensures CleanSegments(Split(path)[1..])
  {
    DotParts(path);
    SplitName(".");
    JoinOfSplit(path);
  }

  /** Below ".", cleaning takes the root's name away. */
  lemma DotIsTakenAway(path: string)
    requires WalkedFrom(".", path)
    ensures path == "." || (path == "./" + Clean(path) && CleanSegments(Split(Clean(path))))
  {
    DotSegments(path);
    DotParts(path);
    if |Split(path)| > 1 {
      CleanBelowDot(path);
      JoinOfSplit(path);
      JoinRest(Split(path), |Split(path)|);
      assert "." + "/" == "./";
    }
  }

  lemma DotParts(path: string)
    requires WalkedFrom(".", path)
    ensures !Rooted(path) && Split(path)[0] == "." && Parts(path) == Split(path)[1..] && Plain(Split(path)[1..])
  {
    SplitName(".");
    WalkedRoot(".", path);
    var segs := Split(path);
    ReduceClean(false, segs, 1, |segs|);
    assert Reduce(false, segs, 0) == [];
    SplitIsPlain(path);
    var names := segs[1..];
    forall i | 0 <= i < |names| ensures PlainAt(names, i) {
      assert PlainAt(segs, i + 1);
    }
  }

  lemma {:induction false} JoinRest(segs: seq<string>, n: nat)
    requires 1 < n <= |segs|
    ensures Join(segs, n) == segs[0] + "/" + Join(segs[1..], n - 1)
  {
    var rest := segs[1..];
    assert rest[n - 2] == segs[n - 1];
    if n > 2 {
      JoinRest(segs, n - 1);
      assert (segs[0] + "/" + Join(rest, n - 2)) + "/" + rest[n - 2] == segs[0] + "/" + (Join(rest, n - 2) + "/" + rest[n - 2]);
    } else {
      assert Join(segs, 2) == Join(segs, 1) + "/" + segs[1];
    }
  }

  /** A walked path is clean exactly when its root is neither "." nor "/", or it is the root itself. */
  lemma CleanIff(root: string, path: string)
    requires Tar.RootName(root) && WalkedFrom(root, path)
    ensures Clean(path) == path <==> !Bare(path) || path == root
  {
    WalkedRoot(root, path);
    if root == "/" {
      SlashIsDoubled(path);
    } else if root == "." {
      DotIsTakenAway(path);
      if path == "." {
        TopSplits();
        assert Reduce(false, ["."], 0) == [] && Reduce(false, ["."], 1) == [];
      }
    } else {
      NamedIsClean(root, path);
    }
  }

  /** Below "/" every other path starts with two slashes, its clean form with one. */
  lemma SlashIsDoubled(path: string)
    requires WalkedFrom("/", path)
    ensures Rooted(Clean(path)) && (Clean(path) == path <==> path == "/")
  {
    TopSplits();
    WalkedRoot("/", path);
    JoinOfSplit(path);
    var segs := Split(path);
    SlashParts(path);
    if |segs| > 2 {
      SplitIsPlain(path);
      ReduceIsReduced(true, segs, |segs|);
      SplitOfRender(true, Parts(path), |Parts(path)|);
      FirstPart(true, Parts(path));
      assert Split(Clean(path))[1] != segs[1];
    } else {
      assert segs == ["", ""] && Join(segs, 1) == "";
    }
  }

  lemma SlashParts(path: string)
    requires WalkedFrom("/", path)
    ensures |Split(path)| >= 2 && Split(path)[0] == "" && Split(path)[1] == "" && Parts(path) == Split(path)[2..]
  {
    TopSplits();
    WalkedRoot("/", path);
    var segs := Split(path);
    ReduceClean(true, segs, 2, |segs|);
    assert Reduce(true, segs, 0) == [] && Reduce(true, segs, 1) == [] && Reduce(true, segs, 2) == [];
  }

  // ---------- What a selection brings along ----------

  ghost predicate HasRoot(roots: seq<Tar.Node>, path: string) {
    exists r :: 0 <= r < |roots| && WalkedFrom(roots[r].name, path)
  }

  /** Every entry was archived below one of the roots. */
  ghost predicate Walked(roots: seq<Tar.Node>, entries: seq<FileEntry>) {
    forall i :: 0 <= i < |entries| ==> HasRoot(roots, entries[i].path)
  }

  lemma ArchivedIsWalked(excluded: string -> bool, oneFileSystem: bool, roots: seq<Tar.Node>, entries: seq<FileEntry>, contents: seq<Bytes>)
    requires Tar.RootsOk(roots) && Tar.FitsAll(entries, Tar.AllItems(excluded, oneFileSystem, roots, |roots|), contents)
    ensures Walked(roots, entries)
  {
    var items := Tar.AllItems(excluded, oneFileSystem, roots, |roots|);
    forall i | 0 <= i < |entries| ensures HasRoot(roots, entries[i].path) {
      var r := ItemHasRoot(excluded, oneFileSystem, roots, |roots|, i);
      assert Tar.FitsAt(entries, items, contents, i);
    }
  }

  /** The selection is made from the index. */
  ghost predicate Chosen(entries: seq<FileEntry>, selected: seq<FileEntry>) { forall i :: 0 <= i < |selected| ==> selected[i] in entries }

  /** Entry j is a directory above selected entry i. */
  predicate ParentOfSelected(entries: seq<FileEntry>, selected: seq<FileEntry>, i: nat, j: nat)
    requires i < |selected| && j < |entries|
  {
    entries[j].kind == TYPE_DIR && StrictlyAbove(entries[j].path, selected[i].path)
  }

  /** Every archived directory above a selected path is wanted too. */
  ghost predicate KeepsParents(entries: seq<FileEntry>, selected: seq<FileEntry>, wanted: set<string>) {
    forall i, j :: 0 <= i < |selected| && 0 <= j < |entries| && ParentOfSelected(entries, selected, i, j) ==> entries[j].path in wanted
  }

  predicate IsSelected(selected: seq<FileEntry>, path: string) { exists i :: 0 <= i < |selected| && selected[i].path == path }

  /** No archived directory above a selected path lies in a root named "." or "/", unless it is selected itself. */
  ghost predicate NoBareParents(entries: seq<FileEntry>, selected: seq<FileEntry>) {
    forall i, j :: 0 <= i < |selected| && 0 <= j < |entries| && ParentOfSelected(entries, selected, i, j) ==>
      !Bare(entries[j].path) || IsSelected(selected, entries[j].path)
  }

  lemma SameRoot(roots: seq<Tar.Node>, dir: string, path: string) returns (root: string)
    requires Tar.RootsOk(roots) && HasRoot(roots, dir) && HasRoot(roots, path) && StrictlyAbove(dir, path)
    ensures Tar.RootName(root) && WalkedFrom(root, dir) && WalkedFrom(root, path)
  {
    var r :| 0 <= r < |roots| && WalkedFrom(roots[r].name, dir);
    var s :| 0 <= s < |roots| && WalkedFrom(roots[s].name, path);
    assert Tar.RootOk(roots, r) && Tar.RootOk(roots, s);
    AboveSegments(dir, path);
    RootSegments(roots[r].name);
    RootSegments(roots[s].name);
    assert Split(dir)[0] == Split(path)[0];
    root := roots[s].name;
  }

  /** A directory of root "." or "/" is wanted only when it is selected. */
  lemma BareWantedIsSelected(roots: seq<Tar.Node>, entries: seq<FileEntry>, selected: seq<FileEntry>, wanted: set<string>, j: nat)
    requires Tar.RootsOk(roots) && Walked(roots, entries) && LinksEarlier(entries) && Tar.ParentsFirst(entries)
    requires Covers(selected, |selected|, wanted) && LinkClosed(entries, wanted) && Least(entries, selected, wanted)
    requires j < |entries| && entries[j].kind == TYPE_DIR && Bare(entries[j].path) && entries[j].path in wanted
    ensures IsSelected(selected, entries[j].path)
  {
    if !IsSelected(selected, entries[j].path) {
      BareNotNeeded(roots, entries, selected, wanted, j);
      LeastIsInside(entries, selected, wanted, wanted - {entries[j].path});
    }
  }

  lemma LeastIsInside(entries: seq<FileEntry>, selected: seq<FileEntry>, wanted: set<string>, bound: set<string>)
    requires Least(entries, selected, wanted) && Covers(selected, |selected|, bound) && LinkClosed(entries, bound)
    ensures wanted <= bound
  {
    assert Within(entries, selected, wanted, bound);
  }

  /** Without an unselected directory of root "." or "/" the set still holds the selection and is closed. */
  lemma BareNotNeeded(roots: seq<Tar.Node>, entries: seq<FileEntry>, selected: seq<FileEntry>, wanted: set<string>, j: nat)
    requires Tar.RootsOk(roots) && Walked(roots, entries) && LinksEarlier(entries) && Tar.ParentsFirst(entries)
    requires Covers(selected, |selected|, wanted) && LinkClosed(entries, wanted)
    requires j < |entries| && entries[j].kind == TYPE_DIR && Bare(entries[j].path) && !IsSelected(selected, entries[j].path)
    ensures Covers(selected, |selected|, wanted - {entries[j].path}) && LinkClosed(entries, wanted - {entries[j].path})
  {
    var d := entries[j].path;
    var bound := wanted - {d};
    assert HasRoot(roots, d);
    var r :| 0 <= r < |roots| && WalkedFrom(roots[r].name, d);
    assert Tar.RootOk(roots, r);
    WalkedRoot(roots[r].name, d);
    forall i | 0 <= i < |selected| ensures CoveredAt(selected[i].path, bound) {
      assert CoveredAt(selected[i].path, wanted);
      BareIsNoAncestor(roots[r].name, d, selected[i].path);
    }
    forall i | 0 <= i < |entries| ensures ClosedAt(entries[i], bound) {
      assert ClosedAt(entries[i], wanted);
      if entries[i].kind == TYPE_HARDLINK {
        LinkToFile(entries, i, j);
      }
    }
  }

  /** A hard link does not point to a directory. */
  lemma LinkToFile(entries: seq<FileEntry>, i: nat, j: nat)
    requires LinksEarlier(entries) && Tar.ParentsFirst(entries) && i < |entries| && j < |entries|
    requires entries[i].kind == TYPE_HARDLINK && entries[j].kind == TYPE_DIR
    ensures entries[i].linkTarget != entries[j].path
  {
    assert LinkEarlier(entries, i);
    var k :| 0 <= k < i && entries[k].path == entries[i].linkTarget && entries[k].kind == TYPE_REGULAR;
    Tar.PathsDistinct(entries);
    assert "reg"[0] != "dir"[0];
  }

  /**
   * A selection keeps every archived directory above what it selects if and only if none of those directories lies in a
   * root named "." or "/", unless it is selected itself.
   */
  lemma ParentsKeptIff(roots: seq<Tar.Node>, entries: seq<FileEntry>, selected: seq<FileEntry>, wanted: set<string>)
    requires Tar.RootsOk(roots) && Walked(roots, entries) && LinksEarlier(entries) && Tar.ParentsFirst(entries)
    requires Covers(selected, |selected|, wanted) && LinkClosed(entries, wanted) && Least(entries, selected, wanted)
    requires Chosen(entries, selected)
    ensures KeepsParents(entries, selected, wanted) <==> NoBareParents(entries, selected)
  {
    forall i, j | 0 <= i < |selected| && 0 <= j < |entries| && ParentOfSelected(entries, selected, i, j)
      ensures entries[j].path in wanted <==> !Bare(entries[j].path) || IsSelected(selected, entries[j].path)
    {
      ParentKeptIff(roots, entries, selected, wanted, i, j);
    }
  }

  lemma ParentKeptIff(roots: seq<Tar.Node>, entries: seq<FileEntry>, selected: seq<FileEntry>, wanted: set<string>, i: nat, j: nat)
    requires Tar.RootsOk(roots) && Walked(roots, entries) && LinksEarlier(entries) && Tar.ParentsFirst(entries)
    requires Covers(selected, |selected|, wanted) && LinkClosed(entries, wanted) && Least(entries, selected, wanted)
    requires Chosen(entries, selected) && i < |selected| && j < |entries| && ParentOfSelected(entries, selected, i, j)
    ensures entries[j].path in wanted <==> !Bare(entries[j].path) || IsSelected(selected, entries[j].path)
  {
    var dir, path := entries[j].path, selected[i].path;
    assert selected[i] in entries && CoveredAt(path, wanted);
    assert HasRoot(roots, dir) && HasRoot(roots, path);
    var root := SameRoot(roots, dir, path);
    ParentTriedIff(root, dir, path);
    if IsSelected(selected, dir) {
      var k :| 0 <= k < |selected| && selected[k].path == dir;
      assert CoveredAt(selected[k].path, wanted);
    } else if Bare(dir) && dir in wanted {
      BareWantedIsSelected(roots, entries, selected, wanted, j);
    }
  }

  /** When no root is named "." or "/", every selection keeps the directories above it. */
  lemma NamedRootsKeepParents(roots: seq<Tar.Node>, entries: seq<FileEntry>, selected: seq<FileEntry>)
    requires Tar.RootsOk(roots) && Walked(roots, entries)
    requires forall r :: 0 <= r < |roots| ==> roots[r].name != "." && roots[r].name != "/"
    ensures NoBareParents(entries, selected)
  {
    forall j | 0 <= j < |entries| ensures !Bare(entries[j].path) {
      assert HasRoot(roots, entries[j].path);
      var r :| 0 <= r < |roots| && WalkedFrom(roots[r].name, entries[j].path);
      assert Tar.RootOk(roots, r);
      WalkedRoot(roots[r].name, entries[j].path);
    }
  }

  lemma DirectoryOf(path: string, rooted: bool, segs: seq<string>, part: string)
    requires Rooted(path) == rooted && Split(path) == segs && |segs| > 0 && Reduce(rooted, segs, |segs| - 1) == [part]
    ensures Ancestors(path) == {(if rooted then "/" else "") + part}
  {
    assert Above(path, 1) == {};
    assert Join([part], 1) == part;
  }

  /** The path of b in directory a below a root. */
  function TwoBelow(root: string, a: string, b: string): string { Tar.ChildPath(Tar.ChildPath(root, a), b) }

  predicate FileName(name: string) { Tar.PlainName(name) && CleanSegment(name) }

  lemma TwoBelowSegments(root: string, a: string, b: string)
    requires Tar.RootName(root) && FileName(a) && FileName(b)
    ensures Split(TwoBelow(root, a, b)) == Split(root) + [a, b] && Rooted(TwoBelow(root, a, b)) == (root == "/")
    ensures StrictlyAbove(Tar.ChildPath(root, a), TwoBelow(root, a, b))
  {
    LastSegment(root, a);
    LastSegment(Tar.ChildPath(root, a), b);
    assert Split(root) + [a] + [b] == Split(root) + [a, b];
    assert TwoBelow(root, a, b)[0] == root[0];
  }

  /** Below root "." the directory of b is archived as "./a" and asked for as "a". */
  lemma DotLosesParent(a: string, b: string)
    requires FileName(a) && FileName(b)
    ensures StrictlyAbove("./" + a, "./" + a + "/" + b) && Ancestors("./" + a + "/" + b) == {a} && "./" + a !in Ancestors("./" + a + "/" + b)
  {
    var path := TwoBelow(".", a, b);
    assert path == "./" + a + "/" + b && Tar.ChildPath(".", a) == "./" + a;
    TwoBelowSegments(".", a, b);
    SplitName(".");
    var segs := [".", a, b];
    assert Reduce(false, segs, 0) == [] && Reduce(false, segs, 1) == [] && Reduce(false, segs, 2) == [a];
    DirectoryOf(path, false, segs, a);
    assert "" + a == a;
    assert |"./" + a| != |a|;
  }

  /** Below root "/" it is archived as "//a" and asked for as "/a". */
  lemma SlashLosesParent(a: string, b: string)
    requires FileName(a) && FileName(b)
    ensures StrictlyAbove("//" + a, "//" + a + "/" + b) && Ancestors("//" + a + "/" + b) == {"/" + a}
    ensures "//" + a !in Ancestors("//" + a + "/" + b)
  {
    var path := TwoBelow("/", a, b);
    assert path == "//" + a + "/" + b && Tar.ChildPath("/", a) == "//" + a;
    TwoBelowSegments("/", a, b);
    TopSplits();
    var segs := ["", "", a, b];
    assert Reduce(true, segs, 0) == [] && Reduce(true, segs, 1) == [] && Reduce(true, segs, 2) == [] && Reduce(true, segs, 3) == [a];
    DirectoryOf(path, true, segs, a);
    assert |"//" + a| != |"/" + a|;
  }
}
