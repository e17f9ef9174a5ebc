/** Recursive globs over slash-separated paths, and the convenience rule of the listing commands. */
module Glob {
  import opened Common
  import opened Metadata
  import opened Paths
  import opened TarWriter

  const DOUBLE_STAR := "**"

  // ---------- Matching ----------

  /** `segment` is the library's match of one segment; a pattern it cannot parse matches nothing. */
  predicate MatchParts(segment: (string, string) -> bool, p: seq<string>, n: seq<string>)
    decreases |p|
  {
    if p == [] then n == []
    else if p[0] == DOUBLE_STAR then exists i :: 0 <= i <= |n| && MatchParts(segment, p[1..], n[i..])
    else n != [] && segment(p[0], n[0]) && MatchParts(segment, p[1..], n[1..])
  }

  predicate Match(segment: (string, string) -> bool, pat: string, name: string) {
    if TrimSlash(pat) == "" then name == "" else MatchParts(segment, Split(TrimSlash(pat)), Split(name))
  }

  // ---------- What a match is ----------

  /** Segment i of the pattern takes the segments from cut i up to the next cut: any number for a double star, else one that it matches. */
  ghost predicate TakesAt(segment: (string, string) -> bool, p: seq<string>, n: seq<string>, cuts: seq<int>, i: nat)
    requires i < |p| && |cuts| == |p| + 1
  {
    0 <= cuts[i] <= cuts[i + 1] <= |n| && (p[i] != "**" ==> cuts[i + 1] == cuts[i] + 1 && segment(p[i], n[cuts[i]]))
  }

  /** The pattern takes the whole name, piece by piece. */
  ghost predicate Aligned(segment: (string, string) -> bool, p: seq<string>, n: seq<string>, cuts: seq<int>) {
    && |cuts| == |p| + 1 && cuts[0] == 0 && cuts[|p|] == |n|
    && forall i :: 0 <= i < |p| ==> TakesAt(segment, p, n, cuts, i)
  }

  ghost function Shift(cuts: seq<int>, d: int): seq<int> { seq(|cuts|, i requires 0 <= i < |cuts| => cuts[i] + d) }

  lemma AlignLonger(segment: (string, string) -> bool, p: seq<string>, n: seq<string>, i: nat, rest: seq<int>)
    requires |p| > 0 && i <= |n| && Aligned(segment, p[1..], n[i..], rest)
    requires p[0] != DOUBLE_STAR ==> i == 1 && segment(p[0], n[0])
    ensures Aligned(segment, p, n, [0] + Shift(rest, i))
  {
    var cuts := [0] + Shift(rest, i);
    forall k | 0 <= k < |p| ensures TakesAt(segment, p, n, cuts, k) {
      if k > 0 {
        var j := k - 1;
        assert TakesAt(segment, p[1..], n[i..], rest, j);
      }
    }
  }

  lemma {:induction false} CutsGrow(segment: (string, string) -> bool, p: seq<string>, n: seq<string>, cuts: seq<int>, i: nat, j: nat)
    requires Aligned(segment, p, n, cuts) && i <= j <= |p|
    ensures cuts[i] <= cuts[j]
  {
    if i < j {
      var k := j - 1;
      CutsGrow(segment, p, n, cuts, i, k);
      assert TakesAt(segment, p, n, cuts, k);
    }
  }

  lemma AlignShorter(segment: (string, string) -> bool, p: seq<string>, n: seq<string>, cuts: seq<int>)
    requires |p| > 0 && Aligned(segment, p, n, cuts)
    ensures 0 <= cuts[1] <= |n| && Aligned(segment, p[1..], n[cuts[1]..], Shift(cuts[1..], -cuts[1]))
  {
    assert TakesAt(segment, p, n, cuts, 0);
    var rest := Shift(cuts[1..], -cuts[1]);
    forall i | 0 <= i < |p| - 1 ensures TakesAt(segment, p[1..], n[cuts[1]..], rest, i) {
      var k := i + 1;
      CutsGrow(segment, p, n, cuts, 1, k);
      assert TakesAt(segment, p, n, cuts, k);
    }
  }

  /** The recursive matcher accepts exactly the names that can be cut into one piece for every segment of the pattern. */
  lemma {:induction false} MatchIffAligned(segment: (string, string) -> bool, p: seq<string>, n: seq<string>)
    ensures MatchParts(segment, p, n) <==> exists cuts :: Aligned(segment, p, n, cuts)
    decreases |p|
  {
    if p == [] {
      if n == [] {
        assert Aligned(segment, p, n, [0]);
      }
    } else {
      if MatchParts(segment, p, n) {
        var i := if p[0] == DOUBLE_STAR then var i :| 0 <= i <= |n| && MatchParts(segment, p[1..], n[i..]); i else 1;
        MatchIffAligned(segment, p[1..], n[i..]);
        var rest :| Aligned(segment, p[1..], n[i..], rest);
        AlignLonger(segment, p, n, i, rest);
      }
      if cuts :| Aligned(segment, p, n, cuts) {
        AlignShorter(segment, p, n, cuts);
        MatchIffAligned(segment, p[1..], n[cuts[1]..]);
        assert TakesAt(segment, p, n, cuts, 0);
        assert MatchParts(segment, p[1..], n[cuts[1]..]);
      }
    }
  }

  // ---------- A closing double star ----------

  /** p matches the first k segments. */
  predicate MatchesPrefix(segment: (string, string) -> bool, p: seq<string>, n: seq<string>, k: nat)
    requires k <= |n|
  {
    MatchParts(segment, p, n[..k])
  }

  lemma StarFrom(segment: (string, string) -> bool, p: seq<string>, n: seq<string>, i: nat, k: nat)
    requires |p| > 0 && p[0] == DOUBLE_STAR && i <= |n| && k <= |n[i..]| && MatchesPrefix(segment, p[1..], n[i..], k)
    ensures MatchesPrefix(segment, p, n, i + k)
  {
    assert n[..i + k][i..] == n[i..][..k];
  }

  lemma StarTo(segment: (string, string) -> bool, p: seq<string>, n: seq<string>, k: nat) returns (i: nat)
    requires |p| > 0 && p[0] == DOUBLE_STAR && k <= |n| && MatchesPrefix(segment, p, n, k)
    ensures i <= k && MatchesPrefix(segment, p[1..], n[i..], k - i)
  {
    i :| 0 <= i <= |n[..k]| && MatchParts(segment, p[1..], n[..k][i..]);
    assert n[..k][i..] == n[i..][..k - i];
  }

  /** A closing double star matches whatever follows a prefix that the rest matches, and nothing else. */
  lemma {:induction false} ClosingStar(segment: (string, string) -> bool, p: seq<string>, n: seq<string>)
    ensures MatchParts(segment, p + [DOUBLE_STAR], n) <==> exists k :: 0 <= k <= |n| && MatchesPrefix(segment, p, n, k)
    decreases |p|
  {
    var q := p + [DOUBLE_STAR];
    if p == [] {
      assert q[1..] == [] && n[|n|..] == [] && n[..0] == [];
      assert MatchParts(segment, q[1..], n[|n|..]) && MatchesPrefix(segment, p, n, 0);
    } else {
      assert q[0] == p[0] && q[1..] == p[1..] + [DOUBLE_STAR];
      if p[0] == DOUBLE_STAR {
        ClosingAfterStar(segment, p, n);
      } else if n != [] {
        ClosingStar(segment, p[1..], n[1..]);
        ClosingAfterSegment(segment, p, n);
      } else {
        assert n[..0] == [];
      }
    }
  }

  lemma ClosingAfterStar(segment: (string, string) -> bool, p: seq<string>, n: seq<string>)
    requires |p| > 0 && p[0] == DOUBLE_STAR
    ensures MatchParts(segment, p + [DOUBLE_STAR], n) <==> exists k :: 0 <= k <= |n| && MatchesPrefix(segment, p, n, k)
    decreases |p|, 0
  {
    var q := p + [DOUBLE_STAR];
    assert q[0] == DOUBLE_STAR && q[1..] == p[1..] + [DOUBLE_STAR];
    if MatchParts(segment, q, n) {
      var i :| 0 <= i <= |n| && MatchParts(segment, q[1..], n[i..]);
      ClosingStar(segment, p[1..], n[i..]);
      var k :| 0 <= k <= |n[i..]| && MatchesPrefix(segment, p[1..], n[i..], k);
      StarFrom(segment, p, n, i, k);
    }
    if k :| 0 <= k <= |n| && MatchesPrefix(segment, p, n, k) {
      var i := StarTo(segment, p, n, k);
      ClosingStar(segment, p[1..], n[i..]);
      assert MatchParts(segment, q[1..], n[i..]);
    }
  }

  lemma ClosingAfterSegment(segment: (string, string) -> bool, p: seq<string>, n: seq<string>)
    requires |p| > 0 && p[0] != DOUBLE_STAR && |n| > 0
    ensures (exists k :: 0 <= k <= |n| && MatchesPrefix(segment, p, n, k)) <==>
            segment(p[0], n[0]) && exists k :: 0 <= k <= |n[1..]| && MatchesPrefix(segment, p[1..], n[1..], k)
  {
    if k :| 0 <= k <= |n| && MatchesPrefix(segment, p, n, k) {
      assert k > 0 && n[..k][1..] == n[1..][..k - 1] && n[..k][0] == n[0];
      assert MatchesPrefix(segment, p[1..], n[1..], k - 1);
    }
    if segment(p[0], n[0]) {
      if k :| 0 <= k <= |n[1..]| && MatchesPrefix(segment, p[1..], n[1..], k) {
        assert n[..k + 1][1..] == n[1..][..k] && n[..k + 1][0] == n[0];
        assert MatchesPrefix(segment, p, n, k + 1);
      }
    }
  }

  /** A pattern that matches nothing at all is made of double stars and matches everything. */
  lemma {:induction false} EmptyMatchesAll(segment: (string, string) -> bool, p: seq<string>, n: seq<string>)
    requires MatchParts(segment, p, []) && p != []
    ensures MatchParts(segment, p, n)
    decreases |p|
  {
    assert p[0] == DOUBLE_STAR;
    var none: seq<string> := [];
    var i :| 0 <= i <= |none| && MatchParts(segment, p[1..], none[i..]);
    assert none[i..] == [];
    if p[1..] == [] {
      assert n[|n|..] == [] && MatchParts(segment, p[1..], n[|n|..]);
    } else {
      EmptyMatchesAll(segment, p[1..], n);
      assert n[0..] == n && MatchParts(segment, p[1..], n[0..]);
    }
  }

  // ---------- An entry, or a directory above it ----------

  /** The entry's path matches, or a directory above it does. */
  ghost predicate Selects(segment: (string, string) -> bool, pat: string, path: string) {
    Match(segment, pat, path) || exists dir :: dir in Ancestors(path) && Match(segment, pat, dir)
  }

  ghost predicate NoneMatches(segment: (string, string) -> bool, pat: string, dirs: set<string>) {
    forall d :: d in dirs ==> !Match(segment, pat, d)
  }

  method EntryMatches(segment: (string, string) -> bool, e: FileEntry, pat: string) returns (r: bool)
    ensures r <==> Selects(segment, pat, e.path)
  {
    if Match(segment, pat, e.path) {
      return true;
    }
    var dir := ParentOf(e.path);
    ghost var k: nat := |DirParts(e.path)|;
    while dir != "." && dir != "/"
      invariant UpTo(e.path, k, dir) && NoneMatches(segment, pat, Above(e.path, k))
      decreases k
    {
      if Match(segment, pat, dir) {
        ReachedIsAncestor(e.path, k, dir);
        return true;
      }
      dir := NextParent(dir, e.path, k);
      k := k - 1;
    }
    r := false;
  }

  /** A relative path without empty, "." or ".." segments. */
  predicate CleanPath(path: string) { CleanSegments(Split(path)) }

  /** The directories above a clean path are its leading runs of segments. */
  lemma CleanDirs(path: string)
    requires CleanPath(path)
    ensures !Rooted(path) && DirParts(path) == Split(path)[..|Split(path)| - 1]
  {
    FirstSegment(path);
    ReduceClean(Rooted(path), Split(path), 0, |Split(path)| - 1);
  }

  lemma CleanDirAt(path: string, k: nat)
    requires CleanPath(path) && 0 < k < |Split(path)|
    ensures k <= |DirParts(path)| && Split(DirAt(path, k)) == Split(path)[..k]
  {
    CleanDirs(path);
    DirPartsReduced(path);
    SplitOfRender(Rooted(path), DirParts(path), k);
    assert DirParts(path)[..k] == Split(path)[..k];
    assert [] + Split(path)[..k] == Split(path)[..k];
  }

  /** Some non-empty run of leading segments matches. */
  ghost predicate SomePrefix(segment: (string, string) -> bool, p: seq<string>, n: seq<string>) {
    exists k :: 1 <= k <= |n| && MatchesPrefix(segment, p, n, k)
  }

  lemma MatchAtDir(segment: (string, string) -> bool, pat: string, path: string, k: nat)
    requires CleanPath(path) && pat != "" && pat[|pat| - 1] != '/' && 0 < k < |Split(path)|
    ensures k <= |DirParts(path)| && (Match(segment, pat, DirAt(path, k)) <==> MatchesPrefix(segment, Split(pat), Split(path), k))
  {
    CleanDirAt(path, k);
  }

  /** Walking up from a clean path tries exactly its leading segments. */
  lemma SelectsPrefix(segment: (string, string) -> bool, pat: string, path: string)
    requires CleanPath(path) && pat != "" && pat[|pat| - 1] != '/'
    ensures Selects(segment, pat, path) <==> SomePrefix(segment, Split(pat), Split(path))
  {
    var p, n := Split(pat), Split(path);
    assert n[..|n|] == n;
    assert Match(segment, pat, path) <==> MatchesPrefix(segment, p, n, |n|);
    CleanDirs(path);
    if dir :| dir in Ancestors(path) && Match(segment, pat, dir) {
      AboveMembers(path, 0, dir);
      var k :| 0 < k <= |DirParts(path)| && dir == DirAt(path, k);
      MatchAtDir(segment, pat, path, k);
    }
    if k :| 1 <= k <= |n| && MatchesPrefix(segment, p, n, k) {
      if k < |n| {
        MatchAtDir(segment, pat, path, k);
        AboveMembers(path, 0, DirAt(path, k));
      }
    }
  }

  /** For a clean path the convenience rule is the pattern with a closing double star. */
  lemma SelectsIsSubtree(segment: (string, string) -> bool, pat: string, path: string)
    requires CleanPath(path) && pat != "" && pat[|pat| - 1] != '/'
    ensures Selects(segment, pat, path) <==> Match(segment, pat + "/**", path)
  {
    var p, n := Split(pat), Split(path);
    SelectsPrefix(segment, pat, path);
    SplitJoin(pat, DOUBLE_STAR);
    SplitName(DOUBLE_STAR);
    assert pat + "/**" == pat + "/" + DOUBLE_STAR && (pat + "/**")[|pat| + 2] == '*';
    ClosingStar(segment, p, n);
    if MatchesPrefix(segment, p, n, 0) {
      assert n[..0] == [];
      EmptyMatchesAll(segment, p, n[..1]);
      assert MatchesPrefix(segment, p, n, 1);
    }
  }

  // ---------- Selecting from an index ----------

  /** Some pattern selects the path. */
  ghost predicate AnySelects(segment: (string, string) -> bool, pats: seq<string>, path: string) {
    exists i :: 0 <= i < |pats| && Selects(segment, pats[i], path)
  }

  /** Included, or nothing need be, and not excluded. */
  ghost predicate Matched(segment: (string, string) -> bool, includes: seq<string>, excludes: seq<string>, path: string) {
    (includes == [] || AnySelects(segment, includes, path)) && !AnySelects(segment, excludes, path)
  }

  /** The first n entries that pass, in order. */
  ghost function Kept(entries: seq<FileEntry>, keep: FileEntry -> bool, n: nat): seq<FileEntry>
    requires n <= |entries|
  {
    if n == 0 then [] else Kept(entries, keep, n - 1) + if keep(entries[n - 1]) then [entries[n - 1]] else []
  }

  ghost function Matching(segment: (string, string) -> bool, entries: seq<FileEntry>, includes: seq<string>, excludes: seq<string>, n: nat): seq<FileEntry>
    requires n <= |entries|
  {
    Kept(entries, (e: FileEntry) => Matched(segment, includes, excludes, e.path), n)
  }

  ghost predicate AmongFirst(entries: seq<FileEntry>, n: nat, e: FileEntry)
    requires n <= |entries|
  {
    exists i :: 0 <= i < n && entries[i] == e
  }

  lemma {:induction false} KeptMembers(entries: seq<FileEntry>, keep: FileEntry -> bool, n: nat, e: FileEntry)
    requires n <= |entries|
    ensures e in Kept(entries, keep, n) <==> keep(e) && AmongFirst(entries, n, e)
  {
    if n > 0 {
      KeptMembers(entries, keep, n - 1, e);
      assert AmongFirst(entries, n, e) <==> AmongFirst(entries, n - 1, e) || entries[n - 1] == e;
    }
  }

  method MatchAnyEntry(segment: (string, string) -> bool, e: FileEntry, pats: seq<string>) returns (r: bool)
    ensures r <==> AnySelects(segment, pats, e.path)
  {
    for i := 0 to |pats|
      invariant forall j :: 0 <= j < i ==> !Selects(segment, pats[j], e.path)
    {
      r := EntryMatches(segment, e, pats[i]);
      if r {
        return;
      }
    }
    r := false;
  }

  /** The entries that patterns select, in index order. */
  method EntriesMatching(segment: (string, string) -> bool, entries: seq<FileEntry>, includes: seq<string>, excludes: seq<string>)
    returns (selected: seq<FileEntry>)
    ensures selected == Matching(segment, entries, includes, excludes, |entries|)
  {
    selected := [];
    for i := 0 to |entries|
      invariant selected == Matching(segment, entries, includes, excludes, i)
    {
      if |includes| > 0 {
        var included := MatchAnyEntry(segment, entries[i], includes);
        if !included {
          continue;
        }
      }
      var excluded := MatchAnyEntry(segment, entries[i], excludes);
      if !excluded {
        selected := selected + [entries[i]];
      }
    }
  }

  /** Exactly the matched entries are selected. */
  lemma MatchingMembers(segment: (string, string) -> bool, entries: seq<FileEntry>, includes: seq<string>, excludes: seq<string>, n: nat, e: FileEntry)
    requires n <= |entries|
    ensures e in Matching(segment, entries, includes, excludes, n) <==> Matched(segment, includes, excludes, e.path) && AmongFirst(entries, n, e)
  {
    KeptMembers(entries, (e: FileEntry) => Matched(segment, includes, excludes, e.path), n, e);
  }
}
