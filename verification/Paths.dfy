/** Slash-separated paths as Go's package path sees them: segments, the lexical clean form, and the directories above. */
module Paths {

  // ---------- Segments ----------

  /** Pieces between slashes; there is always at least one. */
  function Split(s: string): (r: seq<string>)
    ensures |r| > 0
  {
    if s == "" then [""]
    else if s[0] == '/' then [""] + Split(s[1..])
    else [[s[0]] + Split(s[1..])[0]] + Split(s[1..])[1..]
  }

  lemma {:induction false} SplitJoin(a: string, b: string)
    ensures Split(a + "/" + b) == Split(a) + Split(b)
  {
    var s := a + "/" + b;
    if a == "" {
      assert s == "/" + b && s[1..] == b;
    } else {
      assert s[0] == a[0] && s[1..] == a[1..] + "/" + b;
      SplitJoin(a[1..], b);
    }
  }

  lemma {:induction false} SplitName(s: string)
    requires '/' !in s
    ensures Split(s) == [s]
  {
    if s != "" {
      SplitName(s[1..]);
      assert s == [s[0]] + s[1..];
    }
  }

  predicate PlainAt(segs: seq<string>, i: nat)
    requires i < |segs|
  {
    '/' !in segs[i]
  }

  ghost predicate Plain(segs: seq<string>) { forall i :: 0 <= i < |segs| ==> PlainAt(segs, i) }

  lemma {:induction false} SplitIsPlain(s: string)
    ensures Plain(Split(s))
  {
    if s != "" {
      var rest := Split(s[1..]);
      SplitIsPlain(s[1..]);
      assert PlainAt(rest, 0);
      forall i | 0 <= i < |Split(s)| ensures PlainAt(Split(s), i) {
        assert i > 0 && s[0] == '/' ==> PlainAt(rest, i - 1);
        assert i > 0 && s[0] != '/' ==> PlainAt(rest, i);
      }
    }
  }

  /** The position after the last slash, or 0. */
  function AfterSlash(path: string): (n: nat)
    ensures n <= |path| && (n > 0 ==> path[n - 1] == '/') && forall i :: n <= i < |path| ==> path[i] != '/'
  {
    if path == "" then 0
    else if path[|path| - 1] == '/' then |path|
    else AfterSlash(path[..|path| - 1])
  }

  predicate Rooted(path: string) { path != "" && path[0] == '/' }

  /** A segment that cleaning leaves alone. */
  predicate CleanSegment(s: string) { s != "" && s != "." && s != ".." }

  predicate CleanSegments(n: seq<string>) { forall i :: 0 <= i < |n| ==> CleanSegment(n[i]) }

  // ---------- Cleaning ----------

  /** One segment more: empty and "." are dropped, ".." takes back a name, or stays at the start of a relative path. */
  function Push(rooted: bool, parts: seq<string>, seg: string): seq<string> {
    if seg == "" || seg == "." then parts
    else if seg != ".." then parts + [seg]
    else if parts != [] && parts[|parts| - 1] != ".." then parts[..|parts| - 1]
    else if rooted then parts
    else parts + [seg]
  }

  function Reduce(rooted: bool, segs: seq<string>, n: nat): seq<string>
    requires n <= |segs|
  {
    if n == 0 then [] else Push(rooted, Reduce(rooted, segs, n - 1), segs[n - 1])
  }

  function Join(parts: seq<string>, n: nat): string
    requires 0 < n <= |parts|
  {
    if n == 1 then parts[0] else Join(parts, n - 1) + "/" + parts[n - 1]
  }

  /** The first n parts as a path. */
  function Render(rooted: bool, parts: seq<string>, n: nat): string
    requires n <= |parts|
  {
    if n == 0 then if rooted then "/" else "." else (if rooted then "/" else "") + Join(parts, n)
  }

  function Parts(path: string): seq<string> { Reduce(Rooted(path), Split(path), |Split(path)|) }

  /** path.Clean. */
  function Clean(path: string): string { Render(Rooted(path), Parts(path), |Parts(path)|) }

  /** path.Dir: what comes before the last slash, cleaned. */
  function DirOf(path: string): string { Clean(path[..AfterSlash(path)]) }

  predicate Top(dir: string) { dir == "." || dir == "/" }

  lemma {:induction false} ReduceAgree(rooted: bool, a: seq<string>, b: seq<string>, n: nat)
    requires n <= |a| && n <= |b| && forall i :: 0 <= i < n ==> a[i] == b[i]
    ensures Reduce(rooted, a, n) == Reduce(rooted, b, n)
  {
    if n > 0 {
      ReduceAgree(rooted, a, b, n - 1);
    }
  }

  /** Clean segments are kept as they are. */
  lemma {:induction false} ReduceClean(rooted: bool, segs: seq<string>, m: nat, n: nat)
    requires m <= n <= |segs| && forall i :: m <= i < n ==> CleanSegment(segs[i])
    ensures Reduce(rooted, segs, n) == Reduce(rooted, segs, m) + segs[m..n]
  {
    if m < n {
      ReduceClean(rooted, segs, m, n - 1);
      assert segs[m..n] == segs[m..n - 1] + [segs[n - 1]];
    }
  }

  // ---------- Parts that cleaning leaves alone ----------

  ghost predicate KeptAt(rooted: bool, parts: seq<string>, k: nat)
    requires k <= |parts|
  {
    Reduce(rooted, parts, k) == parts[..k]
  }

  ghost predicate Reduced(rooted: bool, parts: seq<string>) {
    Plain(parts) && forall k :: 0 <= k <= |parts| ==> KeptAt(rooted, parts, k)
  }

  lemma ReducedPrefix(rooted: bool, parts: seq<string>, n: nat)
    requires Reduced(rooted, parts) && n <= |parts|
    ensures Reduced(rooted, parts[..n])
  {
    var init := parts[..n];
    forall i | 0 <= i < n ensures PlainAt(init, i) {
      assert PlainAt(parts, i);
    }
    forall k | 0 <= k <= n ensures KeptAt(rooted, init, k) {
      assert KeptAt(rooted, parts, k) && init[..k] == parts[..k];
      ReduceAgree(rooted, parts, init, k);
    }
  }

  lemma ReducedSnoc(rooted: bool, parts: seq<string>, seg: string)
    requires Reduced(rooted, parts) && '/' !in seg && Push(rooted, parts, seg) == parts + [seg]
    ensures Reduced(rooted, parts + [seg])
  {
    var next := parts + [seg];
    forall i | 0 <= i < |next| ensures PlainAt(next, i) {
      assert i < |parts| ==> PlainAt(parts, i);
    }
    forall k | 0 <= k <= |parts| ensures Reduce(rooted, next, k) == parts[..k] && next[..k] == parts[..k] {
      assert KeptAt(rooted, parts, k);
      ReduceAgree(rooted, parts, next, k);
    }
    assert parts[..|parts|] == parts && next[..|next|] == next;
    forall k | 0 <= k <= |next| ensures KeptAt(rooted, next, k) {
    }
  }

  lemma ReducedPush(rooted: bool, parts: seq<string>, seg: string)
    requires Reduced(rooted, parts) && '/' !in seg
    ensures Reduced(rooted, Push(rooted, parts, seg))
  {
    var next := Push(rooted, parts, seg);
    if |next| < |parts| {
      ReducedPrefix(rooted, parts, |next|);
    } else if |next| > |parts| {
      ReducedSnoc(rooted, parts, seg);
    }
  }

  lemma {:induction false} ReduceIsReduced(rooted: bool, segs: seq<string>, n: nat)
    requires n <= |segs| && Plain(segs)
    ensures Reduced(rooted, Reduce(rooted, segs, n))
  {
    if n > 0 {
      ReduceIsReduced(rooted, segs, n - 1);
      assert PlainAt(segs, n - 1);
      ReducedPush(rooted, Reduce(rooted, segs, n - 1), segs[n - 1]);
    } else {
      assert KeptAt(rooted, [], 0);
    }
  }

  /** No empty or "." segment; ".." only at the start, and not even there below "/". */
  ghost predicate NormalAt(rooted: bool, parts: seq<string>, i: nat)
    requires i < |parts|
  {
    parts[i] != "" && parts[i] != "." && (parts[i] == ".." ==> !rooted && (i == 0 || parts[i - 1] == ".."))
  }

  /** What cleaning leaves of a path. */
  lemma {:induction false} ReduceIsNormal(rooted: bool, segs: seq<string>, n: nat)
    requires n <= |segs|
    ensures forall i :: 0 <= i < |Reduce(rooted, segs, n)| ==> NormalAt(rooted, Reduce(rooted, segs, n), i)
  {
    if n > 0 {
      var before, after := Reduce(rooted, segs, n - 1), Reduce(rooted, segs, n);
      ReduceIsNormal(rooted, segs, n - 1);
      forall i | 0 <= i < |after| ensures NormalAt(rooted, after, i) {
        if i < |before| {
          assert NormalAt(rooted, before, i);
        }
      }
    }
  }

  lemma FirstPart(rooted: bool, parts: seq<string>)
    requires Reduced(rooted, parts) && |parts| > 0
    ensures parts[0] != "" && parts[0] != "."
  {
    assert KeptAt(rooted, parts, 0) && KeptAt(rooted, parts, 1);
  }

  lemma {:induction false} SplitOfJoin(parts: seq<string>, n: nat)
    requires Plain(parts) && 0 < n <= |parts|
    ensures Split(Join(parts, n)) == parts[..n]
  {
    assert PlainAt(parts, n - 1);
    SplitName(parts[n - 1]);
    if n > 1 {
      SplitOfJoin(parts, n - 1);
      SplitJoin(Join(parts, n - 1), parts[n - 1]);
      assert parts[..n] == parts[..n - 1] + [parts[n - 1]];
    } else {
      assert parts[..1] == [parts[0]];
    }
  }

  /** The segments of a rendered path. */
  lemma SplitOfRender(rooted: bool, parts: seq<string>, n: nat)
    requires Reduced(rooted, parts) && 0 < n <= |parts|
    ensures Split(Render(rooted, parts, n)) == (if rooted then [""] else []) + parts[..n]
    ensures Rooted(Render(rooted, parts, n)) == rooted && !Top(Render(rooted, parts, n))
  {
    FirstPart(rooted, parts);
    SplitOfJoin(parts, n);
    var s := Render(rooted, parts, n);
    if rooted {
      SplitJoin("", Join(parts, n));
      assert s == "" + "/" + Join(parts, n);
    } else {
      assert s == Join(parts, n);
      FirstSegment(s);
    }
    TopSplits();
  }

  lemma FirstSegment(s: string)
    ensures Split(s)[0] == "" <==> s == "" || Rooted(s)
  {
  }

  lemma TopSplits()
    ensures Split(".") == ["."] && Split("/") == ["", ""]
  {
    SplitName(".");
    SplitJoin("", "");
    assert "" + "/" + "" == "/";
  }

  lemma {:induction false} SkipFirst(rooted: bool, parts: seq<string>, n: nat)
    requires n <= |parts|
    ensures Reduce(rooted, [""] + parts, n + 1) == Reduce(rooted, parts, n)
  {
    var segs := [""] + parts;
    if n == 0 {
      assert Reduce(rooted, segs, 0) == [];
    } else {
      SkipFirst(rooted, parts, n - 1);
      assert segs[n] == parts[n - 1];
    }
  }

  // ---------- Directories above a path ----------

  /** The parts of the directory of a path. */
  function DirParts(path: string): seq<string> { Reduce(Rooted(path), Split(path), |Split(path)| - 1) }

  /** The directory that keeps the first k of those parts. */
  function DirAt(path: string, k: nat): string
    requires k <= |DirParts(path)|
  {
    Render(Rooted(path), DirParts(path), k)
  }

  /** The directories above the path with more than k parts. */
  function Above(path: string, k: nat): set<string>
    requires k <= |DirParts(path)|
    decreases |DirParts(path)| - k
  {
    if k == |DirParts(path)| then {} else {DirAt(path, k + 1)} + Above(path, k + 1)
  }

  /** Every directory above the path, in clean form, up to but not including "." or "/". */
  function Ancestors(path: string): set<string> { Above(path, 0) }

  lemma {:induction false} AboveMembers(path: string, k: nat, d: string)
    requires k <= |DirParts(path)|
    ensures d in Above(path, k) <==> exists j :: k < j <= |DirParts(path)| && d == DirAt(path, j)
    decreases |DirParts(path)| - k
  {
    if k < |DirParts(path)| {
      AboveMembers(path, k + 1, d);
    }
  }

  /** Walking up from the path has reached the directory with k parts; it is "." or "/" exactly when none is left. */
  ghost predicate UpTo(path: string, k: nat, dir: string) {
    k <= |DirParts(path)| && dir == DirAt(path, k) && (Top(dir) <==> k == 0)
  }

  lemma TopOnlyLast(path: string, k: nat)
    requires k <= |DirParts(path)|
    ensures Top(DirAt(path, k)) <==> k == 0
  {
    DirPartsReduced(path);
    if k > 0 {
      SplitOfRender(Rooted(path), DirParts(path), k);
    }
  }

  lemma DirUp(path: string, k: nat)
    requires 0 < k <= |DirParts(path)|
    ensures DirOf(DirAt(path, k)) == DirAt(path, k - 1)
  {
    DirPartsReduced(path);
    DirOfRender(Rooted(path), DirParts(path), k);
  }

  lemma UpStarts(path: string)
    ensures UpTo(path, |DirParts(path)|, DirOf(path))
  {
    DirOfParts(path);
    TopOnlyLast(path, |DirParts(path)|);
  }

  lemma ReachedIsAncestor(path: string, k: nat, dir: string)
    requires UpTo(path, k, dir) && k > 0
    ensures dir in Ancestors(path)
  {
    AboveMembers(path, 0, dir);
  }

  lemma UpOne(path: string, k: nat, dir: string)
    requires UpTo(path, k, dir) && k > 0
    ensures UpTo(path, k - 1, DirOf(dir)) && Above(path, k - 1) == {dir} + Above(path, k)
  {
    DirUp(path, k);
    TopOnlyLast(path, k - 1);
  }

  lemma DirPartsReduced(path: string)
    ensures Reduced(Rooted(path), DirParts(path))
  {
    SplitIsPlain(path);
    ReduceIsReduced(Rooted(path), Split(path), |Split(path)| - 1);
  }

  lemma LastSegment(dir: string, name: string)
    requires '/' !in name
    ensures Split(dir + "/" + name) == Split(dir) + [name]
    ensures Split(dir + "/") == Split(dir + "/" + name)[..|Split(dir + "/" + name)| - 1] + [""]
  {
    SplitName(name);
    SplitJoin(dir, name);
    SplitJoin(dir, "");
    assert dir + "/" + "" == dir + "/";
    assert (Split(dir) + [name])[..|Split(dir)|] == Split(dir);
  }

  /** What comes before the last slash has the segments of the path but the last. */
  lemma CutSegments(path: string)
    ensures Split(path[..AfterSlash(path)]) == Split(path)[..|Split(path)| - 1] + [""]
    ensures Rooted(path[..AfterSlash(path)]) == Rooted(path)
  {
    var n := AfterSlash(path);
    if n == 0 {
      SplitName(path);
      assert path[..n] == "";
    } else {
      var dir, name := path[..n - 1], path[n..];
      assert path[..n] == dir + "/";
      assert path == dir + "/" + name;
      LastSegment(dir, name);
    }
  }

  lemma LastEmpty(rooted: bool, segs: seq<string>, n: nat)
    requires n <= |segs|
    ensures Reduce(rooted, segs[..n] + [""], n + 1) == Reduce(rooted, segs, n)
  {
    ReduceAgree(rooted, segs, segs[..n] + [""], n);
  }

  lemma DirOfParts(path: string)
    ensures DirOf(path) == Render(Rooted(path), DirParts(path), |DirParts(path)|)
  {
    CutSegments(path);
    LastEmpty(Rooted(path), Split(path), |Split(path)| - 1);
  }

  lemma DirPartsOfRender(rooted: bool, parts: seq<string>, n: nat)
    requires Reduced(rooted, parts) && 0 < n <= |parts|
    ensures DirParts(Render(rooted, parts, n)) == parts[..n - 1]
  {
    SplitOfRender(rooted, parts, n);
    var init := parts[..n];
    assert KeptAt(rooted, parts, n - 1);
    ReduceAgree(rooted, parts, init, n - 1);
    if rooted {
      SkipFirst(rooted, init, n - 1);
    } else {
      assert [] + init == init;
    }
  }

  /** The directory of a rendered path has one part less. */
  lemma DirOfRender(rooted: bool, parts: seq<string>, n: nat)
    requires Reduced(rooted, parts) && 0 < n <= |parts|
    ensures DirOf(Render(rooted, parts, n)) == Render(rooted, parts, n - 1)
  {
    SplitOfRender(rooted, parts, n);
    DirPartsOfRender(rooted, parts, n);
    DirOfParts(Render(rooted, parts, n));
    RenderAgree(rooted, parts[..n - 1], parts, n - 1);
  }

  lemma {:induction false} JoinAgree(a: seq<string>, b: seq<string>, n: nat)
    requires 0 < n <= |a| && n <= |b| && forall i :: 0 <= i < n ==> a[i] == b[i]
    ensures Join(a, n) == Join(b, n)
  {
    if n > 1 {
      JoinAgree(a, b, n - 1);
    }
  }

  lemma RenderAgree(rooted: bool, a: seq<string>, b: seq<string>, n: nat)
    requires n <= |a| && n <= |b| && forall i :: 0 <= i < n ==> a[i] == b[i]
    ensures Render(rooted, a, n) == Render(rooted, b, n)
  {
    if n > 0 {
      JoinAgree(a, b, n);
    }
  }

  /** The first step up from a path. */
  method ParentOf(path: string) returns (dir: string)
    ensures UpTo(path, |DirParts(path)|, dir)
  {
    UpStarts(path);
    dir := DirOf(path);
  }

  /** One step further up. */
  method NextParent(dir: string, ghost path: string, ghost k: nat) returns (next: string)
    requires UpTo(path, k, dir) && k > 0
    ensures UpTo(path, k - 1, next) && Above(path, k - 1) == {dir} + Above(path, k)
  {
    UpOne(path, k, dir);
    next := DirOf(dir);
  }

  /** A path is its segments with slashes between. */
  lemma {:induction false} JoinOfSplit(s: string)
    ensures Join(Split(s), |Split(s)|) == s
    decreases |s|
  {
    var n := AfterSlash(s);
    if n == 0 {
      SplitName(s);
    } else {
      var dir, name := s[..n - 1], s[n..];
      assert s == dir + "/" + name;
      LastSegment(dir, name);
      JoinOfSplit(dir);
      JoinAgree(Split(dir), Split(s), |Split(dir)|);
    }
  }

  lemma {:induction false} JoinPrefix(parts: seq<string>, k: nat, n: nat)
    requires 0 < k < n <= |parts|
    ensures Join(parts, k) + "/" <= Join(parts, n)
  {
    if k < n - 1 {
      JoinPrefix(parts, k, n - 1);
    }
  }

  lemma RenderPrefix(rooted: bool, parts: seq<string>, k: nat, n: nat)
    requires 0 < k < n <= |parts|
    ensures Render(rooted, parts, k) + "/" <= Render(rooted, parts, n)
  {
    JoinPrefix(parts, k, n);
    var lead := if rooted then "/" else "";
    assert (lead + Join(parts, k)) + "/" == lead + (Join(parts, k) + "/");
  }

  lemma PartsReduced(path: string)
    ensures Reduced(Rooted(path), Parts(path))
  {
    SplitIsPlain(path);
    ReduceIsReduced(Rooted(path), Split(path), |Split(path)|);
  }

  lemma TopHasNone(path: string)
    requires Top(path)
    ensures DirParts(path) == []
  {
    TopSplits();
    assert Reduce(Rooted(path), Split(path), 0) == [];
  }

  /** The directories above a clean path are written above it. */
  lemma AncestorIsAbove(path: string, dir: string)
    requires Clean(path) == path && dir in Ancestors(path)
    ensures dir + "/" <= path
  {
    var rooted, parts := Rooted(path), Parts(path);
    PartsReduced(path);
    AboveMembers(path, 0, dir);
    var k :| 0 < k <= |DirParts(path)| && dir == DirAt(path, k);
    if |parts| == 0 {
      TopHasNone(path);
      assert false;
    }
    DirPartsOfRender(rooted, parts, |parts|);
    RenderAgree(rooted, DirParts(path), parts, k);
    RenderPrefix(rooted, parts, k, |parts|);
  }

  /** Cleaning twice is cleaning once. */
  lemma CleanTwice(path: string)
    ensures Clean(Clean(path)) == Clean(path)
  {
    var rooted, parts := Rooted(path), Parts(path);
    PartsReduced(path);
    if |parts| == 0 {
      TopSplits();
      assert Reduce(true, ["", ""], 0) == [] && Reduce(true, ["", ""], 1) == [] && Reduce(true, ["", ""], 2) == [];
      assert Reduce(false, ["."], 0) == [] && Reduce(false, ["."], 1) == [];
    } else {
      RenderedParts(rooted, parts);
    }
  }

  lemma RenderedParts(rooted: bool, parts: seq<string>)
    requires Reduced(rooted, parts) && |parts| > 0
    ensures Rooted(Render(rooted, parts, |parts|)) == rooted && Parts(Render(rooted, parts, |parts|)) == parts
  {
    SplitOfRender(rooted, parts, |parts|);
    assert parts[..|parts|] == parts;
    assert KeptAt(rooted, parts, |parts|);
    if rooted {
      SkipFirst(rooted, parts, |parts|);
    } else {
      assert [] + parts == parts;
    }
  }
}
