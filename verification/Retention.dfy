/** The tag retention policy: what each rule selects, said once over sets of tags. */
module Retention {
  import opened Common
  import opened Ordering

  datatype Hash = Hash(algorithm: string, hex: string) {
    function String(): string { algorithm + ":" + hex }
  }

  /** `created` counts from Go's zero time, so 0 is an unknown date. */
  datatype TagInfo = TagInfo(tag: string, digest: Hash, created: int) {
    predicate Dated() { created != 0 }
  }

  /** Library functions the policy calls: path.Match, and the calendar names of an instant. */
  datatype Library = Library(
    glob: (string, string) -> bool,
    hour: int -> string,
    day: int -> string,
    week: int -> string,
    month: int -> string,
    year: int -> string)

  datatype Policy = Policy(
    keepLast: int, keepHourly: int, keepDaily: int, keepWeekly: int, keepMonthly: int, keepYearly: int,
    keepWithin: int,
    keepTags: seq<string>,
    scope: Option<string -> bool>,
    groupBy: Option<string -> Option<seq<string>>>)
  {
    predicate Empty() {
      keepLast <= 0 && keepHourly <= 0 && keepDaily <= 0 && keepWeekly <= 0 && keepMonthly <= 0 && keepYearly <= 0
      && keepWithin <= 0 && |keepTags| == 0
    }
  }

  datatype Rule = Rule(n: int, bucket: TagInfo -> string)

  function TagKey(t: TagInfo): string { t.tag + "\0" + t.digest.String() }

  /** The counting rules in the order the policy applies them. */
  function Rules(lib: Library, p: Policy): (rules: seq<Rule>)
    ensures |rules| == 6
  {
    [ Rule(p.keepLast, TagKey),
      Rule(p.keepHourly, (t: TagInfo) => lib.hour(t.created)),
      Rule(p.keepDaily, (t: TagInfo) => lib.day(t.created)),
      Rule(p.keepWeekly, (t: TagInfo) => lib.week(t.created)),
      Rule(p.keepMonthly, (t: TagInfo) => lib.month(t.created)),
      Rule(p.keepYearly, (t: TagInfo) => lib.year(t.created)) ]
  }

  predicate MatchesAny(lib: Library, tag: string, patterns: seq<string>) {
    exists i :: 0 <= i < |patterns| && lib.glob(patterns[i], tag)
  }

  predicate InScope(p: Policy, tag: string) {
    match p.scope case None => true case Some(matches) => matches(tag)
  }

  function Join(parts: seq<string>, sep: string): string {
    if |parts| == 0 then "" else if |parts| == 1 then parts[0] else parts[0] + sep + Join(parts[1..], sep)
  }

  function GroupKeyFor(p: Policy, tag: string): Option<string> {
    match p.groupBy
    case None => Some("")
    case Some(find) =>
      match find(tag)
      case None => None
      case Some(m) => if |m| == 1 then Some(m[0]) else Some(Join(if |m| == 0 then [] else m[1..], "\0"))
  }

  /** The group a tag is retained in, None when no rule may reach it. */
  function GroupOf(p: Policy, tag: string): Option<string> {
    if InScope(p, tag) then GroupKeyFor(p, tag) else None
  }

  /** The order of every list the policy shows: newest first, then digest, then name. */
  predicate Newer(a: TagInfo, b: TagInfo) {
    if a.created != b.created then a.created > b.created
    else if a.digest.String() != b.digest.String() then Less(a.digest.String(), b.digest.String())
    else Less(a.tag, b.tag)
  }

  /** Two tags never share a name, and a name holds no NUL byte. */
  ghost predicate ProperTags(tags: set<TagInfo>) {
    && (forall a, b :: a in tags && b in tags && a.tag == b.tag ==> a == b)
    && (forall a :: a in tags ==> '\0' !in a.tag)
  }

  // ---------- What the rules select, over a set of tags ----------

  /** `t` is the newest dated tag of its bucket. */
  ghost predicate Leads(g: set<TagInfo>, bucket: TagInfo -> string, t: TagInfo) {
    t in g && t.Dated() && forall u :: u in g && u.Dated() && Newer(u, t) ==> bucket(u) != bucket(t)
  }

  ghost function NewerLeads(g: set<TagInfo>, bucket: TagInfo -> string, t: TagInfo): set<TagInfo> {
    set u | u in g && Leads(g, bucket, u) && Newer(u, t)
  }

  ghost predicate Selects(r: Rule, g: set<TagInfo>, t: TagInfo) {
    Leads(g, r.bucket, t) && |NewerLeads(g, r.bucket, t)| < r.n
  }

  ghost predicate KeptOutright(lib: Library, p: Policy, now: int, t: TagInfo) {
    || !t.Dated()
    || MatchesAny(lib, t.tag, p.keepTags)
    || (p.keepWithin > 0 && t.created >= now - p.keepWithin)
  }

  ghost predicate KeptInGroup(lib: Library, p: Policy, now: int, g: set<TagInfo>, t: TagInfo) {
    || KeptOutright(lib, p, now, t)
    || exists r :: r in Rules(lib, p) && Selects(r, g, t)
  }

  ghost function Group(p: Policy, tags: set<TagInfo>, key: string): set<TagInfo> {
    set t | t in tags && GroupOf(p, t.tag) == Some(key)
  }

  /** The whole policy: does it keep `t` when the repository holds `tags`? */
  ghost predicate Keeps(lib: Library, p: Policy, now: int, tags: set<TagInfo>, t: TagInfo) {
    p.Empty() ||
    match GroupOf(p, t.tag)
    case None => true
    case Some(key) => KeptInGroup(lib, p, now, Group(p, tags, key), t)
  }

  ghost function KeepSet(lib: Library, p: Policy, now: int, tags: set<TagInfo>): set<TagInfo> {
    set t | t in tags && Keeps(lib, p, now, tags, t)
  }

  // ---------- The order is total on tags with distinct names ----------

  lemma NewerAsymmetric(a: TagInfo, b: TagInfo)
    ensures !(Newer(a, b) && Newer(b, a))
  {
    LessTotal(a.digest.String(), b.digest.String());
    LessTotal(a.tag, b.tag);
  }

  lemma NewerTotal(a: TagInfo, b: TagInfo)
    requires a.tag != b.tag
    ensures Newer(a, b) || Newer(b, a)
  {
    LessTotal(a.digest.String(), b.digest.String());
    LessTotal(a.tag, b.tag);
  }

  lemma NewerTransitive(a: TagInfo, b: TagInfo, c: TagInfo)
    requires Newer(a, b) && Newer(b, c)
    ensures Newer(a, c)
  {
    if a.created == b.created == c.created {
      var x, y, z := a.digest.String(), b.digest.String(), c.digest.String();
      if x == y == z {
        LessTransitive(a.tag, b.tag, c.tag);
      } else if Less(x, y) && Less(y, z) {
        LessTransitive(x, y, z);
        LessTotal(x, z);
      }
      LessTotal(x, y);
      LessTotal(y, z);
    }
  }

  // ---------- Counting in a finite ordered set ----------

  ghost function Ahead(f: set<TagInfo>, t: TagInfo): set<TagInfo> {
    set u | u in f && Newer(u, t)
  }

  lemma SubsetSize<T>(a: set<T>, b: set<T>)
    requires a <= b
    ensures |a| <= |b|
  {
    assert b == a + (b - a);
  }

  /** The oldest of a non-empty set of tags. */
  lemma {:induction false} Oldest(f: set<TagInfo>) returns (w: TagInfo)
    requires f != {} && ProperTags(f)
    ensures w in f && forall u :: u in f && u != w ==> Newer(u, w)
    decreases |f|
  {
    w :| w in f;
    if f != {w} {
      var rest := f - {w};
      var o := Oldest(rest);
      NewerTotal(o, w);
      if Newer(w, o) {
        w := o;
      } else {
        forall u | u in f && u != w ensures Newer(u, w) {
          if u != o {
            NewerTransitive(u, o, w);
          }
        }
      }
    }
  }

  /** If at least n elements are ahead of v, then n of them are among the first n of the whole set. */
  lemma {:induction false} FirstN(f: set<TagInfo>, v: TagInfo, n: nat)
    requires ProperTags(f) && |Ahead(f, v)| >= n
    ensures |set u | u in f && Newer(u, v) && |Ahead(f, u)| < n| >= n
    decreases |Ahead(f, v)|
  {
    var ahead := Ahead(f, v);
    var first := set u | u in f && Newer(u, v) && |Ahead(f, u)| < n;
    if n > 0 {
      assert ahead != {};
      var w := Oldest(ahead);
      assert Ahead(f, w) == ahead - {w} by {
        forall u | u in f && Newer(u, w) ensures u in ahead - {w} {
          NewerTransitive(u, w, v);
          NewerAsymmetric(u, w);
        }
      }
      if |Ahead(f, w)| < n {
        forall u | u in ahead ensures |Ahead(f, u)| < n {
          forall x | x in Ahead(f, u) ensures x in ahead {
            NewerTransitive(x, u, v);
          }
          assert u !in Ahead(f, u) by { NewerAsymmetric(u, u); }
          SubsetSize(Ahead(f, u), ahead - {u});
        }
        assert first == ahead;
      } else {
        FirstN(f, w, n);
        var firstW := set u | u in f && Newer(u, w) && |Ahead(f, u)| < n;
        forall u | u in firstW ensures u in first {
          NewerTransitive(u, w, v);
        }
        SubsetSize(firstW, first);
      }
    }
  }

  // ---------- One rule, after some of the tags it did not keep are gone ----------

  ghost function LeadSet(g: set<TagInfo>, bucket: TagInfo -> string): set<TagInfo> {
    set u | u in g && Leads(g, bucket, u)
  }

  /** Every dated tag is led by some tag of its bucket, itself or a newer one. */
  lemma {:induction false} LeaderOf(g: set<TagInfo>, bucket: TagInfo -> string, t: TagInfo) returns (v: TagInfo)
    requires t in g && t.Dated() && ProperTags(g)
    ensures Leads(g, bucket, v) && bucket(v) == bucket(t) && (v == t || Newer(v, t))
    decreases |Ahead(g, t)|
  {
    if u :| u in g && u.Dated() && Newer(u, t) && bucket(u) == bucket(t) {
      forall x | x in Ahead(g, u) ensures x in Ahead(g, t) {
        NewerTransitive(x, u, t);
      }
      assert u !in Ahead(g, u) by { NewerAsymmetric(u, u); }
      SubsetSize(Ahead(g, u), Ahead(g, t) - {u});
      v := LeaderOf(g, bucket, u);
      if v != u {
        NewerTransitive(v, u, t);
      }
    } else {
      v := t;
    }
  }

  /** What is ahead of a selected tag in the ranking is selected too. */
  lemma AheadOfSelected(r: Rule, g: set<TagInfo>, v: TagInfo, t: TagInfo)
    requires Leads(g, r.bucket, v) && (v == t || Newer(v, t)) && |NewerLeads(g, r.bucket, t)| < r.n
    ensures Selects(r, g, v)
  {
    if v != t {
      forall x | x in NewerLeads(g, r.bucket, v) ensures x in NewerLeads(g, r.bucket, t) {
        NewerTransitive(x, v, t);
      }
    }
    SubsetSize(NewerLeads(g, r.bucket, v), NewerLeads(g, r.bucket, t));
  }

  /** A selected tag stays selected when only tags the rule did not select are taken away. */
  lemma SelectedSurvives(r: Rule, g: set<TagInfo>, x: set<TagInfo>, t: TagInfo)
    requires ProperTags(g) && x <= g && t in x
    requires forall u :: u in g && Selects(r, g, u) ==> u in x
    requires Selects(r, g, t)
    ensures Selects(r, x, t)
  {
    forall u | u in NewerLeads(x, r.bucket, t) ensures u in NewerLeads(g, r.bucket, t) {
      var v := LeaderOf(g, r.bucket, u);
      if v != u {
        NewerTransitive(v, u, t);
        AheadOfSelected(r, g, v, t);
        assert false;
      }
    }
    SubsetSize(NewerLeads(x, r.bucket, t), NewerLeads(g, r.bucket, t));
  }

  /** A tag the rule did not select is not selected after others are taken away. */
  lemma UnselectedStaysOut(r: Rule, g: set<TagInfo>, x: set<TagInfo>, t: TagInfo)
    requires ProperTags(g) && x <= g && t in x
    requires forall u :: u in g && Selects(r, g, u) ==> u in x
    requires !Selects(r, g, t)
    ensures !Selects(r, x, t)
  {
    if Selects(r, x, t) {
      var f := LeadSet(g, r.bucket);
      var v := LeaderOf(g, r.bucket, t);
      assert !Selects(r, g, v);
      assert Ahead(f, v) == NewerLeads(g, r.bucket, v);
      FirstN(f, v, r.n);
      var first := set u | u in f && Newer(u, v) && |Ahead(f, u)| < r.n;
      forall u | u in first ensures u in NewerLeads(x, r.bucket, t) {
        assert Ahead(f, u) == NewerLeads(g, r.bucket, u);
        assert Selects(r, g, u);
        if v != t {
          NewerTransitive(u, v, t);
        }
      }
      SubsetSize(first, NewerLeads(x, r.bucket, t));
    }
  }

  // ---------- The whole policy ----------

  /** Taking away any tags the policy does not keep changes nothing about the ones left. */
  lemma KeepsIsStable(lib: Library, p: Policy, now: int, tags: set<TagInfo>, x: set<TagInfo>, t: TagInfo)
    requires ProperTags(tags) && KeepSet(lib, p, now, tags) <= x <= tags && t in x
    ensures Keeps(lib, p, now, x, t) <==> Keeps(lib, p, now, tags, t)
  {
    if !p.Empty() && GroupOf(p, t.tag).Some? && !KeptOutright(lib, p, now, t) {
      var key := GroupOf(p, t.tag).value;
      var g, gx := Group(p, tags, key), Group(p, x, key);
      forall r | r in Rules(lib, p) ensures Selects(r, gx, t) <==> Selects(r, g, t) {
        forall u | u in g && Selects(r, g, u) ensures u in gx {
          assert Keeps(lib, p, now, tags, u);
          assert u in KeepSet(lib, p, now, tags);
        }
        if Selects(r, g, t) {
          SelectedSurvives(r, g, gx, t);
        } else {
          UnselectedStaysOut(r, g, gx, t);
        }
      }
    }
  }

  /** A prune that stopped anywhere and is run again keeps exactly what the first plan kept. */
  lemma RetentionIsResumable(lib: Library, p: Policy, now: int, tags: set<TagInfo>, x: set<TagInfo>)
    requires ProperTags(tags) && KeepSet(lib, p, now, tags) <= x <= tags
    ensures KeepSet(lib, p, now, x) == KeepSet(lib, p, now, tags)
    ensures x - KeepSet(lib, p, now, x) == x * (tags - KeepSet(lib, p, now, tags))
  {
    forall t | t in x
      ensures Keeps(lib, p, now, x, t) <==> Keeps(lib, p, now, tags, t)
    {
      KeepsIsStable(lib, p, now, tags, x, t);
    }
  }

  /** A finished prune leaves nothing to do. */
  lemma RetentionIsIdempotent(lib: Library, p: Policy, now: int, tags: set<TagInfo>)
    requires ProperTags(tags)
    ensures var kept := KeepSet(lib, p, now, tags); KeepSet(lib, p, now, kept) == kept
  {
    RetentionIsResumable(lib, p, now, tags, KeepSet(lib, p, now, tags));
  }

  /** A group's outcome depends on that group's tags only. */
  lemma GroupsAreIndependent(lib: Library, p: Policy, now: int, a: set<TagInfo>, b: set<TagInfo>, key: string)
    requires Group(p, a, key) == Group(p, b, key)
    ensures Group(p, KeepSet(lib, p, now, a), key) == Group(p, KeepSet(lib, p, now, b), key)
  {
    forall t | t in Group(p, a, key)
      ensures t in Group(p, KeepSet(lib, p, now, a), key) <==> t in Group(p, KeepSet(lib, p, now, b), key)
    {
      assert t in Group(p, b, key);
    }
  }

  /** Tags out of scope, without a group, or without a date are never removed. */
  lemma UntouchableTags(lib: Library, p: Policy, now: int, tags: set<TagInfo>, t: TagInfo)
    requires t in tags
    requires || (p.scope.Some? && !p.scope.value(t.tag))
             || (p.groupBy.Some? && p.groupBy.value(t.tag).None?)
             || t.created == 0
    ensures t in KeepSet(lib, p, now, tags)
  {
  }

  /** What stands before and after the first NUL byte is determined. */
  lemma AroundNul(x: string, u: string, y: string, v: string)
    requires '\0' !in x && '\0' !in y && x + "\0" + u == y + "\0" + v
    ensures x == y && u == v
  {
    var a, b := x + "\0" + u, y + "\0" + v;
    assert a[|x|] == '\0' && b[|y|] == '\0';
    assert forall i :: 0 <= i < |x| ==> a[i] == x[i];
    assert forall i :: 0 <= i < |y| ==> b[i] == y[i];
    assert |x| == |y|;
    assert x == a[..|x|] && y == b[..|y|];
    assert u == a[|x| + 1..] && v == b[|y| + 1..];
  }

  lemma {:induction false} JoinInjective(a: seq<string>, b: seq<string>)
    requires |a| == |b| && (forall i :: 0 <= i < |a| ==> '\0' !in a[i]) && (forall i :: 0 <= i < |b| ==> '\0' !in b[i])
    requires Join(a, "\0") == Join(b, "\0")
    ensures a == b
  {
    if |a| > 1 {
      AroundNul(a[0], Join(a[1..], "\0"), b[0], Join(b[1..], "\0"));
      JoinInjective(a[1..], b[1..]);
      assert a == [a[0]] + a[1..] && b == [b[0]] + b[1..];
    }
  }

  /** Two tags in scope are retained together exactly when the pattern captures the same of both. */
  lemma SameGroupIffSameCaptures(p: Policy, a: string, b: string, m: seq<string>, n: seq<string>)
    requires p.groupBy.Some? && p.groupBy.value(a) == Some(m) && p.groupBy.value(b) == Some(n)
    requires p.scope.Some? ==> p.scope.value(a) && p.scope.value(b)
    requires |m| == |n| > 0 && (forall i :: 0 <= i < |m| ==> '\0' !in m[i]) && (forall i :: 0 <= i < |n| ==> '\0' !in n[i])
    ensures GroupOf(p, a).Some? && GroupOf(p, b).Some?
    ensures GroupOf(p, a) == GroupOf(p, b) <==> if |m| == 1 then m[0] == n[0] else m[1..] == n[1..]
  {
    if |m| > 1 && Join(m[1..], "\0") == Join(n[1..], "\0") {
      JoinInjective(m[1..], n[1..]);
    }
  }

  lemma TagKeyInjective(a: TagInfo, b: TagInfo)
    requires '\0' !in a.tag && '\0' !in b.tag && TagKey(a) == TagKey(b)
    ensures a.tag == b.tag
  {
    AroundNul(a.tag, a.digest.String(), b.tag, b.digest.String());
  }

  /** The first N dated tags of every group in the shown order survive KeepLast N. */
  lemma FirstRanksSurvive(lib: Library, p: Policy, now: int, tags: set<TagInfo>, t: TagInfo)
    requires ProperTags(tags) && t in tags && GroupOf(p, t.tag).Some? && t.Dated()
    requires |set u | u in Group(p, tags, GroupOf(p, t.tag).value) && u.Dated() && Newer(u, t)| < p.keepLast
    ensures t in KeepSet(lib, p, now, tags)
  {
    var g := Group(p, tags, GroupOf(p, t.tag).value);
    var r := Rules(lib, p)[0];
    var newer := set u | u in g && u.Dated() && Newer(u, t);
    forall u | u in g && u.Dated() && Newer(u, t) ensures r.bucket(u) != r.bucket(t) {
      if r.bucket(u) == r.bucket(t) {
        TagKeyInjective(u, t);
        NewerAsymmetric(u, t);
        assert false;
      }
    }
    SubsetSize(NewerLeads(g, r.bucket, t), newer);
    assert r in Rules(lib, p) && Selects(r, g, t);
  }

  /** KeepLast N on the dates: a tag with fewer than N others of its group dated as late survives. */
  lemma NewestSurvive(lib: Library, p: Policy, now: int, tags: set<TagInfo>, t: TagInfo)
    requires ProperTags(tags) && t in tags && GroupOf(p, t.tag).Some? && t.Dated()
    requires |set u | u in Group(p, tags, GroupOf(p, t.tag).value) && u != t && u.Dated() && u.created >= t.created| < p.keepLast
    ensures t in KeepSet(lib, p, now, tags)
  {
    var g := Group(p, tags, GroupOf(p, t.tag).value);
    var newer := set u | u in g && u.Dated() && Newer(u, t);
    var asLate := set u | u in g && u != t && u.Dated() && u.created >= t.created;
    assert t !in newer by { NewerAsymmetric(t, t); }
    SubsetSize(newer, asLate);
    FirstRanksSurvive(lib, p, now, tags, t);
  }

  /** Every rule of `q` is at least as generous as the same rule of `p`. */
  ghost predicate AtLeastAsGenerous(q: Policy, p: Policy) {
    && q.keepLast >= p.keepLast && q.keepHourly >= p.keepHourly && q.keepDaily >= p.keepDaily
    && q.keepWeekly >= p.keepWeekly && q.keepMonthly >= p.keepMonthly && q.keepYearly >= p.keepYearly
    && q.keepWithin >= p.keepWithin
    && (forall i :: 0 <= i < |p.keepTags| ==> p.keepTags[i] in q.keepTags)
    && q.scope == p.scope && q.groupBy == p.groupBy
  }

  /** Strengthening the rules of a policy that has some never removes more. */
  lemma StrongerKeepsMore(lib: Library, p: Policy, q: Policy, now: int, tags: set<TagInfo>)
    requires !p.Empty() && AtLeastAsGenerous(q, p)
    ensures KeepSet(lib, p, now, tags) <= KeepSet(lib, q, now, tags)
  {
    forall t | t in KeepSet(lib, p, now, tags) ensures t in KeepSet(lib, q, now, tags) {
      if GroupOf(p, t.tag).Some? && !KeptOutright(lib, q, now, t) {
        assert forall i :: 0 <= i < |p.keepTags| ==> p.keepTags[i] in q.keepTags;
        assert !KeptOutright(lib, p, now, t);
        var g := Group(p, tags, GroupOf(p, t.tag).value);
        assert g == Group(q, tags, GroupOf(q, t.tag).value);
        StrongerSelectsMore(lib, p, q, g, t);
      }
    }
  }

  lemma StrongerSelectsMore(lib: Library, p: Policy, q: Policy, g: set<TagInfo>, t: TagInfo)
    requires AtLeastAsGenerous(q, p) && exists r :: r in Rules(lib, p) && Selects(r, g, t)
    ensures exists s :: s in Rules(lib, q) && Selects(s, g, t)
  {
    var r :| r in Rules(lib, p) && Selects(r, g, t);
    var i :| 0 <= i < 6 && Rules(lib, p)[i] == r;
    var s := Rules(lib, q)[i];
    assert s.n >= r.n && NewerLeads(g, s.bucket, t) == NewerLeads(g, r.bucket, t);
    assert s in Rules(lib, q) && Selects(s, g, t);
  }

  /** The empty policy is the exception: it keeps everything, and a first rule may remove. */
  lemma EmptyPolicyIsTheException(lib: Library)
    ensures exists p: Policy, q: Policy, tags: set<TagInfo> ::
              AtLeastAsGenerous(q, p) && ProperTags(tags) && !(KeepSet(lib, p, 0, tags) <= KeepSet(lib, q, 0, tags))
  {
    var p := Policy(0, 0, 0, 0, 0, 0, 0, [], None, None);
    var q := p.(keepLast := 1);
    var older, newest := TagInfo("a", Hash("s", "1"), 1), TagInfo("b", Hash("s", "2"), 2);
    var tags := {older, newest};
    assert Newer(newest, older);
    var g := Group(q, tags, "");
    assert g == tags;
    var last := Rules(lib, q)[0];
    assert TagKey(newest)[0] != TagKey(older)[0];
    NewerAsymmetric(older, newest);
    NewerAsymmetric(newest, newest);
    assert newest in NewerLeads(g, last.bucket, older);
    SubsetSize({newest}, NewerLeads(g, last.bucket, older));
    assert forall r :: r in Rules(lib, q) ==> !Selects(r, g, older);
    assert !KeptOutright(lib, q, 0, older);
    assert older in KeepSet(lib, p, 0, tags) && older !in KeepSet(lib, q, 0, tags);
  }
}
