/** The retention rules on dates alone: which tags they must keep, and which they cannot. */
module Recency {
  import opened Common
  import opened Retention

  datatype Period = Hour | Day | Week | Month | Year

  function NameOf(lib: Library, period: Period, created: int): string {
    match period
    case Hour => lib.hour(created)
    case Day => lib.day(created)
    case Week => lib.week(created)
    case Month => lib.month(created)
    case Year => lib.year(created)
  }

  function Allowed(p: Policy, period: Period): int {
    match period
    case Hour => p.keepHourly
    case Day => p.keepDaily
    case Week => p.keepWeekly
    case Month => p.keepMonthly
    case Year => p.keepYearly
  }

  /** The counting rule of a period. */
  lemma RuleOf(lib: Library, p: Policy, period: Period) returns (r: Rule)
    ensures r in Rules(lib, p) && r.n == Allowed(p, period)
    ensures forall t: TagInfo :: r.bucket(t) == NameOf(lib, period, t.created)
  {
    var k := match period case Hour => 1 case Day => 2 case Week => 3 case Month => 4 case Year => 5;
    r := Rules(lib, p)[k];
  }

  // ---------- Counting through a naming ----------

  /** Differently named elements are no more than the names they draw on. */
  lemma {:induction false} FewerThanNames(a: set<TagInfo>, name: TagInfo -> string, names: set<string>)
    requires forall x :: x in a ==> name(x) in names
    requires forall x, y :: x in a && y in a && name(x) == name(y) ==> x == y
    ensures |a| <= |names|
  {
    if a != {} {
      var x :| x in a;
      FewerThanNames(a - {x}, name, names - {name(x)});
    }
  }

  /** Names that are all borne are no more than their bearers. */
  lemma {:induction false} FewerThanBearers(names: set<string>, a: set<TagInfo>, name: TagInfo -> string)
    requires forall n :: n in names ==> exists x :: x in a && name(x) == n
    ensures |names| <= |a|
  {
    if names != {} {
      var n :| n in names;
      var x :| x in a && name(x) == n;
      forall m | m in names - {n} ensures exists y :: y in a - {x} && name(y) == m {
        var y :| y in a && name(y) == m;
        assert y in a - {x};
      }
      FewerThanBearers(names - {n}, a - {x}, name);
    }
  }

  lemma OneLeaderPerBucket(g: set<TagInfo>, bucket: TagInfo -> string, u: TagInfo, v: TagInfo)
    requires ProperTags(g) && Leads(g, bucket, u) && Leads(g, bucket, v) && bucket(u) == bucket(v)
    ensures u == v
  {
    if u != v {
      NewerTotal(u, v);
    }
  }

  /** A leader has the latest date of its bucket. */
  lemma LeaderIsLatest(g: set<TagInfo>, bucket: TagInfo -> string, t: TagInfo)
    requires Leads(g, bucket, t)
    ensures forall u :: u in g && u.Dated() && bucket(u) == bucket(t) ==> u.created <= t.created
  {
    forall u | u in g && u.Dated() && bucket(u) == bucket(t) ensures u.created <= t.created {
      assert !Newer(u, t);
    }
  }

  // ---------- What a rule must keep ----------

  /** The other buckets with a tag dated as late. */
  ghost function OtherNames(g: set<TagInfo>, bucket: TagInfo -> string, t: TagInfo): set<string> {
    set u | u in g && u.Dated() && u.created >= t.created && bucket(u) != bucket(t) :: bucket(u)
  }

  lemma LeaderSelected(r: Rule, g: set<TagInfo>, t: TagInfo) returns (v: TagInfo)
    requires ProperTags(g) && t in g && t.Dated() && |OtherNames(g, r.bucket, t)| < r.n
    ensures Selects(r, g, v) && r.bucket(v) == r.bucket(t) && v.created >= t.created
  {
    v := LeaderOf(g, r.bucket, t);
    var ahead := NewerLeads(g, r.bucket, v);
    forall x | x in ahead ensures r.bucket(x) in OtherNames(g, r.bucket, t) {
      assert x.created >= v.created && r.bucket(x) != r.bucket(v);
    }
    forall x, y | x in ahead && y in ahead && r.bucket(x) == r.bucket(y) ensures x == y {
      OneLeaderPerBucket(g, r.bucket, x, y);
    }
    FewerThanNames(ahead, r.bucket, OtherNames(g, r.bucket, t));
  }

  /** The other hours, days, weeks, months or years with a tag dated as late. */
  ghost function OtherPeriods(lib: Library, period: Period, g: set<TagInfo>, t: TagInfo): set<string> {
    set u | u in g && u.Dated() && u.created >= t.created && NameOf(lib, period, u.created) != NameOf(lib, period, t.created)
      :: NameOf(lib, period, u.created)
  }

  /** A tag with the latest date of its period. */
  ghost predicate Latest(lib: Library, period: Period, g: set<TagInfo>, t: TagInfo) {
    forall u :: u in g && u.Dated() && NameOf(lib, period, u.created) == NameOf(lib, period, t.created) ==> u.created <= t.created
  }

  /**
   * The calendar rules on the dates: as long as fewer than N other periods of the group reach as late, the
   * period of `t` keeps a tag with its latest date.
   */
  lemma PeriodSurvives(lib: Library, p: Policy, now: int, tags: set<TagInfo>, period: Period, t: TagInfo) returns (v: TagInfo)
    requires ProperTags(tags) && t in tags && GroupOf(p, t.tag).Some? && t.Dated()
    requires |OtherPeriods(lib, period, Group(p, tags, GroupOf(p, t.tag).value), t)| < Allowed(p, period)
    ensures v in KeepSet(lib, p, now, tags) && GroupOf(p, v.tag) == GroupOf(p, t.tag) && v.Dated()
    ensures NameOf(lib, period, v.created) == NameOf(lib, period, t.created) && v.created >= t.created
    ensures Latest(lib, period, Group(p, tags, GroupOf(p, t.tag).value), v)
  {
    var g := Group(p, tags, GroupOf(p, t.tag).value);
    var r := RuleOf(lib, p, period);
    assert OtherNames(g, r.bucket, t) == OtherPeriods(lib, period, g, t);
    v := LeaderSelected(r, g, t);
    LeaderIsLatest(g, r.bucket, v);
  }

  // ---------- What a rule can keep ----------

  ghost function LaterNames(g: set<TagInfo>, bucket: TagInfo -> string, t: TagInfo): set<string> {
    set u | u in g && u.Dated() && u.created > t.created :: bucket(u)
  }

  lemma SelectedIsRecent(r: Rule, g: set<TagInfo>, t: TagInfo)
    requires ProperTags(g) && Selects(r, g, t)
    ensures |LaterNames(g, r.bucket, t)| < r.n
  {
    var names, ahead := LaterNames(g, r.bucket, t), NewerLeads(g, r.bucket, t);
    forall n | n in names ensures exists x :: x in ahead && r.bucket(x) == n {
      var u :| u in g && u.Dated() && u.created > t.created && r.bucket(u) == n;
      var x := LeaderOf(g, r.bucket, u);
      assert x.created >= u.created && x in ahead;
    }
    FewerThanBearers(names, ahead, r.bucket);
  }

  /** The periods of the group that reach later than `t`. */
  ghost function LaterPeriods(lib: Library, period: Period, g: set<TagInfo>, t: TagInfo): set<string> {
    set u | u in g && u.Dated() && u.created > t.created :: NameOf(lib, period, u.created)
  }

  /** A calendar rule has room for the period of `t`, and nothing in that period is later. */
  ghost predicate RecentEnough(lib: Library, p: Policy, period: Period, g: set<TagInfo>, t: TagInfo) {
    Latest(lib, period, g, t) && |LaterPeriods(lib, period, g, t)| < Allowed(p, period)
  }

  ghost function Later(g: set<TagInfo>, t: TagInfo): set<TagInfo> {
    set u | u in g && u.Dated() && u.created > t.created
  }

  lemma LastMeansFewLater(lib: Library, p: Policy, g: set<TagInfo>, t: TagInfo)
    requires ProperTags(g) && Selects(Rules(lib, p)[0], g, t)
    ensures |Later(g, t)| < p.keepLast
  {
    var r := Rules(lib, p)[0];
    SelectedIsRecent(r, g, t);
    forall x, y | x in Later(g, t) && y in Later(g, t) && r.bucket(x) == r.bucket(y) ensures x == y {
      TagKeyInjective(x, y);
    }
    FewerThanNames(Later(g, t), r.bucket, LaterNames(g, r.bucket, t));
  }

  lemma PeriodMeansRecent(lib: Library, p: Policy, g: set<TagInfo>, t: TagInfo, period: Period, r: Rule)
    requires ProperTags(g) && Selects(r, g, t) && r.n == Allowed(p, period)
    requires forall u: TagInfo :: r.bucket(u) == NameOf(lib, period, u.created)
    ensures RecentEnough(lib, p, period, g, t)
  {
    SelectedIsRecent(r, g, t);
    LeaderIsLatest(g, r.bucket, t);
    assert LaterNames(g, r.bucket, t) == LaterPeriods(lib, period, g, t);
  }

  /**
   * What is kept has a reason on its own name and date: no date, a protected name, within the window, fewer
   * than KeepLast later tags in its group, or the latest of a period with fewer than N later ones.
   */
  lemma KeptForAReason(lib: Library, p: Policy, now: int, tags: set<TagInfo>, t: TagInfo)
    requires ProperTags(tags) && GroupOf(p, t.tag).Some? && t in KeepSet(lib, p, now, tags)
    requires || p.keepLast > 0 || p.keepHourly > 0 || p.keepDaily > 0 || p.keepWeekly > 0 || p.keepMonthly > 0 || p.keepYearly > 0
             || p.keepWithin > 0 || |p.keepTags| > 0
    ensures var g := Group(p, tags, GroupOf(p, t.tag).value);
            || t.created == 0
            || (exists i :: 0 <= i < |p.keepTags| && lib.glob(p.keepTags[i], t.tag))
            || (p.keepWithin > 0 && now - t.created <= p.keepWithin)
            || |Later(g, t)| < p.keepLast
            || (exists period :: RecentEnough(lib, p, period, g, t))
  {
    var g := Group(p, tags, GroupOf(p, t.tag).value);
    if !KeptOutright(lib, p, now, t) {
      var r :| r in Rules(lib, p) && Selects(r, g, t);
      var k :| 0 <= k < 6 && Rules(lib, p)[k] == r;
      if k == 0 {
        LastMeansFewLater(lib, p, g, t);
      } else {
        var period := if k == 1 then Hour else if k == 2 then Day else if k == 3 then Week else if k == 4 then Month else Year;
        PeriodMeansRecent(lib, p, g, t, period, r);
      }
    }
  }

  /** A protected name and a date within the window are each enough. */
  lemma ProtectedSurvive(lib: Library, p: Policy, now: int, tags: set<TagInfo>, t: TagInfo)
    requires t in tags
    requires (exists i :: 0 <= i < |p.keepTags| && lib.glob(p.keepTags[i], t.tag)) || (p.keepWithin > 0 && now - t.created <= p.keepWithin)
    ensures t in KeepSet(lib, p, now, tags)
  {
    assert KeptOutright(lib, p, now, t);
  }
}
