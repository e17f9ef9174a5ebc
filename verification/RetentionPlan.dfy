/** The policy engine as it runs: scope, groups, one pass per rule, and the resulting plan. */
module RetentionPlan {
  import opened Common
  import opened Ordering
  import opened Retention

  datatype GroupResult = GroupResult(key: string, tags: nat, keep: seq<TagInfo>, remove: seq<TagInfo>)

  datatype Plan = Plan(
    total: nat, inScope: nat, ungrouped: nat,
    groups: seq<GroupResult>,
    untouched: seq<TagInfo>, keep: seq<TagInfo>, remove: seq<TagInfo>)

  /** A listing names every tag once, and no name holds a NUL byte. */
  ghost predicate ProperList(tags: seq<TagInfo>) {
    && (forall i, j :: 0 <= i < j < |tags| ==> tags[i].tag != tags[j].tag)
    && (forall i :: 0 <= i < |tags| ==> '\0' !in tags[i].tag)
  }

  ghost function Elements(tags: seq<TagInfo>): set<TagInfo> { set t | t in tags }

  ghost predicate NewestFirst(tags: seq<TagInfo>) {
    forall i, j :: 0 <= i < j < |tags| ==> Newer(tags[i], tags[j])
  }

  /** The order on the fields: latest date first; one date by digest, one digest by name. */
  ghost predicate DatesDescend(tags: seq<TagInfo>) {
    forall i, j :: 0 <= i < j < |tags| ==>
      && tags[i].created >= tags[j].created
      && (tags[i].created == tags[j].created ==> !Less(tags[j].digest.String(), tags[i].digest.String()))
      && (tags[i].created == tags[j].created && tags[i].digest.String() == tags[j].digest.String() ==> !Less(tags[j].tag, tags[i].tag))
  }

  lemma SortedDatesDescend(tags: seq<TagInfo>)
    requires Sorted(tags, Newer)
    ensures DatesDescend(tags)
  {
    forall i, j | 0 <= i < j < |tags|
      ensures tags[i].created >= tags[j].created
      ensures tags[i].created == tags[j].created ==> !Less(tags[j].digest.String(), tags[i].digest.String())
      ensures tags[i].created == tags[j].created && tags[i].digest.String() == tags[j].digest.String() ==> !Less(tags[j].tag, tags[i].tag)
    {
      assert !Newer(tags[j], tags[i]);
      LessTotal(tags[j].digest.String(), tags[i].digest.String());
    }
  }

  function InScopeOnly(p: Policy, tags: seq<TagInfo>): seq<TagInfo> {
    if |tags| == 0 then []
    else
      var rest, last := InScopeOnly(p, tags[..|tags| - 1]), tags[|tags| - 1];
      if InScope(p, last.tag) then rest + [last] else rest
  }

  /** The tags of one group in listing order; None collects the tags no rule may reach. */
  function Members(p: Policy, tags: seq<TagInfo>, key: Option<string>): seq<TagInfo> {
    if |tags| == 0 then []
    else
      var rest, last := Members(p, tags[..|tags| - 1], key), tags[|tags| - 1];
      if GroupOf(p, last.tag) == key then rest + [last] else rest
  }

  lemma {:induction false} MembersCount(p: Policy, tags: seq<TagInfo>, key: Option<string>, t: TagInfo)
    ensures multiset(Members(p, tags, key))[t] == if GroupOf(p, t.tag) == key then multiset(tags)[t] else 0
  {
    if |tags| > 0 {
      MembersCount(p, tags[..|tags| - 1], key, t);
      assert tags == tags[..|tags| - 1] + [tags[|tags| - 1]];
    }
  }

  lemma {:induction false} MembersProper(p: Policy, tags: seq<TagInfo>, key: Option<string>)
    requires ProperList(tags)
    ensures ProperList(Members(p, tags, key))
    ensures forall t :: t in Members(p, tags, key) <==> t in tags && GroupOf(p, t.tag) == key
  {
    if |tags| > 0 {
      var init := tags[..|tags| - 1];
      assert tags == init + [tags[|tags| - 1]];
      MembersProper(p, init, key);
    }
  }

  lemma ProperElements(tags: seq<TagInfo>)
    requires ProperList(tags)
    ensures ProperTags(Elements(tags)) && NoDuplicates(tags)
  {
  }

  lemma NewerStrictWeak()
    ensures StrictWeak(Newer)
  {
    forall a: TagInfo, b: TagInfo ensures !(Newer(a, b) && Newer(b, a)) {
      NewerAsymmetric(a, b);
    }
    StringsStrictWeak();
    forall a: TagInfo, b: TagInfo, c: TagInfo | !Newer(a, b) && !Newer(b, c) ensures !Newer(a, c) {
      var x, y, z := a.digest.String(), b.digest.String(), c.digest.String();
      LessTotal(x, y);
      LessTotal(y, z);
      LessTotal(x, z);
      assert !Less(a.tag, b.tag) && !Less(b.tag, c.tag) ==> !Less(a.tag, c.tag);
      assert !Less(x, y) && !Less(y, z) ==> !Less(x, z);
    }
  }

  lemma SortedNewest(tags: seq<TagInfo>)
    ensures Sorted(Sort(tags, Newer), Newer)
  {
    NewerStrictWeak();
    SortSorted(tags, Newer);
  }

  lemma ProperPermutation(tags: seq<TagInfo>, s: seq<TagInfo>)
    requires ProperList(tags) && multiset(s) == multiset(tags)
    ensures ProperList(s)
  {
    PermutationMembers(tags, s);
    assert NoDuplicates(s) by {
      NoDuplicatesCount(tags);
      NoDuplicatesCount(s);
    }
    forall i, j | 0 <= i < j < |s| ensures s[i].tag != s[j].tag {
      assert s[i] in tags && s[j] in tags;
    }
    forall i | 0 <= i < |s| ensures '\0' !in s[i].tag {
      assert s[i] in tags;
    }
  }

  /** Sorting a proper listing gives its tags, strictly newest first. */
  lemma SortTagsNewest(tags: seq<TagInfo>)
    ensures Sorted(Sort(tags, Newer), Newer) && DatesDescend(Sort(tags, Newer))
    ensures ProperList(tags) ==> NewestFirst(Sort(tags, Newer)) && ProperList(Sort(tags, Newer))
    ensures Elements(Sort(tags, Newer)) == Elements(tags)
  {
    var s := Sort(tags, Newer);
    SortedNewest(tags);
    SortedDatesDescend(s);
    PermutationMembers(tags, s);
    if ProperList(tags) {
      ProperPermutation(tags, s);
      forall i, j | 0 <= i < j < |s| ensures Newer(s[i], s[j]) {
        NewerTotal(s[i], s[j]);
      }
    }
  }

  // ---------- One rule over one sorted group ----------

  /** Tag i is the first dated tag of its bucket in the list. */
  predicate FirstOfBucket(tags: seq<TagInfo>, bucket: TagInfo -> string, i: nat)
    requires i < |tags|
  {
    tags[i].Dated() && forall j :: 0 <= j < i && tags[j].Dated() ==> bucket(tags[j]) != bucket(tags[i])
  }

  function FirstsBefore(tags: seq<TagInfo>, bucket: TagInfo -> string, i: nat): nat
    requires i <= |tags|
  {
    if i == 0 then 0 else FirstsBefore(tags, bucket, i - 1) + if FirstOfBucket(tags, bucket, i - 1) then 1 else 0
  }

  predicate MarkedAt(tags: seq<TagInfo>, r: Rule, i: nat)
    requires i < |tags|
  {
    FirstOfBucket(tags, r.bucket, i) && FirstsBefore(tags, r.bucket, i) < r.n
  }

  function MarkedKeys(tags: seq<TagInfo>, r: Rule, i: nat): set<string>
    requires i <= |tags|
  {
    if i == 0 then {} else MarkedKeys(tags, r, i - 1) + if MarkedAt(tags, r, i - 1) then {TagKey(tags[i - 1])} else {}
  }

  /** One counting rule: a single pass that keeps the first tag of each of the first n buckets. */
  method MarkFirst(tags: seq<TagInfo>, selected: set<string>, r: Rule) returns (marked: set<string>)
    ensures marked == selected + MarkedKeys(tags, r, |tags|)
  {
    marked := selected;
    if r.n <= 0 {
      NothingMarked(tags, r, |tags|);
      return;
    }
    var seen: set<string> := {};
    var kept := 0;
    for i := 0 to |tags|
      invariant kept == Min(r.n, FirstsBefore(tags, r.bucket, i))
      invariant kept < r.n ==> seen == set j | 0 <= j < i && tags[j].Dated() :: r.bucket(tags[j])
      invariant marked == selected + MarkedKeys(tags, r, i)
    {
      if !tags[i].Dated() {
        continue;
      }
      var key := r.bucket(tags[i]);
      if key in seen {
        continue;
      }
      if kept >= r.n {
        continue;
      }
      seen := seen + {key};
      kept := kept + 1;
      marked := marked + {TagKey(tags[i])};
    }
  }

  lemma {:induction false} NothingMarked(tags: seq<TagInfo>, r: Rule, i: nat)
    requires i <= |tags| && r.n <= 0
    ensures MarkedKeys(tags, r, i) == {}
  {
    if i > 0 { NothingMarked(tags, r, i - 1); }
  }

  lemma {:induction false} MarkedKeysMembers(tags: seq<TagInfo>, r: Rule, n: nat, key: string)
    requires n <= |tags|
    ensures key in MarkedKeys(tags, r, n) <==> exists i :: 0 <= i < n && MarkedAt(tags, r, i) && TagKey(tags[i]) == key
  {
    if n > 0 { MarkedKeysMembers(tags, r, n - 1, key); }
  }

  /** In a newest-first list only earlier tags are newer. */
  lemma EarlierIsNewer(tags: seq<TagInfo>, j: nat, i: nat)
    requires NewestFirst(tags) && j < |tags| && i < |tags|
    ensures Newer(tags[j], tags[i]) <==> j < i
  {
    if j > i {
      NewerAsymmetric(tags[i], tags[j]);
    } else if j == i {
      NewerAsymmetric(tags[i], tags[i]);
    }
  }

  lemma FirstOfBucketLeads(tags: seq<TagInfo>, bucket: TagInfo -> string, i: nat)
    requires NewestFirst(tags) && i < |tags|
    ensures FirstOfBucket(tags, bucket, i) <==> Leads(Elements(tags), bucket, tags[i])
  {
    forall j | 0 <= j < |tags| ensures Newer(tags[j], tags[i]) <==> j < i {
      EarlierIsNewer(tags, j, i);
    }
  }

  /** The tags among the first n that open their bucket. */
  ghost function Firsts(tags: seq<TagInfo>, bucket: TagInfo -> string, n: nat): set<TagInfo>
    requires n <= |tags|
  {
    if n == 0 then {}
    else if FirstOfBucket(tags, bucket, n - 1) then Firsts(tags, bucket, n - 1) + {tags[n - 1]}
    else Firsts(tags, bucket, n - 1)
  }

  lemma {:induction false} FirstsMembers(tags: seq<TagInfo>, bucket: TagInfo -> string, n: nat, t: TagInfo)
    requires n <= |tags|
    ensures t in Firsts(tags, bucket, n) <==> exists i :: 0 <= i < n && tags[i] == t && FirstOfBucket(tags, bucket, i)
  {
    if n > 0 {
      FirstsMembers(tags, bucket, n - 1, t);
    }
  }

  lemma {:induction false} FirstsCount(tags: seq<TagInfo>, bucket: TagInfo -> string, n: nat)
    requires NoDuplicates(tags) && n <= |tags|
    ensures |Firsts(tags, bucket, n)| == FirstsBefore(tags, bucket, n)
  {
    if n > 0 {
      FirstsCount(tags, bucket, n - 1);
      FirstsMembers(tags, bucket, n - 1, tags[n - 1]);
    }
  }

  lemma NewerLeadsAreFirsts(tags: seq<TagInfo>, bucket: TagInfo -> string, i: nat)
    requires NewestFirst(tags) && i < |tags|
    ensures NewerLeads(Elements(tags), bucket, tags[i]) == Firsts(tags, bucket, i)
  {
    forall j | 0 <= j < |tags|
      ensures Newer(tags[j], tags[i]) <==> j < i
      ensures FirstOfBucket(tags, bucket, j) <==> Leads(Elements(tags), bucket, tags[j])
    {
      EarlierIsNewer(tags, j, i);
      FirstOfBucketLeads(tags, bucket, j);
    }
    forall t ensures t in NewerLeads(Elements(tags), bucket, tags[i]) <==> t in Firsts(tags, bucket, i) {
      FirstsMembers(tags, bucket, i, t);
    }
  }

  /** The pass marks exactly the tags the rule selects. */
  lemma MarkedMeansSelected(tags: seq<TagInfo>, r: Rule, i: nat)
    requires NewestFirst(tags) && ProperList(tags) && i < |tags|
    ensures TagKey(tags[i]) in MarkedKeys(tags, r, |tags|) <==> Selects(r, Elements(tags), tags[i])
  {
    MarkedKeysMembers(tags, r, |tags|, TagKey(tags[i]));
    forall j | 0 <= j < |tags| && TagKey(tags[j]) == TagKey(tags[i]) ensures j == i {
      TagKeyInjective(tags[j], tags[i]);
    }
    FirstOfBucketLeads(tags, r.bucket, i);
    NewerLeadsAreFirsts(tags, r.bucket, i);
    FirstsCount(tags, r.bucket, i);
  }

  // ---------- All the rules over one group ----------

  /** Keys kept by the rules that look at one tag at a time. */
  ghost function OutrightKeys(lib: Library, p: Policy, now: int, tags: seq<TagInfo>, n: nat): set<string>
    requires n <= |tags|
  {
    set i | 0 <= i < n && KeptOutright(lib, p, now, tags[i]) :: TagKey(tags[i])
  }

  ghost function RuleKeys(tags: seq<TagInfo>, rules: seq<Rule>, n: nat): set<string>
    requires n <= |rules|
  {
    if n == 0 then {} else RuleKeys(tags, rules, n - 1) + MarkedKeys(tags, rules[n - 1], |tags|)
  }

  lemma {:induction false} RuleKeysMembers(tags: seq<TagInfo>, rules: seq<Rule>, n: nat, key: string)
    requires n <= |rules|
    ensures key in RuleKeys(tags, rules, n) <==> exists k :: 0 <= k < n && key in MarkedKeys(tags, rules[k], |tags|)
  {
    if n > 0 { RuleKeysMembers(tags, rules, n - 1, key); }
  }

  /** The selected keys are exactly the keys of the tags the policy keeps in this group. */
  lemma SelectedMeansKept(lib: Library, p: Policy, now: int, tags: seq<TagInfo>, i: nat)
    requires NewestFirst(tags) && ProperList(tags) && i < |tags|
    ensures TagKey(tags[i]) in OutrightKeys(lib, p, now, tags, |tags|) + RuleKeys(tags, Rules(lib, p), 6)
            <==> KeptInGroup(lib, p, now, Elements(tags), tags[i])
  {
    var rules, key := Rules(lib, p), TagKey(tags[i]);
    RuleKeysMembers(tags, rules, 6, key);
    forall k | 0 <= k < 6
      ensures key in MarkedKeys(tags, rules[k], |tags|) <==> Selects(rules[k], Elements(tags), tags[i])
    {
      MarkedMeansSelected(tags, rules[k], i);
    }
    forall j | 0 <= j < |tags| && TagKey(tags[j]) == key ensures j == i {
      TagKeyInjective(tags[j], tags[i]);
    }
  }

  method MatchesAnyPattern(lib: Library, tag: string, patterns: seq<string>) returns (ok: bool)
    ensures ok == MatchesAny(lib, tag, patterns)
  {
    for i := 0 to |patterns|
      invariant forall j :: 0 <= j < i ==> !lib.glob(patterns[j], tag)
    {
      if lib.glob(patterns[i], tag) {
        return true;
      }
    }
    return false;
  }

  method MarkOutright(lib: Library, p: Policy, now: int, ordered: seq<TagInfo>) returns (selected: set<string>)
    ensures selected == OutrightKeys(lib, p, now, ordered, |ordered|)
  {
    selected := {};
    for i := 0 to |ordered|
      invariant selected == OutrightKeys(lib, p, now, ordered, i)
    {
      var tag := ordered[i];
      var named := MatchesAnyPattern(lib, tag.tag, p.keepTags);
      ghost var before := selected;
      if !tag.Dated() || named {
        selected := selected + {TagKey(tag)};
      }
      if p.keepWithin > 0 && tag.Dated() && tag.created >= now - p.keepWithin {
        selected := selected + {TagKey(tag)};
      }
      assert selected == before + if KeptOutright(lib, p, now, tag) then {TagKey(tag)} else {};
    }
  }

  /** Every rule over one group: what it keeps and what it gives up, newest first. */
  method ApplyOne(lib: Library, p: Policy, now: int, tags: seq<TagInfo>)
    returns (keep: seq<TagInfo>, remove: seq<TagInfo>)
    ensures multiset(keep) + multiset(remove) == multiset(tags)
    ensures Sorted(keep, Newer) && Sorted(remove, Newer)
    ensures ProperList(tags) ==> forall t :: t in tags ==> (t in keep <==> KeptInGroup(lib, p, now, Elements(tags), t))
    ensures ProperList(tags) ==> forall t :: t in tags ==> (t in remove <==> !KeptInGroup(lib, p, now, Elements(tags), t))
  {
    var ordered := Sort(tags, Newer);
    var selected := MarkOutright(lib, p, now, ordered);
    ghost var outright := selected;
    var rules := Rules(lib, p);
    for k := 0 to |rules|
      invariant selected == outright + RuleKeys(ordered, rules, k)
    {
      selected := MarkFirst(ordered, selected, rules[k]);
    }
    SortTagsNewest(tags);
    keep, remove := Divide(ordered, selected);
    PermutationMembers(tags, ordered);
    if ProperList(tags) {
      SelectedMeansKeptAll(lib, p, now, tags);
    }
  }

  lemma SelectedMeansKeptAll(lib: Library, p: Policy, now: int, tags: seq<TagInfo>)
    requires ProperList(tags)
    ensures var ordered := Sort(tags, Newer);
            var selected := OutrightKeys(lib, p, now, ordered, |ordered|) + RuleKeys(ordered, Rules(lib, p), 6);
            forall t :: t in tags ==> (TagKey(t) in selected <==> KeptInGroup(lib, p, now, Elements(tags), t))
  {
    var ordered := Sort(tags, Newer);
    SortTagsNewest(tags);
    PermutationMembers(tags, ordered);
    forall t | t in tags
      ensures TagKey(t) in OutrightKeys(lib, p, now, ordered, |ordered|) + RuleKeys(ordered, Rules(lib, p), 6)
              <==> KeptInGroup(lib, p, now, Elements(tags), t)
    {
      var i :| 0 <= i < |ordered| && ordered[i] == t;
      SelectedMeansKept(lib, p, now, ordered, i);
    }
  }

  /** Appending the next element of a sorted list to some of the earlier ones keeps them sorted. */
  lemma SortedSnoc(ordered: seq<TagInfo>, some: seq<TagInfo>, i: nat)
    requires Sorted(ordered, Newer) && Sorted(some, Newer) && i < |ordered| && forall t :: t in some ==> t in ordered[..i]
    ensures Sorted(some + [ordered[i]], Newer)
  {
    forall k | 0 <= k < |some| ensures !Newer(ordered[i], some[k]) {
      assert some[k] in ordered[..i];
    }
  }

  method Divide(ordered: seq<TagInfo>, selected: set<string>) returns (keep: seq<TagInfo>, remove: seq<TagInfo>)
    ensures multiset(keep) + multiset(remove) == multiset(ordered)
    ensures forall t :: t in keep <==> t in ordered && TagKey(t) in selected
    ensures forall t :: t in remove <==> t in ordered && TagKey(t) !in selected
    ensures Sorted(ordered, Newer) ==> Sorted(keep, Newer) && Sorted(remove, Newer)
  {
    keep, remove := [], [];
    for i := 0 to |ordered|
      invariant Sorted(ordered, Newer) ==> Sorted(keep, Newer) && Sorted(remove, Newer)
      invariant multiset(keep) + multiset(remove) == multiset(ordered[..i])
      invariant forall t :: t in keep <==> t in ordered[..i] && TagKey(t) in selected
      invariant forall t :: t in remove <==> t in ordered[..i] && TagKey(t) !in selected
    {
      assert ordered[..i + 1] == ordered[..i] + [ordered[i]];
      if Sorted(ordered, Newer) {
        SortedSnoc(ordered, keep, i);
        SortedSnoc(ordered, remove, i);
      }
      if TagKey(ordered[i]) in selected {
        keep := keep + [ordered[i]];
      } else {
        remove := remove + [ordered[i]];
      }
    }
    assert ordered[..|ordered|] == ordered;
  }

  // ---------- Scope and groups ----------

  lemma {:induction false} InScopeCount(p: Policy, tags: seq<TagInfo>, t: TagInfo)
    ensures multiset(InScopeOnly(p, tags))[t] == if InScope(p, t.tag) then multiset(tags)[t] else 0
  {
    if |tags| > 0 {
      InScopeCount(p, tags[..|tags| - 1], t);
      assert tags == tags[..|tags| - 1] + [tags[|tags| - 1]];
    }
  }

  lemma {:induction false} GroupsOfInScope(p: Policy, tags: seq<TagInfo>, key: string)
    ensures Members(p, InScopeOnly(p, tags), Some(key)) == Members(p, tags, Some(key))
  {
    if |tags| > 0 {
      var rest := InScopeOnly(p, tags[..|tags| - 1]);
      GroupsOfInScope(p, tags[..|tags| - 1], key);
      assert (rest + [tags[|tags| - 1]])[..|rest|] == rest;
    }
  }

  lemma InScopeSnoc(p: Policy, tags: seq<TagInfo>, tag: TagInfo)
    ensures InScopeOnly(p, tags + [tag]) == if InScope(p, tag.tag) then InScopeOnly(p, tags) + [tag] else InScopeOnly(p, tags)
  {
    assert (tags + [tag])[..|tags|] == tags;
  }

  method NarrowToScope(p: Policy, tags: seq<TagInfo>) returns (inScope: seq<TagInfo>, outside: seq<TagInfo>)
    ensures inScope == InScopeOnly(p, tags)
    ensures multiset(inScope) + multiset(outside) == multiset(tags)
  {
    inScope, outside := [], [];
    ghost var seen: seq<TagInfo> := [];
    for i := 0 to |tags|
      invariant |seen| == i && seen <= tags && inScope == InScopeOnly(p, seen)
      invariant multiset(inScope) + multiset(outside) == multiset(seen)
    {
      InScopeSnoc(p, seen, tags[i]);
      seen := seen + [tags[i]];
      if !InScope(p, tags[i].tag) {
        outside := outside + [tags[i]];
        continue;
      }
      inScope := inScope + [tags[i]];
    }
    assert seen == tags;
  }

  /** What the group table holds after some tags were filed. */
  ghost predicate Filed(p: Policy, tags: seq<TagInfo>, buckets: map<string, seq<TagInfo>>, keys: seq<string>) {
    && NoDuplicates(keys)
    && (forall k :: k in keys <==> k in buckets)
    && (forall k :: k in buckets ==> buckets[k] == Members(p, tags, Some(k)) != [])
    && (forall k :: k !in buckets ==> Members(p, tags, Some(k)) == [])
  }

  lemma FileOne(p: Policy, tags: seq<TagInfo>, tag: TagInfo, key: string, buckets: map<string, seq<TagInfo>>, keys: seq<string>)
    requires Filed(p, tags, buckets, keys) && GroupOf(p, tag.tag) == Some(key)
    ensures key in buckets ==> Filed(p, tags + [tag], buckets[key := buckets[key] + [tag]], keys)
    ensures key !in buckets ==> Filed(p, tags + [tag], buckets[key := [tag]], keys + [key])
  {
    assert (tags + [tag])[..|tags|] == tags;
    assert forall k :: Members(p, tags + [tag], Some(k)) == Members(p, tags, Some(k)) + if k == key then [tag] else [];
  }

  lemma LeaveOne(p: Policy, tags: seq<TagInfo>, tag: TagInfo, buckets: map<string, seq<TagInfo>>, keys: seq<string>)
    requires Filed(p, tags, buckets, keys) && GroupOf(p, tag.tag).None?
    ensures Filed(p, tags + [tag], buckets, keys)
  {
    assert (tags + [tag])[..|tags|] == tags;
  }

  method FileByGroup(p: Policy, tags: seq<TagInfo>)
    returns (ungrouped: seq<TagInfo>, buckets: map<string, seq<TagInfo>>, keys: seq<string>)
    requires forall i :: 0 <= i < |tags| ==> InScope(p, tags[i].tag)
    ensures ungrouped == Members(p, tags, None)
    ensures Filed(p, tags, buckets, keys)
  {
    ungrouped, buckets, keys := [], map[], [];
    for i := 0 to |tags|
      invariant ungrouped == Members(p, tags[..i], None)
      invariant Filed(p, tags[..i], buckets, keys)
    {
      assert tags[..i + 1] == tags[..i] + [tags[i]];
      assert tags[..i + 1][..i] == tags[..i];
      var group := GroupKeyFor(p, tags[i].tag);
      if group.None? {
        LeaveOne(p, tags[..i], tags[i], buckets, keys);
        ungrouped := ungrouped + [tags[i]];
        continue;
      }
      var key := group.value;
      FileOne(p, tags[..i], tags[i], key, buckets, keys);
      if key !in buckets {
        keys := keys + [key];
        buckets := buckets[key := [tags[i]]];
      } else {
        buckets := buckets[key := buckets[key] + [tags[i]]];
      }
    }
    assert tags[..|tags|] == tags;
  }

  /** The scope and group selection shared by PlanFor and Select. */
  method Partition(p: Policy, tags: seq<TagInfo>)
    returns (plan: Plan, buckets: map<string, seq<TagInfo>>, keys: seq<string>)
    ensures plan == Plan(|tags|, |InScopeOnly(p, tags)|, |Members(p, InScopeOnly(p, tags), None)|, [], plan.untouched, [], [])
    ensures multiset(plan.untouched) == multiset(Members(p, tags, None))
    ensures Filed(p, tags, buckets, keys) && Sorted(keys, Less)
  {
    var inScope, outside := NarrowToScope(p, tags);
    forall i | 0 <= i < |inScope| ensures InScope(p, inScope[i].tag) {
      InScopeElement(p, tags, i);
    }
    var ungrouped, filed, unsorted := FileByGroup(p, inScope);
    forall k ensures Members(p, inScope, Some(k)) == Members(p, tags, Some(k)) {
      GroupsOfInScope(p, tags, k);
    }
    UntouchedCount(p, tags, outside);
    SortedKeys(unsorted);
    buckets, keys := filed, Sort(unsorted, Less);
    plan := Plan(|tags|, |inScope|, |ungrouped|, [], outside + ungrouped, [], []);
  }

  lemma SortedKeys(keys: seq<string>)
    requires NoDuplicates(keys)
    ensures Sorted(Sort(keys, Less), Less) && NoDuplicates(Sort(keys, Less))
    ensures forall k :: k in Sort(keys, Less) <==> k in keys
  {
    StringsStrictWeak();
    SortSorted(keys, Less);
    PermutationMembers(keys, Sort(keys, Less));
    NoDuplicatesCount(keys);
    NoDuplicatesCount(Sort(keys, Less));
  }

  lemma InScopeElement(p: Policy, tags: seq<TagInfo>, i: nat)
    requires i < |InScopeOnly(p, tags)|
    ensures InScope(p, InScopeOnly(p, tags)[i].tag)
  {
    var t := InScopeOnly(p, tags)[i];
    InScopeCount(p, tags, t);
    assert t in multiset(InScopeOnly(p, tags));
  }

  lemma UntouchedCount(p: Policy, tags: seq<TagInfo>, outside: seq<TagInfo>)
    requires multiset(InScopeOnly(p, tags)) + multiset(outside) == multiset(tags)
    ensures multiset(outside + Members(p, InScopeOnly(p, tags), None)) == multiset(Members(p, tags, None))
  {
    var a, b := multiset(outside + Members(p, InScopeOnly(p, tags), None)), multiset(Members(p, tags, None));
    forall t ensures a[t] == b[t] {
      InScopeCount(p, tags, t);
      MembersCount(p, tags, None, t);
      MembersCount(p, InScopeOnly(p, tags), None, t);
      assert multiset(tags)[t] == multiset(InScopeOnly(p, tags))[t] + multiset(outside)[t];
    }
  }

  // ---------- The plan ----------

  /** Tags whose group is among the listed keys. */
  ghost predicate Reached(p: Policy, t: TagInfo, keys: seq<string>) {
    GroupOf(p, t.tag).Some? && GroupOf(p, t.tag).value in keys
  }

  /** One group's outcome, as the plan shows it: its tags, divided as the policy says, newest first. */
  ghost predicate ShowsGroup(lib: Library, p: Policy, now: int, tags: seq<TagInfo>, g: GroupResult) {
    && g.tags == |Members(p, tags, Some(g.key))| > 0
    && multiset(g.keep) + multiset(g.remove) == multiset(Members(p, tags, Some(g.key)))
    && Sorted(g.keep, Newer) && Sorted(g.remove, Newer)
    && (ProperList(tags) ==> KeepsAll(lib, p, now, tags, g.keep))
    && (ProperList(tags) && !p.Empty() ==> KeepsNone(lib, p, now, tags, g.remove))
  }

  ghost predicate KeepsAll(lib: Library, p: Policy, now: int, tags: seq<TagInfo>, some: seq<TagInfo>) {
    forall t :: t in some ==> Keeps(lib, p, now, Elements(tags), t)
  }

  ghost predicate KeepsNone(lib: Library, p: Policy, now: int, tags: seq<TagInfo>, some: seq<TagInfo>) {
    forall t :: t in some ==> !Keeps(lib, p, now, Elements(tags), t)
  }

  /** The two lists of the groups, one group after the other. */
  function KeptOf(groups: seq<GroupResult>): seq<TagInfo> {
    if groups == [] then [] else KeptOf(groups[..|groups| - 1]) + groups[|groups| - 1].keep
  }

  function RemovedOf(groups: seq<GroupResult>): seq<TagInfo> {
    if groups == [] then [] else RemovedOf(groups[..|groups| - 1]) + groups[|groups| - 1].remove
  }

  lemma ViewsOneMore(groups: seq<GroupResult>, g: GroupResult)
    ensures KeptOf(groups + [g]) == KeptOf(groups) + g.keep && RemovedOf(groups + [g]) == RemovedOf(groups) + g.remove
  {
    assert (groups + [g])[..|groups|] == groups;
  }

  lemma GroupElements(p: Policy, tags: seq<TagInfo>, key: string)
    requires ProperList(tags)
    ensures Elements(Members(p, tags, Some(key))) == Group(p, Elements(tags), key)
  {
    MembersProper(p, tags, Some(key));
  }

  lemma OneGroupDecides(lib: Library, p: Policy, now: int, tags: seq<TagInfo>, key: string,
                        keep: seq<TagInfo>, remove: seq<TagInfo>)
    requires ProperList(tags)
    requires var g := Members(p, tags, Some(key));
             && multiset(keep) + multiset(remove) == multiset(g)
             && (ProperList(g) ==> forall t :: t in g ==> (t in keep <==> KeptInGroup(lib, p, now, Elements(g), t)))
             && (ProperList(g) ==> forall t :: t in g ==> (t in remove <==> !KeptInGroup(lib, p, now, Elements(g), t)))
    ensures KeepsAll(lib, p, now, tags, keep) && (!p.Empty() ==> KeepsNone(lib, p, now, tags, remove))
  {
    var g := Members(p, tags, Some(key));
    MembersProper(p, tags, Some(key));
    GroupElements(p, tags, key);
    forall t ensures t in keep || t in remove ==> t in g {
      assert t in keep <==> t in multiset(keep);
      assert t in remove <==> t in multiset(remove);
      assert t in g <==> t in multiset(g);
    }
  }

  /** The multiset holds exactly the tags whose group is among the listed keys. */
  ghost predicate HoldsReached(p: Policy, tags: seq<TagInfo>, keys: seq<string>, m: multiset<TagInfo>) {
    forall t :: m[t] == if Reached(p, t, keys) then multiset(tags)[t] else 0
  }

  /** The accumulated partition after one more group. */
  lemma OneMoreGroup(p: Policy, tags: seq<TagInfo>, keys: seq<string>, k: nat,
                     done: multiset<TagInfo>, keep: seq<TagInfo>, remove: seq<TagInfo>)
    requires k < |keys| && NoDuplicates(keys) && HoldsReached(p, tags, keys[..k], done)
    requires multiset(keep) + multiset(remove) == multiset(Members(p, tags, Some(keys[k])))
    ensures HoldsReached(p, tags, keys[..k + 1], done + multiset(keep) + multiset(remove))
  {
    assert keys[..k + 1] == keys[..k] + [keys[k]];
    assert keys[k] !in keys[..k];
    forall t
      ensures (done + multiset(keep) + multiset(remove))[t] == if Reached(p, t, keys[..k + 1]) then multiset(tags)[t] else 0
    {
      MembersCount(p, tags, Some(keys[k]), t);
      assert (multiset(keep) + multiset(remove))[t] == multiset(keep)[t] + multiset(remove)[t];
    }
  }

  /** One bucket, divided. */
  method ResolveOne(lib: Library, p: Policy, now: int, tags: seq<TagInfo>, key: string, group: seq<TagInfo>) returns (g: GroupResult)
    requires group == Members(p, tags, Some(key)) != []
    ensures g.key == key && ShowsGroup(lib, p, now, tags, g)
  {
    var kept, removed := ApplyOne(lib, p, now, group);
    if ProperList(tags) {
      OneGroupDecides(lib, p, now, tags, key, kept, removed);
    }
    g := GroupResult(key, |group|, kept, removed);
  }

  ghost predicate ShownAt(lib: Library, p: Policy, now: int, tags: seq<TagInfo>, keys: seq<string>, groups: seq<GroupResult>, k: nat)
    requires k < |groups| <= |keys|
  {
    groups[k].key == keys[k] && ShowsGroup(lib, p, now, tags, groups[k])
  }

  /** The first groups, one per key in order, and the two flat lists that go with them. */
  ghost predicate ResolvedSoFar(lib: Library, p: Policy, now: int, tags: seq<TagInfo>, keys: seq<string>, groups: seq<GroupResult>) {
    && |groups| <= |keys| && (forall k :: 0 <= k < |groups| ==> ShownAt(lib, p, now, tags, keys, groups, k))
    && HoldsReached(p, tags, keys[..|groups|], multiset(KeptOf(groups)) + multiset(RemovedOf(groups)))
    && (ProperList(tags) ==> KeepsAll(lib, p, now, tags, KeptOf(groups)))
    && (ProperList(tags) && !p.Empty() ==> KeepsNone(lib, p, now, tags, RemovedOf(groups)))
  }

  lemma ResolvedOneMore(lib: Library, p: Policy, now: int, tags: seq<TagInfo>, keys: seq<string>, groups: seq<GroupResult>, g: GroupResult)
    requires NoDuplicates(keys) && |groups| < |keys| && ResolvedSoFar(lib, p, now, tags, keys, groups)
    requires g.key == keys[|groups|] && ShowsGroup(lib, p, now, tags, g)
    ensures ResolvedSoFar(lib, p, now, tags, keys, groups + [g])
  {
    var more := groups + [g];
    ViewsOneMore(groups, g);
    OneMoreGroup(p, tags, keys, |groups|, multiset(KeptOf(groups)) + multiset(RemovedOf(groups)), g.keep, g.remove);
    assert multiset(KeptOf(more)) + multiset(RemovedOf(more))
        == multiset(KeptOf(groups)) + multiset(RemovedOf(groups)) + multiset(g.keep) + multiset(g.remove);
    forall k | 0 <= k < |more| ensures ShownAt(lib, p, now, tags, keys, more, k) {
      assert k < |groups| ==> ShownAt(lib, p, now, tags, keys, groups, k);
    }
  }

  /** The groups resolved one key at a time. */
  method ResolveGroups(lib: Library, p: Policy, now: int, tags: seq<TagInfo>, buckets: map<string, seq<TagInfo>>, keys: seq<string>)
    returns (groups: seq<GroupResult>, keep: seq<TagInfo>, remove: seq<TagInfo>)
    requires Filed(p, tags, buckets, keys)
    ensures |groups| == |keys| && ResolvedSoFar(lib, p, now, tags, keys, groups)
    ensures keep == KeptOf(groups) && remove == RemovedOf(groups)
  {
    groups, keep, remove := [], [], [];
    for k := 0 to |keys|
      invariant |groups| == k && ResolvedSoFar(lib, p, now, tags, keys, groups)
      invariant keep == KeptOf(groups) && remove == RemovedOf(groups)
    {
      assert keys[k] in buckets;
      var g := ResolveOne(lib, p, now, tags, keys[k], buckets[keys[k]]);
      ResolvedOneMore(lib, p, now, tags, keys, groups, g);
      ViewsOneMore(groups, g);
      groups, keep, remove := groups + [g], keep + g.keep, remove + g.remove;
    }
  }

  /** A resolved plan: a partition of the listing, in the shown order, that follows the policy. */
  ghost predicate Resolved(lib: Library, p: Policy, now: int, tags: seq<TagInfo>, plan: Plan) {
    && multiset(plan.keep) + multiset(plan.remove) == multiset(tags)
    && (ProperList(tags) ==> Elements(plan.keep) == KeepSet(lib, p, now, Elements(tags)))
    && (ProperList(tags) ==> Elements(plan.remove) == Elements(tags) - KeepSet(lib, p, now, Elements(tags)))
    && plan.total == |tags| && plan.inScope == |InScopeOnly(p, tags)|
    && plan.ungrouped == |Members(p, InScopeOnly(p, tags), None)|
  }

  /** The flat lists and the per-group breakdown of a non-empty policy are the same tags, side by side. */
  ghost predicate Ordered(lib: Library, p: Policy, now: int, tags: seq<TagInfo>, plan: Plan) {
    && Sorted(plan.keep, Newer) && Sorted(plan.remove, Newer) && Sorted(plan.untouched, Newer)
    && multiset(plan.untouched) == multiset(Members(p, tags, None))
    && multiset(plan.keep) == multiset(KeptOf(plan.groups)) + multiset(plan.untouched)
    && multiset(plan.remove) == multiset(RemovedOf(plan.groups))
    && (forall g :: g in plan.groups ==> ShowsGroup(lib, p, now, tags, g))
    && (forall i, j :: 0 <= i < j < |plan.groups| ==> Less(plan.groups[i].key, plan.groups[j].key))
  }

  method PlanFor(lib: Library, p: Policy, now: int, tags: seq<TagInfo>) returns (plan: Plan)
    ensures Resolved(lib, p, now, tags, plan)
    ensures p.Empty() ==> plan.keep == plan.untouched == tags && plan.remove == [] && plan.groups == []
    ensures !p.Empty() ==> Ordered(lib, p, now, tags, plan)
    ensures !p.Empty() ==> DatesDescend(plan.keep) && DatesDescend(plan.remove) && DatesDescend(plan.untouched)
    ensures !p.Empty() ==> forall g :: g in plan.groups ==> DatesDescend(g.keep) && DatesDescend(g.remove)
  {
    var counted, buckets, keys := Partition(p, tags);
    if p.Empty() {
      plan := counted.(keep := tags, untouched := tags);
      return;
    }
    var groups, keep, remove := ResolveGroups(lib, p, now, tags, buckets, keys);
    plan := Finish(counted, groups, keep, remove);
    FinishedIsResolved(lib, p, now, tags, buckets, keys, counted, groups);
    FinishedIsOrdered(lib, p, now, tags, keys, counted, groups);
    OrderedDatesDescend(lib, p, now, tags, plan);
  }

  lemma OrderedDatesDescend(lib: Library, p: Policy, now: int, tags: seq<TagInfo>, plan: Plan)
    requires Ordered(lib, p, now, tags, plan)
    ensures DatesDescend(plan.keep) && DatesDescend(plan.remove) && DatesDescend(plan.untouched)
    ensures forall g :: g in plan.groups ==> DatesDescend(g.keep) && DatesDescend(g.remove)
  {
    SortedDatesDescend(plan.keep);
    SortedDatesDescend(plan.remove);
    SortedDatesDescend(plan.untouched);
    forall g | g in plan.groups ensures DatesDescend(g.keep) && DatesDescend(g.remove) {
      assert ShowsGroup(lib, p, now, tags, g);
      SortedDatesDescend(g.keep);
      SortedDatesDescend(g.remove);
    }
  }

  /** The flat lists of the plan, newest first; untouched tags are kept. */
  function Finish(counted: Plan, groups: seq<GroupResult>, keep: seq<TagInfo>, remove: seq<TagInfo>): Plan {
    counted.(groups := groups, keep := Sort(keep + counted.untouched, Newer), remove := Sort(remove, Newer),
             untouched := Sort(counted.untouched, Newer))
  }

  lemma FinishedIsResolved(lib: Library, p: Policy, now: int, tags: seq<TagInfo>, buckets: map<string, seq<TagInfo>>, keys: seq<string>,
                           counted: Plan, groups: seq<GroupResult>)
    requires !p.Empty() && Filed(p, tags, buckets, keys) && |groups| == |keys| && ResolvedSoFar(lib, p, now, tags, keys, groups)
    requires multiset(counted.untouched) == multiset(Members(p, tags, None)) && counted.total == |tags|
    requires counted.inScope == |InScopeOnly(p, tags)| && counted.ungrouped == |Members(p, InScopeOnly(p, tags), None)|
    ensures Resolved(lib, p, now, tags, Finish(counted, groups, KeptOf(groups), RemovedOf(groups)))
  {
    var keep, remove := KeptOf(groups), RemovedOf(groups);
    assert keys[..|keys|] == keys;
    EveryTagPlaced(lib, p, now, tags, buckets, keys, counted.untouched, keep, remove);
    SortTagsNewest(keep + counted.untouched);
    SortTagsNewest(remove);
  }

  lemma FinishedIsOrdered(lib: Library, p: Policy, now: int, tags: seq<TagInfo>, keys: seq<string>, counted: Plan, groups: seq<GroupResult>)
    requires NoDuplicates(keys) && Sorted(keys, Less) && |groups| == |keys| && ResolvedSoFar(lib, p, now, tags, keys, groups)
    requires multiset(counted.untouched) == multiset(Members(p, tags, None))
    ensures Ordered(lib, p, now, tags, Finish(counted, groups, KeptOf(groups), RemovedOf(groups)))
  {
    SortTagsNewest(KeptOf(groups) + counted.untouched);
    SortTagsNewest(RemovedOf(groups));
    SortTagsNewest(counted.untouched);
    KeysAscend(keys);
    forall g | g in groups ensures ShowsGroup(lib, p, now, tags, g) {
      var k :| 0 <= k < |groups| && groups[k] == g;
      assert ShownAt(lib, p, now, tags, keys, groups, k);
    }
    forall i, j | 0 <= i < j < |groups| ensures Less(groups[i].key, groups[j].key) {
      assert ShownAt(lib, p, now, tags, keys, groups, i) && ShownAt(lib, p, now, tags, keys, groups, j);
    }
  }

  lemma KeysAscend(keys: seq<string>)
    requires NoDuplicates(keys) && Sorted(keys, Less)
    ensures forall i, j :: 0 <= i < j < |keys| ==> Less(keys[i], keys[j])
  {
    forall i, j | 0 <= i < j < |keys| ensures Less(keys[i], keys[j]) {
      LessTotal(keys[i], keys[j]);
    }
  }

  lemma EveryTagPlaced(lib: Library, p: Policy, now: int, tags: seq<TagInfo>, buckets: map<string, seq<TagInfo>>, keys: seq<string>,
                       untouched: seq<TagInfo>, keep: seq<TagInfo>, remove: seq<TagInfo>)
    requires !p.Empty() && Filed(p, tags, buckets, keys)
    requires multiset(untouched) == multiset(Members(p, tags, None))
    requires HoldsReached(p, tags, keys, multiset(keep) + multiset(remove))
    requires ProperList(tags) ==> KeepsAll(lib, p, now, tags, keep) && KeepsNone(lib, p, now, tags, remove)
    ensures multiset(keep + untouched) + multiset(remove) == multiset(tags)
    ensures ProperList(tags) ==> Elements(keep + untouched) == KeepSet(lib, p, now, Elements(tags))
    ensures ProperList(tags) ==> Elements(remove) == Elements(tags) - KeepSet(lib, p, now, Elements(tags))
  {
    var all := multiset(keep + untouched) + multiset(remove);
    forall t ensures all[t] == multiset(tags)[t] {
      MembersCount(p, tags, None, t);
      if GroupOf(p, t.tag).Some? {
        MembersCount(p, tags, GroupOf(p, t.tag), t);
      }
      assert all[t] == (multiset(keep) + multiset(remove))[t] + multiset(untouched)[t];
    }
    assert all == multiset(tags);
    forall t
      ensures t in keep + untouched || t in remove <==> t in tags
      ensures t in untouched ==> GroupOf(p, t.tag).None?
    {
      MembersCount(p, tags, None, t);
      assert t in untouched <==> t in multiset(untouched);
      assert t in keep + untouched <==> t in multiset(keep + untouched);
      assert t in remove <==> t in multiset(remove);
      assert t in tags <==> t in multiset(tags);
    }
  }

  /** Two listings of the same tags, in whatever order, give the same lists. */
  lemma PlanIgnoresListingOrder(lib: Library, p: Policy, now: int, a: seq<TagInfo>, b: seq<TagInfo>, planA: Plan, planB: Plan)
    requires multiset(a) == multiset(b) && ProperList(a) && !p.Empty()
    requires Resolved(lib, p, now, a, planA) && Ordered(lib, p, now, a, planA)
    requires Resolved(lib, p, now, b, planB) && Ordered(lib, p, now, b, planB)
    ensures planA.keep == planB.keep && planA.remove == planB.remove
  {
    ProperPermutation(a, b);
    PermutationMembers(a, b);
    assert Elements(a) == Elements(b);
    SameTagsSameList(a, planA.keep, planA.remove, planB.keep, planB.remove);
    SameTagsSameList(a, planA.remove, planA.keep, planB.remove, planB.keep);
  }

  lemma SameTagsSameList(tags: seq<TagInfo>, x: seq<TagInfo>, restX: seq<TagInfo>, y: seq<TagInfo>, restY: seq<TagInfo>)
    requires ProperList(tags)
    requires multiset(x) + multiset(restX) == multiset(tags) && multiset(y) + multiset(restY) == multiset(tags)
    requires Elements(x) == Elements(y) && Sorted(x, Newer) && Sorted(y, Newer)
    ensures x == y
  {
    NoDuplicatesCount(tags);
    forall t ensures multiset(x)[t] == multiset(y)[t] {
      assert multiset(tags)[t] <= 1;
      assert multiset(x)[t] <= (multiset(x) + multiset(restX))[t];
      assert multiset(y)[t] <= (multiset(y) + multiset(restY))[t];
      assert t in multiset(x) <==> t in Elements(x);
      assert t in multiset(y) <==> t in Elements(y);
    }
    assert multiset(x) == multiset(y);
    forall s, t | s in x && t in x && s != t ensures Newer(s, t) || Newer(t, s) {
      assert s in multiset(tags) && t in multiset(tags);
      assert s in tags && t in tags;
      NewerTotal(s, t);
    }
    SortedUnique(x, y, Newer);
  }
}
