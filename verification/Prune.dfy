/** The prune: the whole plan is checked first, then one deletion per distinct manifest. */
module Prune {
  import opened Common
  import opened Ordering
  import opened Retention
  import opened RetentionPlan

  /** What is left of a listing when one manifest goes: every tag on it goes too. */
  function Without(tags: seq<TagInfo>, digest: string): seq<TagInfo> {
    if |tags| == 0 then []
    else
      var rest, last := Without(tags[..|tags| - 1], digest), tags[|tags| - 1];
      if last.digest.String() == digest then rest else rest + [last]
  }

  function WithoutAll(tags: seq<TagInfo>, digests: seq<string>): seq<TagInfo> {
    if |digests| == 0 then tags
    else Without(WithoutAll(tags, digests[..|digests| - 1]), digests[|digests| - 1])
  }

  /** The repository as its clients see it. A failed deletion may or may not have been applied. */
  class Registry {
    var tags: seq<TagInfo>

    constructor (listing: seq<TagInfo>)
      ensures tags == listing
    {
      tags := listing;
    }

    method DeleteManifest(digest: string) returns (ok: bool)
      modifies this
      ensures ok ==> tags == Without(old(tags), digest)
      ensures !ok ==> tags == old(tags) || tags == Without(old(tags), digest)
    {
      if * {
        tags := Without(tags, digest);
        ok := *;
      } else {
        ok := false;
      }
    }
  }

  /** The names that sit on one manifest, in listing order. */
  function NamesOn(tags: seq<TagInfo>, digest: string): seq<string> {
    if |tags| == 0 then []
    else
      var rest, last := NamesOn(tags[..|tags| - 1], digest), tags[|tags| - 1];
      if last.digest.String() == digest then rest + [last.tag] else rest
  }

  /** The names on a manifest that the plan does not list for removal. */
  function SurvivorsOn(all: seq<TagInfo>, remove: seq<TagInfo>, digest: string): seq<string> {
    if |all| == 0 then []
    else
      var rest, last := SurvivorsOn(all[..|all| - 1], remove, digest), all[|all| - 1];
      if last.digest.String() == digest && NamesOn(remove, digest) != [] && last.tag !in NamesOn(remove, digest)
      then rest + [last.tag] else rest
  }

  lemma {:induction false} NamesOnMembers(tags: seq<TagInfo>, digest: string, name: string)
    ensures name in NamesOn(tags, digest) <==>
            exists i :: 0 <= i < |tags| && tags[i].digest.String() == digest && tags[i].tag == name
  {
    if |tags| > 0 {
      NamesOnMembers(tags[..|tags| - 1], digest, name);
    }
  }

  lemma {:induction false} SurvivorsOnMembers(all: seq<TagInfo>, remove: seq<TagInfo>, digest: string, name: string)
    ensures name in SurvivorsOn(all, remove, digest) <==>
            && NamesOn(remove, digest) != [] && name !in NamesOn(remove, digest)
            && exists i :: 0 <= i < |all| && all[i].digest.String() == digest && all[i].tag == name
  {
    if |all| > 0 {
      SurvivorsOnMembers(all[..|all| - 1], remove, digest, name);
    }
  }

  lemma {:induction false} WithoutMembers(tags: seq<TagInfo>, digest: string, t: TagInfo)
    ensures t in Without(tags, digest) <==> t in tags && t.digest.String() != digest
  {
    if |tags| > 0 {
      WithoutMembers(tags[..|tags| - 1], digest, t);
    }
  }

  lemma {:induction false} WithoutAllMembers(tags: seq<TagInfo>, digests: seq<string>, t: TagInfo)
    ensures t in WithoutAll(tags, digests) <==> t in tags && t.digest.String() !in digests
  {
    if |digests| > 0 {
      WithoutAllMembers(tags, digests[..|digests| - 1], t);
      WithoutMembers(WithoutAll(tags, digests[..|digests| - 1]), digests[|digests| - 1], t);
    }
  }

  lemma {:induction false} WithoutProper(tags: seq<TagInfo>, digest: string)
    requires ProperList(tags)
    ensures ProperList(Without(tags, digest))
  {
    if |tags| > 0 {
      var init := tags[..|tags| - 1];
      WithoutProper(init, digest);
      var rest := Without(init, digest);
      forall j | 0 <= j < |rest| ensures rest[j].tag != tags[|tags| - 1].tag {
        WithoutMembers(init, digest, rest[j]);
        var k :| 0 <= k < |init| && init[k] == rest[j];
        assert tags[k] == rest[j];
      }
    }
  }

  lemma {:induction false} WithoutAllProper(tags: seq<TagInfo>, digests: seq<string>)
    requires ProperList(tags)
    ensures ProperList(WithoutAll(tags, digests))
  {
    if |digests| > 0 {
      WithoutAllProper(tags, digests[..|digests| - 1]);
      WithoutProper(WithoutAll(tags, digests[..|digests| - 1]), digests[|digests| - 1]);
    }
  }

  predicate HasDigest(t: TagInfo) { t.digest.algorithm != "" && t.digest.hex != "" }

  /** The distinct manifests behind the removal set, or None when a tag reports no digest. */
  method PruneDigests(remove: seq<TagInfo>) returns (digests: Option<seq<string>>)
    ensures digests.Some? <==> forall i :: 0 <= i < |remove| ==> HasDigest(remove[i])
    ensures digests.Some? ==> NoDuplicates(digests.value)
    ensures digests.Some? ==> forall d :: d in digests.value <==> exists i :: 0 <= i < |remove| && remove[i].digest.String() == d
  {
    var seen: set<string>, list: seq<string> := {}, [];
    for i := 0 to |remove|
      invariant forall j :: 0 <= j < i ==> HasDigest(remove[j])
      invariant NoDuplicates(list) && seen == set d | d in list
      invariant forall d :: d in list <==> exists j :: 0 <= j < i && remove[j].digest.String() == d
    {
      if remove[i].digest.algorithm == "" || remove[i].digest.hex == "" {
        return None;
      }
      var digest := remove[i].digest.String();
      if digest in seen {
        continue;
      }
      seen := seen + {digest};
      list := list + [digest];
    }
    digests := Some(list);
  }

  datatype Conflict = Conflict(digest: string, doomed: seq<string>, kept: seq<string>)

  /** Some tag outside the removal set sits on the manifest. */
  ghost predicate Shared(all: seq<TagInfo>, remove: seq<TagInfo>, digest: string) {
    SurvivorsOn(all, remove, digest) != []
  }

  method DoomedNames(remove: seq<TagInfo>) returns (doomed: map<string, seq<string>>)
    ensures forall d :: d in doomed <==> NamesOn(remove, d) != []
    ensures forall d :: d in doomed ==> doomed[d] == NamesOn(remove, d)
  {
    doomed := map[];
    for i := 0 to |remove|
      invariant forall d :: d in doomed <==> NamesOn(remove[..i], d) != []
      invariant forall d :: d in doomed ==> doomed[d] == NamesOn(remove[..i], d)
    {
      assert remove[..i + 1][..i] == remove[..i];
      var digest := remove[i].digest.String();
      var before := if digest in doomed then doomed[digest] else [];
      doomed := doomed[digest := before + [remove[i].tag]];
    }
    assert remove[..|remove|] == remove;
  }

  method SurvivingNames(all: seq<TagInfo>, doomed: map<string, seq<string>>, ghost remove: seq<TagInfo>)
    returns (survivors: map<string, seq<string>>)
    requires forall d :: d in doomed <==> NamesOn(remove, d) != []
    requires forall d :: d in doomed ==> doomed[d] == NamesOn(remove, d)
    ensures forall d :: d in survivors <==> SurvivorsOn(all, remove, d) != []
    ensures forall d :: d in survivors ==> survivors[d] == SurvivorsOn(all, remove, d)
  {
    survivors := map[];
    for i := 0 to |all|
      invariant forall d :: d in survivors <==> SurvivorsOn(all[..i], remove, d) != []
      invariant forall d :: d in survivors ==> survivors[d] == SurvivorsOn(all[..i], remove, d)
    {
      assert all[..i + 1][..i] == all[..i];
      var digest := all[i].digest.String();
      if digest !in doomed {
        continue;
      }
      if all[i].tag !in doomed[digest] {
        var before := if digest in survivors then survivors[digest] else [];
        survivors := survivors[digest := before + [all[i].tag]];
      }
    }
    assert all[..|all|] == all;
  }

  ghost function Reported(lines: seq<Conflict>): set<string> { set c | c in lines :: c.digest }

  ghost predicate Accurate(all: seq<TagInfo>, remove: seq<TagInfo>, c: Conflict) {
    c.doomed == NamesOn(remove, c.digest) && c.kept == SurvivorsOn(all, remove, c.digest)
  }

  /** A shared manifest is either reported or still waiting to be. */
  ghost predicate ToldAt(all: seq<TagInfo>, remove: seq<TagInfo>, lines: seq<Conflict>, waiting: map<string, seq<string>>, d: string) {
    (Shared(all, remove, d) <==> d in waiting || d in Reported(lines)) && !(d in waiting && d in Reported(lines))
  }

  ghost predicate Told(all: seq<TagInfo>, remove: seq<TagInfo>, lines: seq<Conflict>, waiting: map<string, seq<string>>) {
    && (forall i, j :: 0 <= i < j < |lines| ==> lines[i].digest != lines[j].digest)
    && (forall c :: c in lines ==> Accurate(all, remove, c))
    && (forall d :: d in waiting ==> waiting[d] == SurvivorsOn(all, remove, d))
    && (forall d :: ToldAt(all, remove, lines, waiting, d))
  }

  lemma TellOne(all: seq<TagInfo>, remove: seq<TagInfo>, lines: seq<Conflict>, waiting: map<string, seq<string>>, digest: string)
    requires Told(all, remove, lines, waiting) && digest in waiting
    ensures Told(all, remove, lines + [Conflict(digest, NamesOn(remove, digest), waiting[digest])], waiting - {digest})
  {
    var line := Conflict(digest, NamesOn(remove, digest), waiting[digest]);
    var more, left := lines + [line], waiting - {digest};
    assert Reported(more) == Reported(lines) + {digest} by {
      assert line in more;
      assert forall c :: c in lines ==> c in more;
    }
    assert ToldAt(all, remove, lines, waiting, digest);
    assert forall i :: 0 <= i < |lines| ==> lines[i].digest in Reported(lines);
    forall d ensures ToldAt(all, remove, more, left, d) {
      assert ToldAt(all, remove, lines, waiting, d);
    }
  }

  /** One line per manifest of the removal set that a tag nobody asked to delete still reaches. */
  method SharedManifestConflicts(all: seq<TagInfo>, remove: seq<TagInfo>) returns (lines: seq<Conflict>)
    ensures forall i, j :: 0 <= i < j < |lines| ==> lines[i].digest != lines[j].digest
    ensures forall c :: c in lines ==> Accurate(all, remove, c)
    ensures forall d :: Shared(all, remove, d) <==> d in Reported(lines)
  {
    var doomed := DoomedNames(remove);
    var survivors := SurvivingNames(all, doomed, remove);
    lines := [];
    forall d ensures ToldAt(all, remove, lines, survivors, d) {
    }
    for i := 0 to |remove|
      invariant Told(all, remove, lines, survivors)
      invariant forall j :: 0 <= j < i ==> remove[j].digest.String() !in survivors
    {
      var digest := remove[i].digest.String();
      if digest !in survivors {
        continue;
      }
      RemovedIsDoomed(remove, i);
      TellOne(all, remove, lines, survivors, digest);
      lines := lines + [Conflict(digest, doomed[digest], survivors[digest])];
      survivors := survivors - {digest};
    }
    forall d ensures Shared(all, remove, d) <==> d in Reported(lines) {
      assert ToldAt(all, remove, lines, survivors, d);
      if Shared(all, remove, d) {
        SharedIsDoomed(all, remove, d);
      }
    }
  }

  lemma RemovedIsDoomed(remove: seq<TagInfo>, i: nat)
    requires i < |remove|
    ensures NamesOn(remove, remove[i].digest.String()) != []
  {
    NamesOnMembers(remove, remove[i].digest.String(), remove[i].tag);
  }

  lemma SharedIsDoomed(all: seq<TagInfo>, remove: seq<TagInfo>, digest: string)
    requires Shared(all, remove, digest)
    ensures exists i :: 0 <= i < |remove| && remove[i].digest.String() == digest
  {
    var name := SurvivorsOn(all, remove, digest)[0];
    SurvivorsOnMembers(all, remove, digest, name);
    var doomed := NamesOn(remove, digest)[0];
    NamesOnMembers(remove, digest, doomed);
  }

  /** When no manifest is shared, deleting the removal set's manifests takes exactly the removal set. */
  lemma UnsharedDeletionIsExact(all: seq<TagInfo>, remove: seq<TagInfo>, t: TagInfo)
    requires ProperList(all) && Elements(remove) <= Elements(all) && t in all
    requires forall d :: !Shared(all, remove, d)
    ensures t in remove <==> exists i :: 0 <= i < |remove| && remove[i].digest.String() == t.digest.String()
  {
    if i :| 0 <= i < |remove| && remove[i].digest.String() == t.digest.String() {
      var d := t.digest.String();
      RemovedIsDoomed(remove, i);
      assert !Shared(all, remove, d);
      SurvivorsOnMembers(all, remove, d, t.tag);
      NamesOnMembers(remove, d, t.tag);
      var k :| 0 <= k < |remove| && remove[k].digest.String() == d && remove[k].tag == t.tag;
      assert remove[k] in Elements(all);
      assert remove[k] == t;
    }
  }

  datatype Outcome = Done | NoDigest | Conflicts(lines: seq<Conflict>) | Interrupted(deleted: nat)

  /** n manifests of the plan are gone, and perhaps the one whose deletion was answered with an error. */
  ghost predicate StoppedAfter(before: seq<TagInfo>, after: seq<TagInfo>, remove: seq<TagInfo>, digests: seq<string>, n: nat) {
    && n < |digests| && NoDuplicates(digests)
    && (forall d :: d in digests <==> exists i :: 0 <= i < |remove| && remove[i].digest.String() == d)
    && (after == WithoutAll(before, digests[..n]) || after == WithoutAll(before, digests[..n + 1]))
  }

  /** Deletes the planned manifests, after checking that none is shared with a tag the plan keeps. */
  method PruneDelete(reg: Registry, all: seq<TagInfo>, remove: seq<TagInfo>) returns (r: Outcome)
    modifies reg
    ensures r.NoDigest? <==> exists i :: 0 <= i < |remove| && !HasDigest(remove[i])
    ensures !r.NoDigest? ==> (r.Conflicts? <==> exists d :: Shared(all, remove, d))
    ensures r.NoDigest? || r.Conflicts? ==> reg.tags == old(reg.tags)
    ensures r.Interrupted? ==> exists digests :: StoppedAfter(old(reg.tags), reg.tags, remove, digests, r.deleted)
    ensures ProperList(old(reg.tags)) ==> ProperList(reg.tags)
    ensures old(reg.tags) == all && ProperList(all) && Elements(remove) <= Elements(all) ==>
              && Elements(all) - Elements(remove) <= Elements(reg.tags) <= Elements(all)
              && (r.Done? ==> Elements(reg.tags) == Elements(all) - Elements(remove))
  {
    var digests := PruneDigests(remove);
    if digests.None? {
      return NoDigest;
    }
    var conflicts := SharedManifestConflicts(all, remove);
    if |conflicts| > 0 {
      assert conflicts[0].digest in Reported(conflicts);
      return Conflicts(conflicts);
    }
    ghost var before := reg.tags;
    var doomed := digests.value;
    var i := 0;
    while i < |doomed|
      invariant 0 <= i <= |doomed|
      invariant reg.tags == WithoutAll(before, doomed[..i])
    {
      assert doomed[..i + 1][..i] == doomed[..i];
      var ok := reg.DeleteManifest(doomed[i]);
      if !ok {
        ghost var k: nat := if reg.tags == WithoutAll(before, doomed[..i]) then i else i + 1;
        PruneProgress(before, all, remove, doomed, k);
        assert StoppedAfter(before, reg.tags, remove, doomed, i);
        return Interrupted(i);
      }
      i := i + 1;
    }
    PruneProgress(before, all, remove, doomed, i);
    r := Done;
  }

  /** The repository after the first k deletions of a plan without shared manifests. */
  lemma PruneProgress(before: seq<TagInfo>, all: seq<TagInfo>, remove: seq<TagInfo>, digests: seq<string>, k: nat)
    requires k <= |digests| && forall d :: !Shared(all, remove, d)
    requires forall d :: d in digests <==> exists i :: 0 <= i < |remove| && remove[i].digest.String() == d
    ensures ProperList(before) ==> ProperList(WithoutAll(before, digests[..k]))
    ensures before == all && ProperList(all) && Elements(remove) <= Elements(all) ==>
              var now := Elements(WithoutAll(before, digests[..k]));
              && Elements(all) - Elements(remove) <= now <= Elements(all)
              && (k == |digests| ==> now == Elements(all) - Elements(remove))
  {
    if ProperList(before) {
      WithoutAllProper(before, digests[..k]);
    }
    if before == all && ProperList(all) && Elements(remove) <= Elements(all) {
      forall t | t in all
        ensures t in WithoutAll(before, digests[..k]) <==> t.digest.String() !in digests[..k]
        ensures t in remove <==> t.digest.String() in digests
      {
        WithoutAllMembers(before, digests[..k], t);
        UnsharedDeletionIsExact(all, remove, t);
      }
      forall t | t in WithoutAll(before, digests[..k]) ensures t in all {
        WithoutAllMembers(before, digests[..k], t);
      }
      assert forall d :: d in digests[..k] ==> d in digests;
    }
  }

  /** List, plan, delete. */
  method RunPrune(reg: Registry, lib: Library, p: Policy, now: int) returns (r: Outcome)
    modifies reg
    ensures ProperList(old(reg.tags)) ==>
              && ProperList(reg.tags)
              && KeepSet(lib, p, now, Elements(old(reg.tags))) <= Elements(reg.tags) <= Elements(old(reg.tags))
              && (r.Done? ==> Elements(reg.tags) == KeepSet(lib, p, now, Elements(old(reg.tags))))
              && (r.NoDigest? || r.Conflicts? ==> reg.tags == old(reg.tags))
  {
    var tags := reg.tags;
    var plan := PlanFor(lib, p, now, tags);
    r := PruneDelete(reg, tags, plan.remove);
    if ProperList(tags) {
      var all, kept := Elements(tags), KeepSet(lib, p, now, Elements(tags));
      assert all - (all - kept) == kept;
    }
  }

  /**
   * The same prune run again and again at one clock: however many runs stop half way, the tags the
   * first plan keeps are always there, and a run that finishes leaves exactly those.
   */
  method PruneRepeatedly(reg: Registry, lib: Library, p: Policy, now: int, attempts: nat) returns (done: bool)
    modifies reg
    ensures ProperList(old(reg.tags)) ==>
              && KeepSet(lib, p, now, Elements(old(reg.tags))) <= Elements(reg.tags) <= Elements(old(reg.tags))
              && (done ==> Elements(reg.tags) == KeepSet(lib, p, now, Elements(old(reg.tags))))
  {
    ghost var first := Elements(reg.tags);
    ghost var proper := ProperList(reg.tags);
    if proper {
      ProperElements(reg.tags);
    }
    done := false;
    for i := 0 to attempts
      invariant proper ==> ProperList(reg.tags)
      invariant proper ==> KeepSet(lib, p, now, first) <= Elements(reg.tags) <= first
      invariant proper && done ==> Elements(reg.tags) == KeepSet(lib, p, now, first)
    {
      if proper {
        RetentionIsResumable(lib, p, now, first, Elements(reg.tags));
      }
      var r := RunPrune(reg, lib, p, now);
      done := r.Done?;
    }
  }
}
