/** Which index paths a restored selection must carry, and what an archive slice of them looks like to the extractor. */
module Selection {
  import opened Common
  import opened Metadata
  import opened Entries
  import opened Recovery
  import opened Ranges
  import opened Selective
  import opened Paths
  import Tar = TarWriter

  // ---------- The selection set ----------

  /** Selected paths and the directories above them. */
  ghost predicate Covers(selected: seq<FileEntry>, n: nat, wanted: set<string>)
    requires n <= |selected|
  {
    forall i :: 0 <= i < n ==> CoveredAt(selected[i].path, wanted)
  }

  ghost predicate CoveredAt(path: string, wanted: set<string>) { path in wanted && Ancestors(path) <= wanted }

  /** A wanted hard link brings the path it points to. */
  ghost predicate LinkClosed(entries: seq<FileEntry>, wanted: set<string>) {
    forall i :: 0 <= i < |entries| ==> ClosedAt(entries[i], wanted)
  }

  predicate ClosedAt(e: FileEntry, wanted: set<string>) { e.path in wanted && e.kind == TYPE_HARDLINK ==> e.linkTarget in wanted }

  /** Link targets that are not wanted yet. */
  function Missing(entries: seq<FileEntry>, wanted: set<string>): set<string> {
    (set i | 0 <= i < |entries| && entries[i].kind == TYPE_HARDLINK :: entries[i].linkTarget) - wanted
  }

  /** The set lies inside every set that covers the selection and is closed under link targets. */
  ghost predicate Least(entries: seq<FileEntry>, selected: seq<FileEntry>, wanted: set<string>) {
    forall bound: set<string> :: Within(entries, selected, wanted, bound)
  }

  ghost predicate Within(entries: seq<FileEntry>, selected: seq<FileEntry>, wanted: set<string>, bound: set<string>) {
    Covers(selected, |selected|, bound) && LinkClosed(entries, bound) ==> wanted <= bound
  }

  lemma OneMoreForced(entries: seq<FileEntry>, selected: seq<FileEntry>, wanted: set<string>, extra: set<string>)
    requires Least(entries, selected, wanted)
    requires forall bound: set<string> :: Covers(selected, |selected|, bound) && LinkClosed(entries, bound) && wanted <= bound ==> extra <= bound
    ensures Least(entries, selected, wanted + extra)
  {
    var more := wanted + extra;
    forall bound: set<string> ensures Within(entries, selected, more, bound) {
      assert Within(entries, selected, wanted, bound);
    }
  }

  /** Walks up from the path until "." or "/". */
  method AddParents(path: string, wanted: set<string>) returns (more: set<string>)
    ensures more == wanted + Ancestors(path)
  {
    more := wanted;
    var parent := ParentOf(path);
    ghost var k: nat := |DirParts(path)|;
    while parent != "." && parent != "/"
      invariant UpTo(path, k, parent) && more == wanted + Above(path, k)
      decreases k
    {
      more := more + {parent};
      parent := NextParent(parent, path, k);
      k := k - 1;
    }
  }

  lemma SelectedForced(entries: seq<FileEntry>, selected: seq<FileEntry>, wanted: set<string>, i: nat)
    requires Least(entries, selected, wanted) && i < |selected|
    ensures Least(entries, selected, wanted + {selected[i].path})
    ensures Least(entries, selected, wanted + Ancestors(selected[i].path))
  {
    forall bound: set<string> | Covers(selected, |selected|, bound) && LinkClosed(entries, bound) && wanted <= bound
      ensures {selected[i].path} <= bound && Ancestors(selected[i].path) <= bound
    {
      assert CoveredAt(selected[i].path, bound);
    }
    OneMoreForced(entries, selected, wanted, {selected[i].path});
    OneMoreForced(entries, selected, wanted, Ancestors(selected[i].path));
  }

  lemma TargetForced(entries: seq<FileEntry>, selected: seq<FileEntry>, wanted: set<string>, i: nat)
    requires Least(entries, selected, wanted) && i < |entries|
    requires entries[i].path in wanted && entries[i].kind == TYPE_HARDLINK
    ensures Least(entries, selected, wanted + {entries[i].linkTarget})
  {
    forall bound: set<string> | Covers(selected, |selected|, bound) && LinkClosed(entries, bound) && wanted <= bound
      ensures {entries[i].linkTarget} <= bound
    {
      assert ClosedAt(entries[i], bound);
    }
    OneMoreForced(entries, selected, wanted, {entries[i].linkTarget});
  }

  /** One pass over the index: every wanted link brings its target. */
  method AddTargets(entries: seq<FileEntry>, wanted: set<string>, ghost selected: seq<FileEntry>) returns (more: set<string>, changed: bool)
    requires Least(entries, selected, wanted)
    ensures wanted <= more && Least(entries, selected, more)
    ensures changed <==> !LinkClosed(entries, wanted)
    ensures !changed ==> more == wanted
    ensures changed ==> Missing(entries, more) < Missing(entries, wanted)
  {
    more, changed := wanted, false;
    for i := 0 to |entries|
      invariant wanted <= more && Least(entries, selected, more)
      invariant !changed ==> more == wanted && forall j :: 0 <= j < i ==> ClosedAt(entries[j], wanted)
      invariant changed ==> !LinkClosed(entries, wanted) && exists t :: t in Missing(entries, wanted) && t in more
    {
      var e := entries[i];
      if e.path in more && e.kind == TYPE_HARDLINK && e.linkTarget !in more {
        assert !changed ==> !ClosedAt(entries[i], wanted);
        assert e.linkTarget in Missing(entries, wanted);
        TargetForced(entries, selected, more, i);
        more, changed := more + {e.linkTarget}, true;
      }
    }
    if changed {
      var t :| t in Missing(entries, wanted) && t in more;
      assert t !in Missing(entries, more);
    }
  }

  /** The selected paths and every directory above one. */
  method AddSelected(selected: seq<FileEntry>, ghost entries: seq<FileEntry>) returns (wanted: set<string>)
    ensures Covers(selected, |selected|, wanted) && Least(entries, selected, wanted)
  {
    wanted := {};
    for i := 0 to |selected|
      invariant Least(entries, selected, wanted) && forall j :: 0 <= j < i ==> selected[j].path in wanted
    {
      SelectedForced(entries, selected, wanted, i);
      wanted := wanted + {selected[i].path};
    }
    for i := 0 to |selected|
      invariant Least(entries, selected, wanted)
      invariant Covers(selected, i, wanted) && forall j :: 0 <= j < |selected| ==> selected[j].path in wanted
    {
      SelectedForced(entries, selected, wanted, i);
      wanted := AddParents(selected[i].path, wanted);
    }
  }

  /** The least set that holds the selection and its directories and is closed under link targets. */
  method SelectionSet(entries: seq<FileEntry>, selected: seq<FileEntry>) returns (wanted: set<string>)
    ensures Covers(selected, |selected|, wanted) && LinkClosed(entries, wanted)
    ensures Least(entries, selected, wanted)
  {
    wanted := AddSelected(selected, entries);
    var changed := true;
    while changed
      invariant Covers(selected, |selected|, wanted) && Least(entries, selected, wanted)
      invariant !changed ==> LinkClosed(entries, wanted)
      decreases Missing(entries, wanted), changed
    {
      wanted, changed := AddTargets(entries, wanted, selected);
    }
  }

  /** There is only one such set. */
  lemma SelectionIsUnique(entries: seq<FileEntry>, selected: seq<FileEntry>, a: set<string>, b: set<string>)
    requires Covers(selected, |selected|, a) && LinkClosed(entries, a) && Least(entries, selected, a)
    requires Covers(selected, |selected|, b) && LinkClosed(entries, b) && Least(entries, selected, b)
    ensures a == b
  {
    assert Within(entries, selected, a, b) && Within(entries, selected, b, a);
  }

  // ---------- The slice of the archive ----------

  /** The wanted entries among the first n, in archive order. */
  function Picked(entries: seq<FileEntry>, wanted: set<string>, n: nat): seq<FileEntry>
    requires n <= |entries|
  {
    if n == 0 then []
    else if entries[n - 1].path in wanted then Picked(entries, wanted, n - 1) + [entries[n - 1]]
    else Picked(entries, wanted, n - 1)
  }

  /** A hard link names an earlier regular entry. */
  ghost predicate LinksEarlier(entries: seq<FileEntry>) {
    forall i :: 0 <= i < |entries| ==> LinkEarlier(entries, i)
  }

  ghost predicate LinkEarlier(entries: seq<FileEntry>, i: nat)
    requires i < |entries|
  {
    entries[i].kind == TYPE_HARDLINK ==> RegularBefore(entries, i, entries[i].linkTarget)
  }

  ghost predicate RegularBefore(entries: seq<FileEntry>, n: nat, path: string)
    requires n <= |entries|
  {
    exists j :: 0 <= j < n && entries[j].path == path && entries[j].kind == TYPE_REGULAR
  }

  /** Everything picked was there, and every wanted entry was picked. */
  lemma {:induction false} PickedMembers(entries: seq<FileEntry>, wanted: set<string>, n: nat, e: FileEntry)
    requires n <= |entries|
    ensures e in Picked(entries, wanted, n) <==> e.path in wanted && e in entries[..n]
  {
    if n > 0 {
      PickedMembers(entries, wanted, n - 1, e);
      assert entries[..n] == entries[..n - 1] + [entries[n - 1]];
    }
  }

  /** A regular file that precedes a link and is wanted precedes it in the slice. */
  lemma RegularPicked(entries: seq<FileEntry>, wanted: set<string>, n: nat, path: string)
    requires n <= |entries| && RegularBefore(entries, n, path) && path in wanted
    ensures RegularBefore(Picked(entries, wanted, n), |Picked(entries, wanted, n)|, path)
  {
    var j :| 0 <= j < n && entries[j].path == path && entries[j].kind == TYPE_REGULAR;
    assert entries[..n][j] == entries[j];
    PickedMembers(entries, wanted, n, entries[j]);
  }

  lemma {:induction false} PickedLinks(entries: seq<FileEntry>, wanted: set<string>, n: nat)
    requires n <= |entries| && LinksEarlier(entries) && LinkClosed(entries, wanted)
    ensures LinksEarlier(Picked(entries, wanted, n))
  {
    if n > 0 {
      var init, e := Picked(entries, wanted, n - 1), entries[n - 1];
      PickedLinks(entries, wanted, n - 1);
      assert ClosedAt(e, wanted) && LinkEarlier(entries, n - 1);
      if e.path in wanted && e.kind == TYPE_HARDLINK {
        RegularPicked(entries, wanted, n - 1, e.linkTarget);
      }
      LinksSnoc(init, e);
    }
  }

  lemma LinksSnoc(init: seq<FileEntry>, e: FileEntry)
    requires LinksEarlier(init)
    ensures e.kind != TYPE_HARDLINK || RegularBefore(init, |init|, e.linkTarget) ==> LinksEarlier(init + [e])
  {
    var all := init + [e];
    if e.kind != TYPE_HARDLINK || RegularBefore(init, |init|, e.linkTarget) {
      forall i | 0 <= i < |all| ensures LinkEarlier(all, i) {
        if i < |init| {
          assert LinkEarlier(init, i);
        }
        if all[i].kind == TYPE_HARDLINK {
          var j :| 0 <= j < i && init[j].path == all[i].linkTarget && init[j].kind == TYPE_REGULAR;
          assert all[j] == init[j];
        }
      }
    }
  }

  lemma {:induction false} PickedParents(entries: seq<FileEntry>, wanted: set<string>, n: nat)
    requires n <= |entries| && Tar.ParentsFirst(entries)
    ensures Tar.ParentsFirst(Picked(entries, wanted, n))
  {
    if n > 0 {
      var init, e := Picked(entries, wanted, n - 1), entries[n - 1];
      PickedParents(entries, wanted, n - 1);
      assert Tar.FirstAt(entries, n - 1);
      forall i | 0 <= i < |init| ensures !Tar.Under(init[i].path, e.path) {
        PickedMembers(entries, wanted, n - 1, init[i]);
      }
      Tar.PathsOneMore(init, e);
    }
  }

  /** What a strict walk wrote has every hard link after its regular file. */
  lemma ArchivedLinks(entries: seq<FileEntry>, items: seq<Tar.Item>)
    requires |entries| == |items| && Tar.LinksBack(entries, items)
    ensures LinksEarlier(entries)
  {
    forall i | 0 <= i < |entries| ensures LinkEarlier(entries, i) {
      assert Tar.LinkAt(entries, items, i);
      if entries[i].kind == TYPE_HARDLINK {
        assert Tar.NamesFile(entries, items, i, entries[i].linkTarget, items[i].node.inode.value);
      }
    }
  }

  // ---------- The reader's ranges are the writer's records ----------

  /** When the stream is the archive, the range rule cuts out exactly the record of each entry. */
  lemma RangesAreRecords(w: Tape, tar: Tar.Tar, entries: seq<FileEntry>, items: seq<Tar.Item>, contents: seq<Bytes>, i: nat)
    requires w.Valid() && Tar.TarLaw(tar) && Tar.Archived(tar, w.Whole(), entries, items, contents) && i < |entries|
    ensures EntryRangeOk(entries, i, w.ContentEnd())
    ensures Record(w, entries, i) == Tar.RecordOf(tar, entries[i], contents[i])
  {
    StreamLength(w, |w.plain|);
    Tar.OffsetsTile(tar, w.Whole(), entries, items, contents, i);
    assert w.CutsAt(entries[i].tarOffset, EndOf(entries, i, w.ContentEnd()));
  }
}
