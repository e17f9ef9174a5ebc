/** What the integrity pass finds out about a backup whose files may have been damaged since it was written. */
module Audit {
  import opened Common
  import opened Metadata
  import opened Primitives
  import opened Entries
  import opened Recovery
  import opened RoundTrip
  import Builder

  /** What the source answers for the chunks today. */
  ghost function Answers(v: Reader): set<Bytes>
    requires |v.chunks| == |v.offsets|
  {
    set i | 0 <= i < |v.chunks| && StoredSpec(v, i).Some? :: StoredSpec(v, i).value
  }

  ghost predicate Intact(v: Reader, stored: seq<Bytes>, i: nat)
    requires i < |v.chunks| == |v.offsets| == |stored|
  {
    StoredSpec(v, i) == Some(stored[i])
  }

  /** None of today's answers has the digest of a different chunk that was written. */
  ghost predicate NoForgery(v: Reader, stored: seq<Bytes>)
    requires |v.chunks| == |v.offsets|
  {
    NoCollision(v.lib, Answers(v) + set b | b in stored)
  }

  /** A chunk passes the check of its stored digest exactly when it is the chunk that was written. */
  lemma StoredOkIffIntact(v: Reader, plain: seq<Bytes>, stored: seq<Bytes>, i: nat)
    requires HashLaw(v.lib) && i < |v.chunks| == |v.offsets|
    requires Builder.RowsDescribe(v.lib, v.chunks, plain, stored) && NoForgery(v, stored)
    ensures StoredOk(v, i) <==> Intact(v, stored, i)
  {
    assert Builder.RowAt(v.lib, v.chunks, plain, stored, i);
    if StoredSpec(v, i).Some? {
      var b := StoredSpec(v, i).value;
      ShaIsDigest(v.lib, b);
      ShaIsDigest(v.lib, stored[i]);
      ValidDigestMatches(v.chunks[i].ss, v.lib.sha(b));
      assert b in Answers(v) && stored[i] in stored;
    }
  }

  /** With the key of the run a full check asks no more of a chunk than a quick one. */
  lemma ChunkOkIffIntact(v: Reader, full: bool, cfg: Builder.Config, sealer: Builder.Sealer, plain: seq<Bytes>, stored: seq<Bytes>, i: nat)
    requires Laws(v.lib) && SealerOk(sealer) && Reads(v, cfg, sealer, v.chunks, map[]) && i < |v.chunks| == |v.offsets|
    requires Builder.RowsDescribe(v.lib, v.chunks, plain, stored) && Builder.StoredForms(v.lib, cfg, sealer, plain, stored)
    requires NoForgery(v, stored)
    ensures ChunkOk(v, full, i) <==> Intact(v, stored, i)
    ensures Intact(v, stored, i) ==> PlainSpec(v, i, true) == Some(plain[i])
  {
    StoredOkIffIntact(v, plain, stored, i);
    if Intact(v, stored, i) {
      IntactOpens(v, cfg, sealer, map[], plain, stored, true, i);
    }
  }

  /** How many of the first n chunks are not what was written. */
  ghost function Damaged(v: Reader, stored: seq<Bytes>, n: nat): nat
    requires n <= |v.chunks| == |v.offsets| == |stored|
  {
    if n == 0 then 0 else Damaged(v, stored, n - 1) + if Intact(v, stored, n - 1) then 0 else 1
  }

  lemma {:induction false} FaultsAreDamage(v: Reader, full: bool, stored: seq<Bytes>, n: nat)
    requires n <= |v.chunks| == |v.offsets| == |stored|
    requires forall i :: 0 <= i < n ==> (ChunkOk(v, full, i) <==> Intact(v, stored, i))
    ensures Faults(v, full, n) == Damaged(v, stored, n)
  {
    if n > 0 {
      FaultsAreDamage(v, full, stored, n - 1);
    }
  }

  lemma CleanIffIntact(v: Reader, full: bool, stored: seq<Bytes>)
    requires |v.chunks| == |v.offsets| == |stored|
    requires forall i :: 0 <= i < |stored| ==> (ChunkOk(v, full, i) <==> Intact(v, stored, i))
    ensures Faults(v, full, |stored|) == Damaged(v, stored, |stored|)
    ensures (forall i :: 0 <= i < |stored| ==> ChunkOk(v, full, i)) <==> forall i :: 0 <= i < |stored| ==> StoredSpec(v, i) == Some(stored[i])
  {
    FaultsAreDamage(v, full, stored, |stored|);
    if forall i :: 0 <= i < |stored| ==> StoredSpec(v, i) == Some(stored[i]) {
      forall i | 0 <= i < |stored| ensures ChunkOk(v, full, i) {
        assert Intact(v, stored, i);
      }
    }
    if forall i :: 0 <= i < |stored| ==> ChunkOk(v, full, i) {
      forall i | 0 <= i < |stored| ensures StoredSpec(v, i) == Some(stored[i]) {
        assert Intact(v, stored, i);
      }
    }
  }

  lemma QuickFindsDamage(v: Reader, plain: seq<Bytes>, stored: seq<Bytes>)
    requires HashLaw(v.lib) && |v.chunks| == |v.offsets|
    requires Builder.RowsDescribe(v.lib, v.chunks, plain, stored) && NoForgery(v, stored)
    ensures Faults(v, false, |stored|) == Damaged(v, stored, |stored|)
    ensures (forall i :: 0 <= i < |stored| ==> ChunkOk(v, false, i)) <==> forall i :: 0 <= i < |stored| ==> StoredSpec(v, i) == Some(stored[i])
  {
    forall i | 0 <= i < |stored| ensures ChunkOk(v, false, i) <==> Intact(v, stored, i) {
      StoredOkIffIntact(v, plain, stored, i);
    }
    CleanIffIntact(v, false, stored);
  }

  lemma FullFindsDamage(v: Reader, cfg: Builder.Config, sealer: Builder.Sealer, plain: seq<Bytes>, stored: seq<Bytes>)
    requires Laws(v.lib) && SealerOk(sealer) && Reads(v, cfg, sealer, v.chunks, map[]) && |v.chunks| == |v.offsets|
    requires Builder.RowsDescribe(v.lib, v.chunks, plain, stored) && Builder.StoredForms(v.lib, cfg, sealer, plain, stored)
    requires NoForgery(v, stored)
    ensures Faults(v, true, |stored|) == Damaged(v, stored, |stored|)
    ensures (forall i :: 0 <= i < |stored| ==> ChunkOk(v, true, i)) <==> forall i :: 0 <= i < |stored| ==> StoredSpec(v, i) == Some(stored[i])
    ensures (forall i :: 0 <= i < |stored| ==> ChunkOk(v, true, i)) ==> Yields(v, true, plain)
  {
    forall i | 0 <= i < |stored|
      ensures ChunkOk(v, true, i) <==> Intact(v, stored, i)
      ensures ChunkOk(v, true, i) ==> YieldsAt(v, true, plain, i)
    {
      ChunkOkIffIntact(v, true, cfg, sealer, plain, stored, i);
    }
    CleanIffIntact(v, true, stored);
  }

  /**
   * The quick pass over rows a run wrote, for any kind of source and without the key: it is clean exactly when every
   * stored chunk is still the one written, and it counts the ones that are not.
   */
  method QuickAudit(v: Reader, keepGoing: bool, ghost plain: seq<Bytes>, ghost stored: seq<Bytes>) returns (ok: bool, errors: nat)
    requires HashLaw(v.lib) && v.src.stable && |v.chunks| == |v.offsets|
    requires Builder.RowsDescribe(v.lib, v.chunks, plain, stored) && NoForgery(v, stored)
    modifies v.log
    ensures ok <==> forall i :: 0 <= i < |stored| ==> StoredSpec(v, i) == Some(stored[i])
    ensures keepGoing ==> errors == Damaged(v, stored, |stored|)
  {
    QuickFindsDamage(v, plain, stored);
    var entries;
    ok, errors, entries := Verify(v, false, keepGoing);
  }

  /** The full pass with the key of the run: no false alarm, and after a clean one every chunk opens to what went in. */
  method FullAudit(v: Reader, keepGoing: bool, ghost cfg: Builder.Config, ghost sealer: Builder.Sealer,
                   ghost plain: seq<Bytes>, ghost stored: seq<Bytes>)
    returns (ok: bool, errors: nat)
    requires Laws(v.lib) && SealerOk(sealer) && Reads(v, cfg, sealer, v.chunks, map[]) && |v.chunks| == |v.offsets|
    requires Builder.RowsDescribe(v.lib, v.chunks, plain, stored) && Builder.StoredForms(v.lib, cfg, sealer, plain, stored)
    requires NoForgery(v, stored)
    modifies v.log
    ensures ok <==> (forall i :: 0 <= i < |stored| ==> StoredSpec(v, i) == Some(stored[i])) && IndexOk(v)
    ensures keepGoing ==> errors == Damaged(v, stored, |stored|) + if IndexOk(v) then 0 else 1
    ensures ok ==> Yields(v, true, plain)
  {
    FullFindsDamage(v, cfg, sealer, plain, stored);
    var entries;
    ok, errors, entries := Verify(v, true, keepGoing);
  }
}
