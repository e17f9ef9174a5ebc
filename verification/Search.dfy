/** Binary search over prefix sums, and the two ways the program asks for a chunk by stream offset. */
module Search {
  import opened Common
  import opened Metadata
  import opened Limits

  ghost predicate Nondecreasing(s: seq<int>) {
    forall i, j :: 0 <= i <= j < |s| ==> s[i] <= s[j]
  }

  /** The first index whose element exceeds x, or |s|: sort.Search over an ordered list. */
  method FirstAbove(s: seq<int>, x: int) returns (i: nat)
    requires Nondecreasing(s)
    ensures i <= |s|
    ensures forall j :: 0 <= j < i ==> s[j] <= x
    ensures i < |s| ==> s[i] > x
  {
    var lo, hi := 0, |s|;
    while lo < hi
      invariant 0 <= lo <= hi <= |s|
      invariant forall j :: 0 <= j < lo ==> s[j] <= x
      invariant hi < |s| ==> s[hi] > x
    {
      var mid := (lo + hi) / 2;
      if s[mid] <= x {
        lo := mid + 1;
      } else {
        hi := mid;
      }
    }
    i := lo;
  }

  /** Chunk i covers the stream offset. */
  predicate CoversOffset(prefix: seq<int>, i: nat, off: int)
    requires i + 1 < |prefix|
  {
    prefix[i] <= off < prefix[i + 1]
  }

  /** As the restore asks: the first chunk that ends after the offset, or the number of chunks. */
  method ChunkFor(prefix: seq<int>, off: int) returns (i: nat)
    requires |prefix| > 0 && Nondecreasing(prefix)
    ensures i <= |prefix| - 1
    ensures prefix[0] <= off < prefix[|prefix| - 1] ==> i < |prefix| - 1 && CoversOffset(prefix, i, off)
    ensures off >= prefix[|prefix| - 1] ==> i == |prefix| - 1
  {
    i := FirstAbove(prefix[1..], off);
  }

  /** As the locator asks: the last prefix not past the offset. */
  method ChunkAt(prefix: seq<int>, off: int) returns (i: nat)
    requires |prefix| > 0 && Nondecreasing(prefix)
    ensures i < |prefix|
    ensures prefix[0] <= off < prefix[|prefix| - 1] ==> i < |prefix| - 1 && CoversOffset(prefix, i, off)
  {
    var after := FirstAbove(prefix, off);
    i := if after == 0 then 0 else after - 1;
  }

  /** At most one chunk covers an offset, so both searches name the same one, empty chunks or not. */
  lemma CoveringChunkUnique(prefix: seq<int>, i: nat, j: nat, off: int)
    requires Nondecreasing(prefix) && i + 1 < |prefix| && j + 1 < |prefix|
    requires CoversOffset(prefix, i, off) && CoversOffset(prefix, j, off)
    ensures i == j
  {
  }

  /** The inclusive range of chunks that cover [start, end). */
  method ChunkRange(prefix: seq<int>, start: int, end: int) returns (r: Option<(nat, nat)>)
    requires |prefix| > 0 && Nondecreasing(prefix) && prefix[0] == 0
    ensures r.Some? <==> 0 <= start < end <= prefix[|prefix| - 1]
    ensures r.Some? ==> r.value.0 <= r.value.1 < |prefix| - 1
    ensures r.Some? ==> forall c :: 0 <= c < |prefix| - 1 && Max(start, prefix[c]) < Min(end, prefix[c + 1]) ==>
                          r.value.0 <= c <= r.value.1
    ensures r.Some? ==> CoversOffset(prefix, r.value.0, start) && CoversOffset(prefix, r.value.1, end - 1)
  {
    if start < 0 || end <= start || end > prefix[|prefix| - 1] {
      return None;
    }
    var from := ChunkAt(prefix, start);
    var to := ChunkAt(prefix, end - 1);
    r := Some((from, to));
  }

  lemma {:induction false} PlainBeforeGrows(chunks: seq<Chunk>, i: nat, j: nat)
    requires i <= j <= |chunks| && forall k :: 0 <= k < |chunks| ==> chunks[k].pb >= 0
    ensures 0 <= PlainBefore(chunks, i) <= PlainBefore(chunks, j)
  {
    if i < j {
      PlainBeforeGrows(chunks, i, j - 1);
    } else if i > 0 {
      PlainBeforeGrows(chunks, i - 1, i - 1);
    }
  }
}
