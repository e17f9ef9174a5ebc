/** Bytes, options, and the few facts about sequences that every part of the model shares. */
module Common {

  type Byte = x: int | 0 <= x < 256
  type Bytes = seq<Byte>

  datatype Option<+T> = None | Some(value: T)

  function Min(a: int, b: int): int { if a <= b then a else b }

  function Max(a: int, b: int): int { if a >= b then a else b }

  function Zeros(n: nat): (b: Bytes)
    ensures |b| == n
  {
    seq(n, _ => 0)
  }

  /** Concatenation of a list of pieces, in order. */
  function Flatten<T>(pieces: seq<seq<T>>): seq<T> {
    if |pieces| == 0 then [] else Flatten(pieces[..|pieces| - 1]) + pieces[|pieces| - 1]
  }

  lemma FlattenSnoc<T>(pieces: seq<seq<T>>, last: seq<T>)
    ensures Flatten(pieces + [last]) == Flatten(pieces) + last
  {
    assert (pieces + [last])[..|pieces|] == pieces;
  }

  lemma {:induction false} FlattenConcat<T>(a: seq<seq<T>>, b: seq<seq<T>>)
    ensures Flatten(a + b) == Flatten(a) + Flatten(b)
  {
    if |b| == 0 {
      assert a + b == a;
    } else {
      var init, last := b[..|b| - 1], b[|b| - 1];
      assert a + b == (a + init) + [last];
      FlattenSnoc(a + init, last);
      FlattenConcat(a, init);
    }
  }

  /** Pieces [lo, hi) of the list are one contiguous slice of the concatenation. */
  lemma FlattenSlice<T>(pieces: seq<seq<T>>, lo: nat, hi: nat)
    requires lo <= hi <= |pieces|
    ensures |Flatten(pieces[..lo])| <= |Flatten(pieces[..hi])| <= |Flatten(pieces)|
    ensures Flatten(pieces)[|Flatten(pieces[..lo])|..|Flatten(pieces[..hi])|] == Flatten(pieces[lo..hi])
  {
    FlattenConcat(pieces[..lo], pieces[lo..hi]);
    FlattenConcat(pieces[..hi], pieces[hi..]);
    assert pieces[..lo] + pieces[lo..hi] == pieces[..hi];
    assert pieces[..hi] + pieces[hi..] == pieces;
  }

  /** One piece more at the end of a slice. */
  lemma FlattenNext<T>(pieces: seq<seq<T>>, lo: nat, n: nat)
    requires lo <= n < |pieces|
    ensures Flatten(pieces[lo..n + 1]) == Flatten(pieces[lo..n]) + pieces[n]
  {
    assert pieces[lo..n + 1] == pieces[lo..n] + [pieces[n]];
    FlattenSnoc(pieces[lo..n], pieces[n]);
  }

  lemma FlattenOne<T>(piece: seq<T>)
    ensures Flatten([piece]) == piece
  {
    assert [piece][..0] == [];
  }

  /** Slices of a list compose like offsets. */
  lemma SliceOfSlice<T>(s: seq<T>, a: nat, b: nat, c: nat, d: nat)
    requires a <= b <= |s| && c <= d <= b - a
    ensures s[a..b][c..d] == s[a + c..a + d]
  {
    var whole, part := s[a..b], s[a + c..a + d];
    forall i | 0 <= i < d - c
      ensures whole[c..d][i] == part[i]
    {
      assert whole[c..d][i] == whole[c + i] == s[a + (c + i)];
    }
  }

  /** Two adjacent slices join. */
  lemma SliceJoin<T>(s: seq<T>, a: nat, b: nat, c: nat)
    requires a <= b <= c <= |s|
    ensures s[a..b] + s[b..c] == s[a..c]
  {
  }

  lemma HasMember<T>(s: seq<T>)
    ensures s == [] || s[0] in s
  {
  }

  lemma ConcatAssociative<T>(a: seq<T>, b: seq<T>, c: seq<T>)
    ensures (a + b) + c == a + (b + c)
  {
  }

  lemma ConcatEmpty<T>(a: seq<T>)
    ensures a + [] == a
  {
  }

  lemma SliceOfConcat<T>(a: seq<T>, b: seq<T>, i: nat, j: nat)
    requires i <= j <= |a|
    ensures (a + b)[i..j] == a[i..j]
    ensures (a + b)[|a|..|a| + |b|] == b
  {
  }

  lemma PrefixInside<T>(a: seq<T>, part: seq<T>, b: seq<T>, rest: seq<T>)
    requires part <= b
    ensures a + part <= (a + b) + rest
  {
  }
}
