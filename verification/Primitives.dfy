/**
 * What the program calls and does not define: hashing, compression, authenticated encryption,
 * keyed hashing and serialisation. They are values, so every theorem holds for every choice of them
 * that meets the laws it names. No law makes a bounded hash injective: freedom from collisions is
 * asked only of the inputs at hand.
 */
module Primitives {
  import opened Common
  import opened Metadata

  type Key = Bytes
  type Nonce = Bytes

  /** The bytes a decompressor hands out, and whether it ended cleanly. */
  datatype Decoded = Decoded(out: Bytes, clean: bool)

  datatype Primitives = Primitives(
    sum: Bytes -> Bytes,
    sha: Bytes -> string,
    compress: (int, int, Bytes) -> Bytes,
    decompress: (int, Bytes) -> Decoded,
    seal: (Key, Nonce, Bytes, Bytes) -> Bytes,
    open: (Key, Nonce, Bytes, Bytes) -> Option<Bytes>,
    mac: (Key, Bytes) -> Bytes,
    encodeManifest: Manifest -> Bytes,
    encodeTable: ChunkTable -> Bytes,
    encodePrivate: Private -> Bytes,
    decodePrivate: Bytes -> Option<Private>,
    encodeIndex: Index -> Bytes,
    decodeIndex: Bytes -> Option<Index>)

  const HEX := "0123456789abcdef"

  function Hex(b: Bytes): (s: string)
    ensures |s| == 2 * |b| && forall i :: 0 <= i < |s| ==> LowerHex(s[i])
  {
    if |b| == 0 then "" else Hex(b[..|b| - 1]) + [HEX[b[|b| - 1] / 16], HEX[b[|b| - 1] % 16]]
  }

  lemma HexDigitsApart(x: Byte, y: Byte)
    requires HEX[x / 16] == HEX[y / 16] && HEX[x % 16] == HEX[y % 16]
    ensures x == y
  {
    assert forall i :: 0 <= i < 10 ==> HEX[i] == '0' + i as char;
    assert forall i :: 10 <= i < 16 ==> HEX[i] == 'a' + (i - 10) as char;
  }

  /** The written form of a sum determines it. */
  lemma {:induction false} HexInjective(a: Bytes, b: Bytes)
    requires Hex(a) == Hex(b)
    ensures a == b
  {
    assert |Hex(a)| == 2 * |a| && |Hex(b)| == 2 * |b|;
    if |a| > 0 {
      var n := |a| - 1;
      assert Hex(a)[..2 * n] == Hex(a[..n]) && Hex(b)[..2 * n] == Hex(b[..n]);
      HexInjective(a[..n], b[..n]);
      assert Hex(a)[2 * n] == HEX[a[n] / 16] && Hex(a)[2 * n + 1] == HEX[a[n] % 16];
      assert Hex(b)[2 * n] == HEX[b[n] / 16] && Hex(b)[2 * n + 1] == HEX[b[n] % 16];
      HexDigitsApart(a[n], b[n]);
      assert a == a[..n] + [a[n]] && b == b[..n] + [b[n]];
    }
  }

  /** A SHA-256 sum is 32 bytes; `sha` is that sum as the metadata writes it. */
  ghost predicate Hashes(lib: Primitives, b: Bytes) {
    |lib.sum(b)| == 32 && lib.sha(b) == DIGEST_PREFIX + Hex(lib.sum(b))
  }

  ghost predicate Macs(lib: Primitives, k: Key, b: Bytes) { |lib.mac(k, b)| == 32 }

  ghost predicate HashLaw(lib: Primitives) {
    (forall b :: Hashes(lib, b)) && (forall k, b :: Macs(lib, k, b))
  }

  lemma ShaIsDigest(lib: Primitives, b: Bytes)
    requires HashLaw(lib)
    ensures ValidDigest(lib.sha(b))
  {
    assert Hashes(lib, b);
    assert lib.sha(b)[|DIGEST_PREFIX|..] == Hex(lib.sum(b));
  }

  /** Decompression undoes compression, at every level. */
  ghost predicate CodecLaw(lib: Primitives) {
    forall codec, level, b :: lib.decompress(codec, lib.compress(codec, level, b)) == Decoded(b, true)
  }

  /** Opening undoes sealing, and succeeds only on what sealing that plaintext produces. */
  ghost predicate AeadLaw(lib: Primitives) {
    && (forall k, n, p, a :: lib.open(k, n, lib.seal(k, n, p, a), a) == Some(p))
    && (forall k, n, c, a :: lib.open(k, n, c, a).Some? ==> c == lib.seal(k, n, lib.open(k, n, c, a).value, a))
  }

  const TAG_LEN := 16
  const FRAME_BYTES := 4056 // what the reader's allowance of 4096 leaves beside header and tag

  /** Compression makes something of something, and hardly more than it was given; sealing adds a tag. */
  ghost predicate SizeLaw(lib: Primitives) {
    && (forall codec, level, b :: |b| > 0 ==> 0 < |lib.compress(codec, level, b)| <= |b| + |b| / 64 + FRAME_BYTES)
    && (forall k, n, p, a :: |lib.seal(k, n, p, a)| == |p| + TAG_LEN)
  }

  ghost predicate EncodingLaw(lib: Primitives) {
    && (forall a, b :: lib.encodeManifest(a) == lib.encodeManifest(b) ==> a == b)
    && (forall a, b :: lib.encodeTable(a) == lib.encodeTable(b) ==> a == b)
    && (forall p :: lib.decodePrivate(lib.encodePrivate(p)) == Some(p))
    && (forall i :: lib.decodeIndex(lib.encodeIndex(i)) == Some(i))
  }

  /** No two different inputs of the set share a digest. */
  ghost predicate NoCollision(lib: Primitives, inputs: set<Bytes>) {
    forall a, b :: a in inputs && b in inputs && lib.sha(a) == lib.sha(b) ==> a == b
  }
}
