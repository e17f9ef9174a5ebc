/** The envelope around every stored blob: header, authenticated data, sealing and opening. */
module Envelope {
  import opened Common
  import opened Metadata
  import opened Primitives
  import opened Keys

  const MAGIC: Bytes := [0x42, 0x49, 0x4d, 0x47, 0x43, 0x48, 0x4b, 0x31] // "BIMGCHK1"
  const VERSION_LEGACY := 1
  const VERSION_ROLE := 2
  const AEAD_NONE := 0
  const AEAD_AES256GCM := 1
  const NONCE_LEN := 12
  const HEADER_END := 12
  const HEADER_MAX := 24

  const ROLE_DATA: Byte := 0
  const ROLE_INDEX: Byte := 1
  const ROLE_PRIVATE: Byte := 2

  predicate ValidRole(role: Byte) { role <= ROLE_PRIVATE }

  datatype Header = Header(version: Byte, codec: Byte, aead: Byte, flags: Byte, nonce: Bytes)

  predicate ConvergentFlag(flags: Byte) { flags % 2 == 1 }

  function HeaderSize(aead: Byte): nat { if aead == AEAD_NONE then HEADER_END else HEADER_MAX }

  /** The encoded header. */
  function HeaderBytes(h: Header): Bytes {
    MAGIC + [h.version, h.codec, h.aead, h.flags] + if h.aead == AEAD_AES256GCM then h.nonce else []
  }

  /** Encodes h at the start of dst[at..]; nothing is written when it does not fit. */
  method MarshalHeader(dst: array<Byte>, at: nat, h: Header) returns (n: nat, ok: bool)
    requires at <= dst.Length && |h.nonce| == NONCE_LEN
    modifies dst
    ensures ok <==> dst.Length - at >= if h.aead == AEAD_AES256GCM then HEADER_MAX else HEADER_END
    ensures ok ==> n == |HeaderBytes(h)| && dst[at..at + n] == HeaderBytes(h)
    ensures forall i :: 0 <= i < dst.Length && (!ok || i < at || i >= at + n) ==> dst[i] == old(dst[i])
  {
    if dst.Length - at < HEADER_END {
      return 0, false;
    }
    n := HEADER_END;
    if h.aead == AEAD_AES256GCM {
      if dst.Length - at < HEADER_MAX {
        return 0, false;
      }
      n := HEADER_MAX;
      forall i | 0 <= i < NONCE_LEN {
        dst[at + HEADER_END + i] := h.nonce[i];
      }
    }
    forall i | 0 <= i < 8 {
      dst[at + i] := MAGIC[i];
    }
    dst[at + 8], dst[at + 9], dst[at + 10], dst[at + 11] := h.version, h.codec, h.aead, h.flags;
    ok := true;
    ghost var bytes := HeaderBytes(h);
    assert |bytes| == n;
    assert forall i :: 0 <= i < 8 ==> bytes[i] == MAGIC[i];
    assert forall i :: HEADER_END <= i < n ==> bytes[i] == h.nonce[i - HEADER_END];
    assert forall i :: 0 <= i < n ==> dst[at + i] == bytes[i];
    assert dst[at..at + n] == bytes;
  }

  predicate IsEnvelope(b: Bytes) { MAGIC <= b }

  /** The header a reader accepts: a known version, codec and cipher. */
  predicate Readable(h: Header) {
    && VERSION_LEGACY <= h.version <= ENVELOPE_VERSION
    && KnownCodec(h.codec)
    && (h.aead == AEAD_NONE || h.aead == AEAD_AES256GCM)
  }

  function ParseHeader(src: Bytes): Option<(Header, nat)> {
    if |src| < HEADER_END || src[..8] != MAGIC then None
    else
      var h := Header(src[8], src[9], src[10], src[11], Zeros(NONCE_LEN));
      if !Readable(h) then None
      else
        var n := HeaderSize(h.aead);
        if |src| < n then None
        else if h.aead != AEAD_NONE then Some((h.(nonce := src[HEADER_END..n]), n))
        else Some((h, n))
  }

  /** Which bytes parse: the magic, a version from 1 to 3, one of five codecs, clear or AES-256-GCM, and room for the nonce. */
  lemma ParsesIff(src: Bytes)
    ensures ParseHeader(src).Some? <==>
            |src| >= 12 && MAGIC <= src && 1 <= src[8] <= 3 && src[9] <= 4 && src[10] <= 1 && (src[10] == 1 ==> |src| >= 24)
  {
    if |src| >= 12 {
      assert MAGIC <= src <==> src[..8] == MAGIC;
    }
  }

  /** Parsing undoes encoding exactly for readable headers; a clear header carries no nonce. */
  lemma ParseInvertsMarshal(h: Header, rest: Bytes)
    requires |h.nonce| == NONCE_LEN
    ensures ParseHeader(HeaderBytes(h) + rest) == Some((h, |HeaderBytes(h)|)) <==>
            Readable(h) && (h.aead == AEAD_NONE ==> h.nonce == Zeros(NONCE_LEN))
  {
    var b := HeaderBytes(h) + rest;
    assert b[..8] == MAGIC && b[8] == h.version && b[9] == h.codec && b[10] == h.aead && b[11] == h.flags;
    if h.aead == AEAD_AES256GCM {
      assert b[HEADER_END..HEADER_MAX] == h.nonce;
    }
  }

  /** Whatever parses is the encoding of what it parsed to. */
  lemma MarshalInvertsParse(src: Bytes)
    requires ParseHeader(src).Some?
    ensures var (h, n) := ParseHeader(src).value;
            n <= |src| && |h.nonce| == NONCE_LEN && Readable(h) && src[..n] == HeaderBytes(h)
  {
    var (h, n) := ParseHeader(src).value;
    assert src[..n] == HeaderBytes(h);
  }

  // ---------- Authenticated data ----------

  type Position = x: int | 0 <= x < 0x1_0000_0000

  /** A chunk index as the envelope sees it: 32 bits. */
  function PositionOf(i: nat): Position { i % 0x1_0000_0000 }

  function BigEndian(x: Position): (b: Bytes)
    ensures |b| == 4 && x == (((b[0] as int) * 0x100 + b[1]) * 0x100 + b[2]) * 0x100 + b[3]
  {
    var high := x / 0x100;
    [high / 0x100 / 0x100, high / 0x100 % 0x100, high % 0x100, x % 0x100]
  }

  function PositionBytes(h: Header, position: Position): (b: Bytes)
    ensures |b| == 4
  {
    if ConvergentFlag(h.flags) then Zeros(4) else BigEndian(position)
  }

  function Aad(h: Header, role: Byte, position: Position): Bytes {
    var fixed := MAGIC + [h.version, h.codec, h.aead, h.flags];
    if h.version < VERSION_ROLE then fixed + PositionBytes(h, position)
    else fixed + [role] + PositionBytes(h, position)
  }

  /** The authenticated data tells apart everything it covers; the legacy form never equals the current one. */
  lemma AadInjective(h: Header, role: Byte, position: Position, h': Header, role': Byte, position': Position)
    requires Aad(h, role, position) == Aad(h', role', position')
    ensures h.version == h'.version && h.codec == h'.codec && h.aead == h'.aead && h.flags == h'.flags
    ensures h.version >= VERSION_ROLE ==> role == role'
    ensures !ConvergentFlag(h.flags) ==> position == position'
  {
    var a, b := Aad(h, role, position), Aad(h', role', position');
    assert |a| == if h.version < VERSION_ROLE then 16 else 17;
    assert |b| == if h'.version < VERSION_ROLE then 16 else 17;
    assert a[8] == h.version && a[9] == h.codec && a[10] == h.aead && a[11] == h.flags;
    assert b[8] == h'.version && b[9] == h'.codec && b[10] == h'.aead && b[11] == h'.flags;
    if h.version >= VERSION_ROLE {
      assert a[12] == role && b[12] == role';
    }
    if !ConvergentFlag(h.flags) {
      var n := |a| - 4;
      assert a[n..] == BigEndian(position) && b[n..] == BigEndian(position');
    }
  }

  // ---------- Sealing and opening ----------

  function Ascii(s: string): (b: Bytes)
    ensures |b| == |s|
  {
    seq(|s|, i requires 0 <= i < |s| => (s[i] as int) % 256)
  }

  const NONCE_LABEL := "backimage/nonce/v3\0"

  /** What the convergent nonce is a keyed hash of. */
  function NonceInput(lib: Primitives, aad: Bytes, payload: Bytes): Bytes {
    Ascii(NONCE_LABEL) + aad + lib.sum(payload)
  }

  function ConvergentNonce(lib: Primitives, nonceKey: Bytes, aad: Bytes, payload: Bytes): Bytes {
    var m := lib.mac(nonceKey, NonceInput(lib, aad, payload));
    if |m| < NONCE_LEN then m else m[..NONCE_LEN]
  }

  /** The header fields a sealer in this mode writes, before the nonce is known. */
  function SealHeader(mode: NonceMode, codec: Byte): Header {
    Header(ENVELOPE_VERSION, codec, AEAD_AES256GCM, if mode.Convergent? then 1 else 0, Zeros(NONCE_LEN))
  }

  function SealNonce(lib: Primitives, km: KeyMaterial, mode: NonceMode, drawn: Nonce, role: Byte, position: Position,
                     codec: Byte, payload: Bytes): Nonce {
    if mode.Convergent? then ConvergentNonce(lib, km.nonceKey, Aad(SealHeader(mode, codec), role, position), payload)
    else drawn
  }

  /** `drawn` is the nonce the random generator yields; convergent mode does not use it. */
  function Seal(lib: Primitives, km: KeyMaterial, mode: NonceMode, drawn: Nonce, role: Byte, position: Position,
                codec: Byte, payload: Bytes): Option<Bytes> {
    if !ValidRole(role) then None
    else
      var h := SealHeader(mode, codec).(nonce := SealNonce(lib, km, mode, drawn, role, position, codec, payload));
      Some(HeaderBytes(h) + lib.seal(km.dek, h.nonce, payload, Aad(h, role, position)))
  }

  /** The opener of an encrypted backup refuses everything that is not authenticated. */
  function KeyedOpen(lib: Primitives, km: KeyMaterial, role: Byte, position: Position, blob: Bytes): Option<(Bytes, Byte)> {
    if !ValidRole(role) then None
    else
      match ParseHeader(blob)
      case None => None
      case Some((h, n)) =>
        if h.aead != AEAD_AES256GCM then None
        else
          match lib.open(km.dek, h.nonce, if n <= |blob| then blob[n..] else [], Aad(h, role, position))
          case None => None
          case Some(payload) => Some((payload, h.codec))
  }

  /** The opener of a backup declared unencrypted refuses everything that is. */
  function ClearOpen(role: Byte, blob: Bytes): Option<(Bytes, Byte)> {
    if !ValidRole(role) then None
    else
      match ParseHeader(blob)
      case None => None
      case Some((h, n)) => if h.aead == AEAD_NONE && n <= |blob| then Some((blob[n..], h.codec)) else None
  }

  /** The ciphertext opens under no other authenticated data: no forgery on this one message. */
  ghost predicate OpensOnlyUnder(lib: Primitives, km: KeyMaterial, nonce: Nonce, payload: Bytes, aad: Bytes) {
    forall a :: a != aad ==> lib.open(km.dek, nonce, lib.seal(km.dek, nonce, payload, aad), a).None?
  }

  lemma SealNonceLength(lib: Primitives, km: KeyMaterial, mode: NonceMode, drawn: Nonce, role: Byte, position: Position,
                        codec: Byte, payload: Bytes)
    requires HashLaw(lib) && |drawn| == NONCE_LEN
    ensures |SealNonce(lib, km, mode, drawn, role, position, codec, payload)| == NONCE_LEN
  {
    assert Macs(lib, km.nonceKey, NonceInput(lib, Aad(SealHeader(mode, codec), role, position), payload));
  }

  /** Opening a sealed blob is opening its ciphertext under the header it was sealed with. */
  lemma OpenSealed(lib: Primitives, km: KeyMaterial, mode: NonceMode, drawn: Nonce, role: Byte, position: Position,
                   codec: Byte, payload: Bytes, role': Byte, position': Position)
    requires HashLaw(lib) && |drawn| == NONCE_LEN && ValidRole(role) && ValidRole(role') && KnownCodec(codec)
    ensures var h := SealHeader(mode, codec);
            var nonce := SealNonce(lib, km, mode, drawn, role, position, codec, payload);
            var result := lib.open(km.dek, nonce, lib.seal(km.dek, nonce, payload, Aad(h, role, position)), Aad(h, role', position'));
            KeyedOpen(lib, km, role', position', Seal(lib, km, mode, drawn, role, position, codec, payload).value) ==
            if result.Some? then Some((result.value, codec)) else None
  {
    SealNonceLength(lib, km, mode, drawn, role, position, codec, payload);
    var nonce := SealNonce(lib, km, mode, drawn, role, position, codec, payload);
    var h := SealHeader(mode, codec).(nonce := nonce);
    var cipher := lib.seal(km.dek, nonce, payload, Aad(h, role, position));
    ParseInvertsMarshal(h, cipher);
    assert (HeaderBytes(h) + cipher)[|HeaderBytes(h)|..] == cipher;
  }

  /** A keyed opener returns exactly what was sealed, for the same role and, in random mode, the same position. */
  lemma SealedOpens(lib: Primitives, km: KeyMaterial, mode: NonceMode, drawn: Nonce, role: Byte, position: Position,
                    codec: Byte, payload: Bytes, position': Position)
    requires HashLaw(lib) && AeadLaw(lib) && |drawn| == NONCE_LEN && ValidRole(role) && KnownCodec(codec)
    requires mode.Random? ==> position' == position
    ensures KeyedOpen(lib, km, role, position', Seal(lib, km, mode, drawn, role, position, codec, payload).value) ==
            Some((payload, codec))
  {
    OpenSealed(lib, km, mode, drawn, role, position, codec, payload, role, position');
    var h := SealHeader(mode, codec);
    assert Aad(h, role, position') == Aad(h, role, position);
  }

  /** And it accepts the sealed blob nowhere else. */
  lemma SealedOpensOnlyInPlace(lib: Primitives, km: KeyMaterial, mode: NonceMode, drawn: Nonce, role: Byte, position: Position,
                               codec: Byte, payload: Bytes, role': Byte, position': Position)
    requires HashLaw(lib) && AeadLaw(lib) && |drawn| == NONCE_LEN && ValidRole(role) && ValidRole(role') && KnownCodec(codec)
    requires OpensOnlyUnder(lib, km, SealNonce(lib, km, mode, drawn, role, position, codec, payload), payload,
                            Aad(SealHeader(mode, codec), role, position))
    ensures KeyedOpen(lib, km, role', position', Seal(lib, km, mode, drawn, role, position, codec, payload).value).Some? <==>
            role' == role && (mode.Random? ==> position' == position)
  {
    OpenSealed(lib, km, mode, drawn, role, position, codec, payload, role', position');
    var h := SealHeader(mode, codec);
    if Aad(h, role', position') == Aad(h, role, position) {
      AadInjective(h, role', position', h, role, position);
    }
  }

  ghost predicate SealedWith(lib: Primitives, km: KeyMaterial, role: Byte, position: Position, blob: Bytes,
                             payload: Bytes, codec: Byte, h: Header) {
    && Readable(h) && h.aead == AEAD_AES256GCM && h.codec == codec && |h.nonce| == NONCE_LEN
    && blob == HeaderBytes(h) + lib.seal(km.dek, h.nonce, payload, Aad(h, role, position))
  }

  /** A keyed opener accepts exactly the blobs sealed under its key for that role and position. */
  lemma OpenedWasSealed(lib: Primitives, km: KeyMaterial, role: Byte, position: Position, blob: Bytes, payload: Bytes, codec: Byte)
    requires AeadLaw(lib) && ValidRole(role)
    ensures KeyedOpen(lib, km, role, position, blob) == Some((payload, codec)) <==>
            exists h :: SealedWith(lib, km, role, position, blob, payload, codec, h)
  {
    if KeyedOpen(lib, km, role, position, blob) == Some((payload, codec)) {
      MarshalInvertsParse(blob);
      var (h, n) := ParseHeader(blob).value;
      assert blob == blob[..n] + blob[n..];
      assert SealedWith(lib, km, role, position, blob, payload, codec, h);
    }
    if h :| SealedWith(lib, km, role, position, blob, payload, codec, h) {
      var cipher := lib.seal(km.dek, h.nonce, payload, Aad(h, role, position));
      ParseInvertsMarshal(h, cipher);
      assert blob[|HeaderBytes(h)|..] == cipher;
    }
  }

  /** No blob is acceptable to both openers. */
  lemma OpenersDisagree(lib: Primitives, km: KeyMaterial, role: Byte, position: Position, blob: Bytes)
    ensures KeyedOpen(lib, km, role, position, blob).None? || ClearOpen(role, blob).None?
  {
  }
}
