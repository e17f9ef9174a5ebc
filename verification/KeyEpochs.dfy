/**
 * Which key seals a backup, over any sequence of backup runs: the decision is taken from what the
 * unwrapped key material attests, so the public manifests of the base backups do not even appear here.
 */
module KeyEpochs {
  import opened Common
  import opened Primitives
  import opened Keys
  import opened Envelope

  datatype Config = Config(encrypt: bool, dedup: bool, rotateKey: bool)

  /** One blob to seal: a data chunk, the file index or the confidential metadata. */
  datatype Message = Message(role: Byte, position: Position, codec: Byte, payload: Bytes, drawn: Nonce)

  /**
   * One run. `base` holds, in the order they are tried, what the key files of the base backup unwrap
   * to (None for an absent file or one the credential does not open); no base at all is the empty list.
   */
  datatype Run = Run(cfg: Config, base: seq<Option<KeyMaterial>>, freshDek: Bytes, freshNonceKey: Bytes, sealed: seq<Message>)

  function Mode(cfg: Config): NonceMode { if cfg.dedup then Convergent else Random }

  /** The material of the base backup, when the first key file that opens says it may seal again. */
  function ReuseDedupKey(base: seq<Option<KeyMaterial>>, rotateKey: bool): (km: Option<KeyMaterial>)
    ensures km.Some? ==> km in base && km.value.Attested() && km.value.envelopeVersion == ENVELOPE_VERSION
                         && km.value.nonceMode == "convergent" && km.value.reuse == REUSE_CONVERGENT_DEDUP
    ensures rotateKey ==> km.None?
  {
    if |base| == 0 || rotateKey then None
    else if base[0].None? then ReuseDedupKey(base[1..], rotateKey)
    else if ReusableFor(base[0].value, ENVELOPE_VERSION, Convergent).Some? then None
    else base[0]
  }

  function FreshKey(run: Run): KeyMaterial { NewKeyMaterial(Mode(run.cfg), run.freshDek, run.freshNonceKey) }

  function SealingKey(run: Run): KeyMaterial {
    if run.cfg.dedup && ReuseDedupKey(run.base, run.cfg.rotateKey).Some?
    then ReuseDedupKey(run.base, run.cfg.rotateKey).value
    else FreshKey(run)
  }

  /** Every sealing key attests the envelope version and the nonce mode it seals under. */
  lemma SealingKeyAttests(run: Run)
    ensures SealingKey(run).Attested() && SealingKey(run).envelopeVersion == ENVELOPE_VERSION
    ensures SealingKey(run).nonceMode == NonceModeName(Mode(run.cfg))
    ensures Mode(run.cfg).Random? ==> SealingKey(run) == FreshKey(run) && SealingKey(run).reuse == REUSE_NEVER
  {
  }

  /** Key file k is the first of the base backup that opens. */
  ghost predicate OpensFirst(base: seq<Option<KeyMaterial>>, k: nat) {
    k < |base| && base[k].Some? && forall i :: 0 <= i < k ==> base[i].None?
  }

  /** The material says of itself that it deduplicates under the current envelope. */
  predicate Reusable(km: KeyMaterial) {
    km.Attested() && km.envelopeVersion == ENVELOPE_VERSION && km.nonceMode == "convergent" && km.reuse == REUSE_CONVERGENT_DEDUP
  }

  lemma {:induction false} FirstOpenedDecides(base: seq<Option<KeyMaterial>>, k: nat)
    requires OpensFirst(base, k)
    ensures ReuseDedupKey(base, false) == if Reusable(base[k].value) then base[k] else None
    decreases k
  {
    if k > 0 {
      FirstOpenedDecides(base[1..], k - 1);
    }
  }

  lemma SomeKeyOpens(base: seq<Option<KeyMaterial>>) returns (k: nat)
    requires exists i :: 0 <= i < |base| && base[i].Some?
    ensures OpensFirst(base, k)
  {
    k := 0;
    while base[k].None?
      invariant k < |base| && forall i :: 0 <= i < k ==> base[i].None?
      decreases |base| - k
    {
      k := k + 1;
    }
  }

  /**
   * A run seals with a key of its base exactly when it deduplicates, no rotation was asked for, and the first key file
   * that opens attests it; otherwise with a fresh one.
   */
  lemma ReusedIffAttested(run: Run)
    ensures SealingKey(run) != FreshKey(run) ==>
              run.cfg.dedup && !run.cfg.rotateKey && exists k: nat :: OpensFirst(run.base, k) && Reusable(run.base[k].value)
    ensures forall k: nat :: OpensFirst(run.base, k) && run.cfg.dedup && !run.cfg.rotateKey && Reusable(run.base[k].value) ==>
              SealingKey(run) == run.base[k].value
  {
    if ReuseDedupKey(run.base, false).Some? {
      var k := SomeKeyOpens(run.base);
      FirstOpenedDecides(run.base, k);
    }
    forall k: nat | OpensFirst(run.base, k) ensures ReuseDedupKey(run.base, false) == if Reusable(run.base[k].value) then run.base[k] else None {
      FirstOpenedDecides(run.base, k);
    }
  }

  // ---------- Sequences of runs ----------

  /** Material in play: generated by some run, or unwrapped from some base backup. */
  ghost predicate InPlay(trace: seq<Run>, km: KeyMaterial) {
    exists i :: 0 <= i < |trace| && (km == FreshKey(trace[i]) || Some(km) in trace[i].base)
  }

  /** Random secrets never repeat, and one data key belongs to one piece of key material. */
  ghost predicate HonestKeys(trace: seq<Run>) {
    && (forall i, j :: 0 <= i < j < |trace| ==> trace[i].freshDek != trace[j].freshDek)
    && (forall a, b :: InPlay(trace, a) && InPlay(trace, b) && a.dek == b.dek ==> a == b)
  }

  lemma SealingKeyInPlay(trace: seq<Run>, i: nat)
    requires i < |trace|
    ensures InPlay(trace, SealingKey(trace[i])) && InPlay(trace, FreshKey(trace[i]))
  {
  }

  /** A key made for random nonces seals one backup only. */
  lemma RandomKeySealsOnce(trace: seq<Run>, i: nat, j: nat)
    requires HonestKeys(trace) && i < |trace| && j < |trace| && i != j && Mode(trace[i].cfg).Random?
    ensures SealingKey(trace[i]).dek != SealingKey(trace[j]).dek
  {
    SealingKeyInPlay(trace, i);
    SealingKeyInPlay(trace, j);
    SealingKeyAttests(trace[i]);
    SealingKeyAttests(trace[j]);
    assert "random"[0] != "convergent"[0];
  }

  // ---------- Nonces ----------

  function NonceOf(lib: Primitives, run: Run, m: Message): Nonce {
    SealNonce(lib, SealingKey(run), Mode(run.cfg), m.drawn, m.role, m.position, m.codec, m.payload)
  }

  function AadOf(run: Run, m: Message): Bytes {
    Aad(SealHeader(Mode(run.cfg), m.codec), m.role, m.position)
  }

  ghost predicate Sealed(trace: seq<Run>, i: nat, a: nat) {
    i < |trace| && trace[i].cfg.encrypt && a < |trace[i].sealed|
  }

  /** The random generator does not repeat a nonce under one key. */
  ghost predicate DrawsDistinct(trace: seq<Run>) {
    forall i: nat, a: nat, b: nat :: Sealed(trace, i, a) && Sealed(trace, i, b) && a != b ==>
      trace[i].sealed[a].drawn != trace[i].sealed[b].drawn
  }

  /** No collision of the truncated keyed hash, nor of the payload hash, among the messages of the trace. */
  ghost predicate NoMacCollision(lib: Primitives, trace: seq<Run>) {
    forall i: nat, a: nat, j: nat, b: nat :: Sealed(trace, i, a) && Sealed(trace, j, b) ==>
      NoCollisionBetween(lib, trace[i], trace[i].sealed[a], trace[j], trace[j].sealed[b])
  }

  /** Under this key the two inputs do not share their first 12 bytes of keyed hash. */
  ghost predicate TruncatedApart(lib: Primitives, k: Key, x: Bytes, y: Bytes) {
    |lib.mac(k, x)| >= 12 && |lib.mac(k, y)| >= 12 && lib.mac(k, x)[..12] == lib.mac(k, y)[..12] ==> x == y
  }

  ghost predicate NoCollisionBetween(lib: Primitives, r: Run, m: Message, s: Run, n: Message) {
    && TruncatedApart(lib, SealingKey(r).nonceKey, NonceInput(lib, AadOf(r, m), m.payload), NonceInput(lib, AadOf(s, n), n.payload))
    && (lib.sum(m.payload) == lib.sum(n.payload) ==> m.payload == n.payload)
  }

  /** The nonce input determines the authenticated data and the payload sum. */
  lemma NonceInputInjective(lib: Primitives, a: Bytes, p: Bytes, b: Bytes, q: Bytes)
    requires |a| == |b| && NonceInput(lib, a, p) == NonceInput(lib, b, q)
    ensures a == b && lib.sum(p) == lib.sum(q)
  {
    var tag := Ascii(NONCE_LABEL);
    var x, y := NonceInput(lib, a, p), NonceInput(lib, b, q);
    assert x[|tag|..|tag| + |a|] == a && y[|tag|..|tag| + |b|] == b;
    assert x[|tag| + |a|..] == lib.sum(p) && y[|tag| + |b|..] == lib.sum(q);
  }

  /**
   * Uniqueness of (key, nonce) pairs over the whole trace: two sealings that share both seal the same
   * payload under the same authenticated data, and under a random-mode key they are one and the same.
   */
  lemma NonceDiscipline(lib: Primitives, trace: seq<Run>, i: nat, a: nat, j: nat, b: nat)
    requires HashLaw(lib) && HonestKeys(trace) && DrawsDistinct(trace) && NoMacCollision(lib, trace)
    requires Sealed(trace, i, a) && Sealed(trace, j, b)
    requires SealingKey(trace[i]).dek == SealingKey(trace[j]).dek
    requires NonceOf(lib, trace[i], trace[i].sealed[a]) == NonceOf(lib, trace[j], trace[j].sealed[b])
    ensures AadOf(trace[i], trace[i].sealed[a]) == AadOf(trace[j], trace[j].sealed[b])
    ensures trace[i].sealed[a].payload == trace[j].sealed[b].payload
    ensures trace[i].sealed[a].role == trace[j].sealed[b].role && trace[i].sealed[a].codec == trace[j].sealed[b].codec
    ensures Mode(trace[i].cfg).Random? ==> i == j && a == b
  {
    var r, m, s, n := trace[i], trace[i].sealed[a], trace[j], trace[j].sealed[b];
    if i != j && Mode(r.cfg).Random? {
      RandomKeySealsOnce(trace, i, j);
    } else if i != j && Mode(s.cfg).Random? {
      RandomKeySealsOnce(trace, j, i);
    } else if Mode(r.cfg).Convergent? {
      SealingKeyInPlay(trace, i);
      SealingKeyInPlay(trace, j);
      assert NoCollisionBetween(lib, r, m, s, n);
      assert Macs(lib, SealingKey(r).nonceKey, NonceInput(lib, AadOf(r, m), m.payload));
      assert Macs(lib, SealingKey(s).nonceKey, NonceInput(lib, AadOf(s, n), n.payload));
      NonceInputInjective(lib, AadOf(r, m), m.payload, AadOf(s, n), n.payload);
    }
    AadInjective(SealHeader(Mode(r.cfg), m.codec), m.role, m.position, SealHeader(Mode(s.cfg), n.codec), n.role, n.position);
  }

  /** The stored form of a message of a run. */
  function BlobOf(lib: Primitives, run: Run, m: Message): Option<Bytes> {
    Seal(lib, SealingKey(run), Mode(run.cfg), m.drawn, m.role, m.position, m.codec, m.payload)
  }

  /**
   * Deduplication works: runs that deduplicate under one key store equal payloads as equal bytes, wherever they stand
   * and whatever the random generator yields.
   */
  lemma EqualPayloadsStoredOnce(lib: Primitives, r: Run, m: Message, s: Run, n: Message)
    requires r.cfg.dedup && s.cfg.dedup && SealingKey(r) == SealingKey(s)
    requires m.role == n.role && m.codec == n.codec && m.payload == n.payload
    ensures BlobOf(lib, r, m) == BlobOf(lib, s, n)
  {
    var h := SealHeader(Convergent, m.codec);
    assert ConvergentFlag(h.flags);
  }
}
