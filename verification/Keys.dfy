/** Key material and what it attests about itself. */
module Keys {
  import opened Common

  const ENVELOPE_VERSION := 3
  const KEY_SCHEMA_LEGACY := 1
  const KEY_SCHEMA := 2
  const REUSE_NEVER := "never"
  const REUSE_CONVERGENT_DEDUP := "convergent-dedup"

  datatype NonceMode = Random | Convergent

  function NonceModeName(mode: NonceMode): string {
    match mode case Random => "random" case Convergent => "convergent"
  }

  datatype KeyMaterial = KeyMaterial(
    schemaVersion: int, envelopeVersion: int, nonceMode: string, reuse: string, dek: Bytes, nonceKey: Bytes)
  {
    predicate Attested() { schemaVersion >= KEY_SCHEMA }

    predicate Validates() {
      && (schemaVersion == KEY_SCHEMA_LEGACY ||
          (schemaVersion == KEY_SCHEMA && envelopeVersion > 0
           && (nonceMode == "random" || nonceMode == "convergent")
           && (reuse == REUSE_NEVER || reuse == REUSE_CONVERGENT_DEDUP)))
      && |dek| == 32 && |nonceKey| == 32
    }
  }

  datatype Refusal = NotAttested | WrongEpoch | WrongMode | NotReusable

  /** None when the material may seal another backup under the given epoch and mode. */
  function ReusableFor(km: KeyMaterial, epoch: int, mode: NonceMode): Option<Refusal> {
    if !km.Attested() then Some(NotAttested)
    else if km.envelopeVersion != epoch then Some(WrongEpoch)
    else if km.nonceMode != NonceModeName(mode) then Some(WrongMode)
    else if km.reuse != REUSE_CONVERGENT_DEDUP then Some(NotReusable)
    else None
  }

  /** Fresh material around randomly drawn secrets. */
  function NewKeyMaterial(mode: NonceMode, dek: Bytes, nonceKey: Bytes): KeyMaterial {
    KeyMaterial(KEY_SCHEMA, ENVELOPE_VERSION, NonceModeName(mode),
                if mode.Convergent? then REUSE_CONVERGENT_DEDUP else REUSE_NEVER, dek, nonceKey)
  }
}
