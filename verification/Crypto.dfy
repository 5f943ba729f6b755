/** Ideal cryptography: keys are terms, and a sealed box opens only with its own key and associated data. */
module Crypto {
  import opened Prelude
  import opened Bits

  datatype CoreError =
    | Locked | NotInitialized | AlreadyInitialized | WrongKey | InvalidRecoveryKey | EmptyValue
    | SecretNotFound | SessionNotFound | SessionRevoked | SessionExpired | NotGranted | InvalidManifest
    | BadBlob | Db

  /** A random key, one derived from a passkey's PRF output, or one derived from a recovery secret.
      Derivation is injective in everything it is given. */
  datatype Key = Random(draw: nat) | FromPrf(output: seq<Byte>, salt: nat) | FromRecovery(secret: seq<Byte>, salt: nat)

  datatype Plain = VerifierText | KeyBytes(key: Key) | Value(text: string)

  /** What a box is bound to: its purpose, or the id of its row. */
  datatype Aad = ForVerifier | ForRecovery | ForRow(id: string)

  datatype Blob = Sealed(key: Key, plain: Plain, aad: Aad) | TooShort

  function Seal(key: Key, plain: Plain, aad: Aad): Blob {
    Sealed(key, plain, aad)
  }

  function Open(key: Key, blob: Blob, aad: Aad): Result<Plain, CoreError> {
    if blob.TooShort? then Err(BadBlob)
    else if key == blob.key && aad == blob.aad then Ok(blob.plain)
    else Err(WrongKey)
  }

  function OpenKey(key: Key, blob: Blob, aad: Aad): Result<Key, CoreError> {
    match Open(key, blob, aad)
    case Err(e) => Err(e)
    case Ok(KeyBytes(k)) => Ok(k)
    case Ok(_) => Err(BadBlob)
  }
}
