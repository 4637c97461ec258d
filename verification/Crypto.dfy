/**
 Symbolic model of the client's cryptography (internal/client/pkg/crypto/crypto.go).

 Assumptions, each built into a constructor:
 - Argon2id (RFC 9106) is a function of password and salt, and its results differ from random keys
   and from each other;
 - SHA-256 of a key is injective;
 - AES-GCM (sections 7.1 and 7.2 of NIST SP 800-38D) opens a ciphertext only under the key that
   sealed it, and then gives back exactly what was sealed;
 - the JSON form of entry metadata can be parsed back.
 */
module Crypto {
  import opened Basics

  const SALT_SIZE: nat := 16
  const VERIFIER_SIZE: nat := 32
  const NONCE_SIZE: nat := 12

  datatype Key = MasterKey(password: string, salt: seq<Byte>) | RandomKey(draw: nat)

  /** Cleartext metadata of an entry; `tags` is None for a nil map. */
  datatype Metadata = Metadata(name: string, notes: string, filename: string, tags: Option<map<string, string>>)

  /** What can be under a seal: secret bytes, marshalled metadata, or a wrapped key. */
  datatype Content = Secret(bytes: seq<Byte>) | MetaJson(meta: Metadata) | KeyBytes(key: Key)

  /** A stored byte string: the output of EncryptAESGCM, or anything else. */
  datatype Blob = Sealed(key: Key, nonce: nat, content: Content) | Raw(bytes: seq<Byte>)

  datatype Verifier = Sha256(key: Key) | Digest(bytes: seq<Byte>)

  datatype CryptoError = TooShort | AuthenticationFailed | NotAKey | NotMetadata

  function DeriveMasterKey(password: string, salt: seq<Byte>): Key {
    MasterKey(password, salt)
  }

  function MasterKeyVerifier(key: Key): Verifier {
    Sha256(key)
  }

  function VerifierSize(v: Verifier): nat {
    match v
    case Sha256(_) => VERIFIER_SIZE
    case Digest(bytes) => |bytes|
  }

  /** A vault_crypto row: the salt and verifier that fix an account's master key. */
  datatype Pair = Pair(salt: seq<Byte>, verifier: Verifier)

  predicate SizesOk(p: Pair) {
    |p.salt| == SALT_SIZE && VerifierSize(p.verifier) == VERIFIER_SIZE
  }

  function Encrypt(content: Content, key: Key, nonce: nat): Blob {
    Sealed(key, nonce, content)
  }

  function Decrypt(blob: Blob, key: Key): (r: Result<Content, CryptoError>)
    ensures r.Ok? <==> blob.Sealed? && blob.key == key
  {
    match blob
    case Raw(bytes) => Err(if |bytes| < NONCE_SIZE then TooShort else AuthenticationFailed)
    case Sealed(k, _, content) => if k == key then Ok(content) else Err(AuthenticationFailed)
  }

  /** Unwraps a data encryption key. Content that is not key material is refused by the cipher. */
  function UnwrapKey(blob: Blob, key: Key): Result<Key, CryptoError> {
    match Decrypt(blob, key)
    case Err(e) => Err(e)
    case Ok(KeyBytes(dek)) => Ok(dek)
    case Ok(_) => Err(NotAKey)
  }

  /** Decrypts and parses metadata. */
  function OpenMetadata(blob: Blob, key: Key): Result<Metadata, CryptoError> {
    match Decrypt(blob, key)
    case Err(e) => Err(e)
    case Ok(MetaJson(meta)) => Ok(meta)
    case Ok(_) => Err(NotMetadata)
  }
}
