/**
 * The cryptographic library the vault calls, seen from outside.
 *
 * The vault derives its key with PBKDF2-HMAC-SHA256 (section 5.2 of RFC 8018, 100000
 * iterations, 32-byte output) and encodes it in base64url (section 5 of RFC 4648); it
 * encrypts each stored password as a Fernet token. None of their internals matter to the
 * vault: the model takes the three primitives as function values, so that every property
 * proved here holds for every implementation of them. Being functions, they are
 * deterministic; the one further fact the vault relies on, that a Fernet token decrypts
 * under its own key to the plaintext it was made from, is the predicate FernetRoundTrip,
 * required only by the lemmas that need it.
 */
module Crypto {
  import opened Outcomes

  newtype byte = b: int | 0 <= b < 256

  type Bytes = seq<byte>

  /** The base64url text of a derived key; it is also the Fernet key. */
  type Key = Bytes

  /** Fernet's per-token randomness (initialisation vector and timestamp). */
  type Nonce = Bytes

  /** Length of the random salt that heads the key file. */
  const SALT_LENGTH: nat := 16

  datatype Primitives = Primitives(
    /** PBKDF2 over (master password, salt), base64url-encoded. */
    derive: (string, Bytes) -> Key,
    /** Fernet encryption of a plaintext under a key, with the given randomness. */
    encrypt: (Key, string, Nonce) -> string,
    /** Fernet decryption of a token; None when the token is invalid for the key. */
    decrypt: (Key, string) -> Option<string>)

  /** Fernet's correctness: decrypting a token with the key that made it gives back the plaintext. */
  ghost predicate FernetRoundTrip(c: Primitives)
  {
    forall k, p, n :: c.decrypt(k, c.encrypt(k, p, n)) == Some(p)
  }
}
