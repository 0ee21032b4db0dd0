/**
 * The cryptographic primitives the backend consumes, kept abstract: an
 * authenticated cipher whose every call draws a fresh IV, its inverse, and a
 * one-way digest. Nothing here depends on AES-GCM or SHA-256 themselves; the
 * rest of the model only uses the round trip that `Sound` states.
 */
module Crypto {
  import opened Wrappers

  /**
   * `encrypt(iv, plain)` is one run of `encryptText` with the IV it drew;
   * `decrypt` is `decryptText` on a non-empty payload; `digest` is `hashSensitiveValue`.
   */
  datatype Primitives = Primitives(
    encrypt: (nat, string) -> string,
    decrypt: string -> string,
    digest: string -> string)

  /** Decryption inverts encryption whatever IV was drawn, and a ciphertext (IV and tag in base64) is never empty. */
  ghost predicate Sound(p: Primitives) {
    forall iv: nat, plain: string :: p.encrypt(iv, plain) != "" && p.decrypt(p.encrypt(iv, plain)) == plain
  }

  ghost predicate InjectiveDigest(p: Primitives) {
    forall a: string, b: string :: p.digest(a) == p.digest(b) ==> a == b
  }

  /** `encryptText` on a string argument: never `null`. */
  function EncryptText(p: Primitives, iv: nat, plain: string): string {
    p.encrypt(iv, plain)
  }

  /**
   * `decryptText`: `null` for an empty payload, otherwise the decryption. The throw
   * of `decipher.final()` on a payload whose tag does not check is not modelled:
   * `decrypt` is total, so such a payload decrypts to some string.
   */
  function DecryptText(p: Primitives, payload: string): (r: Option<string>)
    ensures r.None? <==> payload == ""
  {
    if payload == "" then None else Some(p.decrypt(payload))
  }

  lemma DecryptEncryptText(p: Primitives, iv: nat, plain: string)
    requires Sound(p)
    ensures DecryptText(p, EncryptText(p, iv, plain)) == Some(plain)
  {
  }
}
