/**
 * The identifier codec of `backend/utils/accountNumbers.js`: account numbers
 * and IBANs are stored as a kind prefix followed by ciphertext, with legacy
 * plaintext values (no prefix) passed through on read; a deterministic digest
 * of the upper-cased value serves equality lookups; a masked form is shown in
 * place of the number; IBANs are generated from random bytes.
 */
module AccountNumbers {
  import opened Wrappers
  import opened Text
  import Crypto

  type Byte = b: int | 0 <= b < 256

  /** Which identifier a stored value holds; each kind has its own prefix. */
  datatype Kind = AccountNumber | Iban

  function Prefix(kind: Kind): string {
    match kind
    case AccountNumber => "ENC::"
    case Iban => "IBAN::"
  }

  /** The form that is encrypted: whitespace deleted, then upper-cased. */
  function Normalize(value: string): (r: string)
    ensures NoSpace(r) && IsUpperCased(r)
  {
    UpperIdempotent(RemoveSpaces(value));
    var r := ToUpper(RemoveSpaces(value));
    RemoveSpacesUpper(RemoveSpaces(value));
    RemoveSpacesOfNoSpace(RemoveSpaces(value));
    r
  }

  /** A value already free of whitespace and upper-cased is its own normal form. */
  lemma NormalizeOfNormal(value: string)
    requires NoSpace(value) && IsUpperCased(value)
    ensures Normalize(value) == value
  {
    RemoveSpacesOfNoSpace(value);
    UpperOfUpperCased(value);
  }

  /** `encryptAccountNumber` / `encryptIban`; `iv` is the IV the cipher draws. */
  function Encrypt(p: Crypto.Primitives, kind: Kind, iv: nat, value: string): (r: Option<string>)
    ensures r.None? <==> value == ""
  {
    if value == "" then None
    else Some(Prefix(kind) + Crypto.EncryptText(p, iv, Normalize(value)))
  }

  /** `decryptAccountNumber` / `decryptIban` on a nullable column value. */
  function Decrypt(p: Crypto.Primitives, kind: Kind, value: Option<string>): Option<string> {
    if value.None? || value.value == "" then None
    else if StartsWith(value.value, Prefix(kind)) then Crypto.DecryptText(p, value.value[|Prefix(kind)|..])
    else value
  }

  /** `hashAccountNumber` / `hashIban` (the two are the same function). */
  function Hash(p: Crypto.Primitives, value: string): (r: Option<string>)
    ensures r.None? <==> value == ""
  {
    if value == "" then None else Some(p.digest(ToUpper(value)))
  }

  /** `isEncryptedAccountNumber` / `isEncryptedIban`: the value is a string starting with the kind's prefix. */
  predicate IsEncrypted(kind: Kind, value: Option<string>) {
    value.Some? && StartsWith(value.value, Prefix(kind))
  }

  /** Reading back what was written yields the normalised value, for either kind. */
  lemma DecryptEncrypt(p: Crypto.Primitives, kind: Kind, iv: nat, value: string)
    requires Crypto.Sound(p)
    requires value != ""
    ensures IsEncrypted(kind, Encrypt(p, kind, iv, value))
    ensures Decrypt(p, kind, Encrypt(p, kind, iv, value)) == Some(Normalize(value))
  {
    var c := Crypto.EncryptText(p, iv, Normalize(value));
    var stored := Prefix(kind) + c;
    assert stored[|Prefix(kind)|..] == c;
    Crypto.DecryptEncryptText(p, iv, Normalize(value));
  }

  /** Empty input is `null` in both directions. */
  lemma EmptyIsNull(p: Crypto.Primitives, kind: Kind, iv: nat)
    ensures Encrypt(p, kind, iv, "") == None
    ensures Decrypt(p, kind, None) == None && Decrypt(p, kind, Some("")) == None
    ensures Hash(p, "") == None
  {
  }

  /** A legacy plaintext value, lacking the prefix, is returned unchanged. */
  lemma LegacyPassThrough(p: Crypto.Primitives, kind: Kind, value: string)
    requires value != "" && !StartsWith(value, Prefix(kind))
    ensures Decrypt(p, kind, Some(value)) == Some(value)
  {
  }

  /** An encrypted account number is not an encrypted IBAN, so reading it as an IBAN passes it through. */
  lemma KindsDoNotMix(p: Crypto.Primitives, iv: nat, value: string)
    requires value != ""
    ensures !IsEncrypted(Iban, Encrypt(p, AccountNumber, iv, value))
    ensures !IsEncrypted(AccountNumber, Encrypt(p, Iban, iv, value))
  {
    var a := Encrypt(p, AccountNumber, iv, value).value;
    var b := Encrypt(p, Iban, iv, value).value;
    assert a[1] == 'N' && "IBAN::"[1] == 'B';
    assert b[0] == 'I' && "ENC::"[0] == 'E';
  }

  /** The digest is case-insensitive: it only ever sees the upper-cased value. */
  lemma HashIgnoresCase(p: Crypto.Primitives, value: string)
    ensures Hash(p, value) == Hash(p, ToUpper(value))
  {
    UpperIdempotent(value);
  }

  /**
   * Unlike `Encrypt`, the digest does not delete whitespace: with an injective digest,
   * a value and its whitespace-free form hash differently whenever they differ.
   */
  lemma HashKeepsWhitespace(p: Crypto.Primitives, value: string)
    requires Crypto.InjectiveDigest(p)
    requires value != "" && RemoveSpaces(value) != "" && !NoSpace(value)
    ensures Hash(p, value) != Hash(p, RemoveSpaces(value))
  {
    var i :| 0 <= i < |value| && IsSpace(value[i]);
    assert IsSpace(ToUpper(value)[i]);
    assert NoSpace(ToUpper(RemoveSpaces(value)));
    assert ToUpper(value) != ToUpper(RemoveSpaces(value));
  }

  /** `maskAccountNumber`. */
  function Mask(value: string): (r: string)
    ensures |r| == 14 && StartsWith(r, "****-****-")
    ensures value == "" ==> r == "****-****-****"
    ensures var tail := LastN(RemoveSpaces(value), 4);
            r[14 - |tail|..] == tail && forall i :: 10 <= i < 14 - |tail| ==> r[i] == '*'
  {
    if value == "" then "****-****-****"
    else
      var tail := LastN(RemoveSpaces(value), 4);
      var padded := PadStart(tail, 4, '*');
      var r := "****-****-" + padded;
      assert r[10..] == padded;
      assert r[14 - |tail|..] == padded[4 - |tail|..];
      r
  }

  /** One lower-case hexadecimal digit, as `Buffer.toString('hex')` prints it. */
  function HexDigit(n: nat): (c: char)
    requires n < 16
  {
    if n < 10 then ('0' as int + n) as char else ('a' as int + n - 10) as char
  }

  predicate IsUpperHex(c: char) { IsDigit(c) || 'A' <= c <= 'F' }

  /** `Buffer.toString('hex')`: two lower-case digits per byte. */
  function Hex(bytes: seq<Byte>): (r: string)
    ensures |r| == 2 * |bytes|
    ensures forall i :: 0 <= i < |r| ==> IsUpperHex(UpperChar(r[i]))
  {
    if bytes == [] then ""
    else [HexDigit(bytes[0] / 16), HexDigit(bytes[0] % 16)] + Hex(bytes[1..])
  }

  /**
   * `generateIban`: `IBAN`, then the six random bytes in upper-case hex, then the
   * first four hex digits of a SHA-1 digest (of the seed, the clock and
   * `Math.random()`), upper-cased. No check digits are computed.
   */
  function GenerateIban(randomBytes: seq<Byte>, sha1: seq<Byte>): (r: string)
    requires |randomBytes| == 6 && |sha1| == 20
    ensures |r| == 20 && StartsWith(r, "IBAN")
    ensures forall i :: 4 <= i < 20 ==> IsUpperHex(r[i])
  {
    "IBAN" + ToUpper(Hex(randomBytes)) + ToUpper(Hex(sha1)[..4])
  }

  /** A generated IBAN never carries the IBAN ciphertext prefix, so reading it back passes it through unchanged. */
  lemma GeneratedIbanIsPlaintext(p: Crypto.Primitives, randomBytes: seq<Byte>, sha1: seq<Byte>)
    requires |randomBytes| == 6 && |sha1| == 20
    ensures !IsEncrypted(Iban, Some(GenerateIban(randomBytes, sha1)))
    ensures Decrypt(p, Iban, Some(GenerateIban(randomBytes, sha1))) == Some(GenerateIban(randomBytes, sha1))
  {
    var r := GenerateIban(randomBytes, sha1);
    assert IsUpperHex(r[4]);
    assert "IBAN::"[4] == ':';
  }
}
