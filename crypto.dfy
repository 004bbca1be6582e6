/**
 * The two foreign primitives the auth handlers rely on, reduced to what
 * the handlers need of them.
 *
 * `crypto.randomBytes(32).toString("hex")`: the random bytes are an input
 * (`Entropy32`); the hex encoding is modelled exactly and shown to be
 * invertible.
 *
 * `bcrypt.hash(password, salt)` / `bcrypt.compare(password, hash)`: a
 * bcrypt hash begins with the 29-character salt string that
 * `bcrypt.genSalt(10)` produced, followed by a digest of the password
 * under that salt. The digest itself is an uninterpreted function;
 * `Compare` re-derives it with the salt read back from the stored hash.
 */
module Crypto {

  type Byte = b: int | 0 <= b < 256

  /** What `crypto.randomBytes(32)` yields: exactly 32 bytes. */
  type Entropy32 = s: seq<Byte> | |s| == 32 witness seq(32, _ => 0)

  const HexDigits := "0123456789abcdef"

  predicate IsHex(s: string) {
    forall i :: 0 <= i < |s| ==> s[i] in HexDigits
  }

  /** Two lower-case hex digits, high nibble first. */
  function HexByte(b: Byte): (pair: string)
    ensures |pair| == 2
  {
    [HexDigits[b / 16], HexDigits[b % 16]]
  }

  /** `Buffer.toString("hex")`: two hex digits per byte. */
  function ToHex(bytes: seq<Byte>): (s: string)
    ensures |s| == 2 * |bytes|
  {
    if bytes == [] then "" else HexByte(bytes[0]) + ToHex(bytes[1..])
  }

  /** The value of a hex digit (0 for any other character). */
  function DigitValue(c: char): (v: nat)
    ensures v < 16
  {
    if '0' <= c <= '9' then (c - '0') as nat
    else if 'a' <= c <= 'f' then (c - 'a') as nat + 10
    else 0
  }

  /** The inverse of ToHex on hex text: one byte per pair of digits; a trailing odd digit is dropped. */
  function FromHex(s: string): (bytes: seq<Byte>)
    ensures 2 * |bytes| <= |s| < 2 * |bytes| + 2
  {
    if |s| < 2 then [] else [DigitValue(s[0]) * 16 + DigitValue(s[1])] + FromHex(s[2..])
  }

  lemma DigitValueOfHexDigit(n: nat)
    requires n < 16
    ensures DigitValue(HexDigits[n]) == n
  {
  }

  /** One byte's two digits decode to that byte. */
  lemma HexByteDecodes(b: Byte)
    ensures DigitValue(HexByte(b)[0]) * 16 + DigitValue(HexByte(b)[1]) == b
  {
    DigitValueOfHexDigit(b / 16);
    DigitValueOfHexDigit(b % 16);
  }

  /** Decoding reads the first two digits as one byte, then decodes the rest. */
  lemma FromHexPair(pair: string, rest: string)
    requires |pair| == 2
    ensures FromHex(pair + rest) == [DigitValue(pair[0]) * 16 + DigitValue(pair[1])] + FromHex(rest)
  {
    var s := pair + rest;
    assert s[0] == pair[0] && s[1] == pair[1] && s[2..] == rest;
  }

  /** Decoding the hex text gives back the bytes it was made from. */
  lemma {:induction false} HexRoundTrip(bytes: seq<Byte>)
    ensures FromHex(ToHex(bytes)) == bytes
  {
    if bytes != [] {
      var pair, rest := HexByte(bytes[0]), ToHex(bytes[1..]);
      FromHexPair(pair, rest);
      HexByteDecodes(bytes[0]);
      HexRoundTrip(bytes[1..]);
      assert [bytes[0]] + bytes[1..] == bytes;
    }
  }

  /** The encoding uses hex digits only. */
  lemma {:induction false} ToHexIsHex(bytes: seq<Byte>)
    ensures IsHex(ToHex(bytes))
  {
    if bytes != [] {
      ToHexIsHex(bytes[1..]);
      var pair, rest := HexByte(bytes[0]), ToHex(bytes[1..]);
      assert pair[0] in HexDigits && pair[1] in HexDigits;
      assert forall i :: 2 <= i < |pair + rest| ==> (pair + rest)[i] == rest[i - 2];
    }
  }

  /** A verification or reset token: 64 lower-case hex characters. */
  function RandomToken(entropy: Entropy32): (t: string)
    ensures |t| == 64 && IsHex(t)
    ensures FromHex(t) == entropy
  {
    HexRoundTrip(entropy);
    ToHexIsHex(entropy);
    ToHex(entropy)
  }

  const SaltLength: nat := 29

  /** A salt string as `bcrypt.genSalt(10)` returns it (`$2b$10$` and 22 more characters). */
  type Salt = s: string | |s| == SaltLength witness seq(SaltLength, _ => '.')

  /** The bcrypt primitive: the digest of a password under a salt. */
  datatype Bcrypt = Bcrypt(digest: (string, Salt) -> string)

  /** `bcrypt.hash(password, salt)`. */
  function Hash(b: Bcrypt, password: string, salt: Salt): (h: string)
    ensures |h| >= SaltLength && h[..SaltLength] == salt
  {
    salt + b.digest(password, salt)
  }

  /** `bcrypt.compare(password, h)`: re-hash under the salt stored in `h`. */
  predicate Compare(b: Bcrypt, password: string, h: string) {
    |h| >= SaltLength && h[SaltLength..] == b.digest(password, h[..SaltLength])
  }

  /** An idealised digest: two passwords never share a digest under one salt. */
  ghost predicate CollisionFree(b: Bcrypt) {
    forall p, q, salt :: b.digest(p, salt) == b.digest(q, salt) ==> p == q
  }

  /** The password that was hashed always compares equal to its hash. */
  lemma CompareAcceptsHash(b: Bcrypt, password: string, salt: Salt)
    ensures Compare(b, password, Hash(b, password, salt))
  {
    var h := Hash(b, password, salt);
    assert h[SaltLength..] == b.digest(password, salt);
  }

  /** Under an idealised digest, any other password compares unequal. */
  lemma CompareRejectsOther(b: Bcrypt, password: string, other: string, salt: Salt)
    requires CollisionFree(b) && other != password
    ensures !Compare(b, other, Hash(b, password, salt))
  {
    var h := Hash(b, password, salt);
    assert h[SaltLength..] == b.digest(password, salt);
  }
}
