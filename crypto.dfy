/** The cryptographic and encoding primitives the authentication code relies on.

    SHA-256, bcrypt/argon2 and the random-number generator are not modelled: SHA-256 is a parameter
    of type Sha256 (any function from a string to a 32-byte digest), password hashing is a
    PasswordScheme value whose only assumed law is Sound, and random bytes are passed in by the
    caller. Hex encoding, which the code applies to their outputs, is modelled exactly. */
module Crypto {
  import opened Common

  type Byte = b: int | 0 <= b < 256

  /** A SHA-256 digest: 32 bytes. */
  type Digest = d: seq<Byte> | |d| == 32 witness seq(32, _ => 0)

  /** SHA-256 applied to the (UTF-8 bytes of the) string. */
  type Sha256 = string -> Digest

  predicate IsHexChar(c: char) {
    '0' <= c <= '9' || 'a' <= c <= 'f'
  }

  predicate IsLowerHex(s: string) {
    forall i | 0 <= i < |s| :: IsHexChar(s[i])
  }

  function HexDigit(n: int): (c: char)
    requires 0 <= n < 16
    ensures IsHexChar(c)
  {
    if n < 10 then ('0' as int + n) as char else ('a' as int + n - 10) as char
  }

  function HexValue(c: char): (n: int)
    requires IsHexChar(c)
    ensures 0 <= n < 16 && HexDigit(n) == c
  {
    if c <= '9' then c as int - '0' as int else c as int - 'a' as int + 10
  }

  /** Go's hex.EncodeToString and Node's `toString('hex')`: two lower-case digits per byte, high nibble
      first. */
  function HexEncode(bytes: seq<Byte>): (s: string)
    ensures |s| == 2 * |bytes| && IsLowerHex(s)
  {
    if bytes == [] then "" else [HexDigit(bytes[0] / 16), HexDigit(bytes[0] % 16)] + HexEncode(bytes[1..])
  }

  /** The inverse of HexEncode; None for an odd length or a character that is not a lower-case hex
      digit. */
  function HexDecode(s: string): Option<seq<Byte>>
    decreases |s|
  {
    if s == [] then Some([])
    else if |s| < 2 || !IsHexChar(s[0]) || !IsHexChar(s[1]) then None
    else match HexDecode(s[2..])
      case None => None
      case Some(rest) => Some([HexValue(s[0]) * 16 + HexValue(s[1])] + rest)
  }

  /** Hex encoding loses nothing. */
  lemma {:induction false} HexRoundTrip(bytes: seq<Byte>)
    ensures HexDecode(HexEncode(bytes)) == Some(bytes)
  {
    if bytes != [] {
      var s := HexEncode(bytes);
      assert s[2..] == HexEncode(bytes[1..]);
      HexRoundTrip(bytes[1..]);
      assert [bytes[0]] + bytes[1..] == bytes;
    }
  }

  /** Different byte strings have different hex encodings. */
  lemma HexEncodeInjective(a: seq<Byte>, b: seq<Byte>)
    requires HexEncode(a) == HexEncode(b)
    ensures a == b
  {
    HexRoundTrip(a);
    HexRoundTrip(b);
  }

  /** hashToken (server/auth/helpers.go and helpers.ts): the hex form of the SHA-256 digest. It is a
      function of the token alone, 64 characters long, and lower-case hex. */
  function HashToken(sha: Sha256, token: string): (h: string)
    ensures |h| == 64 && IsLowerHex(h)
  {
    HexEncode(sha(token))
  }

  /** Two tokens hash to the same stored value exactly when their digests coincide. */
  lemma HashTokenEqualIff(sha: Sha256, t1: string, t2: string)
    ensures HashToken(sha, t1) == HashToken(sha, t2) <==> sha(t1) == sha(t2)
  {
    if HashToken(sha, t1) == HashToken(sha, t2) {
      HexEncodeInjective(sha(t1), sha(t2));
    }
  }

  /** generateResetToken (also the refresh and email-verification tokens): 32 random bytes in hex,
      so 64 hex digits that decode back to those bytes. */
  function GenerateResetToken(random: seq<Byte>): (t: string)
    requires |random| == 32
    ensures |t| == 64 && IsLowerHex(t)
    ensures HexDecode(t) == Some(random)
  {
    HexRoundTrip(random);
    HexEncode(random)
  }

  /** generateUserID in Go: 16 random bytes in hex, so 32 hex digits. */
  function GenerateUserID(random: seq<Byte>): (id: string)
    requires |random| == 16
    ensures |id| == 32 && IsLowerHex(id)
    ensures HexDecode(id) == Some(random)
  {
    HexRoundTrip(random);
    HexEncode(random)
  }

  /** bcrypt (Go) or argon2 (TypeScript). `hash` may fail (None); `verify(hashed, password)` is the
      library's comparison. Salting is not modelled. */
  datatype PasswordScheme = PasswordScheme(hash: string -> Option<string>, verify: (string, string) -> bool)

  /** The one law the code relies on: a password verifies against its own hash. */
  ghost predicate Sound(scheme: PasswordScheme) {
    forall p :: scheme.hash(p).Some? ==> scheme.verify(scheme.hash(p).value, p)
  }
}
