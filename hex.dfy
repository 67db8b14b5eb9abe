/** The format of a session token, as createOrRefreshSession in
    service/src/ingress/sessions.adapters.db.mongoose.ts makes one: the
    SHA-256 digest (FIPS 180-4: 32 bytes) of 20 random bytes, written out by
    `digest('hex')`, two lower-case hexadecimal digits per byte, high nibble
    first. The random bytes and the hash itself are not modelled: a digest
    is an input. */
module HexTokens {

  newtype byte = x: int | 0 <= x < 256

  /** Bytes in a SHA-256 digest. */
  const DigestLength := 32

  /** Characters in a session token. */
  const TokenLength := 2 * DigestLength

  predicate IsLowerHexDigit(c: char) {
    '0' <= c <= '9' || 'a' <= c <= 'f'
  }

  predicate IsLowerHex(s: string) {
    forall i :: 0 <= i < |s| ==> IsLowerHexDigit(s[i])
  }

  /** The digit for a nibble. */
  function HexDigit(n: int): (c: char)
    requires 0 <= n < 16
    ensures IsLowerHexDigit(c)
  {
    if n < 10 then ('0' as int + n) as char else ('a' as int + n - 10) as char
  }

  /** The nibble of a digit; the inverse of HexDigit. */
  function DigitValue(c: char): (n: int)
    requires IsLowerHexDigit(c)
    ensures 0 <= n < 16 && HexDigit(n) == c
  {
    if c <= '9' then c as int - '0' as int else c as int - 'a' as int + 10
  }

  /** Node's `digest('hex')`. */
  function Hex(bytes: seq<byte>): (s: string)
    ensures |s| == 2 * |bytes|
    ensures IsLowerHex(s)
  {
    if bytes == [] then ""
    else [HexDigit(bytes[0] as int / 16), HexDigit(bytes[0] as int % 16)] + Hex(bytes[1..])
  }

  /** Reads a hex string back into bytes. */
  function Unhex(s: string): (bytes: seq<byte>)
    requires |s| % 2 == 0 && IsLowerHex(s)
    ensures 2 * |bytes| == |s|
  {
    if s == [] then []
    else
      assert IsLowerHexDigit(s[0]) && IsLowerHexDigit(s[1]);
      [(DigitValue(s[0]) * 16 + DigitValue(s[1])) as byte] + Unhex(s[2..])
  }

  /** Decoding undoes the encoding. */
  lemma {:induction false} UnhexHex(bytes: seq<byte>)
    ensures Unhex(Hex(bytes)) == bytes
  {
    if bytes != [] {
      var s := Hex(bytes);
      var b := bytes[0] as int;
      assert s[2..] == Hex(bytes[1..]);
      assert DigitValue(s[0]) == b / 16 && DigitValue(s[1]) == b % 16;
      UnhexHex(bytes[1..]);
    }
  }

  /** Distinct digests give distinct tokens. */
  lemma HexInjective(a: seq<byte>, b: seq<byte>)
    requires Hex(a) == Hex(b)
    ensures a == b
  {
    UnhexHex(a);
    UnhexHex(b);
  }

  /** A token made from a SHA-256 digest is 64 lower-case hex digits. */
  function TokenOf(digest: seq<byte>): (token: string)
    requires |digest| == DigestLength
    ensures |token| == TokenLength && IsLowerHex(token)
    ensures Unhex(token) == digest
  {
    UnhexHex(digest);
    Hex(digest)
  }
}
