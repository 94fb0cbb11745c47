/** `hex::encode` of a SHA-256 digest, as `calculate_hash` returns it. */
module Hex {
  import opened Wrappers

  type Byte = b: int | 0 <= b < 256

  /** A SHA-256 digest: 32 bytes. How it is computed is outside this model. */
  type Digest = d: seq<Byte> | |d| == 32 witness seq(32, i => 0)

  /** `char::is_ascii_hexdigit`. */
  predicate IsAsciiHexDigit(c: char) {
    '0' <= c <= '9' || 'a' <= c <= 'f' || 'A' <= c <= 'F'
  }

  /** Value of one hexadecimal digit, either case. */
  function HexValue(c: char): (v: nat)
    requires IsAsciiHexDigit(c)
    ensures v < 16
  {
    if '0' <= c <= '9' then c as int - '0' as int
    else if 'a' <= c <= 'f' then c as int - 'a' as int + 10
    else c as int - 'A' as int + 10
  }

  /** The lower-case digit for a nibble. */
  function LowerHexDigit(n: nat): (c: char)
    requires n < 16
    ensures IsAsciiHexDigit(c) && HexValue(c) == n
  {
    if n < 10 then ('0' as int + n) as char else ('a' as int + n - 10) as char
  }

  /** `hex::encode`: two lower-case digits per byte, high nibble first. */
  function HexEncode(bytes: seq<Byte>): (s: string)
    ensures |s| == 2 * |bytes|
    ensures forall i :: 0 <= i < |s| ==> IsAsciiHexDigit(s[i])
  {
    if bytes == [] then []
    else [LowerHexDigit(bytes[0] / 16), LowerHexDigit(bytes[0] % 16)] + HexEncode(bytes[1..])
  }

  /** `hex::decode`: pairs of digits of either case; odd length or a non-digit is an error. */
  function HexDecode(s: string): Option<seq<Byte>> {
    if s == [] then Some([])
    else if |s| < 2 || !IsAsciiHexDigit(s[0]) || !IsAsciiHexDigit(s[1]) then None
    else
      match HexDecode(s[2..])
      case None => None
      case Some(rest) => Some([16 * HexValue(s[0]) + HexValue(s[1])] + rest)
  }

  /** Encoding loses nothing: decoding the hex text gives the bytes back. */
  lemma {:induction false} DecodeEncode(bytes: seq<Byte>)
    ensures HexDecode(HexEncode(bytes)) == Some(bytes)
  {
    if bytes != [] {
      var s := HexEncode(bytes);
      var b := bytes[0];
      DecodeEncode(bytes[1..]);
      assert s[2..] == HexEncode(bytes[1..]);
      assert HexValue(s[0]) == b / 16;
      assert HexValue(s[1]) == b % 16;
      assert [b] + bytes[1..] == bytes;
    }
  }

  /** `calculate_hash(data)` given `digest == Sha256(data)`: 64 hexadecimal
      characters, from which the digest can be read back. */
  function CalculateHash(digest: Digest): (h: string)
    ensures |h| == 64
    ensures forall i :: 0 <= i < |h| ==> IsAsciiHexDigit(h[i])
    ensures HexDecode(h) == Some(digest)
  {
    DecodeEncode(digest);
    HexEncode(digest)
  }
}
