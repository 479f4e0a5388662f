/** Byte encodings used by the signer: `getBytes("UTF-8")`, hex printing and
    `URLEncoder.encode(s, "UTF-8")` (HTML form encoding). */
module Encoding {
  import opened Text

  type Byte = b: int | 0 <= b < 256
  type Bytes = seq<Byte>

  /** UTF-8 encoding of one Unicode scalar value. */
  function Utf8Char(c: char): (r: Bytes)
    ensures 1 <= |r| <= 4
  {
    var cp := c as int;
    if cp < 0x80 then [cp]
    else if cp < 0x800 then [0xC0 + cp / 64, 0x80 + cp % 64]
    else if cp < 0x1_0000 then [0xE0 + cp / 4096, 0x80 + (cp / 64) % 64, 0x80 + cp % 64]
    else [0xF0 + cp / 262144, 0x80 + (cp / 4096) % 64, 0x80 + (cp / 64) % 64, 0x80 + cp % 64]
  }

  /** `s.getBytes("UTF-8")`. */
  function Utf8(s: string): (r: Bytes)
    ensures |s| <= |r| <= 4 * |s|
  {
    if s == [] then [] else Utf8Char(s[0]) + Utf8(s[1..])
  }

  /** On ASCII text UTF-8 is one byte per character, the character's own code. */
  lemma {:induction false} Utf8Ascii(s: string)
    requires forall i :: 0 <= i < |s| ==> s[i] as int < 0x80
    ensures |Utf8(s)| == |s| && forall i :: 0 <= i < |s| ==> Utf8(s)[i] == s[i] as int
  {
    if s != [] {
      Utf8Ascii(s[1..]);
      assert Utf8(s) == [s[0] as int] + Utf8(s[1..]);
    }
  }

  function HexDigitUpper(d: nat): (c: char)
    requires d < 16
    ensures IsDigit(c) || 'A' <= c <= 'F'
  {
    if d < 10 then DigitChar(d) else ('A' as int + d - 10) as char
  }

  /** `DatatypeConverter.printHexBinary`: two upper-case hex digits per byte. */
  function HexUpper(b: Bytes): (r: string)
    ensures |r| == 2 * |b|
    ensures forall i :: 0 <= i < |r| ==> IsDigit(r[i]) || 'A' <= r[i] <= 'F'
  {
    if b == [] then "" else [HexDigitUpper(b[0] / 16), HexDigitUpper(b[0] % 16)] + HexUpper(b[1..])
  }

  predicate IsLowerHexDigit(c: char)
  {
    IsDigit(c) || 'a' <= c <= 'f'
  }

  /** `printHexBinary(b).toLowerCase()`, the form of every digest and signature. */
  function LowerHex(b: Bytes): (r: string)
    ensures |r| == 2 * |b|
    ensures forall i :: 0 <= i < |r| ==> IsLowerHexDigit(r[i])
  {
    Lower(HexUpper(b))
  }

  function HexValue(c: char): nat
  {
    if IsDigit(c) then c as int - '0' as int
    else if 'a' <= c <= 'f' then c as int - 'a' as int + 10
    else if 'A' <= c <= 'F' then c as int - 'A' as int + 10
    else 0
  }

  /** Reads hex digit pairs back into bytes. */
  function ParseHex(s: string): (r: Bytes)
    requires |s| % 2 == 0
    requires forall i :: 0 <= i < |s| ==> HexValue(s[i]) < 16
  {
    if s == [] then [] else [16 * HexValue(s[0]) + HexValue(s[1])] + ParseHex(s[2..])
  }

  lemma {:induction false} LowerHexCons(b: Bytes)
    requires b != []
    ensures LowerHex(b) == [LowerChar(HexDigitUpper(b[0] / 16)), LowerChar(HexDigitUpper(b[0] % 16))] + LowerHex(b[1..])
  {
    var h := HexUpper(b);
    assert h == [HexDigitUpper(b[0] / 16), HexDigitUpper(b[0] % 16)] + HexUpper(b[1..]);
    assert Lower(h) == Lower(h[..2]) + Lower(h[2..]);
  }

  /** Lower-case hex printing loses nothing: the bytes can be read back. */
  lemma {:induction false} ParseLowerHex(b: Bytes)
    ensures ParseHex(LowerHex(b)) == b
  {
    if b != [] {
      LowerHexCons(b);
      var s := LowerHex(b);
      assert s[2..] == LowerHex(b[1..]);
      ParseLowerHex(b[1..]);
      assert HexValue(s[0]) == b[0] / 16 && HexValue(s[1]) == b[0] % 16;
      assert b == [b[0]] + b[1..];
    }
  }

  /** The characters `URLEncoder` leaves as they are. */
  predicate FormSafe(c: char)
  {
    'a' <= c <= 'z' || 'A' <= c <= 'Z' || IsDigit(c) || c == '.' || c == '-' || c == '*' || c == '_'
  }

  /** The characters `URLEncoder` can produce. */
  predicate FormEncoded(c: char)
  {
    FormSafe(c) || c == '+' || c == '%'
  }

  /** `%XY` for every byte, with upper-case hex digits. */
  function PercentEncode(b: Bytes): (r: string)
    ensures |r| == 3 * |b|
    ensures forall i :: 0 <= i < |r| ==> FormEncoded(r[i])
  {
    if b == [] then "" else ['%', HexDigitUpper(b[0] / 16), HexDigitUpper(b[0] % 16)] + PercentEncode(b[1..])
  }

  function UrlEncodeChar(c: char): (r: string)
    ensures |r| >= 1
    ensures forall i :: 0 <= i < |r| ==> FormEncoded(r[i])
  {
    if FormSafe(c) then [c] else if c == ' ' then "+" else PercentEncode(Utf8Char(c))
  }

  /** `URLEncoder.encode(s, "UTF-8")`: safe characters kept, a space as `+`, every other
      character as the `%XY` escapes of its UTF-8 bytes. The result never holds a reserved
      character such as `/`, `&`, `=` or a line break, and is empty only when `s` is. */
  function UrlEncode(s: string): (r: string)
    ensures |r| >= |s|
    ensures forall i :: 0 <= i < |r| ==> FormEncoded(r[i])
  {
    if s == [] then "" else UrlEncodeChar(s[0]) + UrlEncode(s[1..])
  }
}
