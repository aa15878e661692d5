/** What a web server makes of a URL query value: UTF-8 (section 3 of RFC 3629) and the
    decoding of application/x-www-form-urlencoded text (section 5.1 of the WHATWG URL
    Standard), where `+` is a space, `%` followed by two hexadecimal digits is one byte, and
    any other character stands for its own UTF-8 bytes (an HTTP client percent-encodes a raw
    non-ASCII character as exactly those bytes). */
module FormUrl {
  import opened Text

  type byte = x: int | 0 <= x < 256

  /** The UTF-8 encoding of one Unicode scalar value. */
  function Utf8(c: char): (bs: seq<byte>)
    ensures 1 <= |bs| <= 4
    ensures |bs| == 1 <==> c as int < 0x80
  {
    var n := c as int;
    assert n <= 0x10FFFF;
    if n < 0x80 then [n]
    else if n < 0x800 then [0xC0 + n / 64, 0x80 + n % 64]
    else if n < 0x10000 then [0xE0 + n / 4096, 0x80 + (n / 64) % 64, 0x80 + n % 64]
    else [0xF0 + n / 262144, 0x80 + (n / 4096) % 64, 0x80 + (n / 64) % 64, 0x80 + n % 64]
  }

  /** The UTF-8 encoding of a string, character after character. */
  function Utf8String(s: string): seq<byte>
    decreases |s|
  {
    if s == [] then [] else Utf8(s[0]) + Utf8String(s[1..])
  }

  predicate IsHexDigit(c: char) { IsUpperHexDigit(c) || 'a' <= c <= 'f' }

  function HexValue(c: char): (d: nat)
    requires IsHexDigit(c)
    ensures d < 16
  {
    if IsUpperHexDigit(c) then HexDigitValue(c) else c as int - 'a' as int + 10
  }

  /** Form decoding of a query value into the bytes the server sees. */
  function FormDecode(s: string): seq<byte>
    decreases |s|
  {
    if s == [] then []
    else if s[0] == '+' then [0x20] + FormDecode(s[1..])
    else if s[0] == '%' && |s| >= 3 && IsHexDigit(s[1]) && IsHexDigit(s[2]) then
      [16 * HexValue(s[1]) + HexValue(s[2])] + FormDecode(s[3..])
    else Utf8(s[0]) + FormDecode(s[1..])
  }

  /** `%XX` for each byte, two upper-case hexadecimal digits each. */
  function PercentBytes(bs: seq<byte>): (r: string)
    ensures |r| == 3 * |bs|
    ensures forall i :: 0 <= i < |r| ==> r[i] == '%' || IsUpperHexDigit(r[i])
    decreases |bs|
  {
    if bs == [] then [] else "%" + Hex2(bs[0]) + PercentBytes(bs[1..])
  }

  lemma Hex2Digits(b: byte)
    ensures var h := Hex2(b);
            |h| == 2 && 16 * HexValue(h[0]) + HexValue(h[1]) == b
  {
    if b >= 16 {
      assert NatToHex(b) == NatToHex(b / 16) + [HexDigitChar(b % 16)];
      assert NatToHex(b / 16) == [HexDigitChar(b / 16)];
    }
  }

  /** Form decoding reads the bytes of PercentBytes back. */
  lemma {:induction false} DecodePercentBytes(bs: seq<byte>, rest: string)
    ensures FormDecode(PercentBytes(bs) + rest) == bs + FormDecode(rest)
    decreases |bs|
  {
    if bs != [] {
      var h := Hex2(bs[0]);
      Hex2Digits(bs[0]);
      var s := PercentBytes(bs) + rest;
      assert s == ['%', h[0], h[1]] + (PercentBytes(bs[1..]) + rest);
      assert s[3..] == PercentBytes(bs[1..]) + rest;
      DecodePercentBytes(bs[1..], rest);
    } else {
      assert PercentBytes(bs) + rest == rest;
    }
  }

  /** A character other than `+` and `%` stands for its own UTF-8 bytes. */
  lemma DecodePlainChar(c: char, rest: string)
    requires c != '+' && c != '%'
    ensures FormDecode([c] + rest) == Utf8(c) + FormDecode(rest)
  {
    assert ([c] + rest)[1..] == rest;
  }

  /** A `+` stands for a space. */
  lemma DecodePlus(rest: string)
    ensures FormDecode("+" + rest) == Utf8(' ') + FormDecode(rest)
  {
    assert ("+" + rest)[1..] == rest;
  }
}
