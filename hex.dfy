/**
 * The colour pickers' `#rrggbb` strings: `rgbToHex` writes a colour with
 * `toString(16).padStart(2, '0')` per channel, and `hexToRgb` reads one
 * back with the pattern `^#?([a-f\d]{2})([a-f\d]{2})([a-f\d]{2})$`
 * (case-insensitive), falling back to opaque white.
 */
module Hex {
  import opened Data

  predicate IsHexDigit(c: char)
  {
    ('0' <= c <= '9') || ('a' <= c <= 'f') || ('A' <= c <= 'F')
  }

  predicate IsLowerHexDigit(c: char)
  {
    ('0' <= c <= '9') || ('a' <= c <= 'f')
  }

  function HexValue(c: char): (v: nat)
    requires IsHexDigit(c)
    ensures v < 16
  {
    if '0' <= c <= '9' then (c as int - '0' as int) as nat
    else if 'a' <= c <= 'f' then (c as int - 'a' as int + 10) as nat
    else (c as int - 'A' as int + 10) as nat
  }

  /** The lower-case digit `toString(16)` writes. */
  function HexChar(d: nat): (c: char)
    requires d < 16
    ensures IsLowerHexDigit(c) && IsHexDigit(c) && HexValue(c) == d
  {
    if d < 10 then ('0' as int + d) as char else ('a' as int + d - 10) as char
  }

  lemma HexCharOfValue(c: char)
    requires IsLowerHexDigit(c)
    ensures HexChar(HexValue(c)) == c
  {
  }

  /** `n.toString(16)` for a natural number. */
  function NatToHex(n: nat): (s: string)
    ensures |s| >= 1
    ensures n < 16 ==> s == [HexChar(n)]
    ensures 16 <= n < 256 ==> s == [HexChar(n / 16), HexChar(n % 16)]
  {
    if n < 16 then [HexChar(n)] else NatToHex(n / 16) + [HexChar(n % 16)]
  }

  /** `i.toString(16)`: a minus sign before a negative value's digits. */
  function IntToHex(i: int): string
  {
    if i < 0 then "-" + NatToHex(-i) else NatToHex(i)
  }

  /** `s.padStart(2, '0')`. */
  function PadStart2(s: string): (r: string)
    ensures |r| == if |s| >= 2 then |s| else 2
    ensures |s| >= 2 ==> r == s
    ensures |s| < 2 ==> r[2 - |s|..] == s
  {
    if |s| >= 2 then s else if |s| == 1 then "0" + s else "00"
  }

  /** A channel in 0..255 becomes exactly two lower-case digits, high nibble first. */
  function Channel(n: int): (s: string)
    ensures 0 <= n < 256 ==> s == [HexChar(n / 16), HexChar(n % 16)]
  {
    PadStart2(IntToHex(n))
  }

  /** `rgbToHex(color)`: the alpha channel is not written. */
  function RgbToHex(c: Color): (s: string)
    ensures 0 <= c.r < 256 && 0 <= c.g < 256 && 0 <= c.b < 256 ==> |s| == 7 && s[0] == '#'
  {
    "#" + Channel(c.r) + Channel(c.g) + Channel(c.b)
  }

  function ByteOf(hi: char, lo: char): (v: nat)
    requires IsHexDigit(hi) && IsHexDigit(lo)
    ensures v < 256
  {
    HexValue(hi) * 16 + HexValue(lo)
  }

  /** Six hex digits, optionally after one `#`. */
  predicate IsHexColor(s: string)
  {
    var body := if |s| > 0 && s[0] == '#' then s[1..] else s;
    |body| == 6 && forall i :: 0 <= i < 6 ==> IsHexDigit(body[i])
  }

  /** `hexToRgb(hex)`: alpha is always 255; a string the pattern rejects gives opaque white. */
  function HexToRgb(s: string): (c: Color)
    ensures c.a == 255
    ensures 0 <= c.r < 256 && 0 <= c.g < 256 && 0 <= c.b < 256
    ensures !IsHexColor(s) ==> c == Color(255, 255, 255, 255)
  {
    var body := if |s| > 0 && s[0] == '#' then s[1..] else s;
    if |body| == 6 && forall i :: 0 <= i < 6 ==> IsHexDigit(body[i]) then
      Color(ByteOf(body[0], body[1]), ByteOf(body[2], body[3]), ByteOf(body[4], body[5]), 255)
    else Color(255, 255, 255, 255)
  }

  /** A `#` and six hex digits are read pairwise, high digit first. */
  lemma HexToRgbOfDigits(s: string)
    requires |s| == 7 && s[0] == '#'
    requires forall i :: 1 <= i < 7 ==> IsHexDigit(s[i])
    ensures HexToRgb(s) == Color(ByteOf(s[1], s[2]), ByteOf(s[3], s[4]), ByteOf(s[5], s[6]), 255)
  {
    var body := s[1..];
    assert forall i :: 0 <= i < 6 ==> body[i] == s[i + 1];
  }

  /** The two digits of a channel read back as the channel. */
  lemma ByteOfChannel(n: int)
    requires 0 <= n < 256
    ensures ByteOf(HexChar(n / 16), HexChar(n % 16)) == n
  {
  }

  /** The seven characters `rgbToHex` writes for a colour whose channels are bytes. */
  lemma RgbToHexDigits(c: Color)
    requires 0 <= c.r < 256 && 0 <= c.g < 256 && 0 <= c.b < 256
    ensures RgbToHex(c) == ['#', HexChar(c.r / 16), HexChar(c.r % 16), HexChar(c.g / 16), HexChar(c.g % 16),
                            HexChar(c.b / 16), HexChar(c.b % 16)]
  {
  }

  /** Reading back what `rgbToHex` writes gives the channels and an opaque alpha. */
  lemma HexToRgbOfRgbToHex(c: Color)
    requires 0 <= c.r < 256 && 0 <= c.g < 256 && 0 <= c.b < 256
    ensures HexToRgb(RgbToHex(c)) == Color(c.r, c.g, c.b, 255)
  {
    RgbToHexDigits(c);
    HexToRgbOfDigits(RgbToHex(c));
    ByteOfChannel(c.r);
    ByteOfChannel(c.g);
    ByteOfChannel(c.b);
  }

  lemma ByteOfDigits(hi: char, lo: char)
    requires IsLowerHexDigit(hi) && IsLowerHexDigit(lo)
    ensures Channel(ByteOf(hi, lo)) == [hi, lo]
  {
    var v := ByteOf(hi, lo);
    assert v / 16 == HexValue(hi) && v % 16 == HexValue(lo);
    HexCharOfValue(hi);
    HexCharOfValue(lo);
  }

  /** Writing back what `hexToRgb` read from a lower-case `#rrggbb` string gives the string. */
  lemma RgbToHexOfHexToRgb(s: string)
    requires |s| == 7 && s[0] == '#'
    requires forall i :: 1 <= i < 7 ==> IsLowerHexDigit(s[i])
    ensures RgbToHex(HexToRgb(s)) == s
  {
    HexToRgbOfDigits(s);
    ByteOfDigits(s[1], s[2]);
    ByteOfDigits(s[3], s[4]);
    ByteOfDigits(s[5], s[6]);
    RgbToHexOfChannels(HexToRgb(s), [s[1], s[2]], [s[3], s[4]], [s[5], s[6]]);
    SevenChars(s);
  }

  lemma SevenChars(s: string)
    requires |s| == 7 && s[0] == '#'
    ensures s == "#" + [s[1], s[2]] + [s[3], s[4]] + [s[5], s[6]]
  {
  }

  lemma RgbToHexOfChannels(c: Color, r: string, g: string, b: string)
    requires Channel(c.r) == r && Channel(c.g) == g && Channel(c.b) == b
    ensures RgbToHex(c) == "#" + r + g + b
  {
  }
}
