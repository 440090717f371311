// The UIColor extension: a hex-string initialiser and a hex serialiser.
//
// A colour is its four components over `real`; reading them back
// (`getRed`, the `rgba` property) is the identity on this representation.

module Colors {
  import opened Wrappers
  import opened Geometry

  /** A UIColor by its red, green, blue and alpha components. */
  datatype Rgba = Rgba(red: real, green: real, blue: real, alpha: real)

  /** The integer components the hex initialiser computes before dividing by 255. */
  datatype Rgba8 = Rgba8(r: int, g: int, b: int, a: int)

  /** The system colours the views use. */
  const White: Rgba := Rgba(1.0, 1.0, 1.0, 1.0)
  const Black: Rgba := Rgba(0.0, 0.0, 0.0, 1.0)
  const Clear: Rgba := Rgba(0.0, 0.0, 0.0, 0.0)

  predicate InUnitRange(x: real) { 0.0 <= x <= 1.0 }

  /** The red, green and blue components lie in [0, 1]. */
  predicate IsDisplayable(c: Rgba) {
    InUnitRange(c.red) && InUnitRange(c.green) && InUnitRange(c.blue)
  }

  /**
   * Swift's `Character.hexDigitValue`: ASCII hex digits of either case and
   * their fullwidth compatibility forms; anything else has no value.
   */
  function HexDigitValue(c: char): (v: Option<int>)
    ensures v.Some? ==> 0 <= v.value < 16
    ensures '0' <= c <= '9' ==> v == Some(c as int - '0' as int)
    ensures 'A' <= c <= 'F' ==> v == Some(c as int - 'A' as int + 10)
    ensures 'a' <= c <= 'f' ==> v == Some(c as int - 'a' as int + 10)
  {
    var n := c as int;
    if '0' as int <= n <= '9' as int then Some(n - '0' as int)
    else if 'A' as int <= n <= 'F' as int then Some(n - 'A' as int + 10)
    else if 'a' as int <= n <= 'f' as int then Some(n - 'a' as int + 10)
    else if 0xFF10 <= n <= 0xFF19 then Some(n - 0xFF10)
    else if 0xFF21 <= n <= 0xFF26 then Some(n - 0xFF21 + 10)
    else if 0xFF41 <= n <= 0xFF46 then Some(n - 0xFF41 + 10)
    else None
  }

  /** `hexDigitValue ?? 0`: a character that is not a hex digit counts as 0. */
  function Digit(c: char): (d: int)
    ensures 0 <= d < 16
  {
    HexDigitValue(c).GetOr(0)
  }

  /** One component written as a hex pair: `16 * hi + lo`. */
  function Pair(hi: char, lo: char): (v: int)
    ensures 0 <= v < 256
  {
    16 * Digit(hi) + Digit(lo)
  }

  /** The integer components `UIColor(fromHex:)` computes from its characters. */
  function ParseHex(s: string): (c: Rgba8)
    ensures 0 <= c.r < 256 && 0 <= c.g < 256 && 0 <= c.b < 256 && 0 <= c.a < 256
    ensures |s| !in {3, 4, 6} ==> c == Rgba8(0, 0, 0, 0)
    ensures |s| in {3, 6} ==> c.a == 255
  {
    if |s| == 6 then
      Rgba8(Pair(s[0], s[1]), Pair(s[2], s[3]), Pair(s[4], s[5]), 255)
    else if |s| == 4 then
      // the alpha digit is doubled, then control falls through to the 3-digit case
      Rgba8(Pair(s[0], s[0]), Pair(s[1], s[1]), Pair(s[2], s[2]), Pair(s[3], s[3]))
    else if |s| == 3 then
      Rgba8(Pair(s[0], s[0]), Pair(s[1], s[1]), Pair(s[2], s[2]), 255)
    else
      Rgba8(0, 0, 0, 0)
  }

  /** `UIColor(fromHex:)`: each integer component divided by 255. */
  function FromHex(s: string): (c: Rgba)
    ensures IsDisplayable(c) && InUnitRange(c.alpha)
  {
    var p := ParseHex(s);
    Rgba(p.r as real / 255.0, p.g as real / 255.0, p.b as real / 255.0, p.a as real / 255.0)
  }

  /** A 6-character string gives each component from its own digit pair, with alpha 255. */
  lemma SixDigits(s: string)
    requires |s| == 6
    ensures ParseHex(s) == Rgba8(16 * Digit(s[0]) + Digit(s[1]), 16 * Digit(s[2]) + Digit(s[3]),
                                 16 * Digit(s[4]) + Digit(s[5]), 255)
  {
  }

  /** The short form doubles every digit: `0D3` is the same colour as `00DD33`. */
  lemma ThreeDigitsDouble(x: char, y: char, z: char)
    ensures ParseHex([x, y, z]) == ParseHex([x, x, y, y, z, z])
    ensures ParseHex([x, y, z]).r == 17 * Digit(x)
  {
  }

  /** The 4-character form is the 3-character form with alpha `17 * digit[3]`. */
  lemma FourDigitsAddAlpha(x: char, y: char, z: char, w: char)
    ensures ParseHex([x, y, z, w]) == ParseHex([x, y, z]).(a := 17 * Digit(w))
  {
  }

  /** The initialiser does not skip a leading '#': it is one more character, read as digit 0. */
  lemma HashIsNotSkipped()
    ensures ParseHex("#0D3") == Rgba8(0, 0, 0xDD, 0x33)
    ensures ParseHex("0D3") == Rgba8(0, 0xDD, 0x33, 255)
  {
    assert Digit('#') == 0;
  }

  // ---- Serialisation -------------------------------------------------

  function UpperHexChar(d: int): (ch: char)
    requires 0 <= d < 16
    ensures HexDigitValue(ch) == Some(d)
  {
    if d < 10 then (('0' as int) + d) as char else (('A' as int) + d - 10) as char
  }

  predicate IsUpperHexChar(ch: char) { '0' <= ch <= '9' || 'A' <= ch <= 'F' }

  /** The last `count` hex digits of `n`, most significant first, upper case. */
  function HexDigits(n: nat, count: nat): (s: string)
    ensures |s| == count
    ensures forall i :: 0 <= i < |s| ==> IsUpperHexChar(s[i])
  {
    if count == 0 then [] else HexDigits(n / 16, count - 1) + [UpperHexChar(n % 16)]
  }

  /** The packed integer `Int(r*255) << 16 | Int(g*255) << 8 | Int(b*255)`; the fields do not overlap. */
  function Packed(c: Rgba): (n: nat)
    requires IsDisplayable(c)
    ensures n < 0x100_0000
  {
    Trunc(c.red * 255.0) * 0x1_0000 + Trunc(c.green * 255.0) * 0x100 + Trunc(c.blue * 255.0)
  }

  /** `toHexString()`: `String(format: "%06x", packed).uppercased()`; alpha is ignored. */
  function ToHexString(c: Rgba): (s: string)
    requires IsDisplayable(c)
    ensures |s| == 6
    ensures forall i :: 0 <= i < 6 ==> IsUpperHexChar(s[i])
  {
    HexDigits(Packed(c), 6)
  }

  lemma {:induction false} HexDigitsShift(a: nat, d: nat, k: nat)
    requires d < 16
    ensures HexDigits(a * 16 + d, k + 1) == HexDigits(a, k) + [UpperHexChar(d)]
  {
    assert (a * 16 + d) / 16 == a;
    assert (a * 16 + d) % 16 == d;
  }

  /** Appending a byte to a packed value appends its two hex digits. */
  lemma {:induction false} HexDigitsByte(a: nat, v: nat, k: nat)
    requires v < 256
    ensures HexDigits(a * 256 + v, k + 2) == HexDigits(a, k) + [UpperHexChar(v / 16), UpperHexChar(v % 16)]
  {
    assert a * 256 + v == (a * 16 + v / 16) * 16 + v % 16;
    HexDigitsShift(a * 16 + v / 16, v % 16, k + 1);
    HexDigitsShift(a, v / 16, k);
  }

  /** Six hex digits of three packed bytes are the bytes' hex pairs, in order. */
  lemma {:induction false} HexDigitsOfBytes(r: nat, g: nat, b: nat)
    requires r < 256 && g < 256 && b < 256
    ensures HexDigits((r * 256 + g) * 256 + b, 6) ==
            [UpperHexChar(r / 16), UpperHexChar(r % 16), UpperHexChar(g / 16),
             UpperHexChar(g % 16), UpperHexChar(b / 16), UpperHexChar(b % 16)]
  {
    HexDigitsByte(r * 256 + g, b, 4);
    HexDigitsByte(r, g, 2);
    HexDigitsByte(0, r, 0);
    assert HexDigits(0, 0) == [];
  }

  /** The serialised string is the three components' hex pairs, in order. */
  lemma ToHexStringPairs(c: Rgba)
    requires IsDisplayable(c)
    ensures var r, g, b := Trunc(c.red * 255.0), Trunc(c.green * 255.0), Trunc(c.blue * 255.0);
            0 <= r < 256 && 0 <= g < 256 && 0 <= b < 256 &&
            ToHexString(c) == [UpperHexChar(r / 16), UpperHexChar(r % 16),
                               UpperHexChar(g / 16), UpperHexChar(g % 16),
                               UpperHexChar(b / 16), UpperHexChar(b % 16)]
  {
    var r, g, b := Trunc(c.red * 255.0), Trunc(c.green * 255.0), Trunc(c.blue * 255.0);
    assert Packed(c) == (r * 256 + g) * 256 + b;
    HexDigitsOfBytes(r, g, b);
  }

  /** Parsing the serialised string gives back the truncated components and alpha 255. */
  lemma ParseToHexString(c: Rgba)
    requires IsDisplayable(c)
    ensures ParseHex(ToHexString(c)) ==
            Rgba8(Trunc(c.red * 255.0), Trunc(c.green * 255.0), Trunc(c.blue * 255.0), 255)
  {
    ToHexStringPairs(c);
  }

  /** Round trip: colours whose components are multiples of 1/255 survive exactly, with alpha 1. */
  lemma HexRoundTrip(r: int, g: int, b: int, alpha: real)
    requires 0 <= r < 256 && 0 <= g < 256 && 0 <= b < 256
    ensures var c := Rgba(r as real / 255.0, g as real / 255.0, b as real / 255.0, alpha);
            IsDisplayable(c) &&
            FromHex(ToHexString(c)) == Rgba(c.red, c.green, c.blue, 1.0)
  {
    var c := Rgba(r as real / 255.0, g as real / 255.0, b as real / 255.0, alpha);
    assert c.red * 255.0 == r as real;
    assert c.green * 255.0 == g as real;
    assert c.blue * 255.0 == b as real;
    ParseToHexString(c);
  }
}
