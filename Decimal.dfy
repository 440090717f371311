// Decimal text conversions the colour picker relies on: Swift's `Int(String)`,
// `String(Int)` (string interpolation) and the plain-decimal subset of
// `Float(String)`.

module Decimal {
  import opened Wrappers

  /** The range of Swift's 64-bit `Int`. */
  const IntMin: int := -0x8000_0000_0000_0000
  const IntMax: int := 0x7FFF_FFFF_FFFF_FFFF

  predicate IsDigit(c: char) { '0' <= c <= '9' }

  predicate AllDigits(s: string) { forall i :: 0 <= i < |s| ==> IsDigit(s[i]) }

  function DigitChar(d: nat): (c: char)
    requires d < 10
    ensures IsDigit(c) && c as int - '0' as int == d
  {
    (('0' as int) + d) as char
  }

  /** The value of a string of decimal digits, most significant first. */
  function DigitsValue(s: string): nat
    requires AllDigits(s)
  {
    if s == [] then 0 else DigitsValue(s[..|s| - 1]) * 10 + (s[|s| - 1] as int - '0' as int)
  }

  function Pow10(k: nat): (p: nat)
    ensures p >= 1
  {
    if k == 0 then 1 else 10 * Pow10(k - 1)
  }

  /** A leading '+' or '-' split off: whether it was '-', and the rest. */
  function SplitSign(s: string): (bool, string) {
    if |s| > 0 && (s[0] == '-' || s[0] == '+') then (s[0] == '-', s[1..]) else (false, s)
  }

  /**
   * Swift's `Int(_: String)`: an optional sign followed by at least one ASCII
   * digit and nothing else; a value outside the 64-bit range gives nil.
   */
  function ParseInt(s: string): (r: Option<int>)
    ensures r.Some? ==> IntMin <= r.value <= IntMax
    ensures r.Some? ==> |s| > 0
    ensures |s| > 0 && AllDigits(s) && DigitsValue(s) <= IntMax ==> r == Some(DigitsValue(s))
  {
    var (negative, body) := SplitSign(s);
    if |body| == 0 || !AllDigits(body) then None
    else
      var v: int := if negative then 0 - DigitsValue(body) as int else DigitsValue(body);
      if IntMin <= v <= IntMax then Some(v) else None
  }

  /** The decimal digits of a natural number, without leading zeros. */
  function NatString(n: nat): (s: string)
    ensures |s| > 0 && AllDigits(s)
    ensures s[0] != '-' && s[0] != '+'
  {
    if n < 10 then [DigitChar(n)] else NatString(n / 10) + [DigitChar(n % 10)]
  }

  /** `String(n)` and `"\(n)"` for an `Int`. */
  function IntString(n: int): (s: string)
    ensures |s| > 0
  {
    if n < 0 then "-" + NatString(-n) else NatString(n)
  }

  lemma {:induction false} NatStringValue(n: nat)
    ensures DigitsValue(NatString(n)) == n
  {
    if n >= 10 {
      var s := NatString(n);
      assert s[..|s| - 1] == NatString(n / 10);
      NatStringValue(n / 10);
    }
  }

  /** Round trip: printing an `Int` and parsing the text gives the same `Int`. */
  lemma IntStringRoundTrip(n: int)
    requires IntMin <= n <= IntMax
    ensures ParseInt(IntString(n)) == Some(n)
  {
    if n < 0 {
      NatStringValue(-n);
      assert SplitSign(IntString(n)) == (true, NatString(-n));
    } else {
      NatStringValue(n);
    }
  }

  /** The index of the first `c` in `s`, or `|s|` when there is none. */
  function IndexOf(s: string, c: char): (i: nat)
    ensures i <= |s|
    ensures i < |s| ==> s[i] == c
    ensures forall j :: 0 <= j < i ==> s[j] != c
  {
    if s == [] then 0 else if s[0] == c then 0 else 1 + IndexOf(s[1..], c)
  }

  /**
   * `Float(_: String)` on plain decimal numerals: an optional sign, digits,
   * optionally a '.' and more digits, with at least one digit in all.
   */
  function ParseDecimal(s: string): (r: Option<real>)
    ensures r.Some? ==> |s| > 0
  {
    var (negative, body) := SplitSign(s);
    var dot := IndexOf(body, '.');
    var whole := body[..dot];
    var fraction := if dot < |body| then body[dot + 1..] else [];
    if !AllDigits(whole) || !AllDigits(fraction) || |whole| + |fraction| == 0 then None
    else
      var magnitude := DigitsValue(whole) as real + DigitsValue(fraction) as real / Pow10(|fraction|) as real;
      Some(if negative then -magnitude else magnitude)
  }

  /** A printed `Int` parses as a `Float` of the same value. */
  lemma ParseDecimalOfIntString(n: int)
    ensures ParseDecimal(IntString(n)) == Some(n as real)
  {
    var m: nat := if n < 0 then -n else n;
    NatStringValue(m);
    var s := NatString(m);
    assert forall j :: 0 <= j < |s| ==> s[j] != '.' by {
      forall j | 0 <= j < |s| ensures s[j] != '.' { assert IsDigit(s[j]); }
    }
    assert s[..|s|] == s;
    if n < 0 {
      assert SplitSign(IntString(n)) == (true, s);
    } else {
      assert SplitSign(IntString(n)) == (false, s);
    }
  }
}
