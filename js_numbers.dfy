/** The global `parseInt(string)` with no radix argument, as ECMAScript defines it:
    skip leading white space, accept one sign, switch to radix 16 after a `0x`/`0X`
    prefix, read the longest run of digits of the radix, and give `NaN` when that
    run is empty. */
module JsNumbers {
  import opened JsValues

  /** The StrWhiteSpaceChar set of ECMAScript: white space and line terminators. */
  predicate IsStrWhiteSpace(c: char) {
    c == '\t' || c == '\n' || c == '\U{000B}' || c == '\U{000C}' || c == '\r' || c == ' '
    || c == '\U{00A0}' || c == '\U{1680}' || ('\U{2000}' <= c <= '\U{200A}')
    || c == '\U{2028}' || c == '\U{2029}' || c == '\U{202F}' || c == '\U{205F}'
    || c == '\U{3000}' || c == '\U{FEFF}'
  }

  predicate IsDecimalDigit(c: char) {
    '0' <= c <= '9'
  }

  /** The value of `c` as a digit in any radix up to 36; 36 for a character that is no digit. */
  function DigitValue(c: char): (d: nat)
    ensures d <= 36
    ensures IsDecimalDigit(c) <==> d < 10
  {
    if '0' <= c <= '9' then c as int - '0' as int
    else if 'a' <= c <= 'z' then c as int - 'a' as int + 10
    else if 'A' <= c <= 'Z' then c as int - 'A' as int + 10
    else 36
  }

  predicate IsRadixDigit(c: char, radix: nat) {
    DigitValue(c) < radix
  }

  /** The string with its leading white space removed. */
  function TrimStart(s: string): (r: string)
    ensures |r| <= |s| && r == s[|s| - |r|..]
    ensures r == [] || !IsStrWhiteSpace(r[0])
    ensures forall i :: 0 <= i < |s| - |r| ==> IsStrWhiteSpace(s[i])
  {
    if s != [] && IsStrWhiteSpace(s[0]) then TrimStart(s[1..]) else s
  }

  /** The length of the longest prefix of `s` made of digits of `radix`. */
  function DigitRun(s: string, radix: nat): (n: nat)
    ensures n <= |s|
    ensures forall i :: 0 <= i < n ==> IsRadixDigit(s[i], radix)
    ensures n < |s| ==> !IsRadixDigit(s[n], radix)
  {
    if s != [] && IsRadixDigit(s[0], radix) then 1 + DigitRun(s[1..], radix) else 0
  }

  /** The number that the digits `z` denote in `radix`, most significant first. */
  function DigitsValue(z: string, radix: nat): nat {
    if z == [] then 0
    else DigitsValue(z[..|z| - 1], radix) * radix + DigitValue(z[|z| - 1])
  }

  /** The longest run of `radix` digits at the start of `s`, read as a number; `NaN` when it is empty. */
  function ParseDigits(s: string, radix: nat): (r: JsNumber)
    ensures r.NaN? <==> s == [] || !IsRadixDigit(s[0], radix)
    ensures r.Num? ==> r.value >= 0
  {
    var n := DigitRun(s, radix);
    if n == 0 then NaN else Num(DigitsValue(s[..n], radix))
  }

  /** The text after the sign: radix 16 after a `0x` or `0X` prefix, radix 10 otherwise. */
  function ParseUnsigned(s: string): (r: JsNumber)
    ensures r.Num? ==> r.value >= 0
  {
    if |s| >= 2 && s[0] == '0' && (s[1] == 'x' || s[1] == 'X') then ParseDigits(s[2..], 16)
    else ParseDigits(s, 10)
  }

  /** Unary minus on the result of `ParseUnsigned`; `NaN` stays `NaN`. */
  function Negate(n: JsNumber): (r: JsNumber)
    ensures r.NaN? <==> n.NaN?
    ensures r.Num? ==> r.value == -n.value
  {
    match n
    case NaN => NaN
    case Num(v) => Num(-v)
  }

  /** `parseInt(input)` with the radix argument left out. */
  function ParseInt(input: string): (r: JsNumber)
    ensures TrimStart(input) == [] ==> r == NaN
    ensures r.Num? && r.value < 0 ==> TrimStart(input)[0] == '-'
  {
    var s := TrimStart(input);
    if s != [] && s[0] == '-' then Negate(ParseUnsigned(s[1..]))
    else if s != [] && s[0] == '+' then ParseUnsigned(s[1..])
    else ParseUnsigned(s)
  }

  /** Leading white space does not change the trimmed string. */
  lemma {:induction false} TrimStartSkips(ws: string, s: string)
    requires forall i :: 0 <= i < |ws| ==> IsStrWhiteSpace(ws[i])
    ensures TrimStart(ws + s) == TrimStart(s)
  {
    if ws != [] {
      assert (ws + s)[0] == ws[0];
      assert (ws + s)[1..] == ws[1..] + s;
      TrimStartSkips(ws[1..], s);
    } else {
      assert ws + s == s;
    }
  }

  /** `parseInt` ignores leading white space. */
  lemma ParseIntSkipsWhiteSpace(ws: string, s: string)
    requires forall i :: 0 <= i < |ws| ==> IsStrWhiteSpace(ws[i])
    ensures ParseInt(ws + s) == ParseInt(s)
  {
    TrimStartSkips(ws, s);
  }

  /** A complete run of digits of the radix reads as the number it denotes. */
  lemma ParseDigitsRun(d: string, rest: string, radix: nat)
    requires d != [] && forall i :: 0 <= i < |d| ==> IsRadixDigit(d[i], radix)
    requires rest == [] || !IsRadixDigit(rest[0], radix)
    ensures ParseDigits(d + rest, radix) == Num(DigitsValue(d, radix))
  {
    var s := d + rest;
    DigitRunIsRun(s, |d|, radix);
    assert s[..|d|] == d;
  }

  /** Unsigned text that starts with decimal digits reads as their decimal value
      (unless a lone `0` is followed by `x`, which makes a hexadecimal prefix). */
  lemma ParseUnsignedDecimal(d: string, rest: string)
    requires d != [] && forall i :: 0 <= i < |d| ==> IsRadixDigit(d[i], 10)
    requires rest == [] || (!IsRadixDigit(rest[0], 10) && (d != "0" || (rest[0] != 'x' && rest[0] != 'X')))
    ensures ParseUnsigned(d + rest) == Num(DigitsValue(d, 10))
  {
    var s := d + rest;
    if |d| >= 2 {
      assert s[1] == d[1];
      DecimalDigitIsPlain(d[1]);
    } else if d != "0" {
      assert s[0] == d[0] && d == [d[0]];
    }
    assert ParseUnsigned(s) == ParseDigits(s, 10);
    ParseDigitsRun(d, rest, 10);
  }

  /** A run of decimal digits reads as its decimal value, whatever follows it
      (except an `x` right after a lone `0`, which makes a hexadecimal prefix). */
  lemma ParseIntDecimal(d: string, rest: string)
    requires d != [] && forall i :: 0 <= i < |d| ==> IsRadixDigit(d[i], 10)
    requires rest == [] || (!IsRadixDigit(rest[0], 10) && (d != "0" || (rest[0] != 'x' && rest[0] != 'X')))
    ensures ParseInt(d + rest) == Num(DigitsValue(d, 10))
  {
    var s := d + rest;
    DecimalDigitIsPlain(s[0]);
    assert TrimStart(s) == s;
    ParseUnsignedDecimal(d, rest);
  }

  /** A leading `-` negates what follows it. */
  lemma ParseIntMinus(u: string)
    ensures ParseInt("-" + u) == Negate(ParseUnsigned(u))
  {
    var s := "-" + u;
    assert s[0] == '-' && s[1..] == u;
    assert TrimStart(s) == s;
  }

  /** A leading `+` is skipped. */
  lemma ParseIntPlus(u: string)
    ensures ParseInt("+" + u) == ParseUnsigned(u)
  {
    var s := "+" + u;
    assert s[0] == '+' && s[1..] == u;
    assert TrimStart(s) == s;
  }

  /** Unsigned text made only of decimal digits reads as their decimal value. */
  lemma ParseUnsignedDigits(d: string)
    requires d != [] && forall i :: 0 <= i < |d| ==> IsRadixDigit(d[i], 10)
    ensures ParseUnsigned(d) == Num(DigitsValue(d, 10))
  {
    assert d + [] == d;
    ParseUnsignedDecimal(d, []);
  }

  /** A leading minus sign negates the value of the digits after it. */
  lemma {:induction false} ParseIntNegative(d: string)
    requires d != [] && forall i :: 0 <= i < |d| ==> IsRadixDigit(d[i], 10)
    ensures ParseInt("-" + d) == Num(-(DigitsValue(d, 10) as int))
  {
    calc {
      ParseInt("-" + d);
    == { ParseIntMinus(d); }
      Negate(ParseUnsigned(d));
    == { ParseUnsignedDigits(d); }
      Negate(Num(DigitsValue(d, 10)));
    }
  }

  /** After a `0x` prefix the digits are read in radix 16. */
  lemma ParseIntHex(h: string)
    requires h != [] && forall i :: 0 <= i < |h| ==> IsRadixDigit(h[i], 16)
    ensures ParseInt("0x" + h) == Num(DigitsValue(h, 16))
  {
    var s := "0x" + h;
    assert TrimStart(s) == s;
    assert s[2..] == h;
    assert ParseInt(s) == ParseDigits(h, 16);
    ParseDigitsRun(h, [], 16);
    assert h + [] == h;
  }

  /** Text that starts with neither white space, a sign nor a decimal digit is `NaN`. */
  lemma ParseIntNoDigits(s: string)
    requires s == [] || (!IsStrWhiteSpace(s[0]) && s[0] != '-' && s[0] != '+' && !IsDecimalDigit(s[0]))
    ensures ParseInt(s) == NaN
  {
    assert TrimStart(s) == s;
  }

  /** A decimal digit is neither white space, a sign nor the `x` of a hexadecimal prefix. */
  lemma DecimalDigitIsPlain(c: char)
    requires IsRadixDigit(c, 10)
    ensures IsDecimalDigit(c) && !IsStrWhiteSpace(c)
    ensures c != '-' && c != '+' && c != 'x' && c != 'X'
  {
  }

  /** When the first `n` characters are digits of the radix and the next is not, the run has length `n`. */
  lemma DigitRunIsRun(s: string, n: nat, radix: nat)
    requires n <= |s|
    requires forall i :: 0 <= i < n ==> IsRadixDigit(s[i], radix)
    requires n < |s| ==> !IsRadixDigit(s[n], radix)
    ensures DigitRun(s, radix) == n
  {
  }

  /** `width` decimal digits for `y`, with leading zeros, as a year is written. */
  function Decimal(y: nat, width: nat): (r: string)
    ensures |r| == width
    ensures forall i :: 0 <= i < |r| ==> IsDecimalDigit(r[i])
  {
    if width == 0 then [] else Decimal(y / 10, width - 1) + [('0' as int + y % 10) as char]
  }

  function Pow10(n: nat): nat {
    if n == 0 then 1 else 10 * Pow10(n - 1)
  }

  /** Reading back the digits written by `Decimal` gives the number. */
  lemma {:induction false} DecimalRoundTrip(y: nat, width: nat)
    requires y < Pow10(width)
    ensures DigitsValue(Decimal(y, width), 10) == y
  {
    if width > 0 {
      var r := Decimal(y, width);
      assert r[..width - 1] == Decimal(y / 10, width - 1);
      DecimalRoundTrip(y / 10, width - 1);
    }
  }
}
