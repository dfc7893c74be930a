/**
 JavaScript's global `parseInt(string)` called without a radix, as the admin
 panel applies it to the "No. of Sites" draft field. The result is an
 unbounded integer or NaN; the precision limits of JavaScript numbers are not
 modelled.
 */
module JsParseInt {

  /** The value `parseInt` produces: an integer or NaN. */
  datatype ParsedInt = Int(value: int) | NaN

  /** The white space and line terminator code points that `parseInt` skips
      before the number (ECMAScript's StrWhiteSpaceChar). */
  predicate IsJsWhitespace(c: char) {
    || c == '\t' || c == '\n' || c == '\U{000B}' || c == '\U{000C}' || c == '\r' || c == ' '
    || c == '\U{00A0}' || c == '\U{1680}' || ('\U{2000}' <= c <= '\U{200A}')
    || c == '\U{2028}' || c == '\U{2029}' || c == '\U{202F}' || c == '\U{205F}'
    || c == '\U{3000}' || c == '\U{FEFF}'
  }

  /** The value of a digit in bases up to 36; 36 for a character that is no digit. */
  function DigitValue(c: char): (d: nat)
    ensures d <= 36
  {
    if '0' <= c <= '9' then c as nat - '0' as nat
    else if 'a' <= c <= 'z' then c as nat - 'a' as nat + 10
    else if 'A' <= c <= 'Z' then c as nat - 'A' as nat + 10
    else 36
  }

  predicate IsDigit(c: char, radix: nat) {
    DigitValue(c) < radix
  }

  /** The decimal digit character for `d`. */
  function DigitChar(d: nat): (c: char)
    requires d < 10
    ensures IsDigit(c, 10) && DigitValue(c) == d
  {
    ('0' as int + d) as char
  }

  /** `s` without its leading white space. */
  function SkipWhitespace(s: string): (r: string)
    ensures |r| <= |s| && r == s[|s| - |r|..]
    ensures forall i :: 0 <= i < |s| - |r| ==> IsJsWhitespace(s[i])
    ensures r != [] ==> !IsJsWhitespace(r[0])
  {
    if s != [] && IsJsWhitespace(s[0]) then SkipWhitespace(s[1..]) else s
  }

  /** The length of the longest prefix of `s` made of digits of base `radix`. */
  function DigitRun(s: string, radix: nat): (n: nat)
    ensures n <= |s|
    ensures forall i :: 0 <= i < n ==> IsDigit(s[i], radix)
    ensures n < |s| ==> !IsDigit(s[n], radix)
  {
    if s == [] || !IsDigit(s[0], radix) then 0 else 1 + DigitRun(s[1..], radix)
  }

  /** The number that the digit string `ds` denotes in base `radix`, most
      significant digit first. */
  function DigitsValue(ds: string, radix: nat): nat
  {
    if ds == [] then 0 else DigitsValue(ds[..|ds| - 1], radix) * radix + DigitValue(ds[|ds| - 1])
  }

  /** `parseInt(s)`: skip leading white space, take an optional sign, switch
      to base 16 after a "0x" or "0X" prefix, then read the longest run of
      digits; no digit at all gives NaN. */
  function ParseInt(s: string): ParsedInt
  {
    var t := SkipWhitespace(s);
    if t != [] && t[0] == '-' then ParseUnsigned(t[1..], true)
    else if t != [] && t[0] == '+' then ParseUnsigned(t[1..], false)
    else ParseUnsigned(t, false)
  }

  /** `t` without one leading sign character. */
  function AfterSign(t: string): (u: string)
    ensures u == t || (t != [] && (t[0] == '-' || t[0] == '+') && u == t[1..])
  {
    if t != [] && (t[0] == '-' || t[0] == '+') then t[1..] else t
  }

  /** `parseInt` once white space and sign are behind it. */
  function ParseUnsigned(u: string, negative: bool): ParsedInt
  {
    if |u| >= 2 && u[0] == '0' && (u[1] == 'x' || u[1] == 'X') then ParseDigits(u[2..], 16, negative)
    else ParseDigits(u, 10, negative)
  }

  /** The leading run of base-`radix` digits of `v`, negated when `negative`. */
  function ParseDigits(v: string, radix: nat, negative: bool): (r: ParsedInt)
    ensures r.NaN? <==> v == [] || !IsDigit(v[0], radix)
  {
    var n := DigitRun(v, radix);
    if n == 0 then NaN
    else Int(Signed(negative, DigitsValue(v[..n], radix)))
  }

  function Signed(negative: bool, m: nat): int {
    if negative then -(m as int) else m
  }

  /** The decimal rendering of `n`, the text a number field holds for a
      whole number: digits only, and no leading zero. */
  function DecimalString(n: nat): (s: string)
    ensures |s| > 0
    ensures forall i :: 0 <= i < |s| ==> IsDigit(s[i], 10)
    ensures s[0] == '0' ==> n == 0
  {
    if n < 10 then [DigitChar(n)] else DecimalString(n / 10) + [DigitChar(n % 10)]
  }

  lemma {:induction false} DecimalStringValue(n: nat)
    ensures DigitsValue(DecimalString(n), 10) == n
  {
    if n >= 10 {
      var s := DecimalString(n);
      assert s[..|s| - 1] == DecimalString(n / 10);
      DecimalStringValue(n / 10);
    }
  }

  /** A run of digits followed by a non-digit is read up to the non-digit. */
  lemma {:induction false} DigitRunOfPrefix(ds: string, rest: string, radix: nat)
    requires forall i :: 0 <= i < |ds| ==> IsDigit(ds[i], radix)
    requires rest == [] || !IsDigit(rest[0], radix)
    ensures DigitRun(ds + rest, radix) == |ds|
  {
    if ds != [] {
      assert (ds + rest)[1..] == ds[1..] + rest;
      DigitRunOfPrefix(ds[1..], rest, radix);
    }
  }

  /** Leading white space does not change what is left to read. */
  lemma {:induction false} SkipLeadingWhitespace(ws: string, s: string)
    requires forall i :: 0 <= i < |ws| ==> IsJsWhitespace(ws[i])
    ensures SkipWhitespace(ws + s) == SkipWhitespace(s)
  {
    if ws != [] {
      assert (ws + s)[0] == ws[0];
      assert (ws + s)[1..] == ws[1..] + s;
      SkipLeadingWhitespace(ws[1..], s);
    } else {
      assert ws + s == s;
    }
  }

  /** Leading white space does not change what `parseInt` gives. */
  lemma ParseIntSkipsWhitespace(ws: string, s: string)
    requires forall i :: 0 <= i < |ws| ==> IsJsWhitespace(ws[i])
    ensures ParseInt(ws + s) == ParseInt(s)
  {
    SkipLeadingWhitespace(ws, s);
  }

  /** A run of digits followed by a non-digit is read up to the non-digit. */
  lemma ParseDigitsOfRun(ds: string, rest: string, radix: nat, negative: bool)
    requires |ds| > 0 && forall i :: 0 <= i < |ds| ==> IsDigit(ds[i], radix)
    requires rest == [] || !IsDigit(rest[0], radix)
    ensures ParseDigits(ds + rest, radix, negative) == Int(Signed(negative, DigitsValue(ds, radix)))
  {
    DigitRunOfPrefix(ds, rest, radix);
    assert (ds + rest)[..|ds|] == ds;
  }

  /** Decimal digits that do not open with "0x" are read in base 10. */
  lemma ParseUnsignedDecimal(ds: string, rest: string, negative: bool)
    requires |ds| > 0 && forall i :: 0 <= i < |ds| ==> IsDigit(ds[i], 10)
    requires rest == [] || !IsDigit(rest[0], 10)
    requires ds == "0" ==> rest == [] || (rest[0] != 'x' && rest[0] != 'X')
    ensures ParseUnsigned(ds + rest, negative) == Int(Signed(negative, DigitsValue(ds, 10)))
  {
    var u := ds + rest;
    assert u[0] == ds[0];
    if |ds| > 1 {
      assert u[1] == ds[1];
      assert !(u[1] == 'x' || u[1] == 'X');
    } else if |u| > 1 {
      assert u[1] == rest[0];
    }
    ParseDigitsOfRun(ds, rest, 10, negative);
  }

  /** Text that opens with neither white space nor a sign is read as it is. */
  lemma ParseIntUnsigned(u: string)
    requires u != [] && !IsJsWhitespace(u[0]) && u[0] != '-' && u[0] != '+'
    ensures ParseInt(u) == ParseUnsigned(u, false)
  {
    assert SkipWhitespace(u) == u;
  }

  /** A leading sign is taken off, and a minus negates what follows. */
  lemma ParseIntSigned(u: string)
    ensures ParseInt("+" + u) == ParseUnsigned(u, false)
    ensures ParseInt("-" + u) == ParseUnsigned(u, true)
  {
    var plus, minus := "+" + u, "-" + u;
    assert plus[0] == '+' && plus[1..] == u;
    assert minus[0] == '-' && minus[1..] == u;
    assert SkipWhitespace(plus) == plus;
    assert SkipWhitespace(minus) == minus;
  }

  /** The decimal rendering of `n`, followed by text that does not continue
      it, reads as `n` once white space and sign are behind. */
  lemma ParseUnsignedDecimalString(n: nat, rest: string, negative: bool)
    requires rest == [] || !IsDigit(rest[0], 10)
    requires n == 0 ==> rest == [] || (rest[0] != 'x' && rest[0] != 'X')
    ensures ParseUnsigned(DecimalString(n) + rest, negative) == Int(Signed(negative, n))
  {
    var ds := DecimalString(n);
    DecimalStringValue(n);
    if n == 0 {
      assert ds == "0";
    }
    ParseUnsignedDecimal(ds, rest, negative);
  }

  /** `parseInt` inverts the decimal rendering, also behind a sign and when
      text that does not continue the number follows it ("10.5", "10e3"):
      the text a number field holds for a whole number parses to it. */
  lemma ParseDecimalString(n: nat, rest: string)
    requires rest == [] || !IsDigit(rest[0], 10)
    requires n == 0 ==> rest == [] || (rest[0] != 'x' && rest[0] != 'X')
    ensures ParseInt(DecimalString(n) + rest) == Int(n)
    ensures ParseInt("+" + (DecimalString(n) + rest)) == Int(n)
    ensures ParseInt("-" + (DecimalString(n) + rest)) == Int(-(n as int))
  {
    var u := DecimalString(n) + rest;
    ParseUnsignedDecimalString(n, rest, false);
    ParseUnsignedDecimalString(n, rest, true);
    assert u[0] == DecimalString(n)[0];
    assert '0' <= u[0] <= '9';
    ParseIntUnsigned(u);
    ParseIntSigned(u);
  }

  /** After a "0x" or "0X" prefix the digits are read in base 16. */
  lemma ParseHexDigits(x: char, ds: string, rest: string, negative: bool)
    requires x == 'x' || x == 'X'
    requires |ds| > 0 && forall i :: 0 <= i < |ds| ==> IsDigit(ds[i], 16)
    requires rest == [] || !IsDigit(rest[0], 16)
    ensures ParseUnsigned(['0', x] + ds + rest, negative) == Int(Signed(negative, DigitsValue(ds, 16)))
  {
    ParseDigitsOfRun(ds, rest, 16, negative);
    var u := ds + rest;
    var t := ['0', x] + u;
    assert ['0', x] + ds + rest == t;
    assert t[0] == '0' && t[1] == x && t[2..] == u;
  }

  /** `parseInt` gives NaN exactly when, after white space and one sign,
      there is no decimal digit, or there is a "0x"/"0X" prefix with no hex
      digit after it; and only a minus sign gives a negative number. */
  lemma ParseIntNaNIff(s: string)
    ensures var u := AfterSign(SkipWhitespace(s));
      ParseInt(s).NaN? <==>
        || u == [] || !IsDigit(u[0], 10)
        || (|u| >= 2 && u[0] == '0' && (u[1] == 'x' || u[1] == 'X') && (|u| == 2 || !IsDigit(u[2], 16)))
    ensures ParseInt(s).Int? && ParseInt(s).value < 0 ==> SkipWhitespace(s) != [] && SkipWhitespace(s)[0] == '-'
  {
    var t := SkipWhitespace(s);
    var negative := t != [] && t[0] == '-';
    assert ParseInt(s) == ParseUnsigned(AfterSign(t), negative);
    ParseUnsignedNaNIff(AfterSign(t), negative);
  }

  /** The same, once white space and sign are behind. */
  lemma ParseUnsignedNaNIff(u: string, negative: bool)
    ensures ParseUnsigned(u, negative).NaN? <==>
        || u == [] || !IsDigit(u[0], 10)
        || (|u| >= 2 && u[0] == '0' && (u[1] == 'x' || u[1] == 'X') && (|u| == 2 || !IsDigit(u[2], 16)))
    ensures ParseUnsigned(u, negative).Int? && ParseUnsigned(u, negative).value < 0 ==> negative
  {
    if |u| >= 2 && u[0] == '0' && (u[1] == 'x' || u[1] == 'X') {
      assert IsDigit(u[0], 10);
      assert u[2..] == [] <==> |u| == 2;
    }
  }

  /** The empty field parses to NaN. */
  lemma EmptyIsNaN()
    ensures ParseInt("") == NaN
  {
  }

  /** A fraction written without its leading zero, which a number field
      accepts, parses to NaN. */
  lemma LeadingPointIsNaN()
    ensures ParseInt(".5") == NaN
  {
    assert !IsJsWhitespace('.');
    assert SkipWhitespace(".5") == ".5";
    assert !IsDigit('.', 10);
    assert ParseUnsigned(".5", false) == ParseDigits(".5", 10, false);
  }

  /** A "0x" prefix with no hex digit after it parses to NaN, not to 0. */
  lemma BareHexPrefixIsNaN()
    ensures ParseInt("0x") == NaN
  {
    ParseIntUnsigned("0x");
    assert "0x"[2..] == "";
  }
}
