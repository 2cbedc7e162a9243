/**
 * The number conversions the scratch element relies on:
 * ECMAScript's `parseInt(s, 10)` (section 19.2.5 of ECMA-262), which reads the
 * `brush-size` attribute, and the decimal rendering of a non-negative integer
 * that a template literal such as `${n}px` performs.
 *
 * Integers are unbounded here; parseInt's result is a double in ECMAScript, so
 * digit strings beyond 2^53 lose precision there and not here, and `-0` is 0.
 */
module NumberParsing {
  import opened Wrappers

  /** WhiteSpace and LineTerminator code points of ECMA-262 (sections 12.2 and 12.3). */
  predicate IsWhiteSpace(c: char)
  {
    || c == '\t' || c == '\U{000B}' || c == '\U{000C}' || c == ' '
    || c == '\U{00A0}' || c == '\U{FEFF}' || c == '\U{1680}'
    || ('\U{2000}' <= c <= '\U{200A}')
    || c == '\U{202F}' || c == '\U{205F}' || c == '\U{3000}'
    || c == '\n' || c == '\r' || c == '\U{2028}' || c == '\U{2029}'
  }

  predicate IsDigit(c: char)
  {
    '0' <= c <= '9'
  }

  function DigitValue(c: char): (d: nat)
    requires IsDigit(c)
    ensures d < 10
  {
    (c as int) - ('0' as int)
  }

  function DigitChar(d: nat): (c: char)
    requires d < 10
    ensures IsDigit(c) && DigitValue(c) == d
  {
    (('0' as int) + d) as char
  }

  predicate AllDigits(s: string)
  {
    forall i :: 0 <= i < |s| ==> IsDigit(s[i])
  }

  /** Every character is white space or a line terminator. */
  predicate AllWhiteSpace(s: string)
  {
    forall i :: 0 <= i < |s| ==> IsWhiteSpace(s[i])
  }

  /** TrimString(s, start): drops leading white space and line terminators. */
  function TrimStart(s: string): (t: string)
    ensures |t| <= |s| && t == s[|s| - |t|..]
    ensures t == [] || !IsWhiteSpace(t[0])
    ensures AllWhiteSpace(s[..|s| - |t|])
  {
    if s != [] && IsWhiteSpace(s[0]) then
      var t := TrimStart(s[1..]);
      assert s[..|s| - |t|] == [s[0]] + s[1..][..|s| - 1 - |t|];
      t
    else s
  }

  /** Removes one leading '+' or '-', if there is one. */
  function StripSign(s: string): string
  {
    if s != [] && (s[0] == '+' || s[0] == '-') then s[1..] else s
  }

  /** The longest prefix of s made of decimal digits. */
  function DigitPrefix(s: string): (z: string)
    ensures AllDigits(z) && |z| <= |s| && z == s[..|z|]
    ensures |z| < |s| ==> !IsDigit(s[|z|])
  {
    if s != [] && IsDigit(s[0]) then [s[0]] + DigitPrefix(s[1..]) else []
  }

  /** The value of a string of decimal digits, most significant digit first. */
  function DigitsValue(z: string): nat
    requires AllDigits(z)
  {
    if z == [] then 0 else DigitsValue(z[..|z| - 1]) * 10 + DigitValue(z[|z| - 1])
  }

  /**
   * parseInt(s, 10): skip white space, take an optional sign, then read the
   * longest run of decimal digits; None stands for NaN (no digit at all).
   * Trailing characters after the digits are ignored.
   */
  function ParseInt(s: string): (r: Option<int>)
    ensures r.None? <==> var u := StripSign(TrimStart(s)); u == [] || !IsDigit(u[0])
    ensures r.Some? && 0 < |TrimStart(s)| && TrimStart(s)[0] != '-' ==> r.value >= 0
  {
    var t := TrimStart(s);
    var negative := t != [] && t[0] == '-';
    var z := DigitPrefix(StripSign(t));
    var magnitude: int := if z == [] then 0 else DigitsValue(z);
    if z == [] then None
    else if negative then Some(-magnitude)
    else Some(magnitude)
  }

  /** The decimal rendering of n, without leading zeros ("0" for zero). */
  function DecimalString(n: nat): (s: string)
    ensures s != [] && AllDigits(s)
    ensures s[0] == '0' ==> n == 0 && s == "0"
  {
    if n < 10 then [DigitChar(n)]
    else
      var high := DecimalString(n / 10);
      assert (high + [DigitChar(n % 10)])[0] == high[0];
      high + [DigitChar(n % 10)]
  }

  lemma {:induction false} DecimalStringValue(n: nat)
    ensures DigitsValue(DecimalString(n)) == n
  {
    if n >= 10 {
      var s := DecimalString(n);
      assert s[..|s| - 1] == DecimalString(n / 10);
      DecimalStringValue(n / 10);
    }
  }

  lemma {:induction false} DigitPrefixOfDigits(z: string, rest: string)
    requires AllDigits(z)
    requires rest == [] || !IsDigit(rest[0])
    ensures DigitPrefix(z + rest) == z
  {
    if z != [] {
      assert (z + rest)[1..] == z[1..] + rest;
      DigitPrefixOfDigits(z[1..], rest);
    } else {
      assert z + rest == rest;
    }
  }

  /** Reading back a rendered number stops at the first non-digit: parseInt("42px") == 42. */
  lemma ParseIntDecimal(n: nat, rest: string)
    requires rest == [] || !IsDigit(rest[0])
    ensures ParseInt(DecimalString(n) + rest) == Some(n)
  {
    var s := DecimalString(n) + rest;
    assert IsDigit(s[0]);
    assert !IsWhiteSpace(s[0]) && s[0] != '+' && s[0] != '-';
    assert TrimStart(s) == s;
    assert StripSign(s) == s;
    DigitPrefixOfDigits(DecimalString(n), rest);
    DecimalStringValue(n);
  }

  /** A leading minus sign negates: parseInt("-42") == -42. */
  lemma ParseIntNegative(n: nat, rest: string)
    requires rest == [] || !IsDigit(rest[0])
    ensures ParseInt("-" + DecimalString(n) + rest) == Some(-(n as int))
  {
    var u := DecimalString(n) + rest;
    var s := "-" + u;
    assert s == "-" + DecimalString(n) + rest;
    assert s[0] == '-' && !IsWhiteSpace(s[0]);
    assert TrimStart(s) == s;
    assert s[1..] == u;
    assert StripSign(TrimStart(s)) == u;
    DigitPrefixOfDigits(DecimalString(n), rest);
    DecimalStringValue(n);
    assert DigitPrefix(StripSign(TrimStart(s))) == DecimalString(n);
    assert TrimStart(s)[0] == '-';
  }

  /** Leading zeros do not change a digit string's value: "08" reads as 8. */
  lemma {:induction false} DigitsValueLeadingZero(z: string)
    requires AllDigits(z)
    ensures DigitsValue("0" + z) == DigitsValue(z)
  {
    if z != [] {
      var y := "0" + z;
      assert y[..|y| - 1] == "0" + z[..|z| - 1];
      assert y[|y| - 1] == z[|z| - 1];
      DigitsValueLeadingZero(z[..|z| - 1]);
    } else {
      assert "0" + z == "0" && "0"[..0] == [];
    }
  }

  /** Any unsigned digit run followed by a non-digit reads as its value. */
  lemma ParseIntUnsigned(v: string, z: string, rest: string)
    requires z != [] && AllDigits(z) && (rest == [] || !IsDigit(rest[0])) && v == z + rest
    ensures ParseInt(v) == Some(DigitsValue(z))
  {
    assert v[0] == z[0] && IsDigit(v[0]);
    assert !IsWhiteSpace(v[0]) && v[0] != '+' && v[0] != '-';
    assert TrimStart(v) == v;
    assert StripSign(v) == v;
    DigitPrefixOfDigits(z, rest);
  }

  /** A leading plus sign is skipped: parseInt("+5") == 5. */
  lemma ParseIntPlus(v: string, z: string, rest: string)
    requires z != [] && AllDigits(z) && (rest == [] || !IsDigit(rest[0])) && v == z + rest
    ensures ParseInt("+" + v) == Some(DigitsValue(z))
  {
    var s := "+" + v;
    assert s[0] == '+' && !IsWhiteSpace(s[0]);
    assert TrimStart(s) == s;
    assert s[1..] == v;
    assert StripSign(TrimStart(s)) == v;
    DigitPrefixOfDigits(z, rest);
    assert DigitPrefix(StripSign(TrimStart(s))) == z;
  }

  /** A leading minus sign negates any digit run: parseInt("-08") == -8. */
  lemma ParseIntMinus(v: string, z: string, rest: string)
    requires z != [] && AllDigits(z) && (rest == [] || !IsDigit(rest[0])) && v == z + rest
    ensures ParseInt("-" + v) == Some(-(DigitsValue(z) as int))
  {
    var s := "-" + v;
    assert s[0] == '-' && !IsWhiteSpace(s[0]);
    assert TrimStart(s) == s;
    assert s[1..] == v;
    assert StripSign(TrimStart(s)) == v;
    DigitPrefixOfDigits(z, rest);
    assert DigitPrefix(StripSign(TrimStart(s))) == z;
  }

  lemma {:induction false} TrimStartSkipsWhiteSpace(ws: string, s: string)
    requires AllWhiteSpace(ws)
    ensures TrimStart(ws + s) == TrimStart(s)
  {
    if ws != [] {
      assert (ws + s)[1..] == ws[1..] + s;
      TrimStartSkipsWhiteSpace(ws[1..], s);
    } else {
      assert ws + s == s;
    }
  }

  /** Leading white space never changes the result: parseInt("  7") == parseInt("7"). */
  lemma ParseIntSkipsWhiteSpace(ws: string, s: string)
    requires AllWhiteSpace(ws)
    ensures ParseInt(ws + s) == ParseInt(s)
  {
    TrimStartSkipsWhiteSpace(ws, s);
    ParseIntOfTrimmed(ws + s, s);
  }

  /** parseInt looks at its argument only after the white space is trimmed. */
  lemma ParseIntOfTrimmed(a: string, b: string)
    requires TrimStart(a) == TrimStart(b)
    ensures ParseInt(a) == ParseInt(b)
  {
  }
}
