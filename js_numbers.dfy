/**
 * The two number/string conversions the worker relies on: the template
 * literal `${n}` that turns an integer timestamp into text, and
 * `parseInt(s, 10)` that reads it back.
 */
module JsNumbers {

  /** The result of `parseInt`: `NaN`, or an integer. */
  datatype Parsed = NaN | Num(value: int)

  predicate IsDigit(c: char) {
    '0' <= c <= '9'
  }

  predicate AllDigits(s: string) {
    forall i :: 0 <= i < |s| ==> IsDigit(s[i])
  }

  function DigitValue(c: char): (d: nat)
    requires IsDigit(c)
    ensures d < 10
  {
    (c as int) - ('0' as int)
  }

  function DigitChar(d: nat): (c: char)
    requires d < 10
    ensures IsDigit(c) && DigitValue(c) == d
  {
    (('0' as int) + d) as char
  }

  /**
   * The characters `parseInt` skips before the number: white space and
   * line terminators in the sense of ECMAScript.
   */
  predicate IsJsWhitespace(c: char) {
    c == '\t' || c == '\n' || c == '\U{000B}' || c == '\U{000C}' || c == '\r' || c == ' ' ||
    c == '\U{00A0}' || c == '\U{1680}' || ('\U{2000}' <= c <= '\U{200A}') ||
    c == '\U{2028}' || c == '\U{2029}' || c == '\U{202F}' || c == '\U{205F}' ||
    c == '\U{3000}' || c == '\U{FEFF}'
  }

  /** `s` without its leading white space. */
  function TrimStart(s: string): (r: string)
    ensures |r| <= |s| && r == s[|s| - |r|..]
    ensures |r| > 0 ==> !IsJsWhitespace(r[0])
    ensures forall i :: 0 <= i < |s| - |r| ==> IsJsWhitespace(s[i])
  {
    if |s| > 0 && IsJsWhitespace(s[0]) then TrimStart(s[1..]) else s
  }

  /** The sign `parseInt` reads: -1 after a leading `-`, otherwise 1. */
  function SignOf(t: string): int {
    if |t| > 0 && t[0] == '-' then -1 else 1
  }

  /** `t` without one leading `+` or `-`. */
  function AfterSign(t: string): string {
    if |t| > 0 && (t[0] == '-' || t[0] == '+') then t[1..] else t
  }

  /** The longest prefix of `u` made of decimal digits. */
  function DigitPrefix(u: string): (ds: string)
    ensures |ds| <= |u| && ds == u[..|ds|]
    ensures AllDigits(ds)
    ensures |ds| < |u| ==> !IsDigit(u[|ds|])
  {
    if |u| > 0 && IsDigit(u[0]) then [u[0]] + DigitPrefix(u[1..]) else ""
  }

  /** The number that a string of decimal digits denotes (most significant first). */
  function DigitsValue(ds: string): nat
    requires AllDigits(ds)
  {
    if |ds| == 0 then 0 else DigitsValue(ds[..|ds| - 1]) * 10 + DigitValue(ds[|ds| - 1])
  }

  /**
   * `parseInt(s, 10)`: skip leading white space, read an optional sign, then
   * the longest run of decimal digits; `NaN` when that run is empty. Anything
   * after the digits is ignored.
   */
  function ParseInt(s: string): (r: Parsed)
    ensures r.NaN? <==> (var u := AfterSign(TrimStart(s)); |u| == 0 || !IsDigit(u[0]))
  {
    var t := TrimStart(s);
    var ds := DigitPrefix(AfterSign(t));
    if |ds| == 0 then NaN else Num(SignOf(t) * DigitsValue(ds))
  }

  /** The decimal text of a natural number, without leading zeros. */
  function NatToString(n: nat): (s: string)
    ensures |s| >= 1 && AllDigits(s)
    ensures |s| > 1 ==> s[0] != '0'
  {
    if n < 10 then [DigitChar(n)] else NatToString(n / 10) + [DigitChar(n % 10)]
  }

  /** `${n}` for an integer `n`: a `-` before the digits of a negative number. */
  function IntToString(n: int): (s: string)
    ensures |s| >= 1
    ensures (s[0] == '-') <==> n < 0
    ensures AllDigits(if n < 0 then s[1..] else s)
  {
    if n < 0 then "-" + NatToString(-n) else NatToString(n)
  }

  lemma {:induction false} NatToStringValue(n: nat)
    ensures DigitsValue(NatToString(n)) == n
    decreases n
  {
    var s := NatToString(n);
    if n < 10 {
      assert s[..0] == "";
    } else {
      NatToStringValue(n / 10);
      assert s[..|s| - 1] == NatToString(n / 10);
    }
  }

  lemma {:induction false} DigitPrefixOfDigits(ds: string)
    requires AllDigits(ds)
    ensures DigitPrefix(ds) == ds
    decreases |ds|
  {
    if |ds| > 0 {
      DigitPrefixOfDigits(ds[1..]);
      assert ds == [ds[0]] + ds[1..];
    }
  }

  /** Reading back the text of an integer gives the integer. */
  lemma ParseIntToString(n: int)
    ensures ParseInt(IntToString(n)) == Num(n)
  {
    var s := IntToString(n);
    var m: nat := if n < 0 then -n else n;
    var ds := NatToString(m);
    assert !IsJsWhitespace(s[0]);
    assert TrimStart(s) == s;
    assert AfterSign(s) == ds;
    DigitPrefixOfDigits(ds);
    NatToStringValue(m);
    assert SignOf(s) * m == n;
  }

  /** Text after the digits does not change what `parseInt` reads. */
  lemma ParseIntIgnoresSuffix(n: nat, rest: string)
    requires |rest| > 0 ==> !IsDigit(rest[0])
    ensures ParseInt(NatToString(n) + rest) == Num(n)
  {
    var ds := NatToString(n);
    var s := ds + rest;
    assert !IsJsWhitespace(s[0]) && s[0] != '-' && s[0] != '+';
    assert TrimStart(s) == s && AfterSign(s) == s;
    DigitPrefixStops(ds, rest);
    NatToStringValue(n);
  }

  lemma {:induction false} DigitPrefixStops(ds: string, rest: string)
    requires AllDigits(ds)
    requires |rest| > 0 ==> !IsDigit(rest[0])
    ensures DigitPrefix(ds + rest) == ds
    decreases |ds|
  {
    if |ds| > 0 {
      DigitPrefixStops(ds[1..], rest);
      assert (ds + rest)[1..] == ds[1..] + rest;
      assert ds == [ds[0]] + ds[1..];
    } else {
      assert ds + rest == rest;
    }
  }
}
