/**
 * The two JavaScript built-ins the scripts rely on for numbers in text:
 * `parseInt(s, 10)` and the conversion of an integral Number to a string
 * (template literals such as `NUM_REQUESTS=${n}`).
 */
module Js {
  import opened Wrappers

  /** StrWhiteSpaceChar of ECMAScript: the white space and line terminators `parseInt` skips first. */
  predicate IsStrWhiteSpace(c: char) {
    var u := c as int;
    || u == 0x09 || u == 0x0A || u == 0x0B || u == 0x0C || u == 0x0D || u == 0x20
    || u == 0xA0 || u == 0x1680 || (0x2000 <= u <= 0x200A) || u == 0x2028 || u == 0x2029
    || u == 0x202F || u == 0x205F || u == 0x3000 || u == 0xFEFF
  }

  predicate IsDecimalDigit(c: char) {
    '0' <= c <= '9'
  }

  predicate AllDigits(s: string) {
    forall i :: 0 <= i < |s| ==> IsDecimalDigit(s[i])
  }

  function DigitValue(c: char): (d: nat)
    requires IsDecimalDigit(c)
    ensures d < 10
  {
    (c as int) - ('0' as int)
  }

  function Digit(d: nat): (c: char)
    requires d < 10
    ensures IsDecimalDigit(c) && DigitValue(c) == d
  {
    ('0' as int + d) as char
  }

  /** `s` without its leading white space. */
  function TrimStart(s: string): (r: string)
    ensures |r| <= |s| && r == s[|s| - |r|..]
    ensures r == [] || !IsStrWhiteSpace(r[0])
    ensures forall i :: 0 <= i < |s| - |r| ==> IsStrWhiteSpace(s[i])
  {
    if |s| > 0 && IsStrWhiteSpace(s[0]) then TrimStart(s[1..]) else s
  }

  /** The longest prefix of `s` made of decimal digits. */
  function DigitPrefix(s: string): (r: string)
    ensures r <= s && AllDigits(r)
    ensures |r| == |s| || !IsDecimalDigit(s[|r|])
  {
    if |s| > 0 && IsDecimalDigit(s[0]) then [s[0]] + DigitPrefix(s[1..]) else []
  }

  /** The number a string of decimal digits denotes, most significant digit first. */
  function DigitsValue(ds: string): nat
    requires AllDigits(ds)
  {
    if ds == [] then 0 else 10 * DigitsValue(ds[..|ds| - 1]) + DigitValue(ds[|ds| - 1])
  }

  /** The digits at the start of `u`, read as a number; `None` (NaN) when `u` does not start with a digit. */
  function ParseDigits(u: string): (r: Option<nat>)
    ensures r.None? <==> (u == [] || !IsDecimalDigit(u[0]))
  {
    var ds := DigitPrefix(u);
    if ds == [] then None else Some(DigitsValue(ds))
  }

  /**
   * `parseInt(s, 10)`: skip leading white space, read an optional sign and then
   * as many decimal digits as follow; `None` is NaN (no digit at all).
   * Whatever follows the digits is ignored.
   */
  function ParseInt(s: string): Option<int> {
    var t := TrimStart(s);
    var negative := |t| > 0 && t[0] == '-';
    var unsigned := if |t| > 0 && (t[0] == '-' || t[0] == '+') then t[1..] else t;
    match ParseDigits(unsigned)
    case None => None
    case Some(m) => Some(if negative then -(m as int) else m)
  }

  /** The decimal numeral of `n`, without leading zeros. */
  function NatToString(n: nat): (r: string)
    ensures |r| > 0 && AllDigits(r)
    ensures r[0] == '0' ==> n == 0
  {
    if n < 10 then [Digit(n)] else NatToString(n / 10) + [Digit(n % 10)]
  }

  /** `String(n)` (or `${n}`) for an integral Number. */
  function IntToString(n: int): string {
    if n < 0 then "-" + NatToString(-n) else NatToString(n)
  }

  lemma {:induction false} NatToStringValue(n: nat)
    ensures DigitsValue(NatToString(n)) == n
  {
    var r := NatToString(n);
    if n >= 10 {
      NatToStringValue(n / 10);
      assert r[..|r| - 1] == NatToString(n / 10);
    }
  }

  lemma {:induction false} DigitPrefixOfDigits(ds: string, rest: string)
    requires AllDigits(ds)
    requires rest == [] || !IsDecimalDigit(rest[0])
    ensures DigitPrefix(ds + rest) == ds
  {
    if ds != [] {
      assert (ds + rest)[1..] == ds[1..] + rest;
      DigitPrefixOfDigits(ds[1..], rest);
    } else {
      assert ds + rest == rest;
    }
  }

  lemma TrimStartAtNonSpace(s: string)
    requires s != [] && !IsStrWhiteSpace(s[0])
    ensures TrimStart(s) == s
  {
  }

  /** A plain run of digits parses as the number it denotes. */
  lemma ParseIntOfDigits(s: string)
    requires s != [] && AllDigits(s)
    ensures ParseInt(s) == Some(DigitsValue(s))
  {
    ParseDigitsOfDigits(s);
    ParseIntUnsigned(s);
  }

  lemma ParseDigitsOfDigits(s: string)
    requires s != [] && AllDigits(s)
    ensures ParseDigits(s) == Some(DigitsValue(s))
  {
    DigitPrefixOfDigits(s, []);
    assert s + [] == s;
  }

  /** Text that starts with a digit has no white space or sign to skip: `parseInt` reads its digits. */
  lemma ParseIntUnsigned(s: string)
    requires s != [] && IsDecimalDigit(s[0])
    ensures ParseInt(s) == ParseDigits(s)
  {
    TrimStartAtNonSpace(s);
    var t := TrimStart(s);
    assert t == s;
    assert !(|t| > 0 && (t[0] == '-' || t[0] == '+'));
  }

  lemma {:induction false} ParseUnsignedNumeral(m: nat, rest: string)
    requires rest == [] || !IsDecimalDigit(rest[0])
    ensures ParseDigits(NatToString(m) + rest) == Some(m)
  {
    NatToStringValue(m);
    DigitPrefixOfDigits(NatToString(m), rest);
  }

  lemma ParseNonNegativeNumeral(n: nat, rest: string)
    requires rest == [] || !IsDecimalDigit(rest[0])
    ensures ParseInt(IntToString(n) + rest) == Some(n)
  {
    var s := IntToString(n) + rest;
    ParseUnsignedNumeral(n, rest);
    assert s == NatToString(n) + rest;
    assert IsDecimalDigit(s[0]);
    TrimStartAtNonSpace(s);
    assert s[0] != '-' && s[0] != '+';
  }

  lemma ParseNegativeNumeral(n: int, rest: string)
    requires n < 0
    requires rest == [] || !IsDecimalDigit(rest[0])
    ensures ParseInt(IntToString(n) + rest) == Some(n)
  {
    var u := NatToString(-n) + rest;
    NegativeNumeral(n, rest);
    ParseUnsignedNumeral(-n, rest);
    ParseMinusSign(IntToString(n) + rest, u, -n);
  }

  lemma NegativeNumeral(n: int, rest: string)
    requires n < 0
    ensures IntToString(n) + rest == "-" + (NatToString(-n) + rest)
  {
  }

  /** A leading minus sign negates the digits after it. */
  lemma ParseMinusSign(s: string, u: string, m: nat)
    requires s == "-" + u && ParseDigits(u) == Some(m)
    ensures ParseInt(s) == Some(-(m as int))
  {
    TrimStartAtNonSpace(s);
    assert s[1..] == u;
  }

  /**
   * `parseInt` reads back the numeral `String(n)` writes, whatever non-digit
   * text follows it.
   */
  lemma ParseIntOfIntToString(n: int, rest: string)
    requires rest == [] || !IsDecimalDigit(rest[0])
    ensures ParseInt(IntToString(n) + rest) == Some(n)
  {
    if n < 0 {
      ParseNegativeNumeral(n, rest);
    } else {
      ParseNonNegativeNumeral(n, rest);
    }
  }

  /** The round trip without trailing text. */
  lemma ParseIntRoundTrip(n: int)
    ensures ParseInt(IntToString(n)) == Some(n)
  {
    ParseIntOfIntToString(n, []);
    assert IntToString(n) + [] == IntToString(n);
  }
}
