/**
 * The C library's decimal conversions the core relies on: printf's "%u"
 * and "%10d" for non-negative values, and the prefix parse that scanf's
 * "%d" and strtol(s, NULL, 10) perform (skip white space, optional sign,
 * longest run of digits). Overflow of the parsed value is not modelled:
 * the parse yields the mathematical integer.
 */
module Decimal {
  import opened Wrappers

  predicate IsDigit(c: char) {
    '0' <= c <= '9'
  }

  /** isspace() in the C locale: ' ', '\t', '\n', '\v', '\f', '\r'. */
  predicate IsSpace(c: char) {
    c == ' ' || '\t' <= c <= '\r'
  }

  predicate AllDigits(s: string) {
    forall i :: 0 <= i < |s| ==> IsDigit(s[i])
  }

  function DigitChar(d: nat): (c: char)
    requires d < 10
    ensures IsDigit(c)
  {
    ('0' as int + d) as char
  }

  function DigitValue(c: char): (d: nat)
    requires IsDigit(c)
    ensures d < 10
  {
    c as int - '0' as int
  }

  function Pow10(k: nat): (p: nat)
    ensures p >= 1
  {
    if k == 0 then 1 else 10 * Pow10(k - 1)
  }

  /** The digits printf's "%u" produces for n: no sign, no leading zeros. */
  function Digits(n: nat): (s: string)
    ensures |s| >= 1 && AllDigits(s)
    ensures |s| > 1 ==> s[0] != '0'
  {
    if n < 10 then [DigitChar(n)] else Digits(n / 10) + [DigitChar(n % 10)]
  }

  /** The number a run of decimal digits denotes. */
  function Value(s: string): nat
    requires AllDigits(s)
  {
    if s == [] then 0 else Value(s[..|s| - 1]) * 10 + DigitValue(s[|s| - 1])
  }

  function Spaces(k: nat): (s: string)
    ensures |s| == k && forall i :: 0 <= i < k ==> s[i] == ' '
  {
    seq(k, _ => ' ')
  }

  /** printf's field width: right-align s in a field of w characters. */
  function PadLeft(s: string, w: nat): (r: string)
    ensures |r| == if |s| < w then w else |s|
    ensures r[|r| - |s|..] == s
    ensures forall i :: 0 <= i < |r| - |s| ==> r[i] == ' '
  {
    if |s| < w then Spaces(w - |s|) + s else s
  }

  /** Length of the longest prefix of s made of digits. */
  function DigitRun(s: string): (k: nat)
    ensures k <= |s| && AllDigits(s[..k])
    ensures k < |s| ==> !IsDigit(s[k])
  {
    if |s| > 0 && IsDigit(s[0]) then 1 + DigitRun(s[1..]) else 0
  }

  /**
   * scanf's "%d" conversion on the text s: None when no digit follows the
   * leading white space and optional sign (the target is then left as it was).
   */
  function ScanInt(s: string): Option<int>
    decreases |s|
  {
    if |s| > 0 && IsSpace(s[0]) then ScanInt(s[1..]) else ScanSigned(s)
  }

  /** "%d" once the leading white space is skipped: an optional sign, then digits. */
  function ScanSigned(t: string): Option<int> {
    if |t| > 0 && t[0] == '-' then ScanDigits(t[1..], true)
    else if |t| > 0 && t[0] == '+' then ScanDigits(t[1..], false)
    else ScanDigits(t, false)
  }

  /** The leading run of digits of u, negated when `negative`; None without a digit. */
  function ScanDigits(u: string, negative: bool): Option<int> {
    var k := DigitRun(u);
    if k == 0 then None
    else
      var v: int := Value(u[..k]);
      Some(if negative then -v else v)
  }

  lemma {:induction false} ValueOfDigits(n: nat)
    ensures Value(Digits(n)) == n
  {
    if n >= 10 {
      var s := Digits(n);
      assert s[..|s| - 1] == Digits(n / 10);
      ValueOfDigits(n / 10);
    }
  }

  lemma {:induction false} DigitsLength(n: nat, k: nat)
    requires 1 <= k && n < Pow10(k)
    ensures |Digits(n)| <= k
  {
    if n >= 10 {
      DigitsLength(n / 10, k - 1);
    }
  }

  lemma {:induction false} DigitRunStops(ds: string, rest: string)
    requires AllDigits(ds)
    requires rest == [] || !IsDigit(rest[0])
    ensures DigitRun(ds + rest) == |ds|
  {
    if ds != [] {
      assert (ds + rest)[1..] == ds[1..] + rest;
      DigitRunStops(ds[1..], rest);
    }
  }

  /** Text made only of white space. */
  predicate AllSpaces(s: string) {
    forall i :: 0 <= i < |s| ==> IsSpace(s[i])
  }

  /** The optional sign "%d" and strtol accept in front of the digits. */
  predicate IsSign(s: string) {
    s == "" || s == "+" || s == "-"
  }

  /** White space in front of the text does not change what "%d" reads. */
  lemma {:induction false} ScanAfterWhiteSpace(ws: string, t: string)
    requires AllSpaces(ws)
    requires t == [] || !IsSpace(t[0])
    ensures ScanInt(ws + t) == ScanInt(t)
    decreases |ws|
  {
    if ws == [] {
      assert ws + t == t;
    } else {
      assert (ws + t)[0] == ws[0];
      assert (ws + t)[1..] == ws[1..] + t;
      ScanAfterWhiteSpace(ws[1..], t);
    }
  }

  /**
   * "%d" reads white space, an optional sign and the longest run of digits
   * after it: the value of those digits, negated after a '-'.
   */
  lemma ScanNumber(ws: string, sign: string, ds: string, rest: string)
    requires AllSpaces(ws) && IsSign(sign)
    requires ds != [] && AllDigits(ds)
    requires rest == [] || !IsDigit(rest[0])
    ensures var v: int := Value(ds);
      ScanInt(ws + sign + ds + rest) == Some(if sign == "-" then -v else v)
  {
    var t := sign + ds + rest;
    Regroup(ws, sign, ds, rest);
    SignedStartsClean(sign, ds, rest);
    ScanAfterWhiteSpace(ws, t);
    ScanSignedDigits(sign, ds, rest);
  }

  /** Regrouping the four pieces of a scanned number. */
  lemma Regroup(a: string, b: string, c: string, d: string)
    ensures a + b + c + d == a + (b + c + d)
  {
  }

  /** A number, signed or not, does not start with white space. */
  lemma SignedStartsClean(sign: string, ds: string, rest: string)
    requires IsSign(sign) && ds != [] && IsDigit(ds[0])
    ensures var t := sign + ds + rest; t != [] && !IsSpace(t[0])
  {
    var t := sign + ds + rest;
    if sign == "" {
      assert t[0] == ds[0];
    } else {
      assert t[0] == sign[0];
    }
  }

  /** The sign and digits part of ScanNumber, once the white space is skipped. */
  lemma ScanSignedDigits(sign: string, ds: string, rest: string)
    requires IsSign(sign)
    requires ds != [] && AllDigits(ds)
    requires rest == [] || !IsDigit(rest[0])
    ensures var v: int := Value(ds);
      ScanSigned(sign + ds + rest) == Some(if sign == "-" then -v else v)
  {
    var t := sign + ds + rest;
    var u := ds + rest;
    if sign == "" {
      assert t == u;
      ScanSignedUnsigned(t);
    } else {
      assert t[0] == sign[0] && t[1..] == u;
      ScanSignedAfterSign(t);
    }
    ScanDigitsOf(ds, rest, sign == "-");
  }

  /** Text that starts with a digit is read without a sign. */
  lemma ScanSignedUnsigned(u: string)
    requires u != [] && IsDigit(u[0])
    ensures ScanSigned(u) == ScanDigits(u, false)
  {
  }

  /** After a sign, the digits that follow are read, negated after '-'. */
  lemma ScanSignedAfterSign(t: string)
    requires |t| > 0 && (t[0] == '+' || t[0] == '-')
    ensures ScanSigned(t) == ScanDigits(t[1..], t[0] == '-')
  {
  }

  /** The digits before a non-digit are the run ScanDigits reads. */
  lemma ScanDigitsOf(ds: string, rest: string, negative: bool)
    requires ds != [] && AllDigits(ds)
    requires rest == [] || !IsDigit(rest[0])
    ensures var v: int := Value(ds);
      ScanDigits(ds + rest, negative) == Some(if negative then -v else v)
  {
    DigitRunStops(ds, rest);
    assert (ds + rest)[..|ds|] == ds;
  }

  /** With no digit after the white space and the optional sign, "%d" reads no number. */
  lemma ScanNoDigits(ws: string, sign: string, rest: string)
    requires AllSpaces(ws) && IsSign(sign)
    requires rest == [] || !IsDigit(rest[0])
    requires sign == "" && rest != [] ==> !IsSpace(rest[0]) && rest[0] != '+' && rest[0] != '-'
    ensures ScanInt(ws + sign + rest) == None
  {
    var t := sign + rest;
    assert ws + sign + rest == ws + t;
    ScanAfterWhiteSpace(ws, t);
    assert (if sign == "" then t else t[1..]) == rest;
  }

  /**
   * Reading back what "%u" printed, after any padding and before any
   * non-digit, gives the printed number.
   */
  lemma ScanPaddedDigits(k: nat, n: nat, rest: string)
    requires rest == [] || !IsDigit(rest[0])
    ensures ScanInt(Spaces(k) + Digits(n) + rest) == Some(n)
  {
    assert Spaces(k) + Digits(n) + rest == Spaces(k) + "" + Digits(n) + rest;
    ScanNumber(Spaces(k), "", Digits(n), rest);
    ValueOfDigits(n);
  }

  /** A single digit followed by a non-digit scans as that digit. */
  lemma ScanDigit(n: nat, rest: string)
    requires n < 10
    requires rest == [] || !IsDigit(rest[0])
    ensures ScanInt([DigitChar(n)] + rest) == Some(n)
  {
    assert Spaces(0) + Digits(n) + rest == [DigitChar(n)] + rest;
    ScanPaddedDigits(0, n, rest);
  }
}
