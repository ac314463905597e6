/**
 * Decimal text as the games use it: numbers are printed into problem texts and
 * result details with template literals, and the arithmetic game reads the
 * player's answer back with JavaScript's `parseInt`.
 */
module Text {
  import opened Wrappers

  predicate IsDigit(c: char) {
    '0' <= c <= '9'
  }

  predicate AllDigits(s: string) {
    forall i :: 0 <= i < |s| ==> IsDigit(s[i])
  }

  function DigitValue(c: char): (d: nat)
    requires IsDigit(c)
    ensures d < 10
  {
    (c as int) - ('0' as int)
  }

  function DigitChar(d: nat): (c: char)
    requires d < 10
    ensures IsDigit(c) && DigitValue(c) == d
  {
    (('0' as int) + d) as char
  }

  /** How a template literal prints a non-negative integer: decimal, no leading zero. */
  function NatToString(n: nat): (s: string)
    ensures |s| > 0 && AllDigits(s)
    ensures s[0] == '0' <==> n == 0
    ensures n == 0 ==> s == "0"
    decreases n
  {
    if n < 10 then [DigitChar(n)] else NatToString(n / 10) + [DigitChar(n % 10)]
  }

  /** The value of a string of decimal digits, most significant first. */
  function DigitsValue(s: string): nat
    requires AllDigits(s)
  {
    if |s| == 0 then 0 else DigitsValue(s[..|s| - 1]) * 10 + DigitValue(s[|s| - 1])
  }

  /** The length of the longest run of digits at the start of `s`. */
  function DigitPrefixLen(s: string): (k: nat)
    ensures k <= |s|
    ensures AllDigits(s[..k])
    ensures k < |s| ==> !IsDigit(s[k])
  {
    if |s| > 0 && IsDigit(s[0]) then 1 + DigitPrefixLen(s[1..]) else 0
  }

  /** The white space `parseInt` skips before the number (the ASCII part of it). */
  predicate IsSpace(c: char) {
    c == ' ' || c == '\t' || c == '\n' || c == '\r' || c == '\U{000B}' || c == '\U{000C}'
  }

  function TrimStart(s: string): (t: string)
    ensures |t| <= |s| && t == s[|s| - |t|..]
    ensures forall i :: 0 <= i < |s| - |t| ==> IsSpace(s[i])
    ensures |t| > 0 ==> !IsSpace(t[0])
  {
    if |s| > 0 && IsSpace(s[0]) then TrimStart(s[1..]) else s
  }

  predicate HasSign(t: string) {
    |t| > 0 && (t[0] == '-' || t[0] == '+')
  }

  /** `t` without the one sign character `parseInt` accepts in front of the digits. */
  function Unsigned(t: string): string {
    if HasSign(t) then t[1..] else t
  }

  /** An optional sign, then the longest run of digits; `None` when there is no digit. */
  function ParseSigned(t: string): (r: Option<int>)
    ensures r.None? <==> DigitPrefixLen(Unsigned(t)) == 0
    ensures r.Some? && r.value < 0 ==> t[0] == '-'
  {
    var u := Unsigned(t);
    var k := DigitPrefixLen(u);
    if k == 0 then None
    else
      var v: int := DigitsValue(u[..k]);
      Some(if HasSign(t) && t[0] == '-' then -v else v)
  }

  /**
   * JavaScript's `parseInt(s)` with no radix, for decimal text: skip leading
   * white space, take an optional sign, then the longest run of digits; the
   * rest of the string is ignored. `None` stands for `NaN` (no digit at all).
   */
  function ParseInt(s: string): (r: Option<int>)
    ensures r.None? <==> DigitPrefixLen(Unsigned(TrimStart(s))) == 0
    ensures r.Some? && r.value < 0 ==> TrimStart(s)[0] == '-'
  {
    ParseSigned(TrimStart(s))
  }

  lemma {:induction false} DigitsValueOfNat(n: nat)
    ensures DigitsValue(NatToString(n)) == n
    decreases n
  {
    var s := NatToString(n);
    if n >= 10 {
      var p := NatToString(n / 10);
      assert s == p + [DigitChar(n % 10)];
      assert s[..|s| - 1] == p;
      DigitsValueOfNat(n / 10);
    }
  }

  /** A run of digits followed by a non-digit (or nothing) is read up to its end. */
  lemma {:induction false} DigitPrefixLenOfDigits(d: string, tail: string)
    requires AllDigits(d)
    requires |tail| > 0 ==> !IsDigit(tail[0])
    ensures DigitPrefixLen(d + tail) == |d|
    decreases |d|
  {
    if |d| > 0 {
      assert (d + tail)[1..] == d[1..] + tail;
      DigitPrefixLenOfDigits(d[1..], tail);
    } else {
      assert d + tail == tail;
    }
  }

  /**
   * `parseInt` reads back a printed natural, whatever non-digit text follows
   * it (so "12.5" gives 12 and "12問正解" gives 12).
   */
  lemma ParseIntOfNat(n: nat, tail: string)
    requires |tail| > 0 ==> !IsDigit(tail[0])
    ensures ParseInt(NatToString(n) + tail) == Some(n)
  {
    var d := NatToString(n);
    var s := d + tail;
    assert s[0] == d[0];
    assert TrimStart(s) == s;
    assert Unsigned(s) == s;
    DigitPrefixLenOfDigits(d, tail);
    assert s[..|d|] == d;
    DigitsValueOfNat(n);
  }

  /** A minus sign in front of a printed natural gives its negation. */
  lemma ParseIntOfNegated(n: nat)
    ensures ParseInt("-" + NatToString(n)) == Some(-(n as int))
  {
    var d := NatToString(n);
    var s := "-" + d;
    assert TrimStart(s) == s;
    assert Unsigned(s) == d;
    DigitPrefixLenOfDigits(d, "");
    assert d + "" == d;
    assert d[..|d|] == d;
    DigitsValueOfNat(n);
  }

  /** Leading white space does not change what `parseInt` reads. */
  lemma {:induction false} ParseIntSkipsSpace(c: char, s: string)
    requires IsSpace(c)
    ensures ParseInt([c] + s) == ParseInt(s)
  {
    assert ([c] + s)[1..] == s;
    assert TrimStart([c] + s) == TrimStart(s);
  }
}
