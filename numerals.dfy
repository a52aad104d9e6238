/**
 * The two number/string conversions the tracker relies on when it keeps the
 * last-activity instant in string-only browser storage: JavaScript's
 * `Number.prototype.toString()` on an integer and `parseInt(s, 10)`.
 */
module Numerals {
  import opened Options

  predicate IsDigit(c: char) {
    '0' <= c <= '9'
  }

  function DigitChar(d: nat): (c: char)
    requires d < 10
    ensures IsDigit(c)
  {
    (d + '0' as int) as char
  }

  function DigitValue(c: char): (d: nat)
    requires IsDigit(c)
    ensures d < 10
  {
    c as int - '0' as int
  }

  /** The decimal digits of `n`, most significant first, without leading zeros. */
  function NatString(n: nat): (s: string)
    ensures s != []
    ensures forall k :: 0 <= k < |s| ==> IsDigit(s[k])
  {
    if n < 10 then [DigitChar(n)] else NatString(n / 10) + [DigitChar(n % 10)]
  }

  /** `n.toString()` for an integer-valued number: an optional minus sign and the decimal digits. */
  function DecimalString(n: int): (s: string)
    ensures s != []
    ensures s[0] == '-' <==> n < 0
    ensures forall k :: 1 <= k < |s| ==> IsDigit(s[k])
    ensures n >= 0 ==> IsDigit(s[0])
  {
    if n < 0 then "-" + NatString(-n) else NatString(n)
  }

  /**
   * The characters `parseInt` skips before the number: the ECMAScript
   * WhiteSpace and LineTerminator characters.
   */
  predicate IsJsWhitespace(c: char) {
    c == '\t' || c == '\n' || c == '\U{000B}' || c == '\U{000C}' || c == '\r' || c == ' '
    || c == '\U{00A0}' || c == '\U{1680}' || ('\U{2000}' <= c <= '\U{200A}')
    || c == '\U{2028}' || c == '\U{2029}' || c == '\U{202F}' || c == '\U{205F}'
    || c == '\U{3000}' || c == '\U{FEFF}'
  }

  function TrimStart(s: string): (r: string)
    ensures r == [] || !IsJsWhitespace(r[0])
  {
    if s != [] && IsJsWhitespace(s[0]) then TrimStart(s[1..]) else s
  }

  /** The longest prefix of `s` made of decimal digits. */
  function DigitPrefix(s: string): (r: string)
    ensures forall k :: 0 <= k < |r| ==> IsDigit(r[k])
  {
    if s != [] && IsDigit(s[0]) then [s[0]] + DigitPrefix(s[1..]) else []
  }

  /** The value of a string of decimal digits. */
  function DigitsValue(d: string): nat
    requires forall k :: 0 <= k < |d| ==> IsDigit(d[k])
  {
    if d == [] then 0 else DigitsValue(d[..|d| - 1]) * 10 + DigitValue(d[|d| - 1])
  }

  /**
   * `parseInt(s, 10)`: skip leading white space, read an optional sign, then
   * the longest run of decimal digits; `None` stands for NaN, the result when
   * that run is empty.
   */
  function ParseInt(s: string): (r: Option<int>)
    ensures TrimStart(s) == [] ==> r == None
    ensures s != [] && IsDigit(s[0]) ==> r.Some? && r.value >= 0
    ensures s != [] && s[0] == '-' && |s| > 1 && IsDigit(s[1]) ==> r.Some? && r.value <= 0
  {
    var t := TrimStart(s);
    var negative := t != [] && t[0] == '-';
    var body := if t != [] && (t[0] == '-' || t[0] == '+') then t[1..] else t;
    var digits := DigitPrefix(body);
    var magnitude: int := DigitsValue(digits);
    if digits == [] then None
    else if negative then Some(-magnitude)
    else Some(magnitude)
  }

  lemma {:induction false} DigitPrefixOfDigits(s: string)
    requires forall k :: 0 <= k < |s| ==> IsDigit(s[k])
    ensures DigitPrefix(s) == s
  {
    if s != [] {
      DigitPrefixOfDigits(s[1..]);
    }
  }

  lemma {:induction false} NatStringValue(n: nat)
    ensures DigitsValue(NatString(n)) == n
  {
    if n >= 10 {
      var s := NatString(n);
      NatStringValue(n / 10);
      assert s[..|s| - 1] == NatString(n / 10);
    }
  }

  /** What the tracker writes with `toString()` it reads back unchanged with `parseInt`. */
  lemma ParseDecimalString(n: int)
    ensures ParseInt(DecimalString(n)) == Some(n)
  {
    var s := DecimalString(n);
    var m: nat := if n < 0 then -n else n;
    var digits := NatString(m);
    assert TrimStart(s) == s;
    DigitPrefixOfDigits(digits);
    NatStringValue(m);
    if n < 0 {
      assert s[1..] == digits;
    }
  }

  /** Different integers have different decimal strings. */
  lemma DecimalStringInjective(m: int, n: int)
    requires DecimalString(m) == DecimalString(n)
    ensures m == n
  {
    ParseDecimalString(m);
    ParseDecimalString(n);
  }
}
