/**
 * The two number/string conversions the game rules rely on:
 * ECMAScript `parseInt(s)` without a radix (used for essay marks and for the
 * Mains answer count) and the decimal rendering of a natural number inside a
 * template literal (used for the "year-month" token and for fresh ids).
 */
module JsNumbers {
  import opened Wrappers

  /** The characters `parseInt` skips before the number (StrWhiteSpaceChar). */
  predicate IsJsWhitespace(c: char) {
    c == '\t' || c == '\n' || c == '\U{B}' || c == '\U{C}' || c == '\r' || c == ' '
    || c == '\U{A0}' || c == '\U{1680}' || ('\U{2000}' <= c <= '\U{200A}')
    || c == '\U{2028}' || c == '\U{2029}' || c == '\U{202F}' || c == '\U{205F}'
    || c == '\U{3000}' || c == '\U{FEFF}'
  }

  /** Drops leading whitespace. */
  function TrimStart(s: string): (r: string)
    ensures |r| <= |s| && r == s[|s| - |r|..]
    ensures r == [] || !IsJsWhitespace(r[0])
    ensures forall i :: 0 <= i < |s| - |r| ==> IsJsWhitespace(s[i])
  {
    if s != [] && IsJsWhitespace(s[0]) then TrimStart(s[1..]) else s
  }

  /** The value of a character read as a base-36 digit (0 for anything that is not one). */
  function DigitValue(c: char): nat {
    if '0' <= c <= '9' then (c as int) - ('0' as int)
    else if 'a' <= c <= 'z' then (c as int) - ('a' as int) + 10
    else if 'A' <= c <= 'Z' then (c as int) - ('A' as int) + 10
    else 0
  }

  predicate IsDigit(c: char, radix: nat) {
    ('0' <= c <= '9' || 'a' <= c <= 'z' || 'A' <= c <= 'Z') && DigitValue(c) < radix
  }

  /** Length of the longest prefix of `s` made of digits in `radix`. */
  function DigitPrefix(s: string, radix: nat): (n: nat)
    ensures n <= |s|
    ensures forall i :: 0 <= i < n ==> IsDigit(s[i], radix)
    ensures n < |s| ==> !IsDigit(s[n], radix)
  {
    if s != [] && IsDigit(s[0], radix) then 1 + DigitPrefix(s[1..], radix) else 0
  }

  /** Positional value of a digit string, most significant digit first. */
  function DigitsValue(ds: string, radix: nat): nat {
    if ds == [] then 0 else DigitsValue(ds[..|ds| - 1], radix) * radix + DigitValue(ds[|ds| - 1])
  }

  /**
   * `parseInt(s)` with no radix argument: skip leading whitespace, read an
   * optional sign, read a `0x`/`0X` prefix as base 16 (base 10 otherwise),
   * then the longest run of digits; `None` is `NaN` (no digit at all).
   */
  function ParseInt(s: string): (r: Option<int>)
    ensures TrimStart(s) == [] ==> r.None?
    ensures r.Some? && r.value < 0 ==> TrimStart(s)[0] == '-'
    ensures var t := TrimStart(s);
            t != [] && '0' <= t[0] <= '9' && !(|t| >= 2 && (t[1] == 'x' || t[1] == 'X')) ==> r.Some? && r.value >= 0
  {
    var t := TrimStart(s);
    if t != [] && t[0] == '-' then
      match ParseUnsigned(t[1..])
      case None => None
      case Some(v) => Some(-v)
    else if t != [] && t[0] == '+' then ParseUnsigned(t[1..])
    else ParseUnsigned(t)
  }

  /** The part of `parseInt` after the sign: radix prefix and digits. */
  function ParseUnsigned(u: string): (r: Option<int>)
    ensures r.Some? ==> r.value >= 0
  {
    if |u| >= 2 && u[0] == '0' && (u[1] == 'x' || u[1] == 'X') then ParseDigits(u[2..], 16)
    else ParseDigits(u, 10)
  }

  /** The value of the longest digit prefix of `v`, `None` when there is no digit. */
  function ParseDigits(v: string, radix: nat): (r: Option<int>)
    ensures r.Some? ==> r.value >= 0
    ensures r.Some? <==> v != [] && IsDigit(v[0], radix)
  {
    var n := DigitPrefix(v, radix);
    if n == 0 then None else Some(DigitsValue(v[..n], radix))
  }

  function DigitChar(d: nat): (c: char)
    requires d < 10
    ensures '0' <= c <= '9' && DigitValue(c) == d
  {
    (('0' as int) + d) as char
  }

  /** `${n}` for a natural number: its decimal digits without leading zeros. */
  function NatToString(n: nat): (s: string)
    ensures |s| >= 1
    ensures forall i :: 0 <= i < |s| ==> '0' <= s[i] <= '9'
    ensures s[0] == '0' ==> n == 0 && s == "0"
  {
    if n < 10 then [DigitChar(n)] else NatToString(n / 10) + [DigitChar(n % 10)]
  }

  /** Reading the decimal rendering back gives the number. */
  lemma {:induction false} DigitsOfNatToString(n: nat)
    ensures DigitsValue(NatToString(n), 10) == n
  {
    if n >= 10 {
      var s := NatToString(n / 10) + [DigitChar(n % 10)];
      assert s[..|s| - 1] == NatToString(n / 10);
      DigitsOfNatToString(n / 10);
    }
  }

  /** Different numbers render differently. */
  lemma NatToStringInjective(a: nat, b: nat)
    ensures NatToString(a) == NatToString(b) ==> a == b
  {
    DigitsOfNatToString(a);
    DigitsOfNatToString(b);
  }

  /** A string made only of digits is its own longest digit prefix. */
  lemma {:induction false} DigitPrefixAll(s: string, radix: nat)
    requires forall i :: 0 <= i < |s| ==> IsDigit(s[i], radix)
    ensures DigitPrefix(s, radix) == |s|
  {
    if s != [] {
      DigitPrefixAll(s[1..], radix);
    }
  }

  /** A string that starts with a decimal digit has no leading whitespace to trim. */
  lemma DigitLeadNotTrimmed(s: string)
    requires s != [] && '0' <= s[0] <= '9'
    ensures TrimStart(s) == s
  {
    assert !IsJsWhitespace(s[0]);
  }

  /** A non-empty string made only of digits is read whole. */
  lemma ParseDigitsAll(s: string, radix: nat)
    requires s != [] && forall i :: 0 <= i < |s| ==> IsDigit(s[i], radix)
    ensures ParseDigits(s, radix) == Some(DigitsValue(s, radix))
  {
    DigitPrefixAll(s, radix);
    assert s[..|s|] == s;
  }

  /** A non-empty run of decimal digits is read by `parseInt` as that decimal number. */
  lemma ParseIntOfDecimal(s: string)
    requires s != [] && forall i :: 0 <= i < |s| ==> '0' <= s[i] <= '9'
    ensures ParseInt(s) == Some(DigitsValue(s, 10))
  {
    DigitLeadNotTrimmed(s);
    assert |s| >= 2 ==> s[1] != 'x' && s[1] != 'X';
    assert ParseInt(s) == ParseDigits(s, 10);
    forall i | 0 <= i < |s| ensures IsDigit(s[i], 10) {
      assert '0' <= s[i] <= '9';
    }
    ParseDigitsAll(s, 10);
  }

  /** `parseInt` reads a rendered natural number back exactly. */
  lemma ParseIntOfNatToString(n: nat)
    ensures ParseInt(NatToString(n)) == Some(n)
  {
    ParseIntOfDecimal(NatToString(n));
    DigitsOfNatToString(n);
  }
}
