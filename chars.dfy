/** Character classes and decimal digit strings, shared by the two description
    patterns (`\d`, `[0-9]`, `\s`) and by Python's `int()` and `str()` on integers. */
module Chars {

  /** `\d` and `[0-9]`, restricted to the ASCII digits. */
  predicate IsDigit(c: char) {
    '0' <= c <= '9'
  }

  /** `\s` in a `str` pattern: the characters `str.isspace` accepts. These are tab to carriage
      return, the four separators U+001C to U+001F, space, U+0085, the no-break space U+00A0,
      U+1680, the spaces U+2000 to U+200A, the line and paragraph separators U+2028 and U+2029,
      U+202F, U+205F and U+3000. */
  predicate IsSpace(c: char)
    ensures IsSpace(c) ==> !IsDigit(c) && c != '/' && c != '-'
  {
    var n := c as int;
    || 0x09 <= n <= 0x0D || 0x1C <= n <= 0x20 || n == 0x85 || n == 0xA0 || n == 0x1680
    || 0x2000 <= n <= 0x200A || n == 0x2028 || n == 0x2029 || n == 0x202F || n == 0x205F
    || n == 0x3000
  }

  predicate AllDigits(s: string) {
    forall i :: 0 <= i < |s| ==> IsDigit(s[i])
  }

  function DigitValue(c: char): (d: nat)
    requires IsDigit(c)
    ensures d < 10
  {
    c as int - '0' as int
  }

  function DigitChar(d: nat): (c: char)
    requires d < 10
    ensures IsDigit(c) && DigitValue(c) == d
  {
    ('0' as int + d) as char
  }

  /** The value of a run of decimal digits, most significant first. */
  function DigitsValue(s: string): (n: nat)
    requires AllDigits(s)
    ensures n < Pow10(|s|)
  {
    if s == [] then 0
    else DigitsValue(s[..|s| - 1]) * 10 + DigitValue(s[|s| - 1])
  }

  function Pow10(k: nat): (p: nat)
    ensures p >= 1
  {
    if k == 0 then 1 else 10 * Pow10(k - 1)
  }

  /** The decimal text of a natural number, without leading zeros (Python's `str(n)` for `n >= 0`). */
  function NatString(n: nat): (s: string)
    ensures s != [] && AllDigits(s)
    ensures |s| > 1 ==> s[0] != '0'
  {
    if n < 10 then [DigitChar(n)] else NatString(n / 10) + [DigitChar(n % 10)]
  }
}
