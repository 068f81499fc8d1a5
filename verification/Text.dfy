/** Decimal numerals, and the shape of label names. */
module Text {

  /** The C locale's isdigit. */
  predicate IsDigit(c: char) {
    '0' <= c <= '9'
  }

  /** The C locale's isspace. */
  predicate IsSpace(c: char) {
    c == ' ' || 9 as char <= c <= 13 as char
  }

  function DigitChar(d: nat): (c: char)
    requires d < 10
    ensures IsDigit(c) && DigitValue(c) == d
  {
    ('0' as int + d) as char
  }

  function DigitValue(c: char): (d: nat)
    requires IsDigit(c)
    ensures d < 10
  {
    c as int - '0' as int
  }

  predicate AllDigits(s: string) {
    forall i :: 0 <= i < |s| ==> IsDigit(s[i])
  }

  /** What `%d` and PRId64 print for a number that is not negative. */
  function Decimal(n: nat): (s: string)
    ensures |s| >= 1 && AllDigits(s)
  {
    if n < 10 then [DigitChar(n)] else Decimal(n / 10) + [DigitChar(n % 10)]
  }

  /** What `%d` and PRId64 print. */
  function SignedDecimal(v: int): string {
    if v < 0 then "-" + Decimal(-v) else Decimal(v)
  }

  /** The number spelled by the digits at the end of a text, 0 when it ends in no digit. */
  function TrailingNumber(s: string): nat {
    if s == [] || !IsDigit(s[|s| - 1]) then 0
    else TrailingNumber(s[..|s| - 1]) * 10 + DigitValue(s[|s| - 1])
  }

  /** A text without the digits at its end. */
  function Stem(s: string): string {
    if s == [] || !IsDigit(s[|s| - 1]) then s else Stem(s[..|s| - 1])
  }

  predicate EndsInNonDigit(s: string) {
    s == [] || !IsDigit(s[|s| - 1])
  }

  /** A numeral written after a text that does not end in a digit can be read back, and so can the text. */
  lemma {:induction false} NumeralReadsBack(prefix: string, n: nat)
    requires EndsInNonDigit(prefix)
    ensures TrailingNumber(prefix + Decimal(n)) == n
    ensures Stem(prefix + Decimal(n)) == prefix
  {
    var s := prefix + Decimal(n);
    if n < 10 {
      assert s[..|s| - 1] == prefix;
    } else {
      assert s[..|s| - 1] == prefix + Decimal(n / 10);
      NumeralReadsBack(prefix, n / 10);
    }
  }

  /** Reading a numeral gives the number: atoi and atoll after printf. */
  lemma DecimalReadsBack(n: nat)
    ensures TrailingNumber(Decimal(n)) == n
  {
    NumeralReadsBack("", n);
    assert "" + Decimal(n) == Decimal(n);
  }
}
