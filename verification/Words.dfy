/** The values OrtaVM computes with, and their arithmetic. */
module Words {

  const INT_MIN: int := -0x8000_0000
  const INT_MAX: int := 0x7FFF_FFFF

  type Int32 = x: int | -0x8000_0000 <= x <= 0x7FFF_FFFF

  /** A word on the stack or in a variable: WINT, WCHARP, or the null WPOINTER that an empty stack
      gives and that an unset variable holds. The other word types are not part of this model. */
  datatype Word = Int(i: Int32) | Str(s: string) | Null

  /** Two's complement reduction to 32 bits. */
  function Wrap(x: int): (r: Int32)
    ensures (r - x) % 0x1_0000_0000 == 0
    ensures INT_MIN <= x <= INT_MAX ==> r == x
  {
    var m := x % 0x1_0000_0000;
    if m > 0x7FFF_FFFF then m - 0x1_0000_0000 else m
  }

  function Magnitude(x: int): nat {
    if x < 0 then -x else x
  }

  /** C division: toward zero. */
  function Quotient(a: int, b: int): int
    requires b != 0
  {
    var q := Magnitude(a) / Magnitude(b);
    if (a < 0) == (b < 0) then q else -q
  }

  /** C remainder: it has the sign of the dividend. */
  function Remainder(a: int, b: int): int
    requires b != 0
  {
    var r := Magnitude(a) % Magnitude(b);
    if a < 0 then -r else r
  }

  /** Division truncates: the remainder is smaller than the divisor and has the dividend's sign. */
  lemma DivisionTruncates(a: int, b: int)
    requires b != 0
    ensures a == Quotient(a, b) * b + Remainder(a, b)
    ensures Magnitude(Remainder(a, b)) < Magnitude(b)
    ensures Remainder(a, b) == 0 || (Remainder(a, b) < 0 <==> a < 0)
  {
    var m: int, d: int := Magnitude(a), Magnitude(b);
    var q := m / d;
    assert m == q * d + m % d;
    assert (-q) * (-d) == q * d && (-q) * d == -(q * d) && q * (-d) == -(q * d);
  }

  lemma ProductGrows(q: int, d: int, k: int)
    requires q >= 0 && d >= k
    ensures q * d >= q * k
  {
    assert q * (d - k) >= 0;
  }

  lemma DivBound(m: int, d: int)
    requires m >= 0 && d > 0
    ensures 0 <= m / d <= m
    ensures d >= 2 ==> 2 * (m / d) <= m
  {
    var q := m / d;
    assert m == q * d + m % d;
    ProductGrows(q, d, if d >= 2 then 2 else 1);
  }

  /** Among 32-bit operands only INT_MIN / -1 leaves the 32-bit range. */
  lemma QuotientFits(a: int, b: int)
    requires INT_MIN <= a <= INT_MAX && INT_MIN <= b <= INT_MAX && b != 0
    ensures INT_MIN <= Quotient(a, b) <= INT_MAX <==> !(a == INT_MIN && b == -1)
  {
    DivBound(Magnitude(a), Magnitude(b));
  }
}
