/** Aligning an address with a mask, as C does it. */
module Masks {
  import opened Bytes

  /** `x & ~m`, bit by bit. */
  function AndNot(x: nat, m: nat): (r: nat)
    ensures r <= x <= r + m
  {
    if x == 0 then 0 else 2 * AndNot(x / 2, m / 2) + if m % 2 == 0 then x % 2 else 0
  }

  predicate IsMultiple(x: nat, unit: nat)
    requires unit > 0
  {
    x % unit == 0
  }

  predicate IsPowerOfTwo(n: nat) {
    n == 1 || (n > 0 && n % 2 == 0 && IsPowerOfTwo(n / 2))
  }

  /** `(x + (alignment - 1)) & ~(alignment - 1)`. */
  function Aligned(x: nat, alignment: nat): (r: nat)
    requires alignment > 0
    ensures x <= r < x + alignment
  {
    AndNot(x + alignment - 1, alignment - 1)
  }

  /** How far that is from the address. */
  function Padding(x: nat, alignment: nat): (p: nat)
    requires alignment > 0
    ensures p < alignment && x + p == Aligned(x, alignment)
  {
    Aligned(x, alignment) - x
  }

  /** With a power of two the mask clears the remainder. */
  lemma {:induction false} MaskClears(x: nat, unit: nat)
    requires IsPowerOfTwo(unit)
    ensures AndNot(x, unit - 1) == x / unit * unit
    decreases unit
  {
    if unit == 1 {
      NothingCleared(x);
    } else {
      MaskClears(x / 2, unit / 2);
      OneBitLess(x, unit);
      hide *;
      Quotients(x, x / 2, unit / 2, unit);
    }
  }

  lemma {:induction false} NothingCleared(x: nat)
    ensures AndNot(x, 0) == x
  {
    if x > 0 {
      NothingCleared(x / 2);
    }
  }

  lemma OneBitLess(x: nat, unit: nat)
    requires unit > 1 && unit % 2 == 0
    ensures AndNot(x, unit - 1) == 2 * AndNot(x / 2, unit / 2 - 1)
  {
    assert (unit - 1) / 2 == unit / 2 - 1 && (unit - 1) % 2 == 1;
  }

  lemma Quotients(x: nat, h: nat, u: nat, unit: nat)
    requires u > 0 && h == x / 2 && unit == 2 * u
    ensures 2 * (h / u * u) == x / unit * unit
  {
    var q, r := h / u, h % u;
    assert h == u * q + r;
    assert 2 * (u * q) == unit * q;
    Uniquely(x, unit, q, 2 * r + x % 2);
  }

  /** So the address it gives is a multiple, the next one. */
  lemma AlignedIsMultiple(x: nat, alignment: nat)
    requires IsPowerOfTwo(alignment)
    ensures IsMultiple(Aligned(x, alignment), alignment)
  {
    var q := (x + alignment - 1) / alignment;
    MaskClears(x + alignment - 1, alignment);
    hide AndNot, IsPowerOfTwo;
    Uniquely(q * alignment, alignment, q, 0);
  }

  /** With another number it need not be: 3 asks for a multiple of 3 and gets 5. */
  lemma OtherAlignments()
    ensures Aligned(5, 3) == 5
  {
  }

  /** Powers of two up to 16 divide 16, and larger ones are multiples of it; so with 8. */
  lemma PowersByWords(n: nat)
    requires IsPowerOfTwo(n)
    ensures n < 16 ==> n in {1, 2, 4, 8}
    ensures n >= 16 ==> IsMultiple(n, 16)
  {
    assert n > 0;
    hide IsPowerOfTwo;
    if n > 1 {
      HalfOf(n);
      if n / 2 > 1 {
        HalfOf(n / 2);
        if n / 2 / 2 > 1 {
          HalfOf(n / 2 / 2);
          if n / 2 / 2 / 2 > 1 { HalfOf(n / 2 / 2 / 2); }
        }
      }
    }
  }

  lemma HalfOf(n: nat)
    requires IsPowerOfTwo(n) && n > 1
    ensures IsPowerOfTwo(n / 2) && n == 2 * (n / 2) && n / 2 > 0
  {
  }
}
