/** Unsigned 32-bit words, as the source's `u32` typedef (rr.c:12). */
module U32 {

  /** 2^32: every u32 value is a residue modulo this. */
  const MODULUS: nat := 0x1_0000_0000

  /** The value a u32 variable holds after storing the mathematical integer `x`. */
  function Wrap(x: int): (r: nat)
    ensures r < MODULUS
    ensures 0 <= x < MODULUS ==> r == x
  {
    x % MODULUS
  }

  /** Residues are unique: if x = k*2^32 + r with r in range, r is x's residue. */
  lemma WrapUnique(x: int, k: int, r: int)
    requires 0 <= r < MODULUS && x == k * MODULUS + r
    ensures Wrap(x) == r
  {
    var q := x / MODULUS;
    assert x == q * MODULUS + Wrap(x);
    assert (q - k) * MODULUS == r - Wrap(x);
  }

  /** Wrapping ignores multiples of 2^32. */
  lemma WrapCongruent(x: int, y: int, k: int)
    requires x == k * MODULUS + y
    ensures Wrap(x) == Wrap(y)
  {
    var q := y / MODULUS;
    assert y == q * MODULUS + Wrap(y);
    assert x == (k + q) * MODULUS + Wrap(y);
    WrapUnique(x, k + q, Wrap(y));
  }

  /** Multiplying by 10 and adding a digit commutes with wrapping, so an accumulator
      kept in a u32 holds the wrapped value of the exact accumulation. */
  lemma WrapShiftAdd(x: int, d: int)
    ensures Wrap(Wrap(x) * 10 + d) == Wrap(x * 10 + d)
  {
    var q := x / MODULUS;
    assert x == q * MODULUS + Wrap(x);
    assert x * 10 + d == (q * 10) * MODULUS + (Wrap(x) * 10 + d);
    WrapCongruent(x * 10 + d, Wrap(x) * 10 + d, q * 10);
  }

  /** Adding to a wrapped accumulator is the same as wrapping the exact sum. */
  lemma WrapAdd(x: int, y: int)
    ensures Wrap(Wrap(x) + y) == Wrap(x + y)
  {
    var q := x / MODULUS;
    assert x == q * MODULUS + Wrap(x);
    WrapCongruent(x + y, Wrap(x) + y, q);
  }
}
