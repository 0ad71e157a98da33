/** Signed 32-bit integers as JavaScript's bitwise operators produce them:
    every operand is first converted with ToInt32, which reduces modulo 2^32
    into the range [-2^31, 2^31). */
module Int32 {

  const Two32: int := 0x1_0000_0000
  const Two31: int := 0x8000_0000

  predicate InRange(x: int) {
    -Two31 <= x < Two31
  }

  /** ToInt32: the unique value in [-2^31, 2^31) congruent to x modulo 2^32. */
  function Wrap(x: int): (r: int)
    ensures InRange(r)
    ensures (r - x) % Two32 == 0
  {
    (x + Two31) % Two32 - Two31
  }

  /** `h << 5` on a value: ToInt32 of the operand shifted left by five bits. */
  function ShiftLeft5(h: int): (r: int)
    ensures InRange(r)
    ensures (r - 32 * h) % Two32 == 0
  {
    Wrap(h * 32)
  }

  /** Two values congruent modulo 2^32 wrap to the same 32-bit value. */
  lemma WrapCongruent(x: int, y: int)
    requires (x - y) % Two32 == 0
    ensures Wrap(x) == Wrap(y)
  {
    var k := (x - y) / Two32;
    assert x == y + k * Two32;
    assert (x + Two31) % Two32 == (y + Two31 + k * Two32) % Two32;
    ModAddMultiple(y + Two31, k);
  }

  lemma ModAddMultiple(a: int, k: int)
    ensures (a + k * Two32) % Two32 == a % Two32
  {
  }

  /** A value already in range is left alone by ToInt32 (this is why the
      source's `hash & hash` is a no-op once `hash` is a 32-bit value). */
  lemma WrapIdentity(x: int)
    requires InRange(x)
    ensures Wrap(x) == x
  {
  }
}
