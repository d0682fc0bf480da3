/** Go's 64-bit signed integers, which wrap around silently. */
module Int64 {
  const MAX: int := 0x7FFF_FFFF_FFFF_FFFF
  const MIN: int := -0x8000_0000_0000_0000
  const MODULUS: int := 0x1_0000_0000_0000_0000

  predicate InRange(x: int) { MIN <= x <= MAX }

  /** The value a 64-bit register holds after an operation whose exact result is `x`. */
  function Wrap(x: int): (r: int)
    ensures InRange(r)
    ensures InRange(x) ==> r == x
    decreases if x > MAX then x - MAX else if x < MIN then MIN - x else 0
  {
    if x > MAX then Wrap(x - MODULUS)
    else if x < MIN then Wrap(x + MODULUS)
    else x
  }

  /** Wrapping shifts by a multiple of 2^64. */
  lemma {:induction false} WrapShifts(x: int) returns (k: int)
    ensures Wrap(x) == x + k * MODULUS
    decreases if x > MAX then x - MAX else if x < MIN then MIN - x else 0
  {
    if x > MAX {
      k := WrapShifts(x - MODULUS);
      k := k - 1;
    } else if x < MIN {
      k := WrapShifts(x + MODULUS);
      k := k + 1;
    } else {
      k := 0;
    }
  }

  /** Only one value in range is that far away. */
  lemma WrapCongruent(x: int, k: int)
    requires InRange(x + k * MODULUS)
    ensures Wrap(x) == x + k * MODULUS
  {
    var j := WrapShifts(x);
  }

  /** Wrapping early or late makes no difference to a sum. */
  lemma WrapAdd(a: int, b: int)
    ensures Wrap(Wrap(a) + b) == Wrap(a + b)
  {
    var j := WrapShifts(a);
    var k := WrapShifts(Wrap(a) + b);
    WrapCongruent(a + b, j + k);
  }
}
