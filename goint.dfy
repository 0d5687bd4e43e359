/** Go's 64-bit `int` (main.go is built for 64-bit platforms): the range of
    the type and the two's-complement wrap-around of `+`. */
module GoInt {

  const MinInt64: int := -0x8000_0000_0000_0000
  const MaxInt64: int := 0x7FFF_FFFF_FFFF_FFFF
  const Modulus: int := 0x1_0000_0000_0000_0000

  predicate InInt64(x: int) {
    MinInt64 <= x <= MaxInt64
  }

  /** The int64 that `x` wraps to: `x` moved into range by whole multiples
      of 2^64. */
  function Wrap(x: int): (r: int)
    ensures InInt64(r)
    ensures InInt64(x) ==> r == x
    decreases if x < MinInt64 then MinInt64 - x else if x > MaxInt64 then x - MaxInt64 else 0
  {
    if x < MinInt64 then Wrap(x + Modulus)
    else if x > MaxInt64 then Wrap(x - Modulus)
    else x
  }

  /** Wrapping is reduction modulo 2^64 into the int64 range. */
  lemma {:induction false} WrapIsMod(x: int)
    ensures Wrap(x) == (x - MinInt64) % Modulus + MinInt64
    decreases if x < MinInt64 then MinInt64 - x else if x > MaxInt64 then x - MaxInt64 else 0
  {
    if x < MinInt64 {
      WrapIsMod(x + Modulus);
      ModShift(x - MinInt64);
      assert x + Modulus - MinInt64 == (x - MinInt64) + Modulus;
    } else if x > MaxInt64 {
      WrapIsMod(x - Modulus);
      ModShift(x - Modulus - MinInt64);
      assert x - Modulus - MinInt64 + Modulus == x - MinInt64;
    }
  }

  lemma ModShift(a: int)
    ensures (a + Modulus) % Modulus == a % Modulus
  {
    var q, r := a / Modulus, a % Modulus;
    assert a == q * Modulus + r && 0 <= r < Modulus;
    assert a + Modulus == (q + 1) * Modulus + r;
  }

  /** Two integers congruent modulo 2^64 wrap to the same int64. */
  lemma WrapCongruent(x: int, y: int)
    requires (x - y) % Modulus == 0
    ensures Wrap(x) == Wrap(y)
  {
    WrapIsMod(x);
    WrapIsMod(y);
    var k := (x - y) / Modulus;
    assert x - y == Modulus * k;
    var qx := (x - MinInt64) / Modulus;
    var qy := (y - MinInt64) / Modulus;
    var d := Wrap(x) - Wrap(y);
    assert d == Modulus * (k - qx + qy);
    assert -Modulus < d < Modulus;
  }

  /** Go's `a + b` on int: the mathematical sum wrapped, so a running total
      kept in an int equals the wrapped mathematical total. */
  lemma WrapAdd(x: int, y: int)
    ensures Wrap(Wrap(x) + y) == Wrap(x + y)
  {
    WrapIsMod(x);
    WrapCongruent(Wrap(x) + y, x + y);
  }

  /** Adding two ints that each hold a wrapped total wraps the exact sum. */
  lemma WrapAddBoth(x: int, y: int)
    ensures Wrap(Wrap(x) + Wrap(y)) == Wrap(x + y)
  {
    WrapAdd(y, Wrap(x));
    WrapAdd(x, y);
  }
}
