/**
 * The machine arithmetic the monitor relies on: 32-bit `int` and
 * `unsigned int` conversions and C's truncating integer division.
 */
module Integers {

  const TwoTo31: int := 0x8000_0000
  const TwoTo32: int := 0x1_0000_0000

  predicate InInt32(x: int) {
    -TwoTo31 <= x < TwoTo31
  }

  predicate InUint32(x: int) {
    0 <= x < TwoTo32
  }

  /**
   * Conversion of an integer value into a 32-bit two's-complement `int`
   * (what storing an `unsigned int` or a wider quotient into an `int` field
   * does on the platforms the program targets).
   */
  function Int32Of(x: int): (r: int)
    ensures InInt32(r)
    ensures (x - r) % TwoTo32 == 0
    ensures InInt32(x) ==> r == x
  {
    var w := x % TwoTo32;
    if w >= TwoTo31 then w - TwoTo32 else w
  }

  /** Conversion of an integer value into a 32-bit `unsigned int`: reduction modulo 2^32. */
  function Uint32Of(x: int): (r: int)
    ensures InUint32(r)
    ensures (x - r) % TwoTo32 == 0
    ensures InUint32(x) ==> r == x
  {
    x % TwoTo32
  }

  /** C's `/` on integers: the quotient truncated toward zero. */
  function CDiv(a: int, b: int): (q: int)
    requires b > 0
    ensures a >= 0 ==> 0 <= q && q * b <= a < q * b + b
    ensures a < 0 ==> q <= 0 && a <= q * b < a + b
  {
    if a >= 0 then
      DivBounds(a, b);
      a / b
    else
      DivBounds(-a, b);
      NegateProduct((-a) / b, b);
      -((-a) / b)
  }

  lemma DivBounds(n: int, b: int)
    requires n >= 0 && b > 0
    ensures 0 <= n / b && (n / b) * b <= n < (n / b) * b + b
  {
    assert n == (n / b) * b + n % b;
  }

  /** A quotient stays below `bound` when the dividend is below `bound * b`. */
  lemma DivBelow(n: int, b: int, bound: int)
    requires b > 0 && 0 <= n < bound * b
    ensures n / b < bound
  {
    DivBounds(n, b);
  }

  lemma NegateProduct(t: int, b: int)
    ensures (-t) * b == -(t * b)
  {
  }

  /** A negative `int` handed to an `unsigned int` parameter arrives as a value of 2^31 or more. */
  lemma NegativeBecomesLarge(x: int)
    requires InInt32(x) && x < 0
    ensures Uint32Of(x) == x + TwoTo32
    ensures Uint32Of(x) >= TwoTo31
  {
  }
}
