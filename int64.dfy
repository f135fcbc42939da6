/** Go's two's-complement `int64` (and so `time.Duration`): arithmetic that
    overflows keeps the result modulo 2^64. */
module Int64 {

  const Modulus: int := 0x1_0000_0000_0000_0000
  const MinInt64: int := -0x8000_0000_0000_0000
  const MaxInt64: int := 0x7fff_ffff_ffff_ffff
  const MaxUint64: int := 0xffff_ffff_ffff_ffff

  predicate InRange(x: int) {
    MinInt64 <= x <= MaxInt64
  }

  /** The int64 congruent to `x` modulo 2^64: what a Go int64 keeps of `x`. */
  function Wrap(x: int): (r: int)
    ensures InRange(r)
    ensures InRange(x) ==> r == x
  {
    (x - MinInt64) % Modulus + MinInt64
  }

  /** Go's `a * b` on two int64 operands. */
  function Mul(a: int, b: int): (r: int)
    requires InRange(a) && InRange(b)
    ensures InRange(r)
    ensures InRange(a * b) ==> r == a * b
  {
    Wrap(a * b)
  }

  /** Adding a multiple of 2^64 does not change what an int64 keeps. */
  lemma WrapShift(x: int, k: int)
    ensures Wrap(x + k * Modulus) == Wrap(x)
  {
    var a := x - MinInt64;
    var q, r := a / Modulus, a % Modulus;
    assert a == q * Modulus + r && 0 <= r < Modulus;
    assert a + k * Modulus == (q + k) * Modulus + r;
    var q', r' := (a + k * Modulus) / Modulus, (a + k * Modulus) % Modulus;
    assert a + k * Modulus == q' * Modulus + r' && 0 <= r' < Modulus;
    assert (q' - q - k) * Modulus == r - r';
  }

  /** Wrapping an intermediate product is the same as wrapping once at the
      end: Go's `time.Duration(n) * a * b` is `n * a * b` modulo 2^64. */
  lemma MulThenWrap(a: int, b: int)
    ensures Wrap(Wrap(a) * b) == Wrap(a * b)
  {
    var k := (a - MinInt64) / Modulus;
    assert a - MinInt64 == k * Modulus + (a - MinInt64) % Modulus;
    assert Wrap(a) == a - k * Modulus;
    assert Wrap(a) * b == a * b + (-k * b) * Modulus;
    WrapShift(a * b, -k * b);
  }
}
