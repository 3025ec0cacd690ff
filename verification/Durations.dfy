/** time.Duration: a signed 64-bit count of nanoseconds. */
module Durations {

  const HOUR: int := 3_600_000_000_000
  const TWO_TO_62: int := 0x4000_0000_0000_0000
  const TWO_TO_63: int := 0x8000_0000_0000_0000
  const TWO_TO_64: int := 0x1_0000_0000_0000_0000

  predicate IsInt64(x: int) {
    -TWO_TO_63 <= x < TWO_TO_63
  }

  /** Two's-complement wrap-around of 64-bit integer arithmetic. */
  function WrapInt64(x: int): int {
    (x + TWO_TO_63) % TWO_TO_64 - TWO_TO_63
  }

  /** The only 64-bit number congruent to x. */
  lemma WrapIsExact(x: int, y: int)
    ensures y == WrapInt64(x) <==> IsInt64(y) && (y - x) % TWO_TO_64 == 0
  {
    var q, r := (x + TWO_TO_63) / TWO_TO_64, (x + TWO_TO_63) % TWO_TO_64;
    assert x + TWO_TO_63 == q * TWO_TO_64 + r;
    assert WrapInt64(x) - x == -q * TWO_TO_64;
    if (y - x) % TWO_TO_64 == 0 {
      var k := (y - x) / TWO_TO_64;
      assert y - x == k * TWO_TO_64;
      assert y - WrapInt64(x) == (k + q) * TWO_TO_64;
    }
  }
}
