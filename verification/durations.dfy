/**
 Go's `time.Duration`: a signed 64-bit count of nanoseconds, and the
 integer operations on it that the service relies on.
 */
module Durations {

  const MinInt64: int := -0x8000_0000_0000_0000
  const MaxInt64: int := 0x7FFF_FFFF_FFFF_FFFF

  /** A duration in nanoseconds, within the range of Go's int64. */
  type Duration = d: int | MinInt64 <= d <= MaxInt64

  const Millisecond: Duration := 1_000_000

  function Abs(x: int): (r: nat)
    ensures r == x || r == -x
  {
    if x < 0 then -x else x
  }

  /**
   Go's integer division `a / b`, which truncates toward zero
   (Dafny's `/` is Euclidean and differs for negative `a`).
   The quotient is the unique integer whose multiple by `b` lies
   within `b` of `a` on the side of zero.
   */
  function TruncDiv(a: int, b: int): (q: int)
    requires b > 0
    ensures a >= 0 ==> q >= 0 && q * b <= a < q * b + b
    ensures a < 0 ==> q <= 0 && q * b - b < a <= q * b
    ensures Abs(q) == Abs(a) / b
  {
    var m := Abs(a);
    DivBounds(m, b);
    if a >= 0 then m / b else -(m / b)
  }

  /** Euclidean division of a natural brackets it between consecutive multiples. */
  lemma DivBounds(m: nat, b: int)
    requires b > 0
    ensures m / b >= 0 && (m / b) * b <= m < (m / b) * b + b
  {
    assert m == (m / b) * b + m % b;
  }

  /** `Duration.Milliseconds()`: whole milliseconds, truncated toward zero. */
  function Milliseconds(d: Duration): (ms: int)
    ensures d >= 0 ==> 0 <= ms && ms * Millisecond <= d < (ms + 1) * Millisecond
    ensures d < 0 ==> ms <= 0 && (ms - 1) * Millisecond < d <= ms * Millisecond
  {
    TruncDiv(d, Millisecond)
  }
}
