/**
 Sizing of the end-to-end latency histograms (`createHistogramBuckets`).

 Boundaries are natural numbers of milliseconds, 5 * 2^i. The source
 produces fl(0.005) * 2^i seconds as float64; 0.005 has no exact binary
 representation, so each float boundary is within one rounding of the
 corresponding 5 * 2^i ms (doubling itself adds no further error).
 */
module Buckets {
  import opened Durations
  import opened Wrappers

  /** Why no bucket list can be produced. */
  datatype BucketError =
    /** `ExponentialBuckets` refuses (panics on) a count below 1. */
    NonPositiveCount(count: int)

  /** First boundary: 5 ms. */
  const BaseMillis: nat := 5
  /** Each boundary doubles the previous one. */
  const Factor: nat := 2

  function Pow(b: nat, k: nat): (p: nat)
    ensures b >= 1 ==> p >= 1
  {
    if k == 0 then 1 else b * Pow(b, k - 1)
  }

  lemma {:induction false} PowMonotone(j: nat, k: nat)
    requires j <= k
    ensures Pow(2, j) <= Pow(2, k)
    decreases k
  {
    if j < k {
      PowMonotone(j, k - 1);
    }
  }

  /**
   The floor of the base-2 logarithm. This is `math.Logb` on a
   positive integer-valued float: the binary exponent of n.
   */
  function Log2(n: nat): (k: nat)
    requires n >= 1
    ensures Pow(2, k) <= n < Pow(2, k + 1)
  {
    if n == 1 then 0 else 1 + Log2(n / 2)
  }

  /** `Log2(n)` is the only exponent that brackets `n` between consecutive powers of two. */
  lemma Log2Unique(n: nat, k: nat)
    requires n >= 1
    ensures Pow(2, k) <= n < Pow(2, k + 1) <==> k == Log2(n)
  {
    var e := Log2(n);
    if Pow(2, k) <= n < Pow(2, k + 1) && k != e {
      if k < e {
        PowMonotone(k + 1, e);
      } else {
        PowMonotone(e + 1, k);
      }
      assert false;
    }
  }

  /** 2^53: every integer below it in magnitude converts to float64 exactly. */
  const MaxExactInteger: nat := 0x20_0000_0000_0000

  /**
   `math.Logb(float64(x))` for an integer x: the binary exponent of |x|,
   and no finite value (None stands for -Inf) when x is 0. Every
   `n` the bucket sizer passes has |n| below 2^53, so the conversion
   to float64 is exact.
   */
  function Logb(x: int): (e: Option<nat>)
    requires Abs(x) < MaxExactInteger
    ensures e.None? <==> x == 0
    ensures e.Some? ==> Pow(2, e.value) <= Abs(x) < Pow(2, e.value + 1)
  {
    if x == 0 then None else Some(Log2(Abs(x)))
  }

  /**
   Prometheus' `ExponentialBuckets(start, factor, count)`: `count`
   boundaries, the first `start`, each the previous times `factor`.
   A count below 1 is refused.
   */
  method ExponentialBuckets(start: nat, factor: nat, count: int) returns (r: Result<seq<nat>, BucketError>)
    ensures r.Failure? <==> count < 1
    ensures r.Failure? ==> r.error == NonPositiveCount(count)
    ensures r.Success? ==> |r.value| == count
    ensures r.Success? ==> forall i :: 0 <= i < |r.value| ==> r.value[i] == start * Pow(factor, i)
  {
    if count < 1 {
      return Failure(NonPositiveCount(count));
    }
    var buckets: seq<nat> := [];
    var next := start;
    while |buckets| < count
      invariant |buckets| <= count
      invariant next == start * Pow(factor, |buckets|)
      invariant forall i :: 0 <= i < |buckets| ==> buckets[i] == start * Pow(factor, i)
    {
      ScaledPowStep(start, factor, |buckets|);
      buckets := buckets + [next];
      next := next * factor;
    }
    return Success(buckets);
  }

  lemma ScaledPowStep(start: nat, factor: nat, k: nat)
    ensures start * Pow(factor, k) * factor == start * Pow(factor, k + 1)
  {
    assert start * Pow(factor, k) * factor == start * (factor * Pow(factor, k));
  }

  /**
   `createHistogramBuckets(maxLatency)`: exponential boundaries from
   5 ms, doubling, floor(log2(ms / 10)) + 3 of them, where ms is the
   latency in whole milliseconds. Below 10 ms (in magnitude) the
   logarithm is -Inf and no bucket list is produced.
   */
  method CreateHistogramBuckets(maxLatency: Duration) returns (r: Result<seq<nat>, BucketError>)
    ensures r.Failure? <==> TruncDiv(Milliseconds(maxLatency), 10) == 0
    ensures r.Success? ==> |r.value| == Log2(Abs(TruncDiv(Milliseconds(maxLatency), 10))) + 3
    ensures r.Success? ==> |r.value| >= 3 && r.value[0] == BaseMillis
    ensures r.Success? ==> forall i :: 0 < i < |r.value| ==> r.value[i] == Factor * r.value[i - 1]
    ensures r.Success? ==> forall i, j :: 0 <= i < j < |r.value| ==> r.value[i] < r.value[j]
    ensures r.Success? ==> r.value[|r.value| - 1] * Millisecond > maxLatency
  {
    var n := TruncDiv(Milliseconds(maxLatency), 10);
    // |n| <= 2^63 / 10^7, far below 2^53
    assert Abs(n) == (Abs(maxLatency) / Millisecond) / 10;
    assert Abs(n) <= (0x8000_0000_0000_0000 / Millisecond) / 10;
    var e := Logb(n);
    if e.None? {
      // The source converts -Inf to int and adds 3; the count is far below 1.
      r := Failure(NonPositiveCount(MinInt64 + 3));
      return;
    }
    r := ExponentialBuckets(BaseMillis, Factor, e.value + 3);
    DoublingIncreases(r.value);
    LastBoundaryReach(maxLatency);
  }

  /** A positive sequence in which every element doubles its predecessor is strictly increasing. */
  lemma {:induction false} DoublingIncreases(s: seq<nat>)
    requires |s| >= 1 && s[0] >= 1
    requires forall i :: 0 <= i < |s| ==> s[i] == s[0] * Pow(2, i)
    ensures forall i :: 0 < i < |s| ==> s[i] == 2 * s[i - 1]
    ensures forall i, j :: 0 <= i < j < |s| ==> s[i] < s[j]
  {
    forall i | 0 < i < |s|
      ensures s[i] == 2 * s[i - 1]
    {
      MulDouble(s[0], Pow(2, i - 1));
    }
    forall i, j | 0 <= i < j < |s|
      ensures s[i] < s[j]
    {
      PowMonotone(i + 1, j);
      MulStrict(s[0], Pow(2, i), Pow(2, j));
    }
  }

  lemma MulDouble(a: nat, x: nat)
    ensures a * (2 * x) == 2 * (a * x)
  {
  }

  lemma MulStrict(a: nat, x: nat, y: nat)
    requires a >= 1 && x < y
    ensures a * x < a * y
  {
  }

  /**
   The last boundary, 20 ms * 2^floor(log2(ms / 10)), lies above the
   maximum latency: the two boundaries below 20 ms and the extra one
   for the truncations make up the "+3".
   */
  lemma LastBoundaryReach(maxLatency: Duration)
    requires TruncDiv(Milliseconds(maxLatency), 10) != 0
    ensures BaseMillis * Pow(2, Log2(Abs(TruncDiv(Milliseconds(maxLatency), 10))) + 2) * Millisecond > maxLatency
  {
    var ms := Milliseconds(maxLatency);
    var n := TruncDiv(ms, 10);
    var k := Log2(Abs(n));
    var top := BaseMillis * Pow(2, k + 2);
    assert top == 10 * Pow(2, k + 1);
    if maxLatency >= 0 {
      // n + 1 <= 2^(k+1), so the top boundary is at least 10 * (n + 1) > ms
      assert 10 * (n + 1) <= top;
      assert ms < 10 * (n + 1);
      assert ms + 1 <= top;
      assert (ms + 1) * Millisecond <= top * Millisecond;
    } else {
      assert top * Millisecond > 0;
    }
  }
}
