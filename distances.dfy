/** The Euclidean distance between two patterns (`KnnClassifier.getDistance`). */
module Distances {
  import opened JavaInt

  /**
   * The distance `Math.sqrt(squared)`, kept as the exact sum of squares it is the
   * root of. Square root is strictly monotone, so comparing two distances is
   * comparing their `squared` parts, and `Sqrt(0)` is the distance zero.
   */
  datatype Distance = Sqrt(squared: nat)

  /** `Double.compare(d, e) < 0`. */
  predicate Below(d: Distance, e: Distance) {
    d.squared < e.squared
  }

  /** `Math.pow(x, 2)` on an int. */
  function Square(x: int32): (s: nat) {
    x as int * x as int
  }

  /** The sum of `Math.pow(test[i] - candidate[i], 2)` over the first `n` positions. */
  function SquaredSum(test: seq<int32>, candidate: seq<int32>, n: nat): (s: nat)
    requires n <= |test| == |candidate|
  {
    if n == 0 then 0 else SquaredSum(test, candidate, n - 1) + Square(Sub(test[n - 1], candidate[n - 1]))
  }

  /** The Euclidean distance between two patterns of equal length. */
  function EuclideanDistance(test: seq<int32>, candidate: seq<int32>): (d: Distance)
    requires |test| == |candidate|
  {
    Sqrt(SquaredSum(test, candidate, |test|))
  }

  /** `getDistance`: accumulates the squared differences position by position. */
  method GetDistance(test: seq<int32>, candidate: seq<int32>) returns (d: Distance)
    requires |test| == |candidate|
    ensures d == EuclideanDistance(test, candidate)
  {
    var accumulator: nat := 0;
    for i := 0 to |test|
      invariant accumulator == SquaredSum(test, candidate, i)
    {
      accumulator := accumulator + Square(Sub(test[i], candidate[i]));
    }
    d := Sqrt(accumulator);
  }

  lemma {:induction false} SquaredSumSymmetric(a: seq<int32>, b: seq<int32>, n: nat)
    requires n <= |a| == |b|
    ensures SquaredSum(a, b, n) == SquaredSum(b, a, n)
  {
    if n > 0 {
      SquaredSumSymmetric(a, b, n - 1);
      SubSquareSymmetric(a[n - 1], b[n - 1]);
    }
  }

  /** The distance does not depend on the order of its arguments. */
  lemma DistanceSymmetric(a: seq<int32>, b: seq<int32>)
    requires |a| == |b|
    ensures EuclideanDistance(a, b) == EuclideanDistance(b, a)
  {
    SquaredSumSymmetric(a, b, |a|);
  }

  lemma {:induction false} SquaredSumZero(a: seq<int32>, b: seq<int32>, n: nat)
    requires n <= |a| == |b|
    ensures SquaredSum(a, b, n) == 0 <==> a[..n] == b[..n]
  {
    if n > 0 {
      SquaredSumZero(a, b, n - 1);
      SubZero(a[n - 1], b[n - 1]);
      assert a[..n] == a[..n - 1] + [a[n - 1]];
      assert b[..n] == b[..n - 1] + [b[n - 1]];
      if a[..n] == b[..n] {
        assert a[..n - 1] == a[..n][..n - 1];
        assert b[..n - 1] == b[..n][..n - 1];
      }
    }
  }

  /** The distance is zero exactly when the two patterns are equal. */
  lemma DistanceZeroIffEqual(a: seq<int32>, b: seq<int32>)
    requires |a| == |b|
    ensures EuclideanDistance(a, b) == Sqrt(0) <==> a == b
  {
    SquaredSumZero(a, b, |a|);
    assert a[..|a|] == a && b[..|b|] == b;
  }

  /** The sum of squared differences taken in unbounded integers, with no overflow. */
  function ExactSquaredSum(a: seq<int32>, b: seq<int32>, n: nat): (s: int)
    requires n <= |a| == |b|
  {
    if n == 0 then 0 else ExactSquaredSum(a, b, n - 1) + (a[n - 1] as int - b[n - 1] as int) * (a[n - 1] as int - b[n - 1] as int)
  }

  /** On patterns of non-negative entries, the computed distance is the true Euclidean distance. */
  lemma {:induction false} DistanceExact(a: seq<int32>, b: seq<int32>, n: nat)
    requires n <= |a| == |b|
    requires forall i :: 0 <= i < |a| ==> a[i] >= 0 && b[i] >= 0
    ensures SquaredSum(a, b, n) == ExactSquaredSum(a, b, n)
  {
    if n > 0 {
      DistanceExact(a, b, n - 1);
      SubExact(a[n - 1], b[n - 1]);
    }
  }

  /** A negative entry can make the int difference overflow: 2147483647 - (-2) wraps. */
  lemma OverflowingDifference()
    ensures SquaredSum([0x7fff_ffff], [-2], 1) != ExactSquaredSum([0x7fff_ffff], [-2], 1)
  {
    var a: seq<int32>, b: seq<int32> := [0x7fff_ffff], [-2];
    assert Sub(a[0], b[0]) as int == -0x7fff_ffff;
  }
}
