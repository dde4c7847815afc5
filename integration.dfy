/**
 * The cumulative trapezoidal integral of `sim/RealAtmos.cpp`, which the motor
 * mass table also builds from its thrust curve.
 */
module Integration {

  /** The area of the trapezoid between samples `i - 1` and `i`. */
  function Segment(x: seq<real>, y: seq<real>, i: nat): real
    requires 0 < i < |x| && |y| == |x|
  {
    (y[i] + y[i - 1]) / 2.0 * (x[i] - x[i - 1])
  }

  /**
   * The running integral: entry `i` is the sum of the first `i` trapezoids,
   * so it starts at 0 and grows by one trapezoid per sample.
   */
  function Cumulative(x: seq<real>, y: seq<real>): (r: seq<real>)
    requires |y| == |x|
    ensures |r| == |x|
    ensures |x| > 0 ==> r[0] == 0.0
    ensures forall i :: 0 < i < |x| ==> r[i] == r[i - 1] + Segment(x, y, i)
    decreases |x|
  {
    if |x| <= 1 then seq(|x|, _ => 0.0)
    else
      var n := |x| - 1;
      var prefix := Cumulative(x[..n], y[..n]);
      assert forall i :: 0 < i < n ==> Segment(x[..n], y[..n], i) == Segment(x, y, i);
      prefix + [prefix[n - 1] + Segment(x, y, n)]
  }

  /** Increasing abscissae and non-negative samples give non-negative trapezoids. */
  predicate Increasing(x: seq<real>)
  {
    forall i, j :: 0 <= i < j < |x| ==> x[i] < x[j]
  }

  predicate NonNegative(y: seq<real>)
  {
    forall i :: 0 <= i < |y| ==> y[i] >= 0.0
  }

  lemma SegmentNonNegative(x: seq<real>, y: seq<real>, i: nat)
    requires 0 < i < |x| && |y| == |x|
    requires x[i - 1] < x[i] && y[i] >= 0.0 && y[i - 1] >= 0.0
    ensures Segment(x, y, i) >= 0.0
  {
    var h := (y[i] + y[i - 1]) / 2.0;
    assert h >= 0.0;
    assert h * (x[i] - x[i - 1]) >= 0.0;
  }

  /** Under those conditions the running integral never decreases. */
  lemma {:induction false} CumulativeNonDecreasing(x: seq<real>, y: seq<real>, i: nat, j: nat)
    requires |y| == |x| && Increasing(x) && NonNegative(y)
    requires i <= j < |x|
    ensures Cumulative(x, y)[i] <= Cumulative(x, y)[j]
    decreases j - i
  {
    if i < j {
      CumulativeNonDecreasing(x, y, i, j - 1);
      SegmentNonNegative(x, y, j);
    }
  }

  /** `cumulative_trapezoid`: fills a fresh array of the input length in one pass. */
  method CumulativeTrapezoid(x: seq<real>, y: seq<real>) returns (result: array<real>)
    requires |y| == |x|
    ensures fresh(result)
    ensures result[..] == Cumulative(x, y)
  {
    result := new real[|x|](_ => 0.0);
    if |x| == 0 {
      return;
    }
    ghost var spec := Cumulative(x, y);
    var i := 1;
    while i < |x|
      invariant 1 <= i <= |x|
      invariant forall k :: 0 <= k < i ==> result[k] == spec[k]
    {
      assert spec[i] == spec[i - 1] + Segment(x, y, i);
      result[i] := result[i - 1] + (y[i] + y[i - 1]) / 2.0 * (x[i] - x[i - 1]);
      i := i + 1;
    }
    assert result[..] == spec;
  }
}
