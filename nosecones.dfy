/**
 * Nosecone shapes: the common fields and clamping setters of
 * `shapes/primitives/nosecone/noseconeShape.cpp`, and the numerically
 * integrated properties of
 * `shapes/primitives/nosecone/numericalNoseconeShape.cpp`, each cached in a
 * field that NaN (here `None`) marks as stale. The origin is the tip.
 */
module Nosecones {
  import opened Wrappers
  import opened Points
  import opened Maths
  import opened Prisms
  import opened Cylinders

  /** The sum of a sequence. */
  function Sum(s: seq<real>): real
  {
    if |s| == 0 then 0.0 else Sum(s[..|s| - 1]) + s[|s| - 1]
  }

  /** The arithmetic mean of the samples (`Eigen::Array::mean`). */
  function Mean(s: seq<real>): real
    requires |s| > 0
  {
    Sum(s) / (|s| as real)
  }

  lemma {:induction false} SumBounds(s: seq<real>, lo: real, hi: real)
    requires forall i :: 0 <= i < |s| ==> lo <= s[i] <= hi
    ensures (|s| as real) * lo <= Sum(s) <= (|s| as real) * hi
  {
    if |s| > 0 {
      SumBounds(s[..|s| - 1], lo, hi);
    }
  }

  /** The mean of samples that all lie in [lo, hi] lies in [lo, hi]. */
  lemma MeanBounds(s: seq<real>, lo: real, hi: real)
    requires |s| > 0
    requires forall i :: 0 <= i < |s| ==> lo <= s[i] <= hi
    ensures lo <= Mean(s) <= hi
  {
    SumBounds(s, lo, hi);
    DivideBetween(Sum(s), |s| as real, lo, hi);
  }

  /**
   * The sum over the segments between consecutive samples of `f(r1, r2, xMid, step)`,
   * where r2 and r1 are the radii at the segment's top and bottom ends and xMid
   * its midpoint, for samples taken every `step` from the tip.
   */
  function SegmentSum(y: seq<real>, step: real, f: (real, real, real, real) -> real): (r: real)
    ensures |y| < 2 ==> r == 0.0
  {
    if |y| < 2 then 0.0
    else
      var k := |y| - 2;
      SegmentSum(y[..|y| - 1], step, f) + f(y[k + 1], y[k], ((2 * k + 1) as real) / 2.0 * step, step)
  }

  lemma {:induction false} SegmentSumNonNegative(y: seq<real>, step: real, f: (real, real, real, real) -> real)
    requires forall r1, r2, xMid :: f(r1, r2, xMid, step) >= 0.0
    ensures SegmentSum(y, step, f) >= 0.0
  {
    if |y| >= 2 {
      SegmentSumNonNegative(y[..|y| - 1], step, f);
    }
  }

  /** The volume of the frustum between radii r1 and r2 over a segment. */
  function FrustumVolume(r1: real, r2: real, step: real): (r: real)
    ensures step == 0.0 || (r1 == 0.0 && r2 == 0.0) ==> r == 0.0
  {
    Pi / 3.0 * step * (r1 * r1 + r1 * r2 + r2 * r2)
  }

  /**
   * The volume of a segment's wall, with wall height `wall` measured
   * perpendicular to the axis: clamped at 0, and the whole frustum where the
   * wall is thicker than either end radius.
   */
  function SegmentWallVolume(r1: real, r2: real, step: real, wall: real): (r: real)
    ensures r1 < wall || r2 < wall ==> r == FrustumVolume(r1, r2, step)
    ensures wall == 0.0 && r1 >= 0.0 && r2 >= 0.0 ==> r == 0.0
  {
    if r1 < wall || r2 < wall then FrustumVolume(r1, r2, step)
    else
      var dv := WallShell(r1, r2, step, wall);
      if dv < 0.0 then 0.0 else dv
  }

  /** The volume of a wall of height `wall` inside the segment's mean-radius surface, unclamped. */
  function WallShell(r1: real, r2: real, step: real, wall: real): (r: real)
    ensures wall == 0.0 ==> r == 0.0
  {
    Pi * step * wall * (r1 + r2 - wall)
  }

  lemma FrustumNonNegative(r1: real, r2: real, step: real)
    requires step >= 0.0
    ensures FrustumVolume(r1, r2, step) >= 0.0
  {
    // r1² + r1·r2 + r2² = (r1 + r2/2)² + 3r2²/4
    assert r1 * r1 + r1 * r2 + r2 * r2 == (r1 + r2 / 2.0) * (r1 + r2 / 2.0) + 3.0 / 4.0 * (r2 * r2);
    SquareNonNegative(r1 + r2 / 2.0);
    SquareNonNegative(r2);
    MulNonNegative(Pi / 3.0 * step, r1 * r1 + r1 * r2 + r2 * r2);
  }

  lemma SquareNonNegative(a: real)
    ensures a * a >= 0.0
  {
    if a < 0.0 {
      MulNonNegative(-a, -a);
    } else {
      MulNonNegative(a, a);
    }
  }

  /** Over samples that all equal `radius`, every segment contributes the same `c`. */
  lemma {:induction false} SegmentSumOfConstant(y: seq<real>, step: real, f: (real, real, real, real) -> real,
                                                radius: real, c: real)
    requires forall i :: 0 <= i < |y| ==> y[i] == radius
    requires forall xm :: f(radius, radius, xm, step) == c
    ensures |y| >= 1 ==> SegmentSum(y, step, f) == ((|y| - 1) as real) * c
  {
    if |y| >= 2 {
      var k := |y| - 2;
      SegmentSumOfConstant(y[..|y| - 1], step, f, radius, c);
      assert y[k + 1] == radius && y[k] == radius;
      assert ((|y| - 1) as real) * c == ((|y| - 2) as real) * c + c;
    }
  }

  /** Samples of a constant radius give the cylinder's planform area over the sampled length. */
  lemma PlanformAreaOfCylinder(y: seq<real>, step: real, radius: real)
    requires |y| >= 1 && forall i :: 0 <= i < |y| ==> y[i] == radius
    ensures PlanformAreaOf(y, step) == PlanformArea(radius, ((|y| - 1) as real) * step)
  {
    SegmentSumOfConstant(y, step, Trapezoids, radius, radius * step);
    var n := (|y| - 1) as real;
    assert n * (radius * step) * 2.0 == 2.0 * radius * (n * step);
  }

  /** Samples of a constant radius give the cylinder's volume over the sampled length. */
  lemma FilledVolumeOfCylinder(y: seq<real>, step: real, radius: real)
    requires |y| >= 1 && forall i :: 0 <= i < |y| ==> y[i] == radius
    ensures FilledVolumeOf(y, step) == FilledVolume(radius, ((|y| - 1) as real) * step)
  {
    assert (radius + radius) / 2.0 == radius;
    forall xm: real
      ensures MeanDiscs(radius, radius, xm, step) == radius * radius * step
    {
      assert MeanDiscs(radius, radius, xm, step) == Sq(radius) * step;
    }
    SegmentSumOfConstant(y, step, MeanDiscs, radius, radius * radius * step);
    var n := (|y| - 1) as real;
    assert n * (radius * radius * step) * Pi == n * step * Pi * (radius * radius);
  }

  /**
   * Samples of a constant radius give the cylinder's wetted area over the
   * sampled length, when the square root gives back a non-negative step.
   */
  lemma WettedAreaOfCylinder(y: seq<real>, step: real, radius: real, sqrt: real -> real)
    requires |y| >= 1 && forall i :: 0 <= i < |y| ==> y[i] == radius
    requires sqrt(step * step) == step
    ensures WettedAreaOf(y, step, sqrt) == WettedArea(radius, ((|y| - 1) as real) * step)
  {
    assert (radius - radius) * (radius - radius) + step * step == step * step;
    assert forall xm :: FrustumSides(sqrt)(radius, radius, xm, step) == step * (radius + radius) * Pi;
    SegmentSumOfConstant(y, step, FrustumSides(sqrt), radius, step * (radius + radius) * Pi);
    var n := (|y| - 1) as real;
    assert n * (step * (radius + radius) * Pi) == Pi * 2.0 * radius * (n * step);
  }

  /** A frustum with equal end radii is the cylinder of that radius. */
  lemma FrustumOfEqualRadii(r: real, step: real)
    ensures FrustumVolume(r, r, step) == FilledVolume(r, step)
  {
    assert r * r + r * r + r * r == 3.0 * (r * r);
  }

  /** A segment's wall volume is never negative and never more than the solid frustum. */
  lemma SegmentWallBounds(r1: real, r2: real, step: real, wall: real)
    requires step >= 0.0
    ensures 0.0 <= SegmentWallVolume(r1, r2, step, wall) <= FrustumVolume(r1, r2, step)
  {
    FrustumNonNegative(r1, r2, step);
    if !(r1 < wall || r2 < wall) {
      UnclampedWallBelowFrustum(r1, r2, step, wall);
    }
  }

  /** wall·(r1 + r2 - wall) ≤ (r1 + r2)²/4 ≤ (r1² + r1·r2 + r2²)/3, scaled by π·step. */
  lemma UnclampedWallBelowFrustum(r1: real, r2: real, step: real, wall: real)
    requires step >= 0.0
    ensures WallShell(r1, r2, step, wall) <= FrustumVolume(r1, r2, step)
  {
    var s := r1 + r2;
    assert s * s / 4.0 - wall * (s - wall) == (s / 2.0 - wall) * (s / 2.0 - wall);
    assert (r1 * r1 + r1 * r2 + r2 * r2) / 3.0 - s * s / 4.0 == (r1 - r2) * (r1 - r2) / 12.0;
    SquareNonNegative(s / 2.0 - wall);
    SquareNonNegative(r1 - r2);
    var gap := (r1 * r1 + r1 * r2 + r2 * r2) / 3.0 - wall * (s - wall);
    assert gap >= 0.0;
    MulNonNegative(Pi * step, gap);
    assert FrustumVolume(r1, r2, step) - Pi * step * wall * (s - wall) == Pi * step * gap;
  }

  /** The properties `calculateProperties` derives; a `None` is a NaN the formulas produce. */
  datatype Properties = Properties(
    unfilledInertia: Option<Mat3>, filledInertia: Option<Mat3>,
    unfilledCm: Option<Vec3>, filledCm: Option<Vec3>,
    unfilledVolume: Option<real>, filledVolume: real,
    wettedArea: real, planformArea: real,
    planformCenter: Option<Vec3>, averageRadius: real)

  /** The slant length of a segment. */
  function Slant(sqrt: real -> real, r1: real, r2: real, s: real): real
  {
    sqrt((r1 - r2) * (r1 - r2) + s * s)
  }

  /** The wall height, perpendicular to the axis, of a segment whose slant length is `hyp`. */
  function WallHeight(thickness: real, hyp: real, step: real): (r: real)
    requires step != 0.0
    ensures hyp == step ==> r == thickness
    ensures step > 0.0 && thickness >= 0.0 && hyp >= 0.0 ==> r >= 0.0
  {
    thickness * hyp / step
  }

  /** The wall volume of each segment, as a function of its end radii, midpoint and length. */
  function WallVolumes(sqrt: real -> real, thickness: real, step: real): (real, real, real, real) -> real
    requires step != 0.0
  {
    (r1, r2, xm, s) => SegmentWallVolume(r1, r2, s, WallHeight(thickness, Slant(sqrt, r1, r2, s), step))
  }

  /** The inner radius of a segment's wall: 0 where the wall fills the segment. */
  function InnerRadius(sqrt: real -> real, thickness: real, step: real, r1: real, r2: real, s: real): (r: real)
    requires step != 0.0
    ensures r >= 0.0
    ensures WallHeight(thickness, Slant(sqrt, r1, r2, s), step) >= 0.0 ==> r <= (r1 + r2) / 2.0 || r1 < 0.0 || r2 < 0.0
  {
    var wall := WallHeight(thickness, Slant(sqrt, r1, r2, s), step);
    if r1 < wall || r2 < wall then 0.0 else ClampNonNegative((r1 + r2) / 2.0 - wall)
  }

  function Sq(a: real): real
  {
    a * a
  }

  /** The summed wall volume is never negative when the samples run away from the tip. */
  lemma WallVolumeNonNegative(y: seq<real>, sqrt: real -> real, thickness: real, step: real)
    requires step > 0.0
    ensures SegmentSum(y, step, WallVolumes(sqrt, thickness, step)) >= 0.0
  {
    var f := WallVolumes(sqrt, thickness, step);
    forall r1: real, r2: real, xm: real ensures f(r1, r2, xm, step) >= 0.0 {
      SegmentWallBounds(r1, r2, step, WallHeight(thickness, Slant(sqrt, r1, r2, step), step));
    }
    SegmentSumNonNegative(y, step, f);
  }

  /** The summed frustum side areas, each its slant length times the mean circumference. */
  function WettedAreaOf(y: seq<real>, step: real, sqrt: real -> real): (r: real)
    ensures |y| < 2 ==> r == 0.0
  {
    SegmentSum(y, step, FrustumSides(sqrt))
  }

  /** A segment's side area: its slant length times its mean circumference. */
  function FrustumSides(sqrt: real -> real): (real, real, real, real) -> real
  {
    (r1, r2, xm, s) => Slant(sqrt, r1, r2, s) * (r1 + r2) * Pi
  }

  /** A segment's trapezoid area in the side view, halved. */
  const Trapezoids: (real, real, real, real) -> real := (r1, r2, xm, s) => (r1 + r2) / 2.0 * s

  /** A segment's volume as a cylinder of its mean radius, over π. */
  const MeanDiscs: (real, real, real, real) -> real := (r1, r2, xm, s) => Sq((r1 + r2) / 2.0) * s

  /** Twice the trapezoidal integral of the radius. */
  function PlanformAreaOf(y: seq<real>, step: real): (r: real)
    ensures |y| < 2 ==> r == 0.0
  {
    SegmentSum(y, step, Trapezoids) * 2.0
  }

  function PlanformCenterOf(y: seq<real>, step: real): (r: Option<Vec3>)
    ensures r.Some? <==> PlanformAreaOf(y, step) != 0.0
  {
    var area := PlanformAreaOf(y, step);
    if area == 0.0 then None
    else Some(Vec3(SegmentSum(y, step, (r1, r2, xm, s) => (r1 + r2) * s * xm) / area, 0.0, 0.0))
  }

  /** The solid of revolution of the segment mean radii. */
  function FilledVolumeOf(y: seq<real>, step: real): (r: real)
    ensures |y| < 2 ==> r == 0.0
  {
    SegmentSum(y, step, MeanDiscs) * Pi
  }

  /** The wall's centroid on the axis; undefined (NaN in the source) when the wall has no volume. */
  function UnfilledCmOf(y: seq<real>, step: real, thickness: real, sqrt: real -> real): (r: Option<Vec3>)
    requires step != 0.0
    ensures r.Some? <==> SegmentSum(y, step, WallVolumes(sqrt, thickness, step)) != 0.0
    ensures r.Some? ==> r.value.y == 0.0 && r.value.z == 0.0
  {
    var dv := WallVolumes(sqrt, thickness, step);
    var volume := SegmentSum(y, step, dv);
    if volume == 0.0 then None
    else Some(Vec3(SegmentSum(y, step, (r1, r2, xm, s) => xm * dv(r1, r2, xm, s)) / volume, 0.0, 0.0))
  }

  /** The wall's tensor, from the segment volumes and the outer and inner radii. */
  function UnfilledInertiaOf(y: seq<real>, step: real, thickness: real, sqrt: real -> real): (r: Mat3)
    requires step != 0.0
    ensures r == Diagonal(r.xx, r.yy, r.zz) && r.yy == r.zz
  {
    var dv := WallVolumes(sqrt, thickness, step);
    var rot := SegmentSum(y, step, (r1, r2, xm, s) =>
      dv(r1, r2, xm, s) * (Sq((r1 + r2) / 2.0) + Sq(InnerRadius(sqrt, thickness, step, r1, r2, s))) / 2.0);
    var long := SegmentSum(y, step, (r1, r2, xm, s) =>
      dv(r1, r2, xm, s) * ((3.0 * (Sq((r1 + r2) / 2.0) + Sq(InnerRadius(sqrt, thickness, step, r1, r2, s))) + s * s) / 12.0 + xm * xm));
    Diagonal(rot, long, long)
  }

  /** The solid tensor: the wall formulas with the inner radius dropped, still over the wall's segment volumes. */
  function FilledInertiaOf(y: seq<real>, step: real, thickness: real, sqrt: real -> real): (r: Mat3)
    requires step != 0.0
    ensures r == Diagonal(r.xx, r.yy, r.zz) && r.yy == r.zz
  {
    var dv := WallVolumes(sqrt, thickness, step);
    var rot := SegmentSum(y, step, (r1, r2, xm, s) => dv(r1, r2, xm, s) * Sq((r1 + r2) / 2.0) / 2.0);
    var long := SegmentSum(y, step, (r1, r2, xm, s) =>
      dv(r1, r2, xm, s) * ((3.0 * Sq((r1 + r2) / 2.0) + s * s) / 12.0 + xm * xm));
    Diagonal(rot, long, long)
  }

  /**
   * `calculateProperties` over the radii `y` sampled every `step` from the
   * tip, with `sqrt` the square root. A zero step (a zero length) makes the wall
   * heights NaN, and a zero planform area or wall volume makes the centroid that
   * divides by it NaN.
   */
  function CalculateProperties(y: seq<real>, step: real, thickness: real, sqrt: real -> real): (p: Properties)
    requires |y| >= 2
    ensures p.averageRadius == Mean(y)
    ensures p.planformCenter.Some? <==> p.planformArea != 0.0
    ensures p.planformCenter.Some? ==> p.filledCm == Some(Vec3(p.planformCenter.value.x, 0.0, 0.0))
    ensures p.planformCenter.None? ==> p.filledCm.None?
    ensures p.unfilledVolume.Some? <==> step != 0.0
    ensures p.unfilledVolume.Some? ==> p.unfilledVolume.value == SegmentSum(y, step, WallVolumes(sqrt, thickness, step))
    ensures p.unfilledInertia.Some? <==> step != 0.0
    ensures p.filledInertia.Some? <==> step != 0.0
    ensures step == 0.0 ==> p.unfilledCm.None?
  {
    var center := PlanformCenterOf(y, step);
    var filledCm := if center.None? then None else Some(Vec3(center.value.x, 0.0, 0.0));
    if step == 0.0 then
      Properties(None, None, None, filledCm, None, FilledVolumeOf(y, step),
                 WettedAreaOf(y, step, sqrt), PlanformAreaOf(y, step), center, Mean(y))
    else
      Properties(Some(UnfilledInertiaOf(y, step, thickness, sqrt)), Some(FilledInertiaOf(y, step, thickness, sqrt)),
                 UnfilledCmOf(y, step, thickness, sqrt), filledCm,
                 Some(SegmentSum(y, step, WallVolumes(sqrt, thickness, step))), FilledVolumeOf(y, step),
                 WettedAreaOf(y, step, sqrt), PlanformAreaOf(y, step), center, Mean(y))
  }

  /**
   * The centre-of-mass step of `calculateProperties` as written: it reads the
   * wall volume through `unfilledVolume()`, which starts `calculateProperties`
   * again while the cached volume is NaN. `fuel` bounds the nested calls;
   * `None` is a call that has not returned when the fuel runs out.
   */
  function UnfilledCmAsWritten(y: seq<real>, step: real, thickness: real, sqrt: real -> real, fuel: nat): (r: Option<Option<Vec3>>)
    requires |y| >= 2
    ensures r.Some? ==> step != 0.0 && r.value == CalculateProperties(y, step, thickness, sqrt).unfilledCm
    decreases fuel
  {
    if fuel == 0 then None
    else if CalculateProperties(y, step, thickness, sqrt).unfilledVolume.None? then
      UnfilledCmAsWritten(y, step, thickness, sqrt, fuel - 1)
    else Some(CalculateProperties(y, step, thickness, sqrt).unfilledCm)
  }

  /** At zero length the written recursion never returns, however much fuel it is given. */
  lemma {:induction false} UnfilledCmAsWrittenLoopsAtZeroLength(y: seq<real>, thickness: real, sqrt: real -> real, fuel: nat)
    requires |y| >= 2
    ensures UnfilledCmAsWritten(y, 0.0, thickness, sqrt, fuel) == None
    decreases fuel
  {
    if fuel > 0 {
      UnfilledCmAsWrittenLoopsAtZeroLength(y, thickness, sqrt, fuel - 1);
    }
  }

  /** With a non-zero step one call suffices: the written recursion returns the centre of mass `CalculateProperties` gives. */
  lemma UnfilledCmAsWrittenReturns(y: seq<real>, step: real, thickness: real, sqrt: real -> real, fuel: nat)
    requires |y| >= 2 && step != 0.0 && fuel >= 1
    ensures UnfilledCmAsWritten(y, step, thickness, sqrt, fuel) == Some(CalculateProperties(y, step, thickness, sqrt).unfilledCm)
  {
  }

  /** The mean of the segment midpoint radii, `((r1 + r2)/2).mean()`. */
  function SegmentMean(y: seq<real>): real
    requires |y| >= 2
  {
    Mean(seq(|y| - 1, k requires 0 <= k < |y| - 1 => (y[k + 1] + y[k]) / 2.0))
  }

  /** `std::round` for a non-negative argument: halves round up. */
  function RoundNonNegative(v: real): (r: int)
    requires v >= 0.0
    ensures r as real - 0.5 <= v < r as real + 0.5
  {
    (v + 0.5).Floor
  }

  /**
   * The number of samples on the tip side of station x: the nearest whole
   * share of `numDivs`, clamped to [2, numDivs - 2], so that either side keeps
   * at least two samples.
   */
  function TipSampleCount(fraction: real, numDivs: int): (r: int)
    requires numDivs >= 4 && 0.0 < fraction < 1.0
    ensures 2 <= r <= numDivs - 2
    ensures var v := fraction * (numDivs as real);
            2.0 <= v <= (numDivs - 2) as real ==> r as real - 0.5 <= v < r as real + 0.5
  {
    var v := fraction * (numDivs as real);
    assert v >= 0.0 by { MulNonNegative(fraction, numDivs as real); }
    var rounded := RoundNonNegative(v);
    if rounded < 2 then 2 else if rounded > numDivs - 2 then numDivs - 2 else rounded
  }

  /** The split leaves at least two samples to the base as well. */
  lemma SplitKeepsBothSides(fraction: real, numDivs: int)
    requires numDivs >= 4 && 0.0 < fraction < 1.0
    ensures numDivs - TipSampleCount(fraction, numDivs) >= 2
    ensures TipSampleCount(fraction, numDivs) + (numDivs - TipSampleCount(fraction, numDivs)) == numDivs
  {
  }

  lemma FractionInside(x: real, l: real)
    requires 0.0 < x < l
    ensures 0.0 < x / l < 1.0
  {
    DivideBetween(x, l, 0.0, 1.0);
    assert (x / l) * l == x;
  }

  /** `setEqualSpaced(n, low, step)` mapped through the profile: n samples from `low`, `step` apart. */
  function EqualSpaced(prof: real -> real, low: real, step: real, n: nat): (r: seq<real>)
    ensures |r| == n
    ensures forall k :: 0 <= k < n ==> r[k] == prof(Station(low, step, k))
  {
    seq(n, k requires 0 <= k < n => prof(Station(low, step, k)))
  }

  /** The k-th station from `low`, `step` apart. */
  function Station(low: real, step: real, k: int): real
  {
    low + (k as real) * step
  }

  /** The samples of a span of length `span` cut into `n` steps from `low` stay within the span. */
  lemma SampleInSpan(low: real, span: real, k: int, n: int)
    requires 0 <= k < n && span >= 0.0
    ensures low <= Station(low, span / (n as real), k) <= low + span
  {
    var step := span / (n as real);
    DivideBetween(span, n as real, 0.0, span);
    MulNonNegative(k as real, step);
    MulNonNegative((n - k) as real, step);
    assert (n as real) * step == span;
    assert (k as real) * step + ((n - k) as real) * step == span;
  }

  /** A mean of segment midpoints of samples within [lo, hi] lies within [lo, hi]. */
  lemma SegmentMeanBounds(y: seq<real>, lo: real, hi: real)
    requires |y| >= 2 && forall i :: 0 <= i < |y| ==> lo <= y[i] <= hi
    ensures lo <= SegmentMean(y) <= hi
  {
    var mids := seq(|y| - 1, k requires 0 <= k < |y| - 1 => (y[k + 1] + y[k]) / 2.0);
    assert forall k :: 0 <= k < |mids| ==> lo <= mids[k] <= hi;
    MeanBounds(mids, lo, hi);
  }

  /** The samples of a span within [0, l] through a profile within [0, hi] average within [0, hi]. */
  lemma SideBounded(prof: real -> real, low: real, span: real, n: int, l: real, hi: real)
    requires 0.0 <= low && span >= 0.0 && low + span <= l && n >= 2
    requires forall s :: 0.0 <= s <= l ==> 0.0 <= prof(s) <= hi
    ensures 0.0 <= SegmentMean(EqualSpaced(prof, low, span / (n as real), n)) <= hi
  {
    var y := EqualSpaced(prof, low, span / (n as real), n);
    forall k | 0 <= k < n
      ensures 0.0 <= y[k] <= hi
    {
      SampleInSpan(low, span, k, n);
    }
    SegmentMeanBounds(y, 0.0, hi);
  }

  /** Each side's samples stay on the nosecone, so a bounded profile bounds both side averages. */
  lemma SidesBounded(prof: real -> real, x: real, l: real, tip: int, base: int, hi: real)
    requires 0.0 < x < l && tip >= 2 && base >= 2
    ensures (forall s :: 0.0 <= s <= l ==> 0.0 <= prof(s) <= hi) ==>
              0.0 <= SegmentMean(EqualSpaced(prof, 0.0, x / (tip as real), tip)) <= hi
              && 0.0 <= SegmentMean(EqualSpaced(prof, x, (l - x) / (base as real), base)) <= hi
  {
    if forall s :: 0.0 <= s <= l ==> 0.0 <= prof(s) <= hi {
      SideBounded(prof, 0.0, x, tip, l, hi);
      SideBounded(prof, x, l - x, base, l, hi);
    }
  }

  class NumericalNosecone {
    var radius: real
    var length: real
    var thickness: real
    var shapeParam: real
    var filled: bool
    /** The radius profile r(x) of the concrete nosecone, given its base radius, length and shape parameter. */
    const profile: (real, real, real, real) -> real
    const sqrt: real -> real
    /** The number of samples along the axis. */
    const numDivs: int

    var unfilledInertia: Option<Mat3>
    var filledInertia: Option<Mat3>
    var unfilledCm: Option<Vec3>
    var filledCm: Option<Vec3>
    var unfilledVolume: Option<real>
    var filledVolume: Option<real>
    var wettedArea: Option<real>
    var planformArea: Option<real>
    var planformCenter: Option<Vec3>
    var averageRadius: Option<real>

    function Step(): real
      reads this`length
      requires numDivs >= 4
    {
      length / ((numDivs - 1) as real)
    }

    /** The radii at `numDivs` equally spaced stations from the tip to the base. */
    function Samples(): (y: seq<real>)
      reads this`radius, this`length, this`shapeParam
      requires numDivs >= 4
      ensures |y| == numDivs
    {
      var r, l, param, step := radius, length, shapeParam, Step();
      seq(numDivs, i => profile(r, l, param, (i as real) * step))
    }

    /** What `calculateProperties` gives for the current dimensions. */
    function Current(): Properties
      reads this`radius, this`length, this`shapeParam, this`thickness
      requires numDivs >= 4
    {
      CalculateProperties(Samples(), Step(), thickness, sqrt)
    }

    /** Every cached property is either stale (`None`) or what the current dimensions give. */
    predicate Valid()
      reads this
    {
      numDivs >= 4 &&
      var p := Current();
      (unfilledInertia.None? || unfilledInertia == p.unfilledInertia) &&
      (filledInertia.None? || filledInertia == p.filledInertia) &&
      (unfilledCm.None? || unfilledCm == p.unfilledCm) &&
      (filledCm.None? || filledCm == p.filledCm) &&
      (unfilledVolume.None? || unfilledVolume == p.unfilledVolume) &&
      (filledVolume.None? || filledVolume == Some(p.filledVolume)) &&
      (wettedArea.None? || wettedArea == Some(p.wettedArea)) &&
      (planformArea.None? || planformArea == Some(p.planformArea)) &&
      (planformCenter.None? || planformCenter == p.planformCenter) &&
      (averageRadius.None? || averageRadius == Some(p.averageRadius))
    }

    /** Every cached property holds what the current dimensions give. */
    predicate Calculated()
      reads this
    {
      numDivs >= 4 && Holds(Current())
    }

    predicate Cleared()
      reads this
    {
      unfilledInertia == None && filledInertia == None && unfilledCm == None && filledCm == None &&
      unfilledVolume == None && filledVolume == None && wettedArea == None && planformArea == None &&
      planformCenter == None && averageRadius == None
    }

    /** The constructor stores the dimensions unclamped, marks the shape unfilled, and calculates nothing yet. */
    constructor (r: real, l: real, t: real, param: real,
                 profile: (real, real, real, real) -> real, sqrt: real -> real, numDivs: int)
      requires numDivs >= 4
      ensures radius == r && length == l && thickness == t && shapeParam == param && !filled
      ensures this.profile == profile && this.sqrt == sqrt && this.numDivs == numDivs
      ensures Cleared() && Valid()
    {
      radius, length, thickness, shapeParam, filled := r, l, t, param, false;
      this.profile, this.sqrt, this.numDivs := profile, sqrt, numDivs;
      unfilledInertia, filledInertia, unfilledCm, filledCm := None, None, None, None;
      unfilledVolume, filledVolume, wettedArea, planformArea := None, None, None, None;
      planformCenter, averageRadius := None, None;
    }

    /** `clearProperties`: every cached property becomes NaN. */
    method ClearProperties()
      requires numDivs >= 4
      modifies this`unfilledInertia, this`filledInertia, this`unfilledCm, this`filledCm, this`unfilledVolume
      modifies this`filledVolume, this`wettedArea, this`planformArea, this`planformCenter, this`averageRadius
      ensures Cleared() && Valid()
    {
      unfilledInertia, filledInertia, unfilledCm, filledCm := None, None, None, None;
      unfilledVolume, filledVolume, wettedArea, planformArea := None, None, None, None;
      planformCenter, averageRadius := None, None;
    }

    /** Every cached property holds the corresponding one of `p`. */
    predicate Holds(p: Properties)
      reads this
    {
      unfilledInertia == p.unfilledInertia && filledInertia == p.filledInertia &&
      unfilledCm == p.unfilledCm && filledCm == p.filledCm &&
      unfilledVolume == p.unfilledVolume && filledVolume == Some(p.filledVolume) &&
      wettedArea == Some(p.wettedArea) && planformArea == Some(p.planformArea) &&
      planformCenter == p.planformCenter && averageRadius == Some(p.averageRadius)
    }

    method Store(p: Properties)
      modifies this`unfilledInertia, this`filledInertia, this`unfilledCm, this`filledCm, this`unfilledVolume
      modifies this`filledVolume, this`wettedArea, this`planformArea, this`planformCenter, this`averageRadius
      ensures Holds(p)
    {
      unfilledInertia, filledInertia, unfilledCm, filledCm := p.unfilledInertia, p.filledInertia, p.unfilledCm, p.filledCm;
      unfilledVolume, filledVolume := p.unfilledVolume, Some(p.filledVolume);
      wettedArea, planformArea := Some(p.wettedArea), Some(p.planformArea);
      planformCenter, averageRadius := p.planformCenter, Some(p.averageRadius);
    }

    /**
     * `calculateProperties`: stores every property for the current dimensions.
     * It clears them first, which leaves no trace since every field is then written.
     */
    method CalculateAll()
      requires numDivs >= 4
      modifies this`unfilledInertia, this`filledInertia, this`unfilledCm, this`filledCm, this`unfilledVolume
      modifies this`filledVolume, this`wettedArea, this`planformArea, this`planformCenter, this`averageRadius
      ensures Calculated() && Valid()
    {
      var p := Current();
      Store(p);
    }

    /** A thickness is clamped as every hollow shape's is, then the properties are recalculated. */
    method SetThickness(t: real)
      requires numDivs >= 4
      modifies this
      ensures thickness == ClampNonNegative(t) && Calculated()
      ensures radius == old(radius) && length == old(length) && shapeParam == old(shapeParam) && filled == old(filled)
    {
      thickness := if t >= 0.0 then t else 0.0;
      CalculateAll();
    }

    method SetLength(l: real)
      requires numDivs >= 4
      modifies this
      ensures length == ClampNonNegative(l) && Calculated()
      ensures radius == old(radius) && thickness == old(thickness) && shapeParam == old(shapeParam) && filled == old(filled)
    {
      length := ClampNonNegative(l);
      CalculateAll();
    }

    method SetRadius(r: real)
      requires numDivs >= 4
      modifies this
      ensures radius == ClampNonNegative(r) && Calculated()
      ensures length == old(length) && thickness == old(thickness) && shapeParam == old(shapeParam) && filled == old(filled)
    {
      radius := ClampNonNegative(r);
      CalculateAll();
    }

    /** Any shape parameter is stored as given. */
    method SetShapeParam(v: real)
      requires numDivs >= 4
      modifies this
      ensures shapeParam == v && Calculated()
      ensures radius == old(radius) && length == old(length) && thickness == old(thickness) && filled == old(filled)
    {
      shapeParam := v;
      CalculateAll();
    }

    /** The reference area is the base's cross-section, π·r². */
    function ReferenceArea(): (r: real)
      reads this
      ensures r == CrossSection(radius)
    {
      Pi * (radius * radius)
    }

    /** The cached getters: each recalculates only when its own field is NaN, then returns that field. */
    method GetUnfilledVolume() returns (r: Option<real>)
      requires Valid()
      modifies this
      ensures r == Current().unfilledVolume && Valid()
      ensures old(unfilledVolume).Some? ==> unchanged(this)
      ensures radius == old(radius) && length == old(length) && thickness == old(thickness)
      ensures shapeParam == old(shapeParam) && filled == old(filled)
    {
      if unfilledVolume.None? {
        CalculateAll();
      }
      r := unfilledVolume;
    }

    method GetFilledVolume() returns (r: real)
      requires Valid()
      modifies this
      ensures r == Current().filledVolume && Valid()
      ensures old(filledVolume).Some? ==> unchanged(this)
      ensures radius == old(radius) && length == old(length) && thickness == old(thickness)
      ensures shapeParam == old(shapeParam) && filled == old(filled)
    {
      if filledVolume.None? {
        CalculateAll();
      }
      r := filledVolume.value;
    }

    method GetUnfilledInertia() returns (r: Option<Mat3>)
      requires Valid()
      modifies this
      ensures r == Current().unfilledInertia && Valid()
      ensures old(unfilledInertia).Some? ==> unchanged(this)
      ensures radius == old(radius) && length == old(length) && thickness == old(thickness)
      ensures shapeParam == old(shapeParam) && filled == old(filled)
    {
      if unfilledInertia.None? {
        CalculateAll();
      }
      r := unfilledInertia;
    }

    method GetFilledInertia() returns (r: Option<Mat3>)
      requires Valid()
      modifies this
      ensures r == Current().filledInertia && Valid()
      ensures old(filledInertia).Some? ==> unchanged(this)
      ensures radius == old(radius) && length == old(length) && thickness == old(thickness)
      ensures shapeParam == old(shapeParam) && filled == old(filled)
    {
      if filledInertia.None? {
        CalculateAll();
      }
      r := filledInertia;
    }

    method GetUnfilledCm() returns (r: Option<Vec3>)
      requires Valid()
      modifies this
      ensures r == Current().unfilledCm && Valid()
      ensures old(unfilledCm).Some? ==> unchanged(this)
      ensures radius == old(radius) && length == old(length) && thickness == old(thickness)
      ensures shapeParam == old(shapeParam) && filled == old(filled)
    {
      if unfilledCm.None? {
        CalculateAll();
      }
      r := unfilledCm;
    }

    /** The solid nosecone's centre of mass is its planform centre (uniform density). */
    method GetFilledCm() returns (r: Option<Vec3>)
      requires Valid()
      modifies this
      ensures r == Current().filledCm && Valid()
      ensures r.Some? ==> Current().planformCenter.Some? && r.value == Vec3(Current().planformCenter.value.x, 0.0, 0.0)
      ensures old(filledCm).Some? ==> unchanged(this)
      ensures radius == old(radius) && length == old(length) && thickness == old(thickness)
      ensures shapeParam == old(shapeParam) && filled == old(filled)
    {
      if filledCm.None? {
        CalculateAll();
      }
      r := filledCm;
    }

    method GetWettedArea() returns (r: real)
      requires Valid()
      modifies this
      ensures r == Current().wettedArea && Valid()
      ensures old(wettedArea).Some? ==> unchanged(this)
      ensures radius == old(radius) && length == old(length) && thickness == old(thickness)
      ensures shapeParam == old(shapeParam) && filled == old(filled)
    {
      if wettedArea.None? {
        CalculateAll();
      }
      r := wettedArea.value;
    }

    method GetPlanformArea() returns (r: real)
      requires Valid()
      modifies this
      ensures r == Current().planformArea && Valid()
      ensures old(planformArea).Some? ==> unchanged(this)
      ensures radius == old(radius) && length == old(length) && thickness == old(thickness)
      ensures shapeParam == old(shapeParam) && filled == old(filled)
    {
      if planformArea.None? {
        CalculateAll();
      }
      r := planformArea.value;
    }

    method GetPlanformCenter() returns (r: Option<Vec3>)
      requires Valid()
      modifies this
      ensures r == Current().planformCenter && Valid()
      ensures old(planformCenter).Some? ==> unchanged(this)
      ensures radius == old(radius) && length == old(length) && thickness == old(thickness)
      ensures shapeParam == old(shapeParam) && filled == old(filled)
    {
      if planformCenter.None? {
        CalculateAll();
      }
      r := planformCenter;
    }

    /** The average radius is the mean of the sampled radii. */
    method GetAverageRadius() returns (r: real)
      requires Valid()
      modifies this
      ensures r == Current().averageRadius == Mean(Samples()) && Valid()
      ensures old(averageRadius).Some? ==> unchanged(this)
      ensures radius == old(radius) && length == old(length) && thickness == old(thickness)
      ensures shapeParam == old(shapeParam) && filled == old(filled)
    {
      if averageRadius.None? {
        CalculateAll();
      }
      r := averageRadius.value;
    }

    /**
     * The mean segment radii on either side of an interior station x, each
     * side sampled evenly on its own; a profile within [0, radius] along the
     * nosecone gives averages within [0, radius].
     */
    function InteriorAverages(x: real): (r: (real, real))
      reads this`radius, this`length, this`shapeParam
      requires numDivs >= 4 && 0.0 < x < length
      ensures (forall s :: 0.0 <= s <= length ==> 0.0 <= profile(radius, length, shapeParam, s) <= radius) ==>
                0.0 <= r.0 <= radius && 0.0 <= r.1 <= radius
    {
      FractionInside(x, length);
      var tip := TipSampleCount(x / length, numDivs);
      SplitKeepsBothSides(x / length, numDivs);
      var base := numDivs - tip;
      var r, l, param := radius, length, shapeParam;
      var prof := s => profile(r, l, param, s);
      var fromTip := EqualSpaced(prof, 0.0, x / (tip as real), tip);
      var toBase := EqualSpaced(prof, x, (length - x) / (base as real), base);
      SidesBounded(prof, x, length, tip, base, radius);
      (SegmentMean(fromTip), SegmentMean(toBase))
    }

    /**
     * `bisectedAverageRadius(x)`, [from the tip, to the base]: before the tip
     * all of the nosecone is on the base side, past the base all of it is on
     * the tip side, and in between each side is sampled separately.
     */
    method BisectedAverageRadius(x: real) returns (r: (real, real))
      requires Valid()
      modifies this
      ensures Valid()
      ensures x <= 0.0 ==> r == (0.0, Current().averageRadius)
      ensures 0.0 < x && x >= length ==> r == (Current().averageRadius, 0.0)
      ensures 0.0 < x < length ==> r == InteriorAverages(x)
      ensures radius == old(radius) && length == old(length) && thickness == old(thickness)
      ensures shapeParam == old(shapeParam) && filled == old(filled)
    {
      if x <= 0.0 {
        var avg := GetAverageRadius();
        return (0.0, avg);
      }
      if x >= length {
        var avg := GetAverageRadius();
        return (avg, 0.0);
      }
      r := InteriorAverages(x);
    }
  }
}
