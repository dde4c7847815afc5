/**
 * The fin set and the single fin of `rocket/components/fins/finSet.cpp` and
 * `rocket/components/fins/fin.cpp`: the multiple-fin coefficient and the
 * fin-body interference of the set's normal-force slope, the set's damping,
 * surface distance, mass and centreline points, the rotation cache, and the
 * single fin's Mach-regime selection for its normal-force slope and centre of
 * pressure with the cached interpolation coefficients.
 *
 * The fin's planform quantities (span, area, mean aerodynamic chord and its
 * position) come from its shape and are inputs here. The Prandtl factor
 * `Utils::beta(mach)` and the subsonic slope formula are parameters.
 */
module Fins {
  import opened Wrappers
  import opened Points
  import opened Maths

  // ---------------------------------------------------------------- fin set

  /** The multiple-fin coefficient as written: the `switch` sends 8 fins to its default, 1. */
  function FinCountFactorAsWritten(n: int): (r: real)
    ensures 0.75 <= r <= 1.0
    ensures n < 5 || n == 8 ==> r == 1.0
  {
    if n < 5 then 1.0
    else if n > 8 then 0.75
    else if n == 5 then 0.948
    else if n == 6 then 0.913
    else if n == 7 then 0.854
    else 1.0
  }

  /**
   * The multiple-fin coefficient with the 8-fin entry of the Barrowman table
   * the other entries follow (0.81); every other fin count is as written.
   */
  function FinCountFactor(n: int): (r: real)
    ensures 0.75 <= r <= 1.0
    ensures n != 8 ==> r == FinCountFactorAsWritten(n)
    ensures n < 5 ==> r == 1.0
  {
    if n == 8 then 0.81 else FinCountFactorAsWritten(n)
  }

  /** `coeff * N/2`: the fin count's contribution to the set's slope. */
  function EffectiveFins(factor: real, n: int): (r: real)
    ensures factor >= 0.0 && n >= 0 ==> r >= 0.0
    ensures n == 0 || factor == 0.0 ==> r == 0.0
  {
    factor * n as real / 2.0
  }

  /** As written, eight fins contribute more than nine. */
  lemma AsWrittenEightOutweighsNine()
    ensures EffectiveFins(FinCountFactorAsWritten(8), 8) == 4.0
    ensures EffectiveFins(FinCountFactorAsWritten(9), 9) == 3.375
  {
  }

  lemma EffectiveFinsStep(n: int)
    requires n >= 0
    ensures EffectiveFins(FinCountFactor(n), n) <= EffectiveFins(FinCountFactor(n + 1), n + 1)
  {
    if n >= 9 {
      assert EffectiveFins(FinCountFactor(n), n) == 0.75 * n as real / 2.0;
      assert EffectiveFins(FinCountFactor(n + 1), n + 1) == 0.75 * (n + 1) as real / 2.0;
    } else if n < 4 {
      assert EffectiveFins(FinCountFactor(n), n) == n as real / 2.0;
    }
  }

  /** With the corrected table, adding fins never lowers the set's slope factor. */
  lemma {:induction false} EffectiveFinsMonotone(n: int, m: int)
    requires 0 <= n <= m
    ensures EffectiveFins(FinCountFactor(n), n) <= EffectiveFins(FinCountFactor(m), m)
    decreases m - n
  {
    if n < m {
      EffectiveFinsMonotone(n, m - 1);
      EffectiveFinsStep(m - 1);
    }
  }

  /** Fin-body interference: `1 + r/(r + span)`, and 0 when `r + span <= 0`. */
  function Interference(span: real, bodyRadius: real): (r: real)
    ensures span + bodyRadius <= 0.0 ==> r == 0.0
    ensures span + bodyRadius > 0.0 && bodyRadius >= 0.0 ==> 1.0 <= r
    ensures span > 0.0 && bodyRadius >= 0.0 ==> r < 2.0
  {
    if span + bodyRadius <= 0.0 then 0.0
    else
      var share := bodyRadius / (bodyRadius + span);
      assert span > 0.0 && bodyRadius >= 0.0 ==> share < 1.0 by {
        if span > 0.0 && bodyRadius >= 0.0 {
          assert share * (bodyRadius + span) == bodyRadius;
        }
      }
      1.0 + share
  }

  /**
   * `FinSet::calculateC_n_a`: the fin's slope times the multiple-fin factor
   * times `N/2` times the interference factor.
   */
  function SetNormalSlope(finCna: real, n: int, span: real, bodyRadius: real): (r: real)
    ensures span + bodyRadius <= 0.0 || n == 0 ==> r == 0.0
    ensures finCna >= 0.0 && n >= 0 && bodyRadius >= 0.0 ==> r >= 0.0
    ensures n != 8 ==> r == SetNormalSlopeAsWritten(finCna, n, span, bodyRadius)
  {
    var effective := EffectiveFins(FinCountFactor(n), n);
    var interference := Interference(span, bodyRadius);
    assert finCna >= 0.0 && n >= 0 && bodyRadius >= 0.0 ==> finCna * effective * interference >= 0.0 by {
      if finCna >= 0.0 && n >= 0 && bodyRadius >= 0.0 {
        MulNonNegative(finCna, effective);
        MulNonNegative(finCna * effective, interference);
      }
    }
    finCna * effective * interference
  }

  /** `FinSet::calculateC_n_a` as written, with eight fins at the default factor 1. */
  function SetNormalSlopeAsWritten(finCna: real, n: int, span: real, bodyRadius: real): (r: real)
    ensures span + bodyRadius <= 0.0 || n == 0 ==> r == 0.0
  {
    finCna * EffectiveFins(FinCountFactorAsWritten(n), n) * Interference(span, bodyRadius)
  }

  /**
   * As written, a set of eight fins has a steeper slope than a set of nine
   * with the same fin and body: 4 effective fins against 3.375.
   */
  lemma SetNormalSlopeAsWrittenEightOverNine(finCna: real, span: real, bodyRadius: real)
    requires finCna > 0.0 && span + bodyRadius > 0.0 && bodyRadius >= 0.0
    ensures SetNormalSlopeAsWritten(finCna, 9, span, bodyRadius) < SetNormalSlopeAsWritten(finCna, 8, span, bodyRadius)
  {
    AsWrittenEightOutweighsNine();
    var i := Interference(span, bodyRadius);
    assert finCna * 4.0 * i - finCna * 3.375 * i == finCna * i * 0.625;
    MulNonNegative(finCna, i - 1.0);
  }

  /**
   * With the corrected table, more fins of the same shape never lower the
   * set's slope, when the fin's own slope is non-negative.
   */
  lemma SetNormalSlopeMonotone(finCna: real, n: int, m: int, span: real, bodyRadius: real)
    requires 0 <= n <= m && finCna >= 0.0 && bodyRadius >= 0.0
    ensures SetNormalSlope(finCna, n, span, bodyRadius) <= SetNormalSlope(finCna, m, span, bodyRadius)
  {
    EffectiveFinsMonotone(n, m);
    var en := EffectiveFins(FinCountFactor(n), n);
    var em := EffectiveFins(FinCountFactor(m), m);
    var i := Interference(span, bodyRadius);
    MulNonNegative(finCna, em - en);
    MulNonNegative(finCna * (em - en), i);
    assert finCna * em * i - finCna * en * i == finCna * (em - en) * i;
  }

  /** Up to four fins the multiple-fin factor is 1: the set's slope is the fin's times `N/2` times the interference. */
  lemma SetNormalSlopeFewFins(finCna: real, n: int, span: real, bodyRadius: real)
    requires n <= 4
    ensures SetNormalSlope(finCna, n, span, bodyRadius) == finCna * (n as real / 2.0) * Interference(span, bodyRadius)
  {
    assert EffectiveFins(FinCountFactor(n), n) == n as real / 2.0;
  }

  /** `FinSet::calculateC_m_a`: the set has no moment slope of its own. */
  function SetMomentSlope(mach: real, alpha: real, gamma: real): (r: real)
    ensures r == 0.0
  {
    0.0
  }

  /** `std::min(numFins(), 4)`: at most four fins are exposed to the cross-flow. */
  function ExposedFins(n: int): (r: int)
    ensures r <= 4 && r <= n && (r == n || r == 4)
  {
    if n < 4 then n else 4
  }

  /** `FinSet::calculateC_m_damp`. */
  function SetDamping(n: int, finArea: real, bodyRadius: real, yMac: real, referenceArea: real, referenceLength: real): (r: real)
    requires referenceArea * referenceLength != 0.0
    ensures n == 0 || finArea == 0.0 ==> r == 0.0
  {
    0.6 * (ExposedFins(n) as real * finArea * (bodyRadius + yMac)) / (referenceArea * referenceLength)
  }

  /** Beyond four fins the damping no longer grows. */
  lemma DampingSaturates(n: int, finArea: real, bodyRadius: real, yMac: real, referenceArea: real, referenceLength: real)
    requires referenceArea * referenceLength != 0.0
    requires n >= 4
    ensures SetDamping(n, finArea, bodyRadius, yMac, referenceArea, referenceLength)
         == SetDamping(4, finArea, bodyRadius, yMac, referenceArea, referenceLength)
  {
  }

  /**
   * `FinSet::calculateSurfaceDistanceTravelled`: 0 ahead of the set, the
   * fin's maximum at or past the set's lowest point, and the distance from
   * the set's position in between.
   */
  function SurfaceDistance(x: real, position: real, finLowest: real, maxDistance: real): (r: real)
    ensures x < position ==> r == 0.0
    ensures x >= position && x >= position + finLowest ==> r == maxDistance
    ensures position <= x < position + finLowest ==> r == x - position
  {
    if x < position then 0.0
    else if x >= position + finLowest then maxDistance
    else x - position
  }

  /** When the fin's maximum is at least its extent, the distance never decreases along the body and stays within [0, maximum]. */
  lemma SurfaceDistanceMonotone(x1: real, x2: real, position: real, finLowest: real, maxDistance: real)
    requires x1 <= x2 && 0.0 <= finLowest <= maxDistance
    ensures 0.0 <= SurfaceDistance(x1, position, finLowest, maxDistance)
                <= SurfaceDistance(x2, position, finLowest, maxDistance) <= maxDistance
  {
  }

  /** `calculateMass` and `wettedArea`: one fin's value for each fin of the set. */
  function PerSet(single: real, n: int): (r: real)
    ensures n == 0 ==> r == 0.0
    ensures n == 1 ==> r == single
    ensures single >= 0.0 && n >= 0 ==> r >= 0.0
  {
    assert single >= 0.0 && n >= 0 ==> single * n as real >= 0.0 by {
      if single >= 0.0 && n >= 0 { MulNonNegative(single, n as real); }
    }
    single * n as real
  }

  /** `calculateCm` and `calculateCp`: the fin's x offset from the set's position, on the centreline. */
  function OnCentreline(position: Vec3, finPoint: Vec3): (r: Vec3)
    ensures r.x == position.x + finPoint.x
    ensures r.y == position.y && r.z == position.z
  {
    Add(position, Vec3(finPoint.x, 0.0, 0.0))
  }

  /** The angle of each fin's rotation about the x axis, `i · 2π/N` for i < N. */
  function Angles(n: int): (r: seq<real>)
    ensures |r| == (if n < 0 then 0 else n)
    ensures forall i :: 0 <= i < |r| ==> r[i] == i as real * (2.0 * Pi / n as real)
  {
    if n <= 0 then [] else seq(n, i => i as real * (2.0 * Pi / n as real))
  }

  /** A `FinSet`'s fin count and its rotation cache, each rotation represented by its angle. */
  class FinSet {
    var numFins: int
    var rotations: seq<real>

    /** The cache either is empty or holds the rotations for the current count. */
    ghost predicate Valid()
      reads this
    {
      rotations == [] || rotations == Angles(numFins)
    }

    /** The constructor goes through `setNumFins`. */
    constructor (n: int)
      ensures numFins == n && rotations == Angles(n)
      ensures Valid()
    {
      numFins := n;
      rotations := Angles(n);
    }

    /** `finRotations`: the cache when it is non-empty, otherwise freshly built (not stored). */
    function FinRotations(): (r: seq<real>)
      reads this
      ensures |rotations| > 0 ==> r == rotations
      ensures |rotations| == 0 ==> r == Angles(numFins)
    {
      if |rotations| > 0 then rotations else Angles(numFins)
    }

    /** The cache is invisible: under `Valid`, the rotations always match the count. */
    lemma RotationsTransparent()
      requires Valid()
      ensures FinRotations() == Angles(numFins)
    {
    }

    /** `clearCaches` empties the rotation cache. */
    method ClearCaches()
      modifies this
      ensures numFins == old(numFins) && rotations == []
      ensures Valid()
    {
      rotations := [];
    }

    /** `setNumFins`: store the count, clear, then refill the cache with one rotation per fin. */
    method SetNumFins(n: int)
      modifies this
      ensures numFins == n && rotations == Angles(n)
      ensures Valid()
    {
      numFins := n;
      ClearCaches();
      rotations := FinRotations();
    }
  }

  // ------------------------------------------------------------- single fin

  /** The planform quantities the fin takes from its shape. */
  datatype FinGeometry = FinGeometry(yMax: real, planformArea: real, mac: real, yMac: real, xMacLeadingEdge: real)

  /** `Eigen::Array<double, 6, 1>`: coefficient `i` multiplies `mach^i`. */
  type Coeffs = s: seq<real> | |s| == 6 witness [0.0, 0.0, 0.0, 0.0, 0.0, 0.0]

  /**
   * `cpInterpPolyCoeffs` computed from the shape. A zero planform area or a
   * zero common denominator leaves no finite coefficients; that case is None,
   * the NaN the cache treats as empty.
   */
  function PolyCoeffs(g: FinGeometry): (r: Option<Coeffs>)
    ensures r.Some? <==> g.planformArea != 0.0 && 1.0 - 3.4641 * (2.0 * g.yMax / g.planformArea) != 0.0
  {
    if g.planformArea == 0.0 then None
    else
      var ar := 2.0 * g.yMax / g.planformArea;
      var base := 1.0 - 3.4641 * ar;
      if base == 0.0 then None
      else
        PowerNonZero(base, 2);
        var denom := Power(base, 2);
        var c: Coeffs := [ 9.16049 * (-0.588838 + ar) * (-0.20624 + ar) / denom,
               -31.6049 * (-0.705375 + ar) * (-0.198476 + ar) / denom,
               55.3086 * (-0.711482 + ar) * (-0.196772 + ar) / denom,
               -39.5062 * (-0.72074 + ar) * (-0.194245 + ar) / denom,
               12.8395 * (-0.725688 + ar) * (-0.19292 + ar) / denom,
               -1.58025 * (-0.728769 + ar) * (-0.192105 + ar) / denom ];
        Some(c)
  }

  function Power(x: real, k: nat): real
  {
    if k == 0 then 1.0 else x * Power(x, k - 1)
  }

  /** `(coeffs * mach^{0..5}).sum()`. */
  function Polynomial(c: Coeffs, mach: real): (r: real)
    ensures mach == 0.0 ==> r == c[0]
  {
    c[0] + c[1] * Power(mach, 1) + c[2] * Power(mach, 2) + c[3] * Power(mach, 3)
    + c[4] * Power(mach, 4) + c[5] * Power(mach, 5)
  }

  /** `supersonicCNa`, equation 3.49 of the OpenRocket technical documentation, with `b = beta(mach)`. */
  function SupersonicSlope(mach: real, alpha: real, gamma: real, b: real, planformArea: real, referenceArea: real): (r: real)
    requires b != 0.0 && referenceArea != 0.0
    ensures alpha == 0.0 ==> r == planformArea / referenceArea * (2.0 / b)
  {
    PowerNonZero(b, 4);
    PowerNonZero(b, 7);
    var k1 := 2.0 / b;
    var k2 := ((gamma + 1.0) * Power(mach, 4) - 4.0 * Power(b, 2)) / (4.0 * Power(b, 4));
    var k3 := ((gamma + 1.0) * Power(mach, 8) + (2.0 * Power(gamma, 2) - 7.0 * gamma - 5.0) * Power(mach, 6)
               + 10.0 * (gamma + 1.0) * Power(mach, 4) + 8.0) / (6.0 * Power(b, 7));
    planformArea / referenceArea * (k1 + k2 * alpha + k3 * Power(alpha, 2))
  }

  lemma {:induction false} PowerNonZero(x: real, k: nat)
    requires x != 0.0
    ensures Power(x, k) != 0.0
  {
    if k > 0 {
      PowerNonZero(x, k - 1);
    }
  }

  /** `Fin::calculateC_n_a`: the subsonic formula up to Mach 1, the supersonic one above. */
  function FinNormalSlope(mach: real, alpha: real, gamma: real, subsonic: (real, real) -> real,
                          b: real, planformArea: real, referenceArea: real): (r: real)
    requires mach > 1.0 ==> b != 0.0 && referenceArea != 0.0
    ensures mach <= 1.0 ==> r == subsonic(mach, alpha)
    ensures mach > 1.0 ==> r == SupersonicSlope(mach, alpha, gamma, b, planformArea, referenceArea)
  {
    if mach <= 1.0 then subsonic(mach, alpha)
    else SupersonicSlope(mach, alpha, gamma, b, planformArea, referenceArea)
  }

  /**
   * The x of `Fin::calculateCp`: a quarter chord behind the mean chord's
   * leading edge up to Mach 0.5, the interpolation polynomial below Mach 2,
   * and `(AR·b − 0.67)/(2·AR·b − 1)·mac` from Mach 2. None where the source
   * divides by zero or the coefficients are NaN.
   */
  function FinCpX(mach: real, b: real, g: FinGeometry, coeffs: Option<Coeffs>): (r: Option<real>)
    ensures mach <= 0.5 ==> r == Some(g.xMacLeadingEdge + g.mac / 4.0)
    ensures 0.5 < mach < 2.0 ==> (r.Some? <==> coeffs.Some?)
    ensures 0.5 < mach < 2.0 && coeffs.Some? ==> r == Some(Polynomial(coeffs.value, mach))
    ensures mach >= 2.0 ==> (r.Some? <==> g.planformArea != 0.0 && 2.0 * ((2.0 * g.yMax / g.planformArea) * b) - 1.0 != 0.0)
  {
    if mach <= 0.5 then Some(g.xMacLeadingEdge + g.mac / 4.0)
    else if mach < 2.0 then
      if coeffs.Some? then Some(Polynomial(coeffs.value, mach)) else None
    else if g.planformArea == 0.0 then None
    else
      var arb := (2.0 * g.yMax / g.planformArea) * b;
      if 2.0 * arb - 1.0 == 0.0 then None
      else Some(SupersonicCpFraction(arb) * g.mac)
  }

  /**
   * From Mach 2, the centre of pressure's distance behind the mean chord's
   * leading edge as a fraction of that chord, `(AR·b − 0.67)/(2·AR·b − 1)`.
   * Once `AR·b >= 1` it lies between a third (0.33) and a half.
   */
  function SupersonicCpFraction(arb: real): (r: real)
    requires 2.0 * arb - 1.0 != 0.0
    ensures arb >= 1.0 ==> 0.33 <= r <= 0.5
  {
    var d := 2.0 * arb - 1.0;
    var f := (arb - 0.67) / d;
    assert f * d == arb - 0.67;
    if arb >= 1.0 then
      assert 0.33 <= f <= 0.5 by {
        if f < 0.33 { MulStrict(f, 0.33, d); }
        if f > 0.5 { MulStrict(0.5, f, d); }
      }
      f
    else f
  }

  /**
   * From Mach 2, once `AR·b >= 1` the centre of pressure lies between a third
   * and a half of the (non-negative) mean aerodynamic chord behind its
   * leading edge.
   */
  lemma SupersonicCpWithinChord(mach: real, b: real, g: FinGeometry, coeffs: Option<Coeffs>)
    requires mach >= 2.0 && g.planformArea != 0.0 && g.mac >= 0.0
    requires (2.0 * g.yMax / g.planformArea) * b >= 1.0
    ensures FinCpX(mach, b, g, coeffs).Some?
    ensures 0.33 * g.mac <= FinCpX(mach, b, g, coeffs).value <= 0.5 * g.mac
  {
    var arb := (2.0 * g.yMax / g.planformArea) * b;
    MulBetween(0.33, SupersonicCpFraction(arb), 0.5, g.mac);
  }

  /** Multiplying by a positive number keeps a strict order. */
  lemma MulStrict(a: real, b: real, d: real)
    requires a < b && d > 0.0
    ensures a * d < b * d
  {
  }

  /** Multiplying by a non-negative number keeps a chain of bounds. */
  lemma MulBetween(lo: real, f: real, hi: real, m: real)
    requires lo <= f <= hi && m >= 0.0
    ensures lo * m <= f * m <= hi * m
  {
  }

  /** The fin's centre of pressure: the regime's x, the mean chord's span position, and z = 0. */
  function FinCp(mach: real, b: real, g: FinGeometry, coeffs: Option<Coeffs>): (r: Option<Vec3>)
    ensures r.Some? <==> FinCpX(mach, b, g, coeffs).Some?
    ensures r.Some? ==> r.value == Vec3(FinCpX(mach, b, g, coeffs).value, g.yMac, 0.0)
  {
    match FinCpX(mach, b, g, coeffs)
    case Some(x) => Some(Vec3(x, g.yMac, 0.0))
    case None => None
  }

  /** The shapes `Fin::setShape` may be handed. */
  datatype Shape = FinShape(geometry: FinGeometry) | OtherShape

  /** `setShape` from a generic shape as written: (accepted, error printed); the message follows success too. */
  function SetShapeAsWritten(s: Shape): (r: (bool, bool))
    ensures r.0 <==> s.FinShape?
  {
    (s.FinShape?, true)
  }

  lemma SetShapeAsWrittenReportsSuccess(g: FinGeometry)
    ensures SetShapeAsWritten(FinShape(g)).0 && SetShapeAsWritten(FinShape(g)).1
  {
  }

  /** `setShape` as intended: the error is printed exactly when the shape is refused. */
  function SetShapeOutcome(s: Shape): (r: (bool, bool))
    ensures r.0 <==> s.FinShape?
    ensures r.1 <==> !r.0
  {
    (s.FinShape?, !s.FinShape?)
  }

  /** A `Fin`: its planform and the cached interpolation coefficients. */
  class Fin {
    var geometry: FinGeometry
    var coeffs: Option<Coeffs>

    /** The cache is either cleared (NaN) or holds the coefficients of the current shape. */
    ghost predicate Valid()
      reads this
    {
      coeffs.None? || coeffs == PolyCoeffs(geometry)
    }

    /** The constructor goes through `setShape`. */
    constructor (g: FinGeometry)
      ensures geometry == g && coeffs == PolyCoeffs(g)
      ensures Valid()
    {
      geometry := g;
      coeffs := PolyCoeffs(g);
    }

    /** `cpInterpPolyCoeffs`: the stored coefficients unless they are NaN, otherwise computed (not stored). */
    function CpInterpPolyCoeffs(): (r: Option<Coeffs>)
      reads this
      ensures coeffs.Some? ==> r == coeffs
      ensures coeffs.None? ==> r == PolyCoeffs(geometry)
    {
      if coeffs.Some? then coeffs else PolyCoeffs(geometry)
    }

    /** The cache is invisible: under `Valid`, the coefficients always come from the current shape. */
    lemma CoefficientsTransparent()
      requires Valid()
      ensures CpInterpPolyCoeffs() == PolyCoeffs(geometry)
    {
    }

    /** `clearCaches`: all six coefficients become NaN. */
    method ClearCaches()
      modifies this
      ensures geometry == old(geometry) && coeffs == None
      ensures Valid()
    {
      coeffs := None;
    }

    /** `setShape(FinComponentShape)`: replace the shape, clear, then store the recomputed coefficients. */
    method SetFinShape(g: FinGeometry)
      modifies this
      ensures geometry == g && coeffs == PolyCoeffs(g)
      ensures Valid()
    {
      geometry := g;
      ClearCaches();
      coeffs := CpInterpPolyCoeffs();
    }

    /** `setShape` from a generic shape: a fin shape is taken; any other is refused and reported. */
    method SetShape(s: Shape) returns (reported: bool)
      requires Valid()
      modifies this
      ensures reported == SetShapeOutcome(s).1
      ensures s.FinShape? ==> geometry == s.geometry && coeffs == PolyCoeffs(s.geometry)
      ensures s.OtherShape? ==> geometry == old(geometry) && coeffs == old(coeffs)
      ensures Valid()
    {
      if s.FinShape? {
        SetFinShape(s.geometry);
        reported := false;
      } else {
        reported := true;
      }
    }

    /** `calculateCp` with the current shape and coefficient cache. */
    function Cp(mach: real, b: real): (r: Option<Vec3>)
      reads this
      ensures Valid() ==> r == FinCp(mach, b, geometry, PolyCoeffs(geometry))
    {
      FinCp(mach, b, geometry, CpInterpPolyCoeffs())
    }
  }
}
