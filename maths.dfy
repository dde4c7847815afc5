/**
 * 3x3 tensors and the two parallel-axis transforms: `utils/maths.cpp`
 * (with an inverse direction) and the older `utils/parallelAxis.cpp`.
 */
module Maths {
  import opened Points

  datatype Mat3 = Mat3(xx: real, xy: real, xz: real,
                       yx: real, yy: real, yz: real,
                       zx: real, zy: real, zz: real)

  const ZeroMat := Mat3(0.0, 0.0, 0.0, 0.0, 0.0, 0.0, 0.0, 0.0, 0.0)

  /** `M_PI`; only its sign matters to the proofs. */
  const Pi: real := 3.141592653589793

  /** A diagonal tensor. */
  function Diagonal(xx: real, yy: real, zz: real): Mat3
  {
    Mat3(xx, 0.0, 0.0, 0.0, yy, 0.0, 0.0, 0.0, zz)
  }

  /** `std::max(v, 0.0)`, the clamp every length setter applies. */
  function ClampNonNegative(v: real): (r: real)
    ensures r >= 0.0
    ensures v >= 0.0 ==> r == v
    ensures v < 0.0 ==> r == 0.0
  {
    if v < 0.0 then 0.0 else v
  }

  function Abs(v: real): (r: real)
    ensures r >= 0.0 && (r == v || r == -v)
  {
    if v < 0.0 then -v else v
  }

  function MatAdd(a: Mat3, b: Mat3): Mat3
  {
    Mat3(a.xx + b.xx, a.xy + b.xy, a.xz + b.xz,
         a.yx + b.yx, a.yy + b.yy, a.yz + b.yz,
         a.zx + b.zx, a.zy + b.zy, a.zz + b.zz)
  }

  function MatSub(a: Mat3, b: Mat3): Mat3
  {
    Mat3(a.xx - b.xx, a.xy - b.xy, a.xz - b.xz,
         a.yx - b.yx, a.yy - b.yy, a.yz - b.yz,
         a.zx - b.zx, a.zy - b.zy, a.zz - b.zz)
  }

  function MatScale(a: Mat3, f: real): Mat3
  {
    Mat3(f * a.xx, f * a.xy, f * a.xz,
         f * a.yx, f * a.yy, f * a.yz,
         f * a.zx, f * a.zy, f * a.zz)
  }

  function MatVec(m: Mat3, v: Vec3): Vec3
  {
    Vec3(m.xx * v.x + m.xy * v.y + m.xz * v.z,
         m.yx * v.x + m.yy * v.y + m.yz * v.z,
         m.zx * v.x + m.zy * v.y + m.zz * v.z)
  }

  predicate Symmetric(m: Mat3)
  {
    m.xy == m.yx && m.xz == m.zx && m.yz == m.zy
  }

  /**
   * The tensor that moving a body of the given volume (or mass) by `d` adds,
   * `volume * ((d·d) I - d dᵀ)`, written out entry by entry.
   */
  function ShiftTensor(d: Vec3, volume: real): Mat3
  {
    var xy, xz, yz := -(volume * (d.x * d.y)), -(volume * (d.x * d.z)), -(volume * (d.y * d.z));
    Mat3(volume * (d.y * d.y + d.z * d.z), xy, xz,
         xy, volume * (d.x * d.x + d.z * d.z), yz,
         xz, yz, volume * (d.x * d.x + d.y * d.y))
  }

  lemma MulNonNegative(a: real, b: real)
    requires a >= 0.0 && b >= 0.0
    ensures a * b >= 0.0
  {
  }

  lemma MulPositive(a: real, b: real)
    requires a > 0.0 && b > 0.0
    ensures a * b > 0.0
  {
  }

  /** The added tensor is symmetric, and its diagonal is non-negative for non-negative volume. */
  /** A positive part of a larger positive whole is a fraction strictly between 0 and 1. */
  lemma FractionInUnit(x: real, d: real)
    requires 0.0 < x < d
    ensures 0.0 < x / d < 1.0
  {
    var f := x / d;
    assert f * d == x;
    if f >= 1.0 {
      assert false;
    }
    if f <= 0.0 {
      assert false;
    }
  }

  lemma ShiftTensorShape(d: Vec3, volume: real)
    ensures Symmetric(ShiftTensor(d, volume))
    ensures volume >= 0.0 ==> var r := ShiftTensor(d, volume); r.xx >= 0.0 && r.yy >= 0.0 && r.zz >= 0.0
  {
    if volume >= 0.0 {
      MulNonNegative(volume, d.y * d.y + d.z * d.z);
      MulNonNegative(volume, d.x * d.x + d.z * d.z);
      MulNonNegative(volume, d.x * d.x + d.y * d.y);
    }
  }

  /** `parallel_axis_transform(inertia, translation, volume, inverse)` of `utils/maths.cpp`. */
  function ParallelAxisTransform(inertia: Mat3, d: Vec3, volume: real, inverse: bool): Mat3
  {
    if inverse then MatSub(inertia, ShiftTensor(d, volume)) else MatAdd(inertia, ShiftTensor(d, volume))
  }

  lemma CancelRow(v: real, a: real, b: real, c: real)
    ensures (v * (b * b + c * c)) * a + (-(v * (a * b))) * b + (-(v * (a * c))) * c == 0.0
  {
    assert (v * (b * b + c * c)) * a == v * (a * b) * b + v * (a * c) * c;
  }

  /** The shift added by the forward transform annihilates the displacement direction. */
  lemma ShiftAnnihilatesDisplacement(inertia: Mat3, d: Vec3, volume: real)
    ensures MatVec(MatSub(ParallelAxisTransform(inertia, d, volume, false), inertia), d) == Zero
  {
    var s := ShiftTensor(d, volume);
    assert MatSub(ParallelAxisTransform(inertia, d, volume, false), inertia) == s;
    CancelRow(volume, d.x, d.y, d.z);
    CancelRow(volume, d.y, d.x, d.z);
    CancelRow(volume, d.z, d.x, d.y);
  }

  /** A zero translation or a zero volume leaves the tensor unchanged, in either direction. */
  lemma TransformIdentityCases(inertia: Mat3, d: Vec3, volume: real, inverse: bool)
    requires d == Zero || volume == 0.0
    ensures ParallelAxisTransform(inertia, d, volume, inverse) == inertia
  {
    assert ShiftTensor(d, volume) == ZeroMat;
  }

  /** The inverse transform undoes the forward one with the same displacement and volume. */
  lemma TransformRoundTrip(inertia: Mat3, d: Vec3, volume: real)
    ensures ParallelAxisTransform(ParallelAxisTransform(inertia, d, volume, false), d, volume, true) == inertia
  {
  }

  /** A symmetric tensor stays symmetric. */
  lemma TransformKeepsSymmetry(inertia: Mat3, d: Vec3, volume: real, inverse: bool)
    requires Symmetric(inertia)
    ensures Symmetric(ParallelAxisTransform(inertia, d, volume, inverse))
  {
  }

  /** The older `parallel_axis_transform(inertia, translation, volume)` of `utils/parallelAxis.cpp`, as written. */
  function ParallelAxisLegacy(inertia: Mat3, d: Vec3, volume: real): Mat3
  {
    var x2, y2, z2 := d.x * d.x, d.y * d.y, d.z * d.z;
    var t := Mat3(y2 + z2, d.x * d.y, d.x * d.z,
                  d.x * d.y, x2 + z2, d.y * d.z,
                  d.x * d.z, d.y * d.z, x2 + y2);
    MatAdd(inertia, MatScale(t, volume))
  }

  /**
   * The legacy variant adds the same diagonal as `ParallelAxisTransform` but
   * each off-diagonal term with the opposite sign.
   */
  lemma LegacyAgainstTransform(inertia: Mat3, d: Vec3, volume: real)
    ensures var a, b := ParallelAxisLegacy(inertia, d, volume), ParallelAxisTransform(inertia, d, volume, false);
      a.xx == b.xx && a.yy == b.yy && a.zz == b.zz &&
      a.xy - inertia.xy == -(b.xy - inertia.xy) &&
      a.xz - inertia.xz == -(b.xz - inertia.xz) &&
      a.yz - inertia.yz == -(b.yz - inertia.yz)
  {
    LegacyDiagonal(inertia, d, volume);
    LegacyOffDiagonal(inertia, d, volume);
  }

  /** The legacy variant adds the shift tensor's diagonal. */
  lemma LegacyDiagonal(inertia: Mat3, d: Vec3, volume: real)
    ensures var a, s := ParallelAxisLegacy(inertia, d, volume), ShiftTensor(d, volume);
      a.xx == inertia.xx + s.xx && a.yy == inertia.yy + s.yy && a.zz == inertia.zz + s.zz
  {
  }

  /** The legacy variant subtracts the shift tensor's off-diagonal terms. */
  lemma LegacyOffDiagonal(inertia: Mat3, d: Vec3, volume: real)
    ensures var a, s := ParallelAxisLegacy(inertia, d, volume), ShiftTensor(d, volume);
      a.xy == inertia.xy - s.xy && a.xz == inertia.xz - s.xz && a.yz == inertia.yz - s.yz
  {
  }

  /** The legacy variant keeps symmetry and is the identity for a zero displacement. */
  lemma LegacySymmetricIdentity(inertia: Mat3, d: Vec3, volume: real)
    ensures Symmetric(inertia) ==> Symmetric(ParallelAxisLegacy(inertia, d, volume))
    ensures d == Zero ==> ParallelAxisLegacy(inertia, d, volume) == inertia
  {
  }

  lemma LegacyAtUnitDiagonal()
    ensures ParallelAxisLegacy(ZeroMat, Vec3(1.0, 1.0, 0.0), 1.0) == Mat3(1.0, 1.0, 0.0, 1.0, 1.0, 0.0, 0.0, 0.0, 2.0)
  {
  }

  /**
   * The legacy sign breaks the parallel-axis theorem: a unit point mass at
   * (1, 1, 0) gets a tensor that maps its own displacement to (2, 2, 0)
   * instead of to zero (compare `ShiftAnnihilatesDisplacement`).
   */
  lemma LegacyCounterexample()
    ensures MatVec(ParallelAxisLegacy(ZeroMat, Vec3(1.0, 1.0, 0.0), 1.0), Vec3(1.0, 1.0, 0.0)) == Vec3(2.0, 2.0, 0.0)
  {
    LegacyAtUnitDiagonal();
  }
}
