/**
 * The trapezoidal prism of `shapes/primitives/trapezoidalPrism.cpp`: the solid
 * a fin is cut from. Its origin is the leading corner of the root chord; x runs
 * along the root chord, y along the span and z through the thickness.
 */
module Prisms {
  import opened Wrappers
  import opened Points
  import opened Maths

  /** The area of the trapezoid with parallel sides `root` and `tip` and the given height. */
  function TrapezoidArea(root: real, tip: real, height: real): (r: real)
    ensures root >= 0.0 && tip >= 0.0 && height >= 0.0 ==> r >= 0.0
    ensures root == tip ==> r == root * height
  {
    (root + tip) / 2.0 * height
  }

  function PrismVolume(root: real, tip: real, height: real, thickness: real): (r: real)
    ensures root >= 0.0 && tip >= 0.0 && height >= 0.0 && thickness >= 0.0 ==> r >= 0.0
    ensures thickness == 0.0 || height == 0.0 ==> r == 0.0
  {
    MulNonNegativeIf(TrapezoidArea(root, tip, height), thickness);
    TrapezoidArea(root, tip, height) * thickness
  }

  lemma MulNonNegativeIf(a: real, b: real)
    ensures a >= 0.0 && b >= 0.0 ==> a * b >= 0.0
  {
    if a >= 0.0 && b >= 0.0 {
      MulNonNegative(a, b);
    }
  }

  /** The weighted mean of three values; `None` is the NaN of a zero total weight. */
  function WeightedMean3(v1: real, v2: real, v3: real, w1: real, w2: real, w3: real): (r: Option<real>)
    requires w1 >= 0.0 && w2 >= 0.0 && w3 >= 0.0
    ensures r.None? <==> w1 + w2 + w3 == 0.0
  {
    if w1 + w2 + w3 == 0.0 then None else Some((v1 * w1 + v2 * w2 + v3 * w3) / (w1 + w2 + w3))
  }

  /** A weighted mean of three values lies between their least and greatest. */
  lemma WeightedMeanBounds(v1: real, v2: real, v3: real, w1: real, w2: real, w3: real, lo: real, hi: real)
    requires w1 >= 0.0 && w2 >= 0.0 && w3 >= 0.0 && w1 + w2 + w3 != 0.0
    requires lo <= v1 <= hi && lo <= v2 <= hi && lo <= v3 <= hi
    ensures lo <= WeightedMean3(v1, v2, v3, w1, w2, w3).value <= hi
  {
    SumLower(lo, v1, v2, v3, w1, w2, w3);
    SumUpper(hi, v1, v2, v3, w1, w2, w3);
    DivideBetween(v1 * w1 + v2 * w2 + v3 * w3, w1 + w2 + w3, lo, hi);
  }

  lemma SumLower(lo: real, v1: real, v2: real, v3: real, w1: real, w2: real, w3: real)
    requires w1 >= 0.0 && w2 >= 0.0 && w3 >= 0.0
    requires lo <= v1 && lo <= v2 && lo <= v3
    ensures lo * (w1 + w2 + w3) <= v1 * w1 + v2 * w2 + v3 * w3
  {
    MulNonNegative(v1 - lo, w1);
    MulNonNegative(v2 - lo, w2);
    MulNonNegative(v3 - lo, w3);
  }

  lemma SumUpper(hi: real, v1: real, v2: real, v3: real, w1: real, w2: real, w3: real)
    requires w1 >= 0.0 && w2 >= 0.0 && w3 >= 0.0
    requires v1 <= hi && v2 <= hi && v3 <= hi
    ensures v1 * w1 + v2 * w2 + v3 * w3 <= hi * (w1 + w2 + w3)
  {
    MulNonNegative(hi - v1, w1);
    MulNonNegative(hi - v2, w2);
    MulNonNegative(hi - v3, w3);
  }

  lemma DivideBetween(n: real, s: real, lo: real, hi: real)
    requires s > 0.0 && lo * s <= n <= hi * s
    ensures lo <= n / s <= hi
  {
    var q := n / s;
    assert q * s == n;
    if q < lo {
      MulPositive(lo - q, s);
    }
    if q > hi {
      MulPositive(q - hi, s);
    }
  }

  /** Dividing a product by one of its nonzero factors gives back the other. */
  lemma CancelFactor(x: real, a: real)
    requires a != 0.0
    ensures x * a / a == x
  {
  }

  /**
   * The centroid of the trapezoid, split into the leading triangle, the
   * rectangle under the tip chord and the trailing triangle, each weighted by
   * the absolute value of its area; `None` when every piece is degenerate
   * (the source divides 0 by 0 there).
   */
  /** The three pieces' areas, made non-negative. */
  function PieceAreas(root: real, tip: real, height: real, sweep: real): (real, real, real)
  {
    (Abs(sweep * height / 2.0), Abs(tip * height), Abs((root - sweep - tip) * height / 2.0))
  }

  function PrismCm(root: real, tip: real, height: real, sweep: real): (r: Option<Vec3>)
    ensures var (a1, a2, a3) := PieceAreas(root, tip, height, sweep); r.None? <==> a1 + a2 + a3 == 0.0
    ensures r.Some? ==> r.value.z == 0.0
  {
    var (a1, a2, a3) := PieceAreas(root, tip, height, sweep);
    var rem := root - sweep - tip;
    var x := WeightedMean3(sweep * 2.0 / 3.0, sweep + tip / 2.0, sweep + tip + rem / 3.0, a1, a2, a3);
    var y := WeightedMean3(height / 3.0, height / 2.0, height / 3.0, a1, a2, a3);
    if x.None? || y.None? then None else Some(Vec3(x.value, y.value, 0.0))
  }

  /** The centroid lies between a third and a half of the span. */
  lemma PrismCmSpanwise(root: real, tip: real, height: real, sweep: real)
    requires height >= 0.0
    requires PrismCm(root, tip, height, sweep).Some?
    ensures height / 3.0 <= PrismCm(root, tip, height, sweep).value.y <= height / 2.0
  {
    var (a1, a2, a3) := PieceAreas(root, tip, height, sweep);
    assert PrismCm(root, tip, height, sweep).value.y
        == WeightedMean3(height / 3.0, height / 2.0, height / 3.0, a1, a2, a3).value;
    WeightedMeanBounds(height / 3.0, height / 2.0, height / 3.0, a1, a2, a3, height / 3.0, height / 2.0);
  }

  /** For a prism with no sweep and no overhang (a rectangle), the centroid is its centre. */
  lemma PrismCmOfRectangle(chord: real, height: real)
    requires chord > 0.0 && height > 0.0
    ensures PrismCm(chord, chord, height, 0.0) == Some(Vec3(chord / 2.0, height / 2.0, 0.0))
  {
    var a := chord * height;
    MulPositive(chord, height);
    assert PieceAreas(chord, chord, height, 0.0) == (0.0, a, 0.0);
    MeanOfSingleWeight(0.0 * 2.0 / 3.0, 0.0 + chord / 2.0, 0.0 + chord + (chord - 0.0 - chord) / 3.0, a);
    MeanOfSingleWeight(height / 3.0, height / 2.0, height / 3.0, a);
  }

  lemma MeanOfSingleWeight(v1: real, v2: real, v3: real, w: real)
    requires w > 0.0
    ensures WeightedMean3(v1, v2, v3, 0.0, w, 0.0) == Some(v2)
  {
    assert v1 * 0.0 + v2 * w + v3 * 0.0 == v2 * w;
    CancelFactor(v2, w);
  }

  /**
   * The tensor about the origin corner, per unit density: symmetric, with
   * no coupling between the plane of the fin and its thickness.
   */
  function PrismTensor(root: real, tip: real, height: real, sweep: real, thickness: real): (r: Mat3)
    ensures Symmetric(r)
    ensures r.xz == 0.0 && r.yz == 0.0
  {
    var h, t, lc, ls, lt := height, thickness, root, sweep, tip;
    var ixy := h * h * t / 24.0 * (lc * lc + 2.0 * lc * lt + 2.0 * ls * lc + 3.0 * lt * lt + 6.0 * ls * lt);
    var ixx := h * t * t * t / 24.0 * (lc + lt) + h * h * h * t / 12.0 * (lc + 3.0 * lt);
    var iyy := h * t * t * t / 24.0 * (lc + lt)
      + h * t / 12.0 * (lc * lc * lc + lc * lc * ls + lc * lc * lt + lc * ls * ls + 2.0 * lc * ls * lt
                        + lc * lt * lt + 3.0 * ls * ls * lt + 3.0 * ls * lt * lt + lt * lt * lt);
    var izz := h * t / 12.0 * (h * h * lc + 3.0 * h * h * lt + lc * lc * lc + lc * lc * ls + lc * lc * lt
                               + lc * ls * ls + 2.0 * lc * ls * lt + lc * lt * lt + 3.0 * ls * lt * lt
                               + 3.0 * lt * ls * ls + lt * lt * lt);
    Mat3(ixx, ixy, 0.0, ixy, iyy, 0.0, 0.0, 0.0, izz)
  }

  /**
   * `inertia()`: the corner tensor shifted by `-cm()` with the three-argument
   * `parallel_axis_transform`, the only overload `maths.hpp` declares, whose
   * body is that of `utils/parallelAxis.cpp` (`Maths.ParallelAxisLegacy`).
   */
  function PrismInertia(root: real, tip: real, height: real, sweep: real, thickness: real): (r: Option<Mat3>)
    ensures r.Some? <==> PrismCm(root, tip, height, sweep).Some?
    ensures r.Some? ==>
      LegacyProducts(r.value, PrismTensor(root, tip, height, sweep, thickness), PrismCm(root, tip, height, sweep).value, PrismVolume(root, tip, height, thickness))
  {
    var cm := PrismCm(root, tip, height, sweep);
    if cm.None? then None
    else
      var d, v, c := cm.value, PrismVolume(root, tip, height, thickness), PrismTensor(root, tip, height, sweep, thickness);
      LegacyShiftByNeg(c, d, v);
      Some(ParallelAxisLegacy(c, Neg(d), v))
  }

  /**
   * The products of inertia of `a` are those of `c`, which has no xz or yz
   * product, grown by `v` times the products of `d`'s coordinates.
   */
  predicate LegacyProducts(a: Mat3, c: Mat3, d: Vec3, v: real)
  {
    a.xz == v * (d.x * d.z) && a.yz == v * (d.y * d.z) && a.xy == c.xy + v * (d.x * d.y)
  }

  /** Shifting a tensor without xz and yz products by `-d` grows its products as `LegacyProducts` says. */
  lemma LegacyShiftByNeg(c: Mat3, d: Vec3, v: real)
    requires c.xz == 0.0 && c.yz == 0.0
    ensures LegacyProducts(ParallelAxisLegacy(c, Neg(d), v), c, d, v)
  {
    assert Neg(d).x * Neg(d).y == d.x * d.y && Neg(d).x * Neg(d).z == d.x * d.z && Neg(d).y * Neg(d).z == d.y * d.z;
  }

  /** The shifted tensor stays symmetric. */
  lemma PrismInertiaSymmetric(root: real, tip: real, height: real, sweep: real, thickness: real)
    requires PrismInertia(root, tip, height, sweep, thickness).Some?
    ensures Symmetric(PrismInertia(root, tip, height, sweep, thickness).value)
  {
    var cm := PrismCm(root, tip, height, sweep).value;
    LegacySymmetricIdentity(PrismTensor(root, tip, height, sweep, thickness), Neg(cm), PrismVolume(root, tip, height, thickness));
  }

  /**
   * A 2 by 2 unswept prism of unit thickness has its centre at (1, 1, 0) and
   * volume 4: its product of inertia grows by 4, where the four-argument
   * transform of `utils/maths.cpp` would lower it by 4. The moments agree.
   */
  lemma PrismInertiaOfSquare()
    ensures PrismInertia(2.0, 2.0, 2.0, 0.0, 1.0) == Some(ParallelAxisLegacy(PrismTensor(2.0, 2.0, 2.0, 0.0, 1.0), Vec3(-1.0, -1.0, 0.0), 4.0))
    ensures ShiftedProducts(PrismTensor(2.0, 2.0, 2.0, 0.0, 1.0))
  {
    PrismCmOfRectangle(2.0, 2.0);
    assert PrismVolume(2.0, 2.0, 2.0, 1.0) == 4.0;
    SquareShift(PrismTensor(2.0, 2.0, 2.0, 0.0, 1.0));
  }

  /** The two transforms at displacement (-1, -1, 0) and volume 4: products +4 against -4, equal moments. */
  predicate ShiftedProducts(c: Mat3)
  {
    var d := Vec3(-1.0, -1.0, 0.0);
    var a, m := ParallelAxisLegacy(c, d, 4.0), ParallelAxisTransform(c, d, 4.0, false);
    a.xy == c.xy + 4.0 && m.xy == c.xy - 4.0 && a.xx == m.xx && a.yy == m.yy && a.zz == m.zz
  }

  lemma SquareShift(c: Mat3)
    ensures ShiftedProducts(c)
  {
    LegacyAgainstTransform(c, Vec3(-1.0, -1.0, 0.0), 4.0);
  }

  class TrapezoidalPrism {
    var rootChord: real
    var tipChord: real
    var height: real
    var sweepLength: real
    var thickness: real
    /** `_inertia`; `None` stands for the NaN tensor. */
    var inertiaCache: Option<Mat3>

    /** The cache is never filled: nothing ever assigns a tensor to it. */
    predicate CacheEmpty()
      reads this
    {
      inertiaCache == None
    }

    /** The constructor stores its arguments without clamping. */
    constructor (root: real, tip: real, h: real, sweep: real, t: real)
      ensures rootChord == root && tipChord == tip && height == h && sweepLength == sweep && thickness == t
      ensures CacheEmpty()
    {
      rootChord, tipChord, height, sweepLength, thickness := root, tip, h, sweep, t;
      inertiaCache := None;
    }

    method SetRootChord(length: real)
      modifies this
      ensures rootChord == ClampNonNegative(length) && CacheEmpty()
      ensures tipChord == old(tipChord) && height == old(height) && sweepLength == old(sweepLength) && thickness == old(thickness)
    {
      rootChord := ClampNonNegative(length);
      inertiaCache := None;
    }

    method SetTipChord(length: real)
      modifies this
      ensures tipChord == ClampNonNegative(length) && CacheEmpty()
      ensures rootChord == old(rootChord) && height == old(height) && sweepLength == old(sweepLength) && thickness == old(thickness)
    {
      tipChord := ClampNonNegative(length);
      inertiaCache := None;
    }

    method SetHeight(length: real)
      modifies this
      ensures height == ClampNonNegative(length) && CacheEmpty()
      ensures rootChord == old(rootChord) && tipChord == old(tipChord) && sweepLength == old(sweepLength) && thickness == old(thickness)
    {
      height := ClampNonNegative(length);
      inertiaCache := None;
    }

    /** The sweep may be negative and is stored as given. */
    method SetSweepLength(length: real)
      modifies this
      ensures sweepLength == length && CacheEmpty()
      ensures rootChord == old(rootChord) && tipChord == old(tipChord) && height == old(height) && thickness == old(thickness)
    {
      sweepLength := length;
      inertiaCache := None;
    }

    method SetThickness(t: real)
      modifies this
      ensures thickness == ClampNonNegative(t) && CacheEmpty()
      ensures rootChord == old(rootChord) && tipChord == old(tipChord) && height == old(height) && sweepLength == old(sweepLength)
    {
      thickness := ClampNonNegative(t);
      inertiaCache := None;
    }

    function Area(): real
      reads this
    {
      TrapezoidArea(rootChord, tipChord, height)
    }

    function Volume(): real
      reads this
    {
      PrismVolume(rootChord, tipChord, height, thickness)
    }

    function Cm(): Option<Vec3>
      reads this
    {
      PrismCm(rootChord, tipChord, height, sweepLength)
    }

    /**
     * `inertia()`: returns the cached tensor when there is one, and otherwise
     * computes it without storing it. Since the cache is always empty, every
     * call recomputes.
     */
    method Inertia() returns (r: Option<Mat3>)
      ensures CacheEmpty() ==> r == PrismInertia(rootChord, tipChord, height, sweepLength, thickness)
      ensures !CacheEmpty() ==> r == inertiaCache
    {
      if inertiaCache.Some? {
        r := inertiaCache;
      } else {
        r := PrismInertia(rootChord, tipChord, height, sweepLength, thickness);
      }
    }
  }
}
