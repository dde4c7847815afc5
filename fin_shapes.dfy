/**
 * The planform geometry of a trapezoidal fin,
 * `shapes/components/fins/trapezoidalFin.cpp`, which wraps a trapezoidal prism.
 */
module FinShapes {
  import opened Wrappers
  import opened Points
  import opened Maths
  import opened Prisms

  /**
   * The chord at span position `y`, interpolated linearly between the root
   * chord (y = 0) and the tip chord (y = height); `None` where the source
   * divides by a zero height.
   */
  function Chord(root: real, tip: real, height: real, y: real): (r: Option<real>)
    ensures r.Some? <==> height != 0.0
    ensures r.Some? ==> r.value == root + (tip - root) * (y / height)
  {
    if height == 0.0 then None
    else
      var ratio := y / height;
      Some((1.0 - ratio) * root + ratio * tip)
  }

  /** The chord is the root chord at the root and the tip chord at the tip. */
  lemma ChordEnds(root: real, tip: real, height: real)
    requires height != 0.0
    ensures Chord(root, tip, height, 0.0) == Some(root)
    ensures Chord(root, tip, height, height) == Some(tip)
  {
    assert height / height == 1.0;
  }

  /** The planform area is the span times the mean of the end chords. */
  lemma AreaIsMeanChordTimesSpan(root: real, tip: real, height: real)
    requires height != 0.0
    ensures TrapezoidArea(root, tip, height)
         == (Chord(root, tip, height, 0.0).value + Chord(root, tip, height, height).value) / 2.0 * height
  {
    ChordEnds(root, tip, height);
  }

  /**
   * `mac()` as written: the leading factor `(2/3)` is integer division and is
   * 0. A zero root chord makes the taper ratio, and with it the product, NaN.
   */
  function MacAsWritten(root: real, tip: real): (r: Option<real>)
    ensures r.Some? <==> root != 0.0
  {
    if root == 0.0 then None
    else
      var taper := tip / root;
      Some(((2 / 3) as real) * root * (1.0 + taper + taper * taper))
  }

  /**
   * The mean aerodynamic chord of a trapezoid with taper ratio
   * λ = tip/root: (2/3)·root·(1 + λ + λ²)/(1 + λ). `None` where a ratio
   * divides by zero.
   */
  function Mac(root: real, tip: real): (r: Option<real>)
    ensures r.Some? <==> root != 0.0 && root + tip != 0.0
  {
    if root == 0.0 || root + tip == 0.0 then None
    else
      var taper := tip / root;
      assert (1.0 + taper) * root == root + tip;
      Some(2.0 / 3.0 * root * (1.0 + taper + taper * taper) / (1.0 + taper))
  }

  /** As written, the mean aerodynamic chord is 0 for every fin with a root chord. */
  lemma MacAsWrittenVanishes(root: real, tip: real)
    requires root != 0.0
    ensures MacAsWritten(root, tip) == Some(0.0)
  {
  }

  /** The mean aerodynamic chord of a rectangular fin is its chord. */
  lemma MacOfRectangle(chord: real)
    requires chord > 0.0
    ensures Mac(chord, chord) == Some(chord)
  {
    assert chord / chord == 1.0;
    assert 2.0 / 3.0 * chord * (1.0 + 1.0 + 1.0 * 1.0) / (1.0 + 1.0) == chord;
  }

  /** For a fin that tapers (0 ≤ tip ≤ root), the mean aerodynamic chord lies between the two chords. */
  lemma MacBetweenChords(root: real, tip: real)
    requires root > 0.0 && 0.0 <= tip <= root
    ensures tip <= Mac(root, tip).value <= root
  {
    var l := tip / root;
    assert l * root == tip;
    assert 0.0 <= l <= 1.0 by {
      if l > 1.0 { MulPositive(l - 1.0, root); }
      if l < 0.0 { MulPositive(-l, root); }
    }
    var q := (1.0 + l + l * l) / (1.0 + l);
    // 1.5λ(1 + λ) ≤ 1 + λ + λ² ≤ 1.5(1 + λ), the gaps being (1 - λ)(2 + λ)/2 and (1 - λ)(1 + 2λ)/2
    MulNonNegative(1.0 - l, 2.0 + l);
    MulNonNegative(1.0 - l, 1.0 + 2.0 * l);
    assert (1.0 - l) * (2.0 + l) == 2.0 - l - l * l;
    assert (1.0 - l) * (1.0 + 2.0 * l) == 1.0 + l - 2.0 * (l * l);
    assert (1.5 * l) * (1.0 + l) == 1.5 * l + 1.5 * (l * l);
    DivideBetween(1.0 + l + l * l, 1.0 + l, 1.5 * l, 1.5);
    var m := 2.0 / 3.0 * q;
    assert Mac(root, tip).value == root * m;
    MulNonNegative(root, 1.0 - m);
    MulNonNegative(root, m - l);
  }

  /**
   * `yMac()` as written: the planform area stands where the span belongs,
   * so the result is area/3·(root + 2·tip)/(root + tip).
   */
  function YMacAsWritten(root: real, tip: real, height: real): (r: Option<real>)
    ensures r.Some? <==> root + tip != 0.0
  {
    if root + tip == 0.0 then None
    else Some(TrapezoidArea(root, tip, height) / 3.0 * (root + 2.0 * tip) / (root + tip))
  }

  /** As written, a broad fin's mean-chord station lands outside the fin. */
  lemma YMacAsWrittenLeavesFin()
    ensures YMacAsWritten(4.0, 4.0, 1.0) == Some(2.0)
  {
  }

  /** The span station of the mean aerodynamic chord: span/3·(root + 2·tip)/(root + tip). */
  function YMac(root: real, tip: real, height: real): (r: Option<real>)
    ensures r.Some? <==> root + tip != 0.0
  {
    if root + tip == 0.0 then None
    else Some(height / 3.0 * (root + 2.0 * tip) / (root + tip))
  }

  /**
   * The station of the mean aerodynamic chord lies within the fin: between a
   * third and two thirds of the span, and in the inner half when the fin tapers.
   */
  lemma YMacWithinFin(root: real, tip: real, height: real)
    requires root >= 0.0 && tip >= 0.0 && root + tip > 0.0 && height >= 0.0
    ensures height / 3.0 <= YMac(root, tip, height).value <= 2.0 * height / 3.0
    ensures tip <= root ==> YMac(root, tip, height).value <= height / 2.0
  {
    var f := (root + 2.0 * tip) / (root + tip);
    DivideBetween(root + 2.0 * tip, root + tip, 1.0, 2.0);
    var h3 := height / 3.0;
    assert YMac(root, tip, height).value == h3 * f;
    MulNonNegative(h3, f - 1.0);
    MulNonNegative(h3, 2.0 - f);
    if tip <= root {
      DivideBetween(root + 2.0 * tip, root + tip, 1.0, 1.5);
      MulNonNegative(h3, 1.5 - f);
    }
  }

  /**
   * `xMacLeadingEdge`: a third of the sweep times `(root + 2·tip)`, divided
   * by the same factor, so the value is sweep/3 (or NaN when the factor is 0).
   */
  function XMacLeadingEdge(root: real, tip: real, sweep: real): (r: Option<real>)
    ensures r.Some? <==> root + 2.0 * tip != 0.0
    ensures r.Some? ==> r.value == sweep / 3.0
  {
    if root + 2.0 * tip == 0.0 then None
    else Some(sweep / 3.0 * (root + 2.0 * tip) / (root + 2.0 * tip))
  }

  /**
   * The sweep angle of the mid-chord line: 0 for a fin without span, else the
   * angle between the horizontal and the line from the root chord's midpoint
   * to the tip chord's midpoint (`acos` of a normalised dot product, here the
   * parameter `angleFromSpanwise`).
   */
  function MidChordSweep(root: real, tip: real, height: real, sweep: real,
                         angleFromSpanwise: (real, real) -> real): (r: real)
    ensures height <= 0.0 ==> r == 0.0
    ensures height > 0.0 ==> r == angleFromSpanwise(height, (sweep + tip / 2.0) - root / 2.0)
  {
    if height <= 0.0 then 0.0 else angleFromSpanwise(height, (sweep + tip / 2.0) - root / 2.0)
  }

  /**
   * The planform centre: halfway along the span, and halfway between the
   * midpoints of the root and tip chords.
   */
  function PlanformCenter(root: real, tip: real, height: real, sweep: real): (r: Vec3)
    ensures r.y == height / 2.0 && r.z == 0.0
    ensures r.x - root / 2.0 == (sweep + tip / 2.0) - r.x
  {
    Vec3((root / 2.0 + (sweep + tip / 2.0)) / 2.0, height / 2.0, 0.0)
  }

  /** For a rectangular fin, the planform centre is the prism's centroid. */
  lemma PlanformCenterOfRectangle(chord: real, height: real)
    requires chord > 0.0 && height > 0.0
    ensures PrismCm(chord, chord, height, 0.0) == Some(PlanformCenter(chord, chord, height, 0.0))
  {
    PrismCmOfRectangle(chord, height);
  }

  /** Anything that can be handed to `setShape`: a trapezoidal prism or some other shape. */
  datatype ShapeArg = PrismArg(prism: TrapezoidalPrism) | OtherShape

  class TrapezoidalFinShape {
    var shape: TrapezoidalPrism

    constructor (root: real, tip: real, h: real, sweep: real, t: real)
      ensures fresh(shape)
      ensures shape.rootChord == root && shape.tipChord == tip && shape.height == h
      ensures shape.sweepLength == sweep && shape.thickness == t
    {
      shape := new TrapezoidalPrism(root, tip, h, sweep, t);
    }

    /** A prism replaces the shape; any other shape is refused with an error message (`reported`). */
    method SetShape(s: ShapeArg) returns (reported: bool)
      modifies this
      ensures s.PrismArg? ==> shape == s.prism && !reported
      ensures s.OtherShape? ==> shape == old(shape) && reported
    {
      if s.PrismArg? {
        shape := s.prism;
        reported := false;
      } else {
        reported := true;
      }
    }

    /** A root chord that is not positive is ignored. */
    method SetRootChord(length: real)
      modifies shape
      ensures length > 0.0 ==> shape.rootChord == length && shape.CacheEmpty()
      ensures length <= 0.0 ==> shape.rootChord == old(shape.rootChord)
      ensures shape.tipChord == old(shape.tipChord) && shape.height == old(shape.height)
      ensures shape.sweepLength == old(shape.sweepLength) && shape.thickness == old(shape.thickness)
    {
      if length > 0.0 {
        shape.SetRootChord(length);
      }
    }

    function YMax(): (r: real)
      reads this, shape
      ensures r == shape.height
    {
      shape.height
    }

    function PlanformArea(): (r: real)
      reads this, shape
      ensures r == shape.Area()
    {
      TrapezoidArea(shape.rootChord, shape.tipChord, shape.height)
    }
  }
}
