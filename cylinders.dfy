/**
 * The cylinder primitive of `shapes/cylinder.cpp` with the filled/hollow
 * selection of `shapes/primitives/hollowShape.cpp`, and the body-tube shape of
 * `shapes/components/bodyTube/bodyTube.cpp` that wraps it.
 */
module Cylinders {
  import opened Wrappers
  import opened Points
  import opened Maths
  import opened Prisms

  function FilledVolume(radius: real, length: real): (r: real)
    ensures radius == 0.0 || length == 0.0 ==> r == 0.0
    ensures length >= 0.0 ==> r >= 0.0
  {
    MulNonNegativeIf(length * Pi, radius * radius);
    length * Pi * (radius * radius)
  }

  /** The volume of a tube wall of thickness `thickness`. */
  function UnfilledVolume(radius: real, length: real, thickness: real): (r: real)
    ensures thickness == 0.0 || length == 0.0 ==> r == 0.0
    ensures thickness == radius ==> r == FilledVolume(radius, length)
  {
    length * Pi * (2.0 * radius * thickness - thickness * thickness)
  }

  /** The wall is the solid cylinder minus the bore of radius `radius - thickness`. */
  lemma WallIsCylinderMinusBore(radius: real, length: real, thickness: real)
    ensures UnfilledVolume(radius, length, thickness)
         == FilledVolume(radius, length) - FilledVolume(radius - thickness, length)
  {
    var k := length * Pi;
    assert (radius - thickness) * (radius - thickness) == radius * radius - (2.0 * radius * thickness - thickness * thickness);
    assert k * (radius * radius) - k * (radius * radius - (2.0 * radius * thickness - thickness * thickness))
        == k * (2.0 * radius * thickness - thickness * thickness);
  }

  /** A wall never holds more than the solid cylinder, whatever its thickness. */
  lemma WallNoMoreThanSolid(radius: real, length: real, thickness: real)
    ensures length >= 0.0 ==> UnfilledVolume(radius, length, thickness) <= FilledVolume(radius, length)
  {
    WallIsCylinderMinusBore(radius, length, thickness);
    assert length >= 0.0 ==> FilledVolume(radius - thickness, length) >= 0.0;
  }

  /** The solid cylinder's tensor about its centre, per unit density. */
  function FilledTensor(radius: real, length: real): (r: Mat3)
    ensures r == Diagonal(r.xx, r.yy, r.zz) && r.yy == r.zz
  {
    var vol := FilledVolume(radius, length);
    var longitudinal := vol / 2.0 * (radius * radius);
    var rotational := vol / 12.0 * (length * length + 3.0 * (radius * radius));
    Diagonal(longitudinal, rotational, rotational)
  }

  /** The tube's tensor about its centre, per unit density, with inner radius `radius - thickness`. */
  function UnfilledTensor(radius: real, length: real, thickness: real): (r: Mat3)
    ensures r == Diagonal(r.xx, r.yy, r.zz) && r.yy == r.zz
  {
    var inner := radius - thickness;
    var vol := UnfilledVolume(radius, length, thickness);
    var longitudinal := vol / 2.0 * (radius * radius + inner * inner);
    var rotational := vol / 12.0 * (length * length + 3.0 * (radius * radius + inner * inner));
    Diagonal(longitudinal, rotational, rotational)
  }

  /** A wall as thick as the radius is the solid cylinder. */
  lemma FullWallIsFilled(radius: real, length: real)
    ensures UnfilledVolume(radius, length, radius) == FilledVolume(radius, length)
    ensures UnfilledTensor(radius, length, radius) == FilledTensor(radius, length)
  {
    assert 2.0 * radius * radius - radius * radius == radius * radius;
    assert (radius - radius) * (radius - radius) == 0.0;
  }

  /** A solid cylinder's tensor has non-negative moments. */
  lemma FilledTensorNonNegative(radius: real, length: real)
    requires length >= 0.0
    ensures var t := FilledTensor(radius, length); t.xx >= 0.0 && t.yy >= 0.0
  {
    var vol := FilledVolume(radius, length);
    MulNonNegative(vol / 2.0, radius * radius);
    MulNonNegative(vol / 12.0, length * length + 3.0 * (radius * radius));
  }

  class Cylinder {
    var radius: real
    var length: real
    /** Only the hollow constructor and `SetThickness` set it; the solid constructor leaves it undetermined. */
    var thickness: real
    var filled: bool
    /** `_filledInertia` and `_unfilledInertia`; `None` stands for a tensor with NaN entries. */
    var filledInertia: Option<Mat3>
    var unfilledInertia: Option<Mat3>

    /** Each stored tensor is the one the current dimensions give. */
    predicate Coherent()
      reads this
    {
      (filledInertia.Some? ==> filledInertia.value == FilledTensor(radius, length)) &&
      (unfilledInertia.Some? ==> unfilledInertia.value == UnfilledTensor(radius, length, thickness))
    }

    /** The two-argument constructor: a solid cylinder, through the clamping setters. */
    constructor Solid(r: real, l: real)
      ensures radius == ClampNonNegative(r) && length == ClampNonNegative(l) && filled
      ensures filledInertia == None && unfilledInertia == None
    {
      radius := ClampNonNegative(r);
      length := ClampNonNegative(l);
      filled := true;
      filledInertia, unfilledInertia := None, None;
    }

    /** The three-argument constructor: a hollow cylinder, through the clamping setters. */
    constructor Hollow(r: real, l: real, t: real)
      ensures radius == ClampNonNegative(r) && length == ClampNonNegative(l)
      ensures thickness == ClampNonNegative(t) && !filled
      ensures filledInertia == None && unfilledInertia == None
    {
      radius := ClampNonNegative(r);
      length := ClampNonNegative(l);
      thickness := ClampNonNegative(t);
      filled := false;
      filledInertia, unfilledInertia := None, None;
    }

    method SetRadius(r: real)
      modifies this
      ensures radius == ClampNonNegative(r) && filledInertia == None && unfilledInertia == None
      ensures length == old(length) && thickness == old(thickness) && filled == old(filled)
    {
      filledInertia, unfilledInertia := None, None;
      radius := ClampNonNegative(r);
    }

    method SetLength(l: real)
      modifies this
      ensures length == ClampNonNegative(l) && filledInertia == None && unfilledInertia == None
      ensures radius == old(radius) && thickness == old(thickness) && filled == old(filled)
    {
      filledInertia, unfilledInertia := None, None;
      length := ClampNonNegative(l);
    }

    /** The wall thickness does not affect the solid tensor, whose cache survives. */
    method SetThickness(t: real)
      requires Coherent()
      modifies this
      ensures thickness == ClampNonNegative(t) && unfilledInertia == None
      ensures filledInertia == old(filledInertia) && Coherent()
      ensures radius == old(radius) && length == old(length) && filled == old(filled)
    {
      unfilledInertia := None;
      thickness := ClampNonNegative(t);
    }

    method SetFilled(b: bool)
      modifies this
      ensures filled == b
      ensures radius == old(radius) && length == old(length) && thickness == old(thickness)
      ensures filledInertia == old(filledInertia) && unfilledInertia == old(unfilledInertia)
    {
      filled := b;
    }

    /** `filledInertia()`: the stored tensor when there is one, else computed and stored. */
    method FilledInertia() returns (r: Mat3)
      requires Coherent()
      modifies this
      ensures r == FilledTensor(radius, length) && filledInertia == Some(r) && Coherent()
      ensures radius == old(radius) && length == old(length) && thickness == old(thickness)
      ensures filled == old(filled) && unfilledInertia == old(unfilledInertia)
    {
      if filledInertia.Some? {
        return filledInertia.value;
      }
      r := FilledTensor(radius, length);
      filledInertia := Some(r);
    }

    /** `unfilledInertia()`: the stored tensor when there is one, else computed and stored. */
    method UnfilledInertia() returns (r: Mat3)
      requires Coherent()
      modifies this
      ensures r == UnfilledTensor(radius, length, thickness) && unfilledInertia == Some(r) && Coherent()
      ensures radius == old(radius) && length == old(length) && thickness == old(thickness)
      ensures filled == old(filled) && filledInertia == old(filledInertia)
    {
      if unfilledInertia.Some? {
        return unfilledInertia.value;
      }
      r := UnfilledTensor(radius, length, thickness);
      unfilledInertia := Some(r);
    }

    /** `volume()` of the hollow shape: the solid or the wall volume, as `filled` says. */
    function Volume(): (r: real)
      reads this
      ensures filled ==> r == FilledVolume(radius, length)
      ensures !filled ==> r == UnfilledVolume(radius, length, thickness)
    {
      if filled then FilledVolume(radius, length) else UnfilledVolume(radius, length, thickness)
    }

    /** `inertia()` of the hollow shape: the solid or the wall tensor, as `filled` says. */
    method Inertia() returns (r: Mat3)
      requires Coherent()
      modifies this
      ensures r == (if filled then FilledTensor(radius, length) else UnfilledTensor(radius, length, thickness))
      ensures Coherent()
      ensures radius == old(radius) && length == old(length) && thickness == old(thickness) && filled == old(filled)
    {
      if filled {
        r := FilledInertia();
      } else {
        r := UnfilledInertia();
      }
    }

    /** `cm()` of the hollow shape: both variants default to the origin. */
    function Cm(): (r: Vec3)
      reads this
      ensures r == Zero
    {
      Zero
    }
  }

  /** The cross-section area at a station, π·r(x)² (`AxisymmetricShape::area`); a cylinder's radius is the same everywhere. */
  function CrossSection(radius: real): (r: real)
    ensures r >= 0.0
  {
    MulNonNegative(Pi, radius * radius);
    Pi * (radius * radius)
  }

  /** The body-tube shape's aerodynamic geometry. */
  function WettedArea(radius: real, length: real): (r: real)
    ensures radius >= 0.0 && length >= 0.0 ==> r >= 0.0
    ensures radius == 0.0 || length == 0.0 ==> r == 0.0
  {
    Pi * 2.0 * radius * length
  }

  /** The projected side view: a rectangle one diameter wide. */
  function PlanformArea(radius: real, length: real): (r: real)
    ensures radius >= 0.0 && length >= 0.0 ==> r >= 0.0
    ensures radius == 0.0 || length == 0.0 ==> r == 0.0
  {
    2.0 * radius * length
  }

  /** The reference length is the diameter. */
  function ReferenceLength(radius: real): (r: real)
    ensures r / 2.0 == radius
    ensures radius >= 0.0 ==> r >= radius
  {
    radius * 2.0
  }

  /** The tube's centre of mass sits halfway along its axis. */
  function TubeCm(length: real): (r: Vec3)
    ensures r.y == 0.0 && r.z == 0.0 && 2.0 * r.x == length
  {
    Vec3(length / 2.0, 0.0, 0.0)
  }

  /** The wetted area is the planform area wrapped round the tube: π times it. */
  lemma WettedIsPiTimesPlanform(radius: real, length: real)
    ensures WettedArea(radius, length) == Pi * PlanformArea(radius, length)
  {
  }

  /** The solid volume is the reference area swept along the length. */
  lemma VolumeIsReferenceAreaTimesLength(radius: real, length: real)
    ensures FilledVolume(radius, length) == CrossSection(radius) * length
  {
  }

  /** The reference area is the area of the circle whose diameter is the reference length. */
  lemma ReferenceAreaFromLength(radius: real)
    ensures CrossSection(radius) == Pi * (ReferenceLength(radius) / 2.0) * (ReferenceLength(radius) / 2.0)
  {
  }

  /**
   * `bisectedAverageRadius(x)` as written: the average radius above and below
   * station x. At and before the top it puts the whole radius in the "above"
   * slot, and at and past the bottom in the "below" slot.
   */
  function BisectedAverageRadiusAsWritten(radius: real, length: real, x: real): (r: (real, real))
    ensures x <= 0.0 ==> r == (radius, 0.0)
    ensures 0.0 < x < length ==> r == (radius, radius)
  {
    if x <= 0.0 then (radius, 0.0)
    else if x >= length then (0.0, radius)
    else (radius, radius)
  }

  /** `bisectedAverageRadius(x)` with the end cases in [from top, to bottom] order: nothing lies above the top. */
  function BisectedAverageRadius(radius: real, length: real, x: real): (r: (real, real))
    ensures x <= 0.0 ==> r.0 == 0.0 && r.1 == radius
    ensures 0.0 < x && x >= length ==> r.0 == radius && r.1 == 0.0
    ensures 0.0 < x < length ==> r == (radius, radius)
  {
    if x <= 0.0 then (0.0, radius)
    else if x >= length then (radius, 0.0)
    else (radius, radius)
  }

  /** At the very top of a tube with a radius, the two disagree: as written the empty part above gets the radius. */
  lemma BisectedAsWrittenSwapsEnds(radius: real, length: real)
    requires radius != 0.0
    ensures BisectedAverageRadiusAsWritten(radius, length, 0.0).0 == radius
    ensures BisectedAverageRadius(radius, length, 0.0).0 == 0.0
  {
  }

  /** The shapes `setShape` may be handed: a cylinder, or some other shape. */
  datatype ShapeArg = CylinderArg(cylinder: Cylinder) | OtherShape

  class BodyTubeShape {
    var shape: Cylinder

    constructor Solid(r: real, l: real)
      ensures fresh(shape) && shape.filled
      ensures shape.radius == ClampNonNegative(r) && shape.length == ClampNonNegative(l)
    {
      shape := new Cylinder.Solid(r, l);
    }

    constructor Hollow(r: real, l: real, t: real)
      ensures fresh(shape) && !shape.filled
      ensures shape.radius == ClampNonNegative(r) && shape.length == ClampNonNegative(l)
      ensures shape.thickness == ClampNonNegative(t)
    {
      shape := new Cylinder.Hollow(r, l, t);
    }

    /** A cylinder replaces the shape; anything else is refused with an error message (`reported`). */
    method SetShape(s: ShapeArg) returns (reported: bool)
      modifies this
      ensures s.CylinderArg? ==> shape == s.cylinder && !reported
      ensures s.OtherShape? ==> shape == old(shape) && reported
    {
      if s.CylinderArg? {
        shape := s.cylinder;
        reported := false;
      } else {
        reported := true;
      }
    }

    /** The reference area is the cross-section at the top, x = 0. */
    function ReferenceArea(): (r: real)
      reads this, shape
      ensures r == CrossSection(shape.radius)
    {
      CrossSection(shape.radius)
    }

    /** The planform centre is the x of the centre of mass. */
    function PlanformCenter(): (r: real)
      reads this, shape
      ensures r == TubeCm(shape.length).x
    {
      shape.length / 2.0
    }

    /** The average radius (used for damping) is the radius. */
    function AverageRadius(): (r: real)
      reads this, shape
      ensures r == shape.radius
    {
      shape.radius
    }
  }
}
