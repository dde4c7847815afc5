/** The body tube's dimensions record, `components/bodyTube/hollowCylinder.cpp`. */
module HollowCylinders {
  import opened Maths
  import opened Cylinders

  class HollowCylinder {
    var radius: real
    var height: real
    var thickness: real
    var filled: bool

    /** The default cylinder: unfilled, with every dimension 0. */
    constructor Default()
      ensures radius == 0.0 && height == 0.0 && thickness == 0.0 && !filled
      ensures Volume() == 0.0
    {
      radius := ClampNonNegative(0.0);
      height := ClampNonNegative(0.0);
      thickness := ClampNonNegative(0.0);
      filled := false;
    }

    /** Both constructors go through the clamping setters; the fill defaults to unfilled. */
    constructor (r: real, h: real, t: real, f: bool := false)
      ensures radius == ClampNonNegative(r) && height == ClampNonNegative(h)
      ensures thickness == ClampNonNegative(t) && filled == f
    {
      radius := ClampNonNegative(r);
      height := ClampNonNegative(h);
      thickness := ClampNonNegative(t);
      filled := f;
    }

    method SetRadius(r: real)
      modifies this
      ensures radius == ClampNonNegative(r)
      ensures height == old(height) && thickness == old(thickness) && filled == old(filled)
    {
      radius := ClampNonNegative(r);
    }

    method SetHeight(h: real)
      modifies this
      ensures height == ClampNonNegative(h)
      ensures radius == old(radius) && thickness == old(thickness) && filled == old(filled)
    {
      height := ClampNonNegative(h);
    }

    method SetThickness(t: real)
      modifies this
      ensures thickness == ClampNonNegative(t)
      ensures radius == old(radius) && height == old(height) && filled == old(filled)
    {
      thickness := ClampNonNegative(t);
    }

    method SetFilled(f: bool)
      modifies this
      ensures filled == f
      ensures radius == old(radius) && height == old(height) && thickness == old(thickness)
    {
      filled := f;
    }

    /** The solid volume when filled, otherwise the wall's; never more than the solid volume. */
    function Volume(): (r: real)
      reads this
      ensures filled ==> r == FilledVolume(radius, height)
      ensures !filled ==> r == UnfilledVolume(radius, height, thickness)
      ensures height >= 0.0 ==> r <= FilledVolume(radius, height)
    {
      WallNoMoreThanSolid(radius, height, thickness);
      if filled then height * Pi * (radius * radius)
      else height * Pi * (2.0 * radius * thickness - thickness * thickness)
    }
  }
}
