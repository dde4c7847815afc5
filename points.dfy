/**
 * The three-component vector of `utils/point.cpp`. The same value type stands
 * for the Eigen `Vector3d` that the rest of the simulator passes around.
 */
module Points {
  import opened Wrappers

  datatype Vec3 = Vec3(x: real, y: real, z: real)

  const Zero := Vec3(0.0, 0.0, 0.0)

  /** Why an index operation failed: `std::out_of_range`. */
  datatype IndexError = OutOfRange(index: int)

  /** `operator==`: every component compares equal. */
  function Equal(a: Vec3, b: Vec3): (r: bool)
    ensures r <==> a == b
  {
    a.x == b.x && a.y == b.y && a.z == b.z
  }

  /** `operator!=` is the negation of `operator==`. */
  function NotEqual(a: Vec3, b: Vec3): (r: bool)
    ensures r <==> a != b
  {
    !Equal(a, b)
  }

  /** `operator+`: the origin is its identity. */
  function Add(a: Vec3, b: Vec3): (r: Vec3)
    ensures a == Zero ==> r == b
    ensures b == Zero ==> r == a
  {
    Vec3(a.x + b.x, a.y + b.y, a.z + b.z)
  }

  /** `operator-`: adding back what was subtracted restores the point; the difference is the origin exactly when the points are equal. */
  function Sub(a: Vec3, b: Vec3): (r: Vec3)
    ensures Add(r, b) == a
    ensures r == Zero <==> a == b
  {
    Vec3(a.x - b.x, a.y - b.y, a.z - b.z)
  }

  /** Unary `operator-`: the point that adds to `a` to give the origin. */
  function Neg(a: Vec3): (r: Vec3)
    ensures Add(a, r) == Zero
    ensures a == Zero <==> r == Zero
  {
    Vec3(-a.x, -a.y, -a.z)
  }

  /** `point * factor`: every component multiplied by `factor`. */
  function Scale(a: Vec3, factor: real): (r: Vec3)
    ensures factor == 0.0 ==> r == Zero
    ensures factor == 1.0 ==> r == a
  {
    Vec3(factor * a.x, factor * a.y, factor * a.z)
  }

  /** `factor * point`, declared separately in the source. */
  function ScaleLeft(factor: real, a: Vec3): (r: Vec3)
    ensures r == Scale(a, factor)
  {
    Vec3(factor * a.x, factor * a.y, factor * a.z)
  }

  /** Binary `operator/` as written: each component becomes `factor / component`. */
  function DivAsWritten(a: Vec3, factor: real): (r: Vec3)
    requires a.x != 0.0 && a.y != 0.0 && a.z != 0.0
    ensures r.x * a.x == factor && r.y * a.y == factor && r.z * a.z == factor
  {
    Vec3(factor / a.x, factor / a.y, factor / a.z)
  }

  /** Division as `operator/=` performs it and as `operator/` is evidently meant: each component over `factor`. */
  function Div(a: Vec3, factor: real): (r: Vec3)
    requires factor != 0.0
    ensures Scale(r, factor) == a
  {
    Vec3(a.x / factor, a.y / factor, a.z / factor)
  }

  /** `cross`: the right-handed product, orthogonal to both factors. */
  function Cross(a: Vec3, b: Vec3): (r: Vec3)
    ensures Dot(r, a) == 0.0 && Dot(r, b) == 0.0
    ensures a == b ==> r == Zero
  {
    Vec3(a.y * b.z - b.y * a.z, a.z * b.x - b.z * a.x, a.x * b.y - b.x * a.y)
  }

  /** `dot`: the sum of coordinate products; a point dotted with itself is never negative. */
  function Dot(a: Vec3, b: Vec3): (r: real)
    ensures a == b ==> r >= 0.0
    ensures a == Zero || b == Zero ==> r == 0.0
  {
    a.x * b.x + a.y * b.y + a.z * b.z
  }

  /** Const `operator[]`: 0, 1 and 2 select x, y and z; any other index is out of range. */
  function Component(a: Vec3, index: int): (r: Result<real, IndexError>)
    ensures r.Ok? <==> 0 <= index <= 2
    ensures index == 0 ==> r == Ok(a.x)
    ensures index == 1 ==> r == Ok(a.y)
    ensures index == 2 ==> r == Ok(a.z)
  {
    if index == 0 then Ok(a.x)
    else if index == 1 then Ok(a.y)
    else if index == 2 then Ok(a.z)
    else Err(OutOfRange(index))
  }

  /**
   * The string conversion: the three components, each rendered by `show`
   * (number formatting is a library concern), between parentheses and
   * separated by a comma and a space.
   */
  function Format(a: Vec3, show: real -> string): (r: string)
    ensures |r| == |show(a.x)| + |show(a.y)| + |show(a.z)| + 6
    ensures r[0] == '(' && r[|r| - 1] == ')'
    ensures r[1..1 + |show(a.x)|] == show(a.x)
    ensures r[1 + |show(a.x)|..3 + |show(a.x)|] == ", "
    ensures r[3 + |show(a.x)|..3 + |show(a.x)| + |show(a.y)|] == show(a.y)
    ensures r[|r| - 1 - |show(a.z)|..|r| - 1] == show(a.z)
  {
    "(" + show(a.x) + ", " + show(a.y) + ", " + show(a.z) + ")"
  }

  lemma AddSubInverse(a: Vec3, b: Vec3)
    ensures Sub(Add(a, b), b) == a
    ensures Add(a, Neg(a)) == Zero
  {
  }

  /** `point * f` and `f * point` agree. */
  lemma ScaleCommutes(a: Vec3, f: real)
    ensures Scale(a, f) == ScaleLeft(f, a)
  {
  }

  /** `cross` is anti-commutative, so a vector crossed with itself is zero, and the product is orthogonal to both factors. */
  lemma CrossProperties(a: Vec3, b: Vec3)
    ensures Cross(a, b) == Neg(Cross(b, a))
    ensures Cross(a, a) == Zero
    ensures Dot(Cross(a, b), a) == 0.0
    ensures Dot(Cross(a, b), b) == 0.0
  {
  }

  /** Dividing a scaled vector by the same factor gives it back. */
  lemma DivUndoesScale(a: Vec3, f: real)
    requires f != 0.0
    ensures Div(Scale(a, f), f) == a
  {
    var s := Scale(a, f);
    assert s.x / f == a.x && s.y / f == a.y && s.z / f == a.z;
  }

  /** The binary `/` disagrees with `/=`: halving (2, 2, 2) by 4 gives (2, 2, 2) instead of (0.5, 0.5, 0.5). */
  lemma DivAsWrittenDiffers()
    ensures DivAsWritten(Vec3(2.0, 2.0, 2.0), 4.0) == Vec3(2.0, 2.0, 2.0)
    ensures Div(Vec3(2.0, 2.0, 2.0), 4.0) == Vec3(0.5, 0.5, 0.5)
  {
  }

  /** A `Point` object: the compound operators update its components in place. */
  class Point {
    var x: real
    var y: real
    var z: real

    function Value(): Vec3
      reads this
    {
      Vec3(x, y, z)
    }

    constructor (x0: real, y0: real, z0: real)
      ensures Value() == Vec3(x0, y0, z0)
    {
      x, y, z := x0, y0, z0;
    }

    /** The default constructor builds the origin. */
    constructor Origin()
      ensures Value() == Zero
    {
      x, y, z := 0.0, 0.0, 0.0;
    }

    constructor Copy(p: Point)
      ensures Value() == p.Value()
    {
      x, y, z := p.x, p.y, p.z;
    }

    /** `operator=`: copies the other point unless it is this very object. */
    method Assign(p: Point)
      modifies this
      ensures Value() == old(p.Value())
      ensures p == this ==> Value() == old(Value())
    {
      if p != this {
        x := p.x;
        y := p.y;
        z := p.z;
      }
    }

    /** `operator+=`; the operand may be this very point. */
    method AddAssign(p: Point)
      modifies this
      ensures Value() == Add(old(Value()), old(p.Value()))
    {
      x := x + p.x;
      y := y + p.y;
      z := z + p.z;
    }

    /** `operator-=`; the operand may be this very point. */
    method SubAssign(p: Point)
      modifies this
      ensures Value() == Sub(old(Value()), old(p.Value()))
    {
      x := x - p.x;
      y := y - p.y;
      z := z - p.z;
    }

    method MulAssign(factor: real)
      modifies this
      ensures Value() == Scale(old(Value()), factor)
    {
      x := x * factor;
      y := y * factor;
      z := z * factor;
    }

    method DivAssign(factor: real)
      requires factor != 0.0
      modifies this
      ensures Value() == Div(old(Value()), factor)
    {
      x := x / factor;
      y := y / factor;
      z := z / factor;
    }

    /** Non-const `operator[]` used as an assignment target. */
    method SetComponent(index: int, v: real) returns (r: Result<(), IndexError>)
      modifies this
      ensures r.Ok? <==> 0 <= index <= 2
      ensures r.Ok? ==> Component(Value(), index) == Ok(v)
      ensures forall k :: 0 <= k <= 2 && k != index ==> Component(Value(), k) == Component(old(Value()), k)
    {
      if index == 0 {
        x := v;
      } else if index == 1 {
        y := v;
      } else if index == 2 {
        z := v;
      } else {
        return Err(OutOfRange(index));
      }
      r := Ok(());
    }
  }
}
