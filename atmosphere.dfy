/**
 * Layer selection and table lookup of the U.S. Standard Atmosphere 1976 model
 * in `sim/RealAtmos.cpp`. The tables are sequences of (height, value) pairs
 * with strictly increasing heights, as the source's `std::map`s hold them;
 * `sqrt`, `exp` and `pow` are parameters, and the number-density table the
 * constructor integrates is a parameter of the functions that read it.
 */
module Atmosphere {
  import opened Wrappers
  import Maths

  /** Effective radius of the Earth in metres (Table 2 of the 1976 standard). */
  const R0: real := 6356766.0
  /** Sea-level gravity in m/s² (Table 2). */
  const G0: real := 9.80665
  /** Sea-level molecular weight in kg/kmol (Table 10). */
  const M0: real := 28.9644
  /** The gas constant in N·m/(kmol·K) (Table 2). */
  const RStar: real := 8314.32
  /** Avogadro's number in 1/kmol (Table 2). */
  const NA: real := 602216900000000000000000000.0

  /** A base level of Table 4: molecular-scale temperature, its gradient in K/km, and pressure. */
  datatype GeopLevel = GeopLevel(tm: real, lapse: real, pressure: real)

  predicate Increasing<V>(t: seq<(real, V)>)
  {
    forall i, j :: 0 <= i < j < |t| ==> t[i].0 < t[j].0
  }

  /**
   * `GEOPS` as the source lists it. Each gradient is the one of the layer that
   * ends at that level, matching the upper-level lookup in `pressure`. The
   * base pressure at 51 km is 669.38 Pa.
   */
  const GeopsAsWritten: seq<(real, GeopLevel)> := [
    (0.0, GeopLevel(288.15, -6.5, 101325.0)),
    (11000.0, GeopLevel(216.65, -6.5, 22632.0)),
    (20000.0, GeopLevel(216.65, 0.0, 5474.8)),
    (32000.0, GeopLevel(228.65, 1.0, 868.01)),
    (47000.0, GeopLevel(270.65, 2.8, 110.9)),
    (51000.0, GeopLevel(270.65, 0.0, 669.38)),
    (71000.0, GeopLevel(214.65, -2.8, 3.9564)),
    (84852.0, GeopLevel(186.95, -2.0, 0.37338))]

  /** The same table with the 51 km pressure of Table 4 of the standard, 66.9389 Pa. */
  const Geops: seq<(real, GeopLevel)> := GeopsAsWritten[5 := (51000.0, GeopLevel(270.65, 0.0, 66.9389))]

  /** Molecular-weight ratio against geometric height (Table 8). */
  const MolecularWeightRatio: seq<(real, real)> := [
    (0.0, 1.0), (80000.0, 1.0), (80500.0, 0.999996), (81000.0, 0.999989),
    (81500.0, 0.999971), (82000.0, 0.999941), (82500.0, 0.999909), (83000.0, 0.99987),
    (83500.0, 0.999829), (84000.0, 0.999786), (84500.0, 0.999741), (85000.0, 0.999694),
    (85500.0, 0.999641), (86000.0, 0.999579)]

  /** Pressure falls with every base level of the table. */
  predicate PressureFalls(t: seq<(real, GeopLevel)>)
  {
    forall i :: 0 < i < |t| ==> t[i].1.pressure < t[i - 1].1.pressure
  }

  /** The listed 51 km pressure is above the 47 km one, so the listed pressures do not fall. */
  lemma GeopsAsWrittenPressureRises()
    ensures !PressureFalls(GeopsAsWritten)
    ensures GeopsAsWritten[5].1.pressure > GeopsAsWritten[4].1.pressure
  {
  }

  /** With the standard's value every level's pressure is below the one beneath it. */
  lemma GeopsPressureFalls()
    ensures PressureFalls(Geops) && Increasing(Geops)
    ensures forall i :: 0 <= i < |Geops| && i != 5 ==> Geops[i] == GeopsAsWritten[i]
  {
  }

  lemma TablesIncreasing()
    ensures Increasing(GeopsAsWritten) && Increasing(MolecularWeightRatio)
  {
  }

  /** The two-point `interp`: the line through (x0, y0) and (x1, y1). */
  function Interp(x: real, x0: real, x1: real, y0: real, y1: real): (r: real)
    requires x1 != x0
    ensures x == x0 ==> r == y0
    ensures x == x1 ==> r == y1
  {
    var s := (y1 - y0) / (x1 - x0);
    assert s * (x1 - x0) == y1 - y0;
    y0 + (y1 - y0) * (x - x0) / (x1 - x0)
  }

  /** Swapping the two points gives the same line. */
  lemma InterpSymmetric(x: real, x0: real, x1: real, y0: real, y1: real)
    requires x1 != x0
    ensures Interp(x, x0, x1, y0, y1) == Interp(x, x1, x0, y1, y0)
  {
    var s := (y1 - y0) / (x1 - x0);
    DivNegBoth(y1 - y0, x1 - x0);
    InterpSlope(x, x0, x1, y0, y1);
    InterpSlope(x, x1, x0, y1, y0);
    assert y0 - y1 == -(y1 - y0) && x0 - x1 == -(x1 - x0);
    assert (y0 - y1) / (x0 - x1) == s;
    assert s * (x1 - x0) == y1 - y0;
    assert s * (x - x1) == s * (x - x0) - s * (x1 - x0);
  }

  /** The line as its value at `x0` plus the slope times the distance from `x0`. */
  lemma InterpSlope(x: real, x0: real, x1: real, y0: real, y1: real)
    requires x1 != x0
    ensures Interp(x, x0, x1, y0, y1) == y0 + (y1 - y0) / (x1 - x0) * (x - x0)
  {
    DivMul(y1 - y0, x - x0, x1 - x0);
  }

  /** Between its two points the line stays between their values. */
  lemma InterpBetween(x: real, x0: real, x1: real, y0: real, y1: real)
    requires x0 < x < x1
    ensures y0 <= y1 ==> y0 <= Interp(x, x0, x1, y0, y1) <= y1
    ensures y1 <= y0 ==> y1 <= Interp(x, x0, x1, y0, y1) <= y0
  {
    var f := (x - x0) / (x1 - x0);
    Maths.FractionInUnit(x - x0, x1 - x0);
    assert (y1 - y0) * (x - x0) / (x1 - x0) == f * (y1 - y0);
    if y0 <= y1 {
      assert (y1 - y0) - f * (y1 - y0) == (1.0 - f) * (y1 - y0);
    } else {
      assert f * (y1 - y0) - (y1 - y0) == (1.0 - f) * (y0 - y1);
    }
  }

  /** `std::map::upper_bound`: the first position whose key is above `val`. */
  function UpperBound<V>(t: seq<(real, V)>, val: real): (r: nat)
    ensures r <= |t|
    ensures forall i :: 0 <= i < r ==> t[i].0 <= val
    ensures r < |t| ==> t[r].0 > val
  {
    if |t| == 0 then 0
    else if t[0].0 > val then 0
    else 1 + UpperBound(t[1..], val)
  }

  lemma {:induction false} UpperBoundSplits<V>(t: seq<(real, V)>, val: real)
    requires Increasing(t)
    ensures forall i :: UpperBound(t, val) <= i < |t| ==> t[i].0 > val
  {
    var u := UpperBound(t, val);
    forall i | u <= i < |t|
      ensures t[i].0 > val
    {
      if i > u {
        assert t[u].0 < t[i].0;
      }
    }
  }

  /** At or above the last key nothing lies above `val`. */
  lemma UpperBoundAtLast<V>(t: seq<(real, V)>, val: real)
    requires Increasing(t) && |t| > 0 && t[|t| - 1].0 <= val
    ensures UpperBound(t, val) == |t|
  {
    UpperBoundSplits(t, val);
  }

  /**
   * The scalar map `interp` as written: `upper_bound` and a post-decrement, so
   * the entry above `val` comes first. Below the first key the decrement
   * leaves the map, and at or above the last key the first point is the end
   * of the map; both are `None`.
   */
  function InterpMapAsWritten(val: real, t: seq<(real, real)>): (r: Option<real>)
    requires Increasing(t)
    ensures r.Some? <==> 0 < UpperBound(t, val) < |t|
  {
    var u := UpperBound(t, val);
    if u == 0 || u == |t| then None
    else Some(Interp(val, t[u].0, t[u - 1].0, t[u].1, t[u - 1].1))
  }

  /**
   * The field-wise overloads take the two entries in key order; by symmetry
   * this agrees with the scalar version wherever both read inside the map.
   */
  function InterpOrdered(val: real, t: seq<(real, real)>): (r: Option<real>)
    requires Increasing(t)
    ensures r == InterpMapAsWritten(val, t)
  {
    var u := UpperBound(t, val);
    if u == 0 || u == |t| then None
    else
      InterpSymmetric(val, t[u - 1].0, t[u].0, t[u - 1].1, t[u].1);
      Some(Interp(val, t[u - 1].0, t[u].0, t[u - 1].1, t[u].1))
  }

  /**
   * The lookup the callers need: linear between neighbouring keys and held
   * at the first or last value outside the table.
   */
  function InterpMap(val: real, t: seq<(real, real)>): (r: real)
    requires |t| > 0 && Increasing(t)
    ensures InterpMapAsWritten(val, t).Some? ==> r == InterpMapAsWritten(val, t).value
    ensures val < t[0].0 ==> r == t[0].1
    ensures val >= t[|t| - 1].0 ==> r == t[|t| - 1].1
  {
    UpperBoundSplits(t, val);
    var u := UpperBound(t, val);
    if u == 0 then t[0].1
    else if u == |t| then t[|t| - 1].1
    else
      InterpSymmetric(val, t[u - 1].0, t[u].0, t[u - 1].1, t[u].1);
      Interp(val, t[u - 1].0, t[u].0, t[u - 1].1, t[u].1)
  }

  /** Inside the table the lookup lies between the two neighbouring values. */
  lemma InterpMapBetween(val: real, t: seq<(real, real)>, i: nat)
    requires Increasing(t) && i + 1 < |t| && t[i].0 <= val < t[i + 1].0
    ensures t[i].1 <= t[i + 1].1 ==> t[i].1 <= InterpMap(val, t) <= t[i + 1].1
    ensures t[i + 1].1 <= t[i].1 ==> t[i + 1].1 <= InterpMap(val, t) <= t[i].1
  {
    UpperBoundSplits(t, val);
    assert UpperBound(t, val) == i + 1;
    if val > t[i].0 {
      InterpBetween(val, t[i].0, t[i + 1].0, t[i].1, t[i + 1].1);
    }
  }

  /** At the last key the written scalar lookup already reads past the end of the map. */
  lemma InterpMapAsWrittenPastEnd()
    ensures InterpMapAsWritten(86000.0, MolecularWeightRatio) == None
    ensures InterpMap(86000.0, MolecularWeightRatio) == 0.999579
  {
    TablesIncreasing();
    UpperBoundAtLast(MolecularWeightRatio, 86000.0);
  }

  /** One field of the GEOPS table, as the field-wise overload reads it. */
  function Field(t: seq<(real, GeopLevel)>, f: GeopLevel -> real): (r: seq<(real, real)>)
    ensures |r| == |t|
    ensures forall i :: 0 <= i < |t| ==> r[i] == (t[i].0, f(t[i].1))
  {
    seq(|t|, i requires 0 <= i < |t| => (t[i].0, f(t[i].1)))
  }

  lemma FieldIncreasing(t: seq<(real, GeopLevel)>, f: GeopLevel -> real)
    requires Increasing(t)
    ensures Increasing(Field(t, f))
  {
  }

  /** The `GEOP_CONSTS` overload: every field interpolated on its own; `None` where it leaves the map. */
  function InterpLevelAsWritten(val: real, t: seq<(real, GeopLevel)>): (r: Option<GeopLevel>)
    requires Increasing(t)
    ensures r.Some? <==> 0 < UpperBound(t, val) < |t|
  {
    var u := UpperBound(t, val);
    if u == 0 || u == |t| then None
    else
      var lo := t[u - 1];
      var hi := t[u];
      Some(GeopLevel(Interp(val, lo.0, hi.0, lo.1.tm, hi.1.tm),
                     Interp(val, lo.0, hi.0, lo.1.lapse, hi.1.lapse),
                     Interp(val, lo.0, hi.0, lo.1.pressure, hi.1.pressure)))
  }

  /** The level lookup held at the end levels, as `InterpMap` is. */
  function InterpLevel(val: real, t: seq<(real, GeopLevel)>): (r: GeopLevel)
    requires |t| > 0 && Increasing(t)
    ensures InterpLevelAsWritten(val, t).Some? ==> r == InterpLevelAsWritten(val, t).value
    ensures val >= t[|t| - 1].0 ==> r == t[|t| - 1].1
  {
    UpperBoundSplits(t, val);
    var u := UpperBound(t, val);
    if u == 0 then t[0].1
    else if u == |t| then t[|t| - 1].1
    else
      var lo := t[u - 1];
      var hi := t[u];
      GeopLevel(Interp(val, lo.0, hi.0, lo.1.tm, hi.1.tm),
                Interp(val, lo.0, hi.0, lo.1.lapse, hi.1.lapse),
                Interp(val, lo.0, hi.0, lo.1.pressure, hi.1.pressure))
  }

  /** The level lookup is the scalar lookup applied field by field. */
  lemma InterpLevelFieldwise(val: real, t: seq<(real, GeopLevel)>)
    requires |t| > 0 && Increasing(t)
    ensures InterpLevel(val, t).tm == InterpMap(val, Field(t, (l: GeopLevel) => l.tm))
    ensures InterpLevel(val, t).lapse == InterpMap(val, Field(t, (l: GeopLevel) => l.lapse))
    ensures InterpLevel(val, t).pressure == InterpMap(val, Field(t, (l: GeopLevel) => l.pressure))
  {
    FieldIncreasing(t, (l: GeopLevel) => l.tm);
    FieldIncreasing(t, (l: GeopLevel) => l.lapse);
    FieldIncreasing(t, (l: GeopLevel) => l.pressure);
    UpperBoundSameKeys(t, Field(t, (l: GeopLevel) => l.tm), val);
    UpperBoundSameKeys(t, Field(t, (l: GeopLevel) => l.lapse), val);
    UpperBoundSameKeys(t, Field(t, (l: GeopLevel) => l.pressure), val);
  }

  lemma {:induction false} UpperBoundSameKeys<V, W>(a: seq<(real, V)>, b: seq<(real, W)>, val: real)
    requires |a| == |b| && forall i :: 0 <= i < |a| ==> a[i].0 == b[i].0
    ensures UpperBound(a, val) == UpperBound(b, val)
  {
    if |a| > 0 && a[0].0 <= val {
      UpperBoundSameKeys(a[1..], b[1..], val);
    }
  }

  /** `std::clamp`. */
  function Clamp(v: real, lo: real, hi: real): (r: real)
    requires lo <= hi
    ensures lo <= r <= hi
    ensures lo <= v <= hi ==> r == v
  {
    if v < lo then lo else if hi < v then hi else v
  }

  /** `H_`: geopotential height from geometric height, equation 19 of the 1976 standard. */
  function GeopotentialHeight(z: real): (r: real)
    requires z > -R0
    ensures z == 0.0 ==> r == 0.0
    ensures z > 0.0 ==> 0.0 < r < z
    ensures z < 0.0 ==> r < z
  {
    var d := R0 + z;
    assert R0 * z / d * d == R0 * z;
    ScaleBelow(R0 * z / d, z, d, R0);
    R0 * z / d
  }

  /** If q·d = R0·z with d = R0 + z, then q sits on the origin's side of z. */
  lemma ScaleBelow(q: real, z: real, d: real, r0: real)
    requires r0 > 0.0 && d == r0 + z && d > 0.0 && q * d == r0 * z
    ensures z > 0.0 ==> 0.0 < q < z
    ensures z < 0.0 ==> q < z
    ensures z == 0.0 ==> q == 0.0
  {
    assert (q - z) * d == -(z * z);
    NegativeFactor(q - z, d);
    MulNonNegative(-q, d);
    MulNonNegative(q, d);
    assert z != 0.0 ==> z * z > 0.0;
    assert z > 0.0 ==> r0 * z > 0.0;
  }

  lemma NegativeFactor(a: real, d: real)
    requires d > 0.0
    ensures a * d < 0.0 ==> a < 0.0
  {
    MulNonNegative(a, d);
  }

  lemma MulNonNegative(a: real, b: real)
    ensures a >= 0.0 && b >= 0.0 ==> a * b >= 0.0
  {
  }

  lemma MulPositive(a: real, b: real)
    requires a > 0.0 && b > 0.0
    ensures a * b > 0.0
  {
  }

  lemma DivNegBoth(a: real, d: real)
    requires d != 0.0
    ensures (-a) / (-d) == a / d
  {
    var q := a / d;
    assert q * d == a;
    assert q * (-d) == -a;
  }

  lemma DivMul(a: real, b: real, d: real)
    requires d != 0.0
    ensures a * b / d == a / d * b
  {
    var q := a / d;
    assert q * d == a;
    assert (q * b) * d == a * b;
  }

  /** `g`: gravity falls off with the square of the distance from the Earth's centre. */
  function Gravity(z: real): (r: real)
    requires z > -R0
    ensures z == 0.0 ==> r == G0
    ensures r > 0.0
    ensures z > 0.0 ==> r < G0
  {
    var ratio := R0 / (R0 + z);
    RatioBelowOne(z);
    G0 * (ratio * ratio)
  }

  lemma RatioBelowOne(z: real)
    requires z > -R0
    ensures R0 / (R0 + z) > 0.0
    ensures z > 0.0 ==> R0 / (R0 + z) * (R0 / (R0 + z)) < 1.0
  {
    var q := R0 / (R0 + z);
    if z > 0.0 {
      Maths.FractionInUnit(R0, R0 + z);
      assert q * q < q * 1.0;
    }
  }

  /** `Tm_`: the molecular-scale temperature interpolated in GEOPS at the geopotential height. */
  function MolecularTemperatureAsWritten(z: real): (r: Option<real>)
    requires z > -R0
    ensures r.Some? <==> 0.0 <= GeopotentialHeight(z) < 84852.0
  {
    TablesIncreasing();
    UpperBoundSplits(GeopsAsWritten, GeopotentialHeight(z));
    var level := InterpLevelAsWritten(GeopotentialHeight(z), GeopsAsWritten);
    if level.Some? then Some(level.value.tm) else None
  }

  /**
   * `Tm_` with the lookup held at the table ends: it agrees with the code
   * wherever the code's lookup is defined, and is 186.95 K from the last
   * level on.
   */
  function MolecularTemperature(z: real): (r: real)
    requires z > -R0
    ensures 0.0 <= GeopotentialHeight(z) < 84852.0 ==> MolecularTemperatureAsWritten(z) == Some(r)
    ensures GeopotentialHeight(z) >= 84852.0 ==> r == 186.95
  {
    GeopsPressureFalls();
    var h := GeopotentialHeight(z);
    SameTemperatureLookup(h);
    InterpLevel(h, Geops).tm
  }

  /** The two GEOPS tables share their heights and temperatures, so the written lookup finds the same temperature in both. */
  lemma SameTemperatureLookup(h: real)
    ensures InterpLevelAsWritten(h, Geops).Some? <==> InterpLevelAsWritten(h, GeopsAsWritten).Some?
    ensures InterpLevelAsWritten(h, Geops).Some? ==>
              InterpLevelAsWritten(h, Geops).value.tm == InterpLevelAsWritten(h, GeopsAsWritten).value.tm
  {
    GeopsPressureFalls();
    TablesIncreasing();
    UpperBoundSameKeys(Geops, GeopsAsWritten, h);
  }

  /**
   * `temperature` as written. Below sea level it computes T − L·h with the
   * tabulated gradient L = −6.5 K/km, so the air cools going down; between
   * 86 and 91 km it reads past the end of both tables (`None`).
   */
  function TemperatureAsWritten(z: real, sqrt: real -> real, exp: real -> real): (r: Option<real>)
    ensures z <= 0.0 || z > 91000.0 ==> r.Some?
  {
    var c := Clamp(z, -5000.0, 1000000.0);
    if c <= 0.0 then
      var h := GeopotentialHeight(c) / 1000.0;
      var base := GeopsAsWritten[0].1;
      Some(base.tm - base.lapse * h)
    else if c <= 91000.0 then
      var c2 := Clamp(c, 0.0, 86000.0);
      TablesIncreasing();
      var ratio := InterpMapAsWritten(c2, MolecularWeightRatio);
      if ratio.None? then None
      else
        var tm := MolecularTemperatureAsWritten(c2);
        if tm.Some? then Some(tm.value * ratio.value) else None
    else Some(UpperTemperature(c, sqrt, exp))
  }

  /** Above 91 km: equation 27 of the standard, the linear 110–120 km layer, and the exponential approach to 1000 K. */
  function UpperTemperature(c: real, sqrt: real -> real, exp: real -> real): (r: real)
    requires 91000.0 < c <= 1000000.0
    ensures 110000.0 < c <= 120000.0 ==> 240.0 <= r <= 360.0
  {
    var zk := c / 1000.0;
    if c <= 110000.0 then
      263.1905 + -76.3232 * sqrt(1.0 - ((zk - 91.0) / 19.9429) * ((zk - 91.0) / 19.9429))
    else if c <= 120000.0 then
      240.0 + 12.0 * (zk - 110.0)
    else
      var r0 := R0 / 1000.0;
      var xi := (zk - 120.0) * (r0 + 120.0) / (r0 + zk);
      1000.0 - (1000.0 - 360.0) * exp(-0.01875 * xi)
  }

  /**
   * `temperature` with the base gradient added (T_b + L_b·h, equation 23 of
   * the standard) and the lookups held at the table ends.
   */
  function Temperature(z: real, sqrt: real -> real, exp: real -> real): (r: real)
    ensures z <= 0.0 ==> r >= 288.15
    ensures 110000.0 < z <= 120000.0 ==> 240.0 <= r <= 360.0
  {
    var c := Clamp(z, -5000.0, 1000000.0);
    if c <= 0.0 then
      var h := GeopotentialHeight(c) / 1000.0;
      var base := Geops[0].1;
      base.tm + base.lapse * h
    else if c <= 91000.0 then
      var c2 := Clamp(c, 0.0, 86000.0);
      TablesIncreasing();
      MolecularTemperature(c2) * InterpMap(c2, MolecularWeightRatio)
    else UpperTemperature(c, sqrt, exp)
  }

  /** Below sea level the written formula gives air colder than at sea level. */
  lemma TemperatureAsWrittenCoolsBelowSeaLevel(z: real, sqrt: real -> real, exp: real -> real)
    requires -5000.0 <= z < 0.0
    ensures TemperatureAsWritten(z, sqrt, exp).Some?
    ensures TemperatureAsWritten(z, sqrt, exp).value < 288.15
  {
    var h := GeopotentialHeight(z) / 1000.0;
    assert h < 0.0;
  }

  /** As written, at or below sea level the temperature is 288.15 K plus 6.5 K per geopotential km. */
  lemma TemperatureAsWrittenBelowSeaLevel(z: real, sqrt: real -> real, exp: real -> real)
    requires -5000.0 <= z <= 0.0
    ensures TemperatureAsWritten(z, sqrt, exp) == Some(288.15 + 6.5 * (GeopotentialHeight(z) / 1000.0))
  {
  }

  /** Both temperatures hold their value at -5 km below it and their value at 1000 km above it. */
  lemma TemperatureClamped(z: real, sqrt: real -> real, exp: real -> real)
    ensures z < -5000.0 ==> Temperature(z, sqrt, exp) == Temperature(-5000.0, sqrt, exp)
    ensures z > 1000000.0 ==> Temperature(z, sqrt, exp) == Temperature(1000000.0, sqrt, exp)
    ensures z < -5000.0 ==> TemperatureAsWritten(z, sqrt, exp) == TemperatureAsWritten(-5000.0, sqrt, exp)
    ensures z > 1000000.0 ==> TemperatureAsWritten(z, sqrt, exp) == TemperatureAsWritten(1000000.0, sqrt, exp)
  {
  }

  /** With the gradient added, the air below sea level is warmer, 6.5 K per geopotential km. */
  lemma TemperatureWarmsBelowSeaLevel(z: real, sqrt: real -> real, exp: real -> real)
    requires -5000.0 <= z <= 0.0
    ensures Temperature(z, sqrt, exp) == 288.15 - 6.5 * (GeopotentialHeight(z) / 1000.0)
    ensures Temperature(z, sqrt, exp) >= 288.15
    ensures z < 0.0 ==> Temperature(z, sqrt, exp) > 288.15
  {
    var h := GeopotentialHeight(z) / 1000.0;
    assert z < 0.0 ==> h < 0.0;
  }

  /** On (86 km, 91 km] the written temperature reads past the end of its tables. */
  lemma TemperatureAsWrittenUndefinedAbove86km(z: real, sqrt: real -> real, exp: real -> real)
    requires 86000.0 < z <= 91000.0
    ensures TemperatureAsWritten(z, sqrt, exp) == None
  {
    assert Clamp(z, -5000.0, 1000000.0) == z;
    assert Clamp(z, 0.0, 86000.0) == 86000.0;
    InterpMapAsWrittenPastEnd();
  }

  /** Just above the last GEOPS level the corrected lookup holds its temperature. */
  lemma MolecularTemperatureAt86km()
    ensures MolecularTemperature(86000.0) == 186.95
  {
    GeopsPressureFalls();
    var h := GeopotentialHeight(86000.0);
    assert R0 * 86000.0 > 84852.0 * (R0 + 86000.0);
    assert h > 84852.0;
  }

  /** The corrected temperature is the isothermal 86 km value on (86 km, 91 km]. */
  lemma TemperatureIsothermalAbove86km(z: real, sqrt: real -> real, exp: real -> real)
    requires 86000.0 < z <= 91000.0
    ensures Temperature(z, sqrt, exp) == 186.95 * 0.999579
  {
    InterpMapAsWrittenPastEnd();
    MolecularTemperatureAt86km();
    assert Clamp(Clamp(z, -5000.0, 1000000.0), 0.0, 86000.0) == 86000.0;
  }

  /** From 110 to 120 km the temperature rises 12 K per km from 240 K. */
  lemma TemperatureLinearLayer(z: real, sqrt: real -> real, exp: real -> real)
    requires 110000.0 < z <= 120000.0
    ensures Temperature(z, sqrt, exp) == 240.0 + 12.0 * (z / 1000.0 - 110.0)
    ensures 240.0 < Temperature(z, sqrt, exp) <= 360.0
  {
  }

  /**
   * Pressure below 86 km from the level above the geopotential height
   * (`upper_bound`): isothermal levels use the exponential form, the others
   * the power form. A height at or above the last level reads past the map
   * (`None`).
   */
  function LayerPressure(h: real, t: seq<(real, GeopLevel)>, exp: real -> real, pow: (real, real) -> real): (r: Option<real>)
    requires Increasing(t)
    requires forall i :: 0 <= i < |t| ==> t[i].1.tm > 0.0
    ensures r.Some? <==> UpperBound(t, h) < |t|
  {
    var u := UpperBound(t, h);
    if u == |t| then None else Some(LevelPressure(h, t[u], exp, pow))
  }

  /** The pressure formula of the layer whose upper level is `l`, at geopotential height `h`. */
  function LevelPressure(h: real, l: (real, GeopLevel), exp: real -> real, pow: (real, real) -> real): (r: real)
    requires l.1.tm > 0.0
    ensures h == l.0 && (l.1.lapse == 0.0 ==> exp(0.0) == 1.0) && (l.1.lapse != 0.0 ==> pow(1.0, GradientExponent(l)) == 1.0)
            ==> r == l.1.pressure
  {
    if l.1.lapse == 0.0 then
      l.1.pressure * exp(IsothermalExponent(h, l))
    else
      var base := LayerTemperature(h, l);
      assert h == l.0 ==> base == l.1.tm && l.1.tm / base == 1.0;
      l.1.pressure * pow(if base == 0.0 then 0.0 else l.1.tm / base, GradientExponent(l))
  }

  /** The molecular temperature the layer of level `l` gives at geopotential height `h`. */
  function LayerTemperature(h: real, l: (real, GeopLevel)): (r: real)
    ensures h == l.0 || l.1.lapse == 0.0 ==> r == l.1.tm
  {
    l.1.tm + l.1.lapse * (h - l.0) / 1000.0
  }

  /** The exponent of the isothermal formula, `-g0 M0 (h - hb) / (R* Tm)`. */
  function IsothermalExponent(h: real, l: (real, GeopLevel)): (r: real)
    requires l.1.tm > 0.0
    ensures h == l.0 ==> r == 0.0
  {
    -G0 * M0 * (h - l.0) / (RStar * l.1.tm)
  }

  /** The exponent of the gradient formula, `g0 M0 / (R* L)` with `L` in K/m. */
  function GradientExponent(l: (real, GeopLevel)): real
    requires l.1.lapse != 0.0
  {
    G0 * M0 / (RStar * l.1.lapse / 1000.0)
  }

  /**
   * With positive base pressures and a positive `exp` and `pow`, every
   * pressure the layer formula yields is positive, provided the molecular
   * temperature of the layer at that height is positive.
   */
  lemma LayerPressurePositive(h: real, t: seq<(real, GeopLevel)>, exp: real -> real, pow: (real, real) -> real)
    requires Increasing(t)
    requires forall i :: 0 <= i < |t| ==> t[i].1.tm > 0.0 && t[i].1.pressure > 0.0
    requires forall x :: exp(x) > 0.0
    requires forall x, y :: x > 0.0 ==> pow(x, y) > 0.0
    requires UpperBound(t, h) < |t|
    requires LayerTemperature(h, t[UpperBound(t, h)]) > 0.0
    ensures LayerPressure(h, t, exp, pow).Some?
    ensures LayerPressure(h, t, exp, pow).value > 0.0
  {
    var l := t[UpperBound(t, h)];
    if l.1.lapse == 0.0 {
      MulPositive(l.1.pressure, exp(IsothermalExponent(h, l)));
    } else {
      var base := LayerTemperature(h, l);
      DivPositive(l.1.tm, base);
      MulPositive(l.1.pressure, pow(l.1.tm / base, GradientExponent(l)));
    }
  }

  /** A real function that is strictly increasing, as `exp` is. */
  ghost predicate StrictlyIncreasing(f: real -> real)
  {
    forall x, y :: x < y ==> f(x) < f(y)
  }

  /**
   * Inside one isothermal layer, with a positive base pressure and an
   * increasing `exp`, pressure falls strictly as height grows.
   */
  lemma IsothermalLayerPressureFalls(h1: real, h2: real, t: seq<(real, GeopLevel)>, exp: real -> real, pow: (real, real) -> real)
    requires Increasing(t)
    requires forall i :: 0 <= i < |t| ==> t[i].1.tm > 0.0
    requires StrictlyIncreasing(exp)
    requires h1 < h2
    requires UpperBound(t, h1) == UpperBound(t, h2) < |t|
    requires t[UpperBound(t, h1)].1.lapse == 0.0 && t[UpperBound(t, h1)].1.pressure > 0.0
    ensures LayerPressure(h2, t, exp, pow).value < LayerPressure(h1, t, exp, pow).value
  {
    var l := t[UpperBound(t, h1)];
    assert LayerPressure(h1, t, exp, pow).value == LevelPressure(h1, l, exp, pow);
    assert LayerPressure(h2, t, exp, pow).value == LevelPressure(h2, l, exp, pow);
    IsothermalLevelPressureFalls(h1, h2, l, exp, pow);
  }

  lemma IsothermalLevelPressureFalls(h1: real, h2: real, l: (real, GeopLevel), exp: real -> real, pow: (real, real) -> real)
    requires l.1.tm > 0.0 && l.1.lapse == 0.0 && l.1.pressure > 0.0 && h1 < h2
    requires StrictlyIncreasing(exp)
    ensures LevelPressure(h2, l, exp, pow) < LevelPressure(h1, l, exp, pow)
  {
    IsothermalExponentFalls(h1, h2, l);
    MulLess(l.1.pressure, exp(IsothermalExponent(h2, l)), exp(IsothermalExponent(h1, l)));
  }

  lemma IsothermalExponentFalls(h1: real, h2: real, l: (real, GeopLevel))
    requires l.1.tm > 0.0 && h1 < h2
    ensures IsothermalExponent(h2, l) < IsothermalExponent(h1, l)
  {
    var d := RStar * l.1.tm;
    MulPositive(RStar, l.1.tm);
    MulLess(G0 * M0, h1 - l.0, h2 - l.0);
    DivLess(G0 * M0 * (h1 - l.0), G0 * M0 * (h2 - l.0), d);
    assert -G0 * M0 * (h1 - l.0) / d == -(G0 * M0 * (h1 - l.0) / d);
    assert -G0 * M0 * (h2 - l.0) / d == -(G0 * M0 * (h2 - l.0) / d);
  }

  /**
   * Inside one layer with a non-zero gradient, with a positive base pressure,
   * a positive layer temperature at both heights, and a `pow` that grows in
   * its base for a positive exponent and shrinks for a negative one,
   * pressure falls strictly as height grows.
   */
  lemma GradientLayerPressureFalls(h1: real, h2: real, t: seq<(real, GeopLevel)>, exp: real -> real, pow: (real, real) -> real)
    requires Increasing(t)
    requires forall i :: 0 <= i < |t| ==> t[i].1.tm > 0.0
    requires forall x1, x2, e :: 0.0 < x1 < x2 && e > 0.0 ==> pow(x1, e) < pow(x2, e)
    requires forall x1, x2, e :: 0.0 < x1 < x2 && e < 0.0 ==> pow(x1, e) > pow(x2, e)
    requires h1 < h2
    requires UpperBound(t, h1) == UpperBound(t, h2) < |t|
    requires t[UpperBound(t, h1)].1.lapse != 0.0 && t[UpperBound(t, h1)].1.pressure > 0.0
    requires LayerTemperature(h1, t[UpperBound(t, h1)]) > 0.0
    requires LayerTemperature(h2, t[UpperBound(t, h1)]) > 0.0
    ensures LayerPressure(h2, t, exp, pow).value < LayerPressure(h1, t, exp, pow).value
  {
    var l := t[UpperBound(t, h1)];
    assert LayerPressure(h1, t, exp, pow).value == LevelPressure(h1, l, exp, pow);
    assert LayerPressure(h2, t, exp, pow).value == LevelPressure(h2, l, exp, pow);
    GradientLevelPressureFalls(h1, h2, l, exp, pow);
  }

  lemma GradientLevelPressureFalls(h1: real, h2: real, l: (real, GeopLevel), exp: real -> real, pow: (real, real) -> real)
    requires l.1.tm > 0.0 && l.1.lapse != 0.0 && l.1.pressure > 0.0 && h1 < h2
    requires forall x1, x2, e :: 0.0 < x1 < x2 && e > 0.0 ==> pow(x1, e) < pow(x2, e)
    requires forall x1, x2, e :: 0.0 < x1 < x2 && e < 0.0 ==> pow(x1, e) > pow(x2, e)
    requires LayerTemperature(h1, l) > 0.0 && LayerTemperature(h2, l) > 0.0
    ensures LevelPressure(h2, l, exp, pow) < LevelPressure(h1, l, exp, pow)
  {
    GradientLevelPressure(h1, l, exp, pow);
    GradientLevelPressure(h2, l, exp, pow);
    GradientRatioFalls(h1, h2, l, pow);
  }

  lemma GradientLevelPressure(h: real, l: (real, GeopLevel), exp: real -> real, pow: (real, real) -> real)
    requires l.1.tm > 0.0 && l.1.lapse != 0.0 && LayerTemperature(h, l) > 0.0
    ensures LevelPressure(h, l, exp, pow) == l.1.pressure * pow(l.1.tm / LayerTemperature(h, l), GradientExponent(l))
  {
  }

  lemma GradientRatioFalls(h1: real, h2: real, l: (real, GeopLevel), pow: (real, real) -> real)
    requires l.1.tm > 0.0 && l.1.lapse != 0.0 && l.1.pressure > 0.0 && h1 < h2
    requires forall x1, x2, e :: 0.0 < x1 < x2 && e > 0.0 ==> pow(x1, e) < pow(x2, e)
    requires forall x1, x2, e :: 0.0 < x1 < x2 && e < 0.0 ==> pow(x1, e) > pow(x2, e)
    requires LayerTemperature(h1, l) > 0.0 && LayerTemperature(h2, l) > 0.0
    ensures l.1.pressure * pow(l.1.tm / LayerTemperature(h2, l), GradientExponent(l))
          < l.1.pressure * pow(l.1.tm / LayerTemperature(h1, l), GradientExponent(l))
  {
    var b1 := LayerTemperature(h1, l);
    var b2 := LayerTemperature(h2, l);
    var e := GradientExponent(l);
    LayerTemperatureOrder(h1, h2, l);
    GradientExponentSign(l);
    if l.1.lapse > 0.0 {
      DivShrinks(l.1.tm, b1, b2);
      DivPositive(l.1.tm, b2);
      assert pow(l.1.tm / b2, e) < pow(l.1.tm / b1, e);
    } else {
      DivShrinks(l.1.tm, b2, b1);
      DivPositive(l.1.tm, b1);
      assert pow(l.1.tm / b1, e) > pow(l.1.tm / b2, e);
    }
    MulLess(l.1.pressure, pow(l.1.tm / b2, e), pow(l.1.tm / b1, e));
  }

  /** The layer temperature rises with height under a positive lapse rate and falls under a negative one. */
  lemma LayerTemperatureOrder(h1: real, h2: real, l: (real, GeopLevel))
    requires h1 < h2
    ensures l.1.lapse > 0.0 ==> LayerTemperature(h1, l) < LayerTemperature(h2, l)
    ensures l.1.lapse < 0.0 ==> LayerTemperature(h2, l) < LayerTemperature(h1, l)
  {
    var lapse := l.1.lapse;
    if lapse > 0.0 {
      MulLess(lapse, h1 - l.0, h2 - l.0);
      DivLess(lapse * (h1 - l.0), lapse * (h2 - l.0), 1000.0);
    } else if lapse < 0.0 {
      MulLess(-lapse, h1 - l.0, h2 - l.0);
      DivLess(lapse * (h2 - l.0), lapse * (h1 - l.0), 1000.0);
    }
  }

  /** The exponent `g0 M0 / (R* L)` has the sign of the lapse rate. */
  lemma GradientExponentSign(l: (real, GeopLevel))
    requires l.1.lapse != 0.0
    ensures l.1.lapse > 0.0 ==> GradientExponent(l) > 0.0
    ensures l.1.lapse < 0.0 ==> GradientExponent(l) < 0.0
  {
    if l.1.lapse > 0.0 {
      DivPositive(G0 * M0, RStar * l.1.lapse / 1000.0);
    } else {
      DivNegative(G0 * M0, RStar * l.1.lapse / 1000.0);
    }
  }

  lemma MulLess(a: real, x: real, y: real)
    requires a > 0.0 && x < y
    ensures a * x < a * y
  {
    MulPositive(a, y - x);
  }

  lemma DivPositive(a: real, b: real)
    requires a > 0.0 && b > 0.0
    ensures a / b > 0.0
  {
  }

  lemma DivNegative(a: real, d: real)
    requires a > 0.0 && d < 0.0
    ensures a / d < 0.0
  {
    DivNegBoth(a, d);
    DivPositive(a, -d);
    assert (-a) / (-d) == -(a / (-d));
  }

  lemma DivLess(x: real, y: real, d: real)
    requires x < y && d > 0.0
    ensures x / d < y / d
  {
    DivPositive(y - x, d);
    assert (y - x) / d == y / d - x / d;
  }

  lemma DivShrinks(a: real, x: real, y: real)
    requires a > 0.0 && 0.0 < x < y
    ensures a / y < a / x
  {
    assert a / x - a / y == a * (y - x) / (x * y);
    MulPositive(x, y);
    MulPositive(a, y - x);
  }

  /**
   * `pressure`: 0 above 1000 km, the layer formula below 86 km, and the
   * ideal-gas law from the interpolated number density above.
   */
  function Pressure(z: real, t: seq<(real, GeopLevel)>, numberDensity: real -> real,
                    sqrt: real -> real, exp: real -> real, pow: (real, real) -> real): (r: Option<real>)
    requires Increasing(t)
    requires forall i :: 0 <= i < |t| ==> t[i].1.tm > 0.0
    ensures z > 1000000.0 ==> r == Some(0.0)
    ensures 86000.0 <= z <= 1000000.0 ==> r.Some?
  {
    if z > 1000000.0 then Some(0.0)
    else
      var c := Clamp(z, -5000.0, 1000000.0);
      if c < 86000.0 then LayerPressure(GeopotentialHeight(c), t, exp, pow)
      else Some(numberDensity(c) * RStar * Temperature(c, sqrt, exp) / NA)
  }

  /**
   * In the 47–51 km layer the written table yields more than 669 Pa whenever
   * `exp` is at least 1 for non-negative arguments, far above the 110.9 Pa
   * listed for 47 km: pressure jumps up with height there.
   */
  lemma PressureAsWrittenJumpsAt47km(exp: real -> real, pow: (real, real) -> real)
    requires forall x :: x >= 0.0 ==> exp(x) >= 1.0
    ensures var p := LayerPressure(47640.0, GeopsAsWritten, exp, pow);
            p.Some? && p.value >= 669.38 > GeopsAsWritten[4].1.pressure
  {
    TablesIncreasing();
    UpperBoundSplits(GeopsAsWritten, 47640.0);
    assert UpperBound(GeopsAsWritten, 47640.0) == 5;
    var x := -G0 * M0 * (47640.0 - 51000.0) / (RStar * 270.65);
    assert x >= 0.0;
  }

  /** `M_`: the sea-level molecular weight up to 86 km, and the tabulated mean above. */
  function MolecularWeight(z: real, molarTable: seq<(real, real)>): (r: real)
    requires |molarTable| > 0 && Increasing(molarTable)
    ensures z <= 86000.0 ==> r == M0
  {
    if z <= 86000.0 then M0 else InterpMap(z, molarTable)
  }

  /** `K_`: the eddy-diffusion coefficient; `None` stands for the NaN below 86 km. */
  function EddyDiffusion(z: real, exp: real -> real): (r: Option<real>)
    ensures r.None? <==> z < 86000.0
    ensures 86000.0 <= z < 95000.0 ==> r == Some(120.0)
    ensures z >= 115000.0 ==> r == Some(0.0)
  {
    if z < 86000.0 then None
    else if z < 95000.0 then Some(120.0)
    else if z < 115000.0 then
      var d := 400000000.0 - (z - 95000.0) * (z - 95000.0);
      SquareBelow(z - 95000.0, 20000.0);
      Some(120.0 * exp(1.0 - 400000000.0 / d))
    else Some(0.0)
  }

  lemma SquareBelow(x: real, bound: real)
    requires 0.0 <= x < bound
    ensures x * x < bound * bound
  {
    assert bound * bound - x * x == (bound - x) * (bound + x);
    MulPositive(bound - x, bound + x);
  }

  /** `dTdZ_`: the temperature gradient in K/m; `None` stands for the NaN below 86 km. */
  function TemperatureGradient(z: real, sqrt: real -> real, exp: real -> real, pow: (real, real) -> real): (r: Option<real>)
    ensures r.None? <==> z < 86000.0
    ensures 86000.0 <= z < 91000.0 ==> r == Some(0.0)
    ensures 110000.0 <= z < 120000.0 ==> r == Some(0.012)
  {
    if z < 86000.0 then None
    else if z < 91000.0 then Some(0.0)
    else if z < 110000.0 then
      var a := 19942.9;
      var q := (z - 91000.0) / a;
      var s := sqrt(1.0 - q * q);
      Some(if s == 0.0 then 0.0 else 76.3232 / a * q / s)
    else if z < 120000.0 then Some(0.012)
    else if z < 1000000.0 then
      var lam := 0.00001875;
      var xi := (z - 120000.0) * (R0 + 120000.0) / (R0 + z);
      Some(lam * (1000.0 - 360.0) * pow((R0 + 120000.0) / (R0 + z), 2.0) * exp(-lam * xi))
    else Some(0.0)
  }
}
