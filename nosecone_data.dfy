/**
 * Pressure-drag lookup over the nosecone data sets of
 * `components/nosecone/noseconeData.cpp`. A `std::map<double, double>` is a
 * sequence of (Mach, coefficient) pairs with strictly increasing keys; the
 * power function is a parameter.
 */
module NoseconeData {
  import Maths

  type Entry = (real, real)

  /** The key order a `std::map` keeps. */
  predicate StrictlyIncreasing(t: seq<Entry>)
  {
    forall i, j :: 0 <= i < j < |t| ==> t[i].0 < t[j].0
  }

  /** `std::map::lower_bound`: the first position whose key is not below `mach`. */
  function LowerBound(t: seq<Entry>, mach: real): (r: nat)
    ensures r <= |t|
    ensures forall i :: 0 <= i < r ==> t[i].0 < mach
    ensures r < |t| ==> t[r].0 >= mach
  {
    if |t| == 0 then 0
    else if t[0].0 >= mach then 0
    else 1 + LowerBound(t[1..], mach)
  }

  /** In a sorted table every key from the lower bound on is at least `mach`. */
  lemma {:induction false} LowerBoundSplits(t: seq<Entry>, mach: real)
    requires StrictlyIncreasing(t)
    ensures forall i :: LowerBound(t, mach) <= i < |t| ==> t[i].0 >= mach
  {
    var k := LowerBound(t, mach);
    forall i | k <= i < |t|
      ensures t[i].0 >= mach
    {
      if i > k {
        assert t[k].0 < t[i].0;
      }
    }
  }

  /** The position of a key that is in the table. */
  lemma LowerBoundOfKey(t: seq<Entry>, i: nat)
    requires StrictlyIncreasing(t) && i < |t|
    ensures LowerBound(t, t[i].0) == i
  {
    var k := LowerBound(t, t[i].0);
    LowerBoundSplits(t, t[i].0);
  }

  /**
   * `powerInterpCoeffs` as written: the post-increment leaves `firstElem` on
   * the second entry, so the curve cdm0 + a·mach^b is fitted to the second
   * point, with the slope between the first two.
   */
  function PowerCoeffsAsWritten(cdm0: real, t: seq<Entry>, pow: (real, real) -> real): (r: (real, real))
    requires |t| >= 2 && StrictlyIncreasing(t)
    ensures t[1].1 != cdm0 && pow(t[1].0, r.1) != 0.0 ==> cdm0 + r.0 * pow(t[1].0, r.1) == t[1].1
  {
    var slope := (t[0].1 - t[1].1) / (t[0].0 - t[1].0);
    var b := if t[1].1 - cdm0 == 0.0 then 0.0 else t[1].0 * slope / (t[1].1 - cdm0);
    var p := pow(t[1].0, b);
    var a := if p == 0.0 then 0.0 else (t[1].1 - cdm0) / p;
    CancelDivision(t[1].1 - cdm0, p);
    (a, b)
  }

  /**
   * The curve the helper means to build: through the first (lowest-Mach)
   * point, with the slope between the first two points.
   */
  function PowerCoeffs(cdm0: real, t: seq<Entry>, pow: (real, real) -> real): (r: (real, real))
    requires |t| >= 2 && StrictlyIncreasing(t)
    ensures t[0].1 != cdm0 && pow(t[0].0, r.1) != 0.0 ==> cdm0 + r.0 * pow(t[0].0, r.1) == t[0].1
  {
    var slope := (t[0].1 - t[1].1) / (t[0].0 - t[1].0);
    var b := if t[0].1 - cdm0 == 0.0 then 0.0 else t[0].0 * slope / (t[0].1 - cdm0);
    var p := pow(t[0].0, b);
    var a := if p == 0.0 then 0.0 else (t[0].1 - cdm0) / p;
    CancelDivision(t[0].1 - cdm0, p);
    (a, b)
  }

  lemma CancelDivision(n: real, p: real)
    ensures p != 0.0 ==> n / p * p == n
  {
  }

  /** The linear blend between two neighbouring entries. */
  function LinearBlend(lo: Entry, hi: Entry, mach: real): real
    requires lo.0 < hi.0
  {
    lo.1 + (mach - lo.0) * ((hi.1 - lo.1) / (hi.0 - lo.0))
  }

  /**
   * The in-range branch as written: the post-decrement swaps the roles of the
   * two neighbours, giving hi.1 + (lo.0 − mach)·slope.
   */
  function MirroredBlend(lo: Entry, hi: Entry, mach: real): real
    requires lo.0 < hi.0
  {
    hi.1 + (lo.0 - mach) * ((lo.1 - hi.1) / (lo.0 - hi.0))
  }

  /** The written blend is the linear blend reflected about the middle of the interval. */
  lemma MirroredIsReflected(lo: Entry, hi: Entry, mach: real)
    requires lo.0 < hi.0
    ensures MirroredBlend(lo, hi, mach) == LinearBlend(lo, hi, lo.0 + hi.0 - mach)
  {
    var s := (hi.1 - lo.1) / (hi.0 - lo.0);
    assert (lo.1 - hi.1) / (lo.0 - hi.0) == s;
    assert s * (hi.0 - lo.0) == hi.1 - lo.1;
    assert hi.1 + (lo.0 - mach) * s == lo.1 + (hi.0 - lo.0) * s + (lo.0 - mach) * s;
  }

  /** The linear blend meets each neighbour at its own key. */
  lemma LinearBlendEnds(lo: Entry, hi: Entry)
    requires lo.0 < hi.0
    ensures LinearBlend(lo, hi, lo.0) == lo.1
    ensures LinearBlend(lo, hi, hi.0) == hi.1
  {
    var d := hi.0 - lo.0;
    var s := (hi.1 - lo.1) / d;
    assert s * d == hi.1 - lo.1;
    assert LinearBlend(lo, hi, hi.0) == lo.1 + d * s;
  }

  /** Strictly between two keys the linear blend lies between their values. */
  lemma LinearBlendBetween(lo: Entry, hi: Entry, mach: real)
    requires lo.0 < mach < hi.0
    ensures lo.1 <= hi.1 ==> lo.1 <= LinearBlend(lo, hi, mach) <= hi.1
    ensures hi.1 <= lo.1 ==> hi.1 <= LinearBlend(lo, hi, mach) <= lo.1
  {
    var d := hi.0 - lo.0;
    var f := (mach - lo.0) / d;
    var delta := hi.1 - lo.1;
    assert (mach - lo.0) * (delta / d) == f * delta;
    Maths.FractionInUnit(mach - lo.0, d);
    FractionOfDifference(f, delta);
    assert LinearBlend(lo, hi, mach) == lo.1 + f * delta;
  }

  lemma FractionOfDifference(f: real, delta: real)
    requires 0.0 < f < 1.0
    ensures delta >= 0.0 ==> 0.0 <= f * delta <= delta
    ensures delta <= 0.0 ==> delta <= f * delta <= 0.0
  {
    if delta >= 0.0 {
      assert delta - f * delta == (1.0 - f) * delta;
    } else {
      assert f * delta - delta == (1.0 - f) * -delta;
    }
  }

  /** The mirrored blend also stays between the two values, so the error is not visible as a range violation. */
  lemma MirroredBlendBetween(lo: Entry, hi: Entry, mach: real)
    requires lo.0 < mach < hi.0
    ensures lo.1 <= hi.1 ==> lo.1 <= MirroredBlend(lo, hi, mach) <= hi.1
    ensures hi.1 <= lo.1 ==> hi.1 <= MirroredBlend(lo, hi, mach) <= lo.1
  {
    MirroredIsReflected(lo, hi, mach);
    LinearBlendBetween(lo, hi, lo.0 + hi.0 - mach);
  }

  /** A quarter of the way up from a 0 entry to a 1 entry, the written blend gives three quarters. */
  lemma MirroredBlendCounterexample()
    ensures MirroredBlend((1.0, 0.0), (2.0, 1.0), 1.25) == 0.75
    ensures LinearBlend((1.0, 0.0), (2.0, 1.0), 1.25) == 0.25
  {
  }

  /** `interpNoseconeData` as written. */
  function InterpAsWritten(mach: real, cdm0: real, t: seq<Entry>, pow: (real, real) -> real): (r: real)
    requires |t| >= 2 && StrictlyIncreasing(t)
    ensures mach == 0.0 ==> r == cdm0
    ensures mach != 0.0 ==> forall i :: 0 <= i < |t| - 1 && t[i].0 < mach < t[i + 1].0 ==> r == MirroredBlend(t[i], t[i + 1], mach)
  {
    LowerBoundSplits(t, mach);
    if mach == 0.0 then cdm0
    else
      var k := LowerBound(t, mach);
      if k == |t| then t[|t| - 1].1
      else if t[k].0 == mach then t[k].1
      else if t[k].0 == t[0].0 then
        if t[0].1 == 0.0 then 0.0
        else var c := PowerCoeffsAsWritten(cdm0, t, pow); cdm0 + c.0 * pow(mach, c.1)
      else MirroredBlend(t[k - 1], t[k], mach)
  }

  /**
   * The lookup with both neighbour errors corrected: the linear blend in range
   * and the power curve through the first point below it.
   */
  function Interp(mach: real, cdm0: real, t: seq<Entry>, pow: (real, real) -> real): (r: real)
    requires |t| >= 2 && StrictlyIncreasing(t)
    ensures mach == 0.0 ==> r == cdm0
    ensures mach != 0.0 ==> forall i :: 0 <= i < |t| - 1 && t[i].0 < mach < t[i + 1].0 ==> r == LinearBlend(t[i], t[i + 1], mach)
  {
    LowerBoundSplits(t, mach);
    if mach == 0.0 then cdm0
    else
      var k := LowerBound(t, mach);
      if k == |t| then t[|t| - 1].1
      else if t[k].0 == mach then t[k].1
      else if t[k].0 == t[0].0 then
        if t[0].1 == 0.0 then 0.0
        else var c := PowerCoeffs(cdm0, t, pow); cdm0 + c.0 * pow(mach, c.1)
      else LinearBlend(t[k - 1], t[k], mach)
  }

  /** Above every key the lookup holds the last value. */
  lemma InterpAboveTable(mach: real, cdm0: real, t: seq<Entry>, pow: (real, real) -> real)
    requires |t| >= 2 && StrictlyIncreasing(t)
    requires mach != 0.0 && mach > t[|t| - 1].0
    ensures Interp(mach, cdm0, t, pow) == t[|t| - 1].1
    ensures InterpAsWritten(mach, cdm0, t, pow) == t[|t| - 1].1
  {
    LowerBoundSplits(t, mach);
    assert LowerBound(t, mach) == |t|;
  }

  /** At a key the lookup gives that key's value. */
  lemma InterpAtKey(i: nat, cdm0: real, t: seq<Entry>, pow: (real, real) -> real)
    requires |t| >= 2 && StrictlyIncreasing(t) && i < |t|
    requires t[i].0 != 0.0
    ensures Interp(t[i].0, cdm0, t, pow) == t[i].1
    ensures InterpAsWritten(t[i].0, cdm0, t, pow) == t[i].1
  {
    LowerBoundOfKey(t, i);
  }

  /** Below the first key the lookup is 0 when the first value is 0. */
  lemma InterpBelowZeroStart(mach: real, cdm0: real, t: seq<Entry>, pow: (real, real) -> real)
    requires |t| >= 2 && StrictlyIncreasing(t)
    requires mach != 0.0 && mach < t[0].0 && t[0].1 == 0.0
    ensures Interp(mach, cdm0, t, pow) == 0.0
    ensures InterpAsWritten(mach, cdm0, t, pow) == 0.0
  {
    assert LowerBound(t, mach) == 0;
  }

  /** Below the first key, with a non-zero first value, the lookup follows the power curve. */
  lemma InterpBelowOnCurve(mach: real, cdm0: real, t: seq<Entry>, pow: (real, real) -> real)
    requires |t| >= 2 && StrictlyIncreasing(t)
    requires mach != 0.0 && mach < t[0].0 && t[0].1 != 0.0
    ensures var c := PowerCoeffs(cdm0, t, pow);
            Interp(mach, cdm0, t, pow) == cdm0 + c.0 * pow(mach, c.1)
  {
    assert LowerBound(t, mach) == 0;
  }

  /** Strictly between two keys the corrected lookup stays between their values. */
  lemma InterpBetween(i: nat, mach: real, cdm0: real, t: seq<Entry>, pow: (real, real) -> real)
    requires |t| >= 2 && StrictlyIncreasing(t) && i + 1 < |t|
    requires mach != 0.0 && t[i].0 < mach < t[i + 1].0
    ensures t[i].1 <= t[i + 1].1 ==> t[i].1 <= Interp(mach, cdm0, t, pow) <= t[i + 1].1
    ensures t[i + 1].1 <= t[i].1 ==> t[i + 1].1 <= Interp(mach, cdm0, t, pow) <= t[i].1
  {
    LinearBlendBetween(t[i], t[i + 1], mach);
  }

  /**
   * With mach² for the power (b = 2 below), the written curve for the table
   * [(1.5, 2), (2, 4)] reaches 2.25 at the first key, where the table says 2;
   * it passes through the second point instead.
   */
  lemma PowerCurveAsWrittenMissesFirstPoint(pow: (real, real) -> real)
    requires forall x :: pow(x, 2.0) == x * x
    ensures var t := [(1.5, 2.0), (2.0, 4.0)];
            var c := PowerCoeffsAsWritten(0.0, t, pow);
            c == (1.0, 2.0) && 0.0 + c.0 * pow(t[0].0, c.1) == 2.25 && t[0].1 == 2.0
  {
    var t := [(1.5, 2.0), (2.0, 4.0)];
    assert (t[0].1 - t[1].1) / (t[0].0 - t[1].0) == 4.0;
    assert pow(2.0, 2.0) == 4.0;
    assert pow(1.5, 2.0) == 2.25;
  }
}
