/**
 * The accumulator loops that `component.cpp` and `rocket.cpp` run over a
 * component's children: a running `std::max` from 0, a running sum, and the
 * search for the earliest strictly greatest value.
 */
module Folds {
  import opened Wrappers

  /** `std::max(a, b)`, which returns `a` unless `a < b`. */
  function Max(a: real, b: real): (r: real)
    ensures r >= a && r >= b && (r == a || r == b)
  {
    if a < b then b else a
  }

  /** `std::max` folded over the values, starting from 0. */
  function MaxOrZero(vals: seq<real>): (r: real)
    ensures r >= 0.0
    ensures forall i :: 0 <= i < |vals| ==> vals[i] <= r
    ensures r == 0.0 || exists i :: 0 <= i < |vals| && vals[i] == r
  {
    if |vals| == 0 then 0.0
    else
      var r := Max(MaxOrZero(vals[..|vals| - 1]), vals[|vals| - 1]);
      assert r != vals[|vals| - 1] ==> r == MaxOrZero(vals[..|vals| - 1]);
      r
  }

  /** The least bound: any bound of 0 and of every value is at least the fold. */
  lemma {:induction false} MaxOrZeroIsLeast(vals: seq<real>, bound: real)
    requires bound >= 0.0 && forall i :: 0 <= i < |vals| ==> vals[i] <= bound
    ensures MaxOrZero(vals) <= bound
  {
    if |vals| > 0 {
      MaxOrZeroIsLeast(vals[..|vals| - 1], bound);
    }
  }

  /** The loop: `best = std::max(best, v)` for each value, from `best = 0`. */
  method MaxOrZeroLoop(vals: seq<real>) returns (best: real)
    ensures best == MaxOrZero(vals)
  {
    best := 0.0;
    var i := 0;
    while i < |vals|
      invariant 0 <= i <= |vals|
      invariant best == MaxOrZero(vals[..i])
    {
      assert vals[..i + 1][..i] == vals[..i];
      best := Max(best, vals[i]);
      i := i + 1;
    }
    assert vals[..i] == vals;
  }

  /** A running sum. */
  function Sum(vals: seq<real>): real
  {
    if |vals| == 0 then 0.0 else Sum(vals[..|vals| - 1]) + vals[|vals| - 1]
  }

  lemma {:induction false} SumAppend(a: seq<real>, b: seq<real>)
    ensures Sum(a + b) == Sum(a) + Sum(b)
    decreases |b|
  {
    if |b| > 0 {
      assert (a + b)[..|a + b| - 1] == a + b[..|b| - 1];
      SumAppend(a, b[..|b| - 1]);
    } else {
      assert a + b == a;
    }
  }

  lemma {:induction false} SumNonNegative(vals: seq<real>)
    ensures (forall i :: 0 <= i < |vals| ==> vals[i] >= 0.0) ==> Sum(vals) >= 0.0
  {
    if |vals| > 0 {
      SumNonNegative(vals[..|vals| - 1]);
    }
  }

  /**
   * The search of `getLowestStage`: the first value is taken, and a later one
   * replaces the current choice only when strictly greater.
   */
  function EarliestGreatest(vals: seq<real>): (r: Option<nat>)
    ensures r.None? <==> |vals| == 0
    ensures r.Some? ==> r.value < |vals|
  {
    if |vals| == 0 then None
    else
      var p := EarliestGreatest(vals[..|vals| - 1]);
      if p.None? || vals[|vals| - 1] > vals[p.value] then Some(|vals| - 1) else p
  }

  /** The choice is a greatest value, and every value before it is strictly smaller. */
  lemma {:induction false} EarliestGreatestIsEarliestMaximum(vals: seq<real>)
    requires |vals| > 0
    ensures var k := EarliestGreatest(vals).value;
            && (forall j :: 0 <= j < |vals| ==> vals[j] <= vals[k])
            && (forall j :: 0 <= j < k ==> vals[j] < vals[k])
  {
    var n := |vals| - 1;
    if n > 0 {
      EarliestGreatestIsEarliestMaximum(vals[..n]);
    }
  }

  /** The loop of `getLowestStage`, with `lowPoint` tracking the chosen value. */
  method EarliestGreatestLoop(vals: seq<real>) returns (r: Option<nat>)
    ensures r == EarliestGreatest(vals)
  {
    r := None;
    var lowPoint := 0.0;
    var i := 0;
    while i < |vals|
      invariant 0 <= i <= |vals|
      invariant r == EarliestGreatest(vals[..i])
      invariant r.Some? ==> lowPoint == vals[r.value]
    {
      assert vals[..i + 1][..i] == vals[..i];
      if r.None? || vals[i] > lowPoint {
        r := Some(i);
        lowPoint := vals[i];
      }
      i := i + 1;
    }
    assert vals[..i] == vals;
  }
}
