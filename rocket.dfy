/**
 * The read-only folds of `rocket.cpp` over the rocket's stages. A stage's
 * own quantities (reference area, lowest point, base drag, ...) come from
 * its class and are parameters here; adding and removing stages is the
 * tree edit of `ComponentTree.Add` and `ComponentTree.Remove`.
 */
module Rockets {
  import opened Wrappers
  import opened Folds
  import opened ComponentTree

  /** The value of each stage, in stage order. */
  function Values(stages: seq<Id>, f: Id -> real): (r: seq<real>)
    ensures |r| == |stages| && forall i :: 0 <= i < |stages| ==> r[i] == f(stages[i])
  {
    seq(|stages|, i requires 0 <= i < |stages| => f(stages[i]))
  }

  /**
   * `referenceArea`, `referenceLength` and `calculateLowestPoint`: the
   * greatest stage value, and 0 with no stages (or when every stage value is
   * negative).
   */
  function StageMaximum(stages: seq<Id>, f: Id -> real): (r: real)
    ensures r >= 0.0 && forall i :: 0 <= i < |stages| ==> f(stages[i]) <= r
    ensures |stages| == 0 ==> r == 0.0
    ensures r == 0.0 || exists i :: 0 <= i < |stages| && f(stages[i]) == r
  {
    var vals := Values(stages, f);
    assert forall i :: 0 <= i < |vals| ==> vals[i] == f(stages[i]);
    MaxOrZero(vals)
  }

  /** `wettedArea` and `calculateSurfaceDistanceTravelled`: the sum of the stage values. */
  function StageSum(stages: seq<Id>, f: Id -> real): (r: real)
    ensures (forall i :: 0 <= i < |stages| ==> f(stages[i]) >= 0.0) ==> r >= 0.0
  {
    var vals := Values(stages, f);
    SumNonNegative(vals);
    Sum(vals)
  }

  /** Adding a stage adds its value to the sum. */
  lemma StageSumAppend(stages: seq<Id>, s: Id, f: Id -> real)
    ensures StageSum(stages + [s], f) == StageSum(stages, f) + f(s)
  {
    assert Values(stages + [s], f) == Values(stages, f) + [f(s)];
    SumAppend(Values(stages, f), [f(s)]);
  }

  /**
   * `getLowestStage`: none with no stages; otherwise the earliest stage
   * whose lowest point is strictly greatest.
   */
  function LowestStage(stages: seq<Id>, lowest: Id -> real): (r: Option<Id>)
    ensures r.None? <==> |stages| == 0
    ensures r.Some? ==> exists k :: (0 <= k < |stages| && r.value == stages[k]
              && (forall j :: 0 <= j < |stages| ==> lowest(stages[j]) <= lowest(stages[k]))
              && (forall j :: 0 <= j < k ==> lowest(stages[j]) < lowest(stages[k])))
  {
    var vals := Values(stages, lowest);
    var k := EarliestGreatest(vals);
    if k.None? then None
    else
      EarliestGreatestIsEarliestMaximum(vals);
      Some(stages[k.value])
  }

  /** `CdbA(mach, time)`: 0 without stages, otherwise the base drag of the lowest stage. */
  function CdbA(stages: seq<Id>, lowest: Id -> real, stageCdbA: Id -> real): (r: real)
    ensures |stages| == 0 ==> r == 0.0
    ensures |stages| > 0 ==> exists k :: (0 <= k < |stages| && r == stageCdbA(stages[k])
              && forall j :: 0 <= j < |stages| ==> lowest(stages[j]) <= lowest(stages[k]))
  {
    var low := LowestStage(stages, lowest);
    if low.None? then 0.0 else stageCdbA(low.value)
  }
}
