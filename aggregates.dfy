/**
 * The memoised aggregates of `component.cpp`: mass, inertia, centre of mass,
 * thrust and thrust position of a component together with everything below
 * it, read over the component tree. Each aggregate is a specification
 * function over the tree (recursion bounded by `fuel`, which callers set to
 * the number of components) and a loop method proved against it.
 */
module Aggregates {
  import opened Wrappers
  import opened Points
  import opened Maths
  import opened OverrideFlags
  import opened ComponentTree
  import Aero

  /**
   * The virtual `calculate*` members that a component class supplies for its
   * own part, without its children: mass, inertia about the origin, centre
   * of mass, thrust and the point where that thrust acts, at a given time.
   * A `thrustPosition` of `None` is the base `calculateThrustPosition`,
   * which returns `cm(time)`; a class that overrides it gives `Some`.
   */
  datatype Own = Own(mass: (Node, real) -> real, inertia: (Node, real) -> Mat3,
                     cm: (Node, real) -> Vec3, thrust: (Node, real) -> Vec3,
                     thrustPosition: (Node, real) -> Option<Vec3>)

  /** The base `Component` versions: the stored mass and inertia, the position, no thrust, and thrust at `cm(time)`. */
  const Base := Own((n: Node, time: real) => n.stored.mass, (n: Node, time: real) => n.stored.inertia,
                    (n: Node, time: real) => n.position, (n: Node, time: real) => Zero,
                    (n: Node, time: real) => None)

  // ---------------------------------------------------------------------
  // The subtree, in pre-order
  // ---------------------------------------------------------------------

  /** The component and its descendants in pre-order: the order in which the tree is drawn. */
  function Subtree(t: Tree, id: Id, fuel: nat): seq<Id>
    decreases fuel, 1, 0
  {
    if id !in t then []
    else [id] + (if fuel == 0 then [] else Forest(t, Children(t[id]), fuel - 1))
  }

  /** The subtrees of a list of components, one after the other. */
  function Forest(t: Tree, ids: seq<Id>, fuel: nat): seq<Id>
    decreases fuel, 2, |ids|
  {
    if |ids| == 0 then [] else Forest(t, ids[..|ids| - 1], fuel) + Subtree(t, ids[|ids| - 1], fuel)
  }

  /** No component of `ids` caches its values or overrides its mass, inertia or centre of mass. */
  ghost predicate Plain(t: Tree, ids: seq<Id>)
  {
    forall i :: 0 <= i < |ids| ==>
      && ids[i] in t
      && !t[ids[i]].caching
      && !HasFlag(t[ids[i]].stored.massOverride, OVERRIDE) && !HasFlag(t[ids[i]].stored.massOverride, OVERRIDEALL)
      && !HasFlag(t[ids[i]].stored.inertiaOverride, OVERRIDE) && !HasFlag(t[ids[i]].stored.inertiaOverride, OVERRIDEALL)
      && !HasFlag(t[ids[i]].stored.cmOverride, OVERRIDE) && !HasFlag(t[ids[i]].stored.cmOverride, OVERRIDEALL)
  }

  lemma PlainSplits(t: Tree, a: seq<Id>, b: seq<Id>)
    requires Plain(t, a + b)
    ensures Plain(t, a) && Plain(t, b)
  {
    forall i | 0 <= i < |a|
      ensures (a + b)[i] == a[i]
    {
    }
    forall i | 0 <= i < |b|
      ensures (a + b)[|a| + i] == b[i]
    {
    }
  }

  /** The subtree of a component with children is the component followed by its children's subtrees. */
  lemma SubtreeUnfolds(t: Tree, id: Id, fuel: nat)
    requires id in t && fuel > 0
    ensures Subtree(t, id, fuel) == [id] + Forest(t, Children(t[id]), fuel - 1)
  {
  }

  /** A component whose children the aggregates do not visit: it has none, or the fuel is spent. */
  predicate Leaf(t: Tree, id: Id, fuel: nat)
    requires id in t
  {
    fuel == 0 || |Children(t[id])| == 0
  }

  // ---------------------------------------------------------------------
  // Mass
  // ---------------------------------------------------------------------

  /** `std::min(time, _burnoutTime)`. */
  function Clamp(time: real, burnout: real): (r: real)
    ensures r <= time && r <= burnout && (r == time || r == burnout)
  {
    if burnout < time then burnout else time
  }

  /**
   * `mass(time)`: without caching the aggregate at `time`; with caching the
   * time is first clamped to the burnout time and a cached value at the
   * clamped time is returned when there is one. A component missing from the
   * tree (a dangling child, which the tree invariant rules out) weighs 0.
   */
  function MassOf(t: Tree, o: Own, id: Id, time: real, fuel: nat): real
    decreases fuel, 1, 0
  {
    if id !in t then 0.0
    else if !t[id].caching then MassWithComponents(t, o, id, time, fuel)
    else
      var at := Clamp(time, t[id].burnoutTime);
      if at in t[id].memo.base.mass then t[id].memo.base.mass[at] else MassWithComponents(t, o, id, at, fuel)
  }

  /**
   * `calculateMassWithComponents`: `OVERRIDEALL` (checked first) gives the
   * stored mass alone; otherwise the own part, which is the stored mass under
   * `OVERRIDE` and the class's calculated mass without it, plus the
   * children's masses.
   */
  function MassWithComponents(t: Tree, o: Own, id: Id, time: real, fuel: nat): (r: real)
    requires id in t
    ensures HasFlag(t[id].stored.massOverride, OVERRIDEALL) ==> r == t[id].stored.mass
    ensures Leaf(t, id, fuel) && !HasFlag(t[id].stored.massOverride, OVERRIDEALL) ==>
              r == (if HasFlag(t[id].stored.massOverride, OVERRIDE) then t[id].stored.mass else o.mass(t[id], time))
    decreases fuel, 0, 0
  {
    var n := t[id];
    if HasFlag(n.stored.massOverride, OVERRIDEALL) then n.stored.mass
    else
      var own := if HasFlag(n.stored.massOverride, OVERRIDE) then n.stored.mass else o.mass(n, time);
      own + (if fuel == 0 then 0.0 else MassSum(t, o, Children(n), time, fuel - 1))
  }

  /** The sum of `mass(time)` over a list of components. */
  function MassSum(t: Tree, o: Own, ids: seq<Id>, time: real, fuel: nat): real
    decreases fuel, 2, |ids|
  {
    if |ids| == 0 then 0.0 else MassSum(t, o, ids[..|ids| - 1], time, fuel) + MassOf(t, o, ids[|ids| - 1], time, fuel)
  }

  /** A flag value with both bits set acts as `OVERRIDEALL`: the children's masses are ignored. */
  lemma BothBitsActAsOverrideAll(t: Tree, o: Own, id: Id, time: real, fuel: nat)
    requires id in t && t[id].stored.massOverride == OVERRIDE + OVERRIDEALL
    ensures MassWithComponents(t, o, id, time, fuel) == t[id].stored.mass
    ensures var u := t[id := t[id].(stored := t[id].stored.(massOverride := OVERRIDEALL))];
            MassWithComponents(t, o, id, time, fuel) == MassWithComponents(u, o, id, time, fuel)
  {
  }

  /** With caching on, every query at or after the burnout time returns the value at the burnout time. */
  lemma MassFrozenAfterBurnout(t: Tree, o: Own, id: Id, time: real, fuel: nat)
    requires id in t && t[id].caching && time >= t[id].burnoutTime
    ensures MassOf(t, o, id, time, fuel) == MassOf(t, o, id, t[id].burnoutTime, fuel)
  {
  }

  /** The sum of the own masses, as the class calculates them, over a list of components. */
  function OwnMassTotal(t: Tree, o: Own, ids: seq<Id>, time: real): real
  {
    if |ids| == 0 then 0.0
    else OwnMassTotal(t, o, ids[..|ids| - 1], time) + (if ids[|ids| - 1] in t then o.mass(t[ids[|ids| - 1]], time) else 0.0)
  }

  lemma {:induction false} OwnMassTotalAppend(t: Tree, o: Own, a: seq<Id>, b: seq<Id>, time: real)
    ensures OwnMassTotal(t, o, a + b, time) == OwnMassTotal(t, o, a, time) + OwnMassTotal(t, o, b, time)
    decreases |b|
  {
    if |b| > 0 {
      var n := |b| - 1;
      assert (a + b)[..|a| + n] == a + b[..n];
      OwnMassTotalAppend(t, o, a, b[..n], time);
    } else {
      assert a + b == a;
    }
  }

  /**
   * Without caching and without override bits, the mass of a component is
   * the sum of the calculated own masses of every component in its subtree.
   */
  lemma {:induction false} MassIsSubtreeSum(t: Tree, o: Own, id: Id, time: real, fuel: nat)
    requires Plain(t, Subtree(t, id, fuel))
    ensures MassOf(t, o, id, time, fuel) == OwnMassTotal(t, o, Subtree(t, id, fuel), time)
    decreases fuel, 1, 0
  {
    if id in t {
      var n := t[id];
      assert Subtree(t, id, fuel)[0] == id;
      assert !HasFlag(n.stored.massOverride, OVERRIDEALL) && !HasFlag(n.stored.massOverride, OVERRIDE);
      var rest := if fuel == 0 then [] else Forest(t, Children(n), fuel - 1);
      assert Subtree(t, id, fuel) == [id] + rest;
      PlainSplits(t, [id], rest);
      OwnMassTotalAppend(t, o, [id], rest, time);
      assert OwnMassTotal(t, o, [id], time) == o.mass(n, time);
      if fuel > 0 {
        MassSumIsForestSum(t, o, Children(n), time, fuel - 1);
      }
    }
  }

  lemma {:induction false} MassSumIsForestSum(t: Tree, o: Own, ids: seq<Id>, time: real, fuel: nat)
    requires Plain(t, Forest(t, ids, fuel))
    ensures MassSum(t, o, ids, time, fuel) == OwnMassTotal(t, o, Forest(t, ids, fuel), time)
    decreases fuel, 2, |ids|
  {
    if |ids| > 0 {
      var init, last := ids[..|ids| - 1], ids[|ids| - 1];
      PlainSplits(t, Forest(t, init, fuel), Subtree(t, last, fuel));
      MassSumIsForestSum(t, o, init, time, fuel);
      MassIsSubtreeSum(t, o, last, time, fuel);
      OwnMassTotalAppend(t, o, Forest(t, init, fuel), Subtree(t, last, fuel), time);
    }
  }

  /** The loop of `calculateMassWithComponents`, summing `mass(time)` over the children. */
  method MassLoop(t: Tree, o: Own, id: Id, time: real, fuel: nat) returns (total: real)
    requires id in t && fuel > 0
    ensures total == MassWithComponents(t, o, id, time, fuel)
  {
    var n := t[id];
    if HasFlag(n.stored.massOverride, OVERRIDEALL) {
      return n.stored.mass;
    }
    var own := if HasFlag(n.stored.massOverride, OVERRIDE) then n.stored.mass else o.mass(n, time);
    var comps := Children(n);
    var compMasses := 0.0;
    var i := 0;
    while i < |comps|
      invariant 0 <= i <= |comps|
      invariant compMasses == MassSum(t, o, comps[..i], time, fuel - 1)
    {
      assert comps[..i + 1][..i] == comps[..i];
      compMasses := compMasses + MassOf(t, o, comps[i], time, fuel - 1);
      i := i + 1;
    }
    assert comps[..i] == comps;
    total := own + compMasses;
  }

  // ---------------------------------------------------------------------
  // Inertia
  // ---------------------------------------------------------------------

  /** `inertia(time)`: cached like the mass, at the time clamped to burnout. */
  function InertiaOf(t: Tree, o: Own, id: Id, time: real, fuel: nat): Mat3
    decreases fuel, 1, 0
  {
    if id !in t then ZeroMat
    else if !t[id].caching then InertiaWithComponents(t, o, id, time, fuel)
    else
      var at := Clamp(time, t[id].burnoutTime);
      if at in t[id].memo.base.inertia then t[id].memo.base.inertia[at] else InertiaWithComponents(t, o, id, at, fuel)
  }

  /** `calculateInertiaWithComponents`: the override bits as for the mass, summing inertias about the origin. */
  function InertiaWithComponents(t: Tree, o: Own, id: Id, time: real, fuel: nat): (r: Mat3)
    requires id in t
    ensures HasFlag(t[id].stored.inertiaOverride, OVERRIDEALL) ==> r == t[id].stored.inertia
    ensures Leaf(t, id, fuel) && !HasFlag(t[id].stored.inertiaOverride, OVERRIDEALL) ==>
              r == (if HasFlag(t[id].stored.inertiaOverride, OVERRIDE) then t[id].stored.inertia else o.inertia(t[id], time))
    decreases fuel, 0, 0
  {
    var n := t[id];
    if HasFlag(n.stored.inertiaOverride, OVERRIDEALL) then n.stored.inertia
    else
      var own := if HasFlag(n.stored.inertiaOverride, OVERRIDE) then n.stored.inertia else o.inertia(n, time);
      MatAdd(own, if fuel == 0 then ZeroMat else InertiaSum(t, o, Children(n), time, fuel - 1))
  }

  function InertiaSum(t: Tree, o: Own, ids: seq<Id>, time: real, fuel: nat): Mat3
    decreases fuel, 2, |ids|
  {
    if |ids| == 0 then ZeroMat
    else MatAdd(InertiaSum(t, o, ids[..|ids| - 1], time, fuel), InertiaOf(t, o, ids[|ids| - 1], time, fuel))
  }

  function OwnInertiaTotal(t: Tree, o: Own, ids: seq<Id>, time: real): Mat3
  {
    if |ids| == 0 then ZeroMat
    else MatAdd(OwnInertiaTotal(t, o, ids[..|ids| - 1], time),
                if ids[|ids| - 1] in t then o.inertia(t[ids[|ids| - 1]], time) else ZeroMat)
  }

  lemma MatAddAssociates(a: Mat3, b: Mat3, c: Mat3)
    ensures MatAdd(MatAdd(a, b), c) == MatAdd(a, MatAdd(b, c))
  {
  }

  lemma {:induction false} OwnInertiaTotalAppend(t: Tree, o: Own, a: seq<Id>, b: seq<Id>, time: real)
    ensures OwnInertiaTotal(t, o, a + b, time) == MatAdd(OwnInertiaTotal(t, o, a, time), OwnInertiaTotal(t, o, b, time))
    decreases |b|
  {
    if |b| > 0 {
      var n := |b| - 1;
      assert (a + b)[..|a| + n] == a + b[..n];
      OwnInertiaTotalAppend(t, o, a, b[..n], time);
      var last := if b[n] in t then o.inertia(t[b[n]], time) else ZeroMat;
      MatAddAssociates(OwnInertiaTotal(t, o, a, time), OwnInertiaTotal(t, o, b[..n], time), last);
    } else {
      assert a + b == a;
    }
  }

  /**
   * Without caching and without override bits, the inertia of a component
   * about the origin is the sum of the own inertias over its subtree.
   */
  lemma {:induction false} InertiaIsSubtreeSum(t: Tree, o: Own, id: Id, time: real, fuel: nat)
    requires Plain(t, Subtree(t, id, fuel))
    ensures InertiaOf(t, o, id, time, fuel) == OwnInertiaTotal(t, o, Subtree(t, id, fuel), time)
    decreases fuel, 1, 0
  {
    if id in t {
      var n := t[id];
      assert Subtree(t, id, fuel)[0] == id;
      assert !HasFlag(n.stored.inertiaOverride, OVERRIDEALL) && !HasFlag(n.stored.inertiaOverride, OVERRIDE);
      var rest := if fuel == 0 then [] else Forest(t, Children(n), fuel - 1);
      assert Subtree(t, id, fuel) == [id] + rest;
      PlainSplits(t, [id], rest);
      OwnInertiaTotalAppend(t, o, [id], rest, time);
      assert OwnInertiaTotal(t, o, [id], time) == o.inertia(n, time);
      if fuel > 0 {
        InertiaSumIsForestSum(t, o, Children(n), time, fuel - 1);
      }
    }
  }

  lemma {:induction false} InertiaSumIsForestSum(t: Tree, o: Own, ids: seq<Id>, time: real, fuel: nat)
    requires Plain(t, Forest(t, ids, fuel))
    ensures InertiaSum(t, o, ids, time, fuel) == OwnInertiaTotal(t, o, Forest(t, ids, fuel), time)
    decreases fuel, 2, |ids|
  {
    if |ids| > 0 {
      var init, last := ids[..|ids| - 1], ids[|ids| - 1];
      PlainSplits(t, Forest(t, init, fuel), Subtree(t, last, fuel));
      InertiaSumIsForestSum(t, o, init, time, fuel);
      InertiaIsSubtreeSum(t, o, last, time, fuel);
      OwnInertiaTotalAppend(t, o, Forest(t, init, fuel), Subtree(t, last, fuel), time);
    }
  }

  /** The loop of `calculateInertiaWithComponents`. */
  method InertiaLoop(t: Tree, o: Own, id: Id, time: real, fuel: nat) returns (total: Mat3)
    requires id in t && fuel > 0
    ensures total == InertiaWithComponents(t, o, id, time, fuel)
  {
    var n := t[id];
    if HasFlag(n.stored.inertiaOverride, OVERRIDEALL) {
      return n.stored.inertia;
    }
    var own := if HasFlag(n.stored.inertiaOverride, OVERRIDE) then n.stored.inertia else o.inertia(n, time);
    var comps := Children(n);
    var compInertia := ZeroMat;
    var i := 0;
    while i < |comps|
      invariant 0 <= i <= |comps|
      invariant compInertia == InertiaSum(t, o, comps[..i], time, fuel - 1)
    {
      assert comps[..i + 1][..i] == comps[..i];
      compInertia := MatAdd(compInertia, InertiaOf(t, o, comps[i], time, fuel - 1));
      i := i + 1;
    }
    assert comps[..i] == comps;
    total := MatAdd(own, compInertia);
  }

  // ---------------------------------------------------------------------
  // Centre of mass
  // ---------------------------------------------------------------------

  /** `cm(time)`: the cached value at `time` when caching is on and there is one; never clamped, never stored. */
  function CmOf(t: Tree, o: Own, id: Id, time: real, fuel: nat): Vec3
    decreases fuel, 1, 0
  {
    if id !in t then Zero
    else if t[id].caching && time in t[id].memo.base.cm then t[id].memo.base.cm[time]
    else CmWithComponents(t, o, id, time, fuel)
  }

  /**
   * `calculateCmWithComponents`: `OVERRIDEALL` gives the stored centre of
   * mass; otherwise the mass-weighted average of the children's centres of
   * mass (weighted by `mass(time)`) and the own one (the stored one under
   * `OVERRIDE`), where the own weight is the class's calculated mass, not the
   * overridden one; the zero vector when the weights sum to 0.
   */
  function CmWithComponents(t: Tree, o: Own, id: Id, time: real, fuel: nat): (r: Vec3)
    requires id in t
    ensures HasFlag(t[id].stored.cmOverride, OVERRIDEALL) ==> r == t[id].stored.cm
    ensures Leaf(t, id, fuel) && !HasFlag(t[id].stored.cmOverride, OVERRIDEALL) ==>
              r == (if o.mass(t[id], time) == 0.0 then Zero
                    else if HasFlag(t[id].stored.cmOverride, OVERRIDE) then t[id].stored.cm else o.cm(t[id], time))
    decreases fuel, 0, 0
  {
    var n := t[id];
    if HasFlag(n.stored.cmOverride, OVERRIDEALL) then n.stored.cm
    else
      var own := if HasFlag(n.stored.cmOverride, OVERRIDE) then n.stored.cm else o.cm(n, time);
      Aero.CpAverage(if fuel == 0 then [] else CmTerms(t, o, Children(n), time, fuel - 1), o.mass(n, time), own)
  }

  /** The (mass, centre of mass) pair of each component of a list. */
  function CmTerms(t: Tree, o: Own, ids: seq<Id>, time: real, fuel: nat): (r: seq<(real, Vec3)>)
    ensures |r| == |ids|
    decreases fuel, 2, |ids|
  {
    if |ids| == 0 then []
    else CmTerms(t, o, ids[..|ids| - 1], time, fuel) + [(MassOf(t, o, ids[|ids| - 1], time, fuel), CmOf(t, o, ids[|ids| - 1], time, fuel))]
  }

  /** The weights of the centre-of-mass average are the children's masses. */
  lemma {:induction false} CmWeightsAreMasses(t: Tree, o: Own, ids: seq<Id>, time: real, fuel: nat)
    ensures Aero.SlopeSum(CmTerms(t, o, ids, time, fuel)) == MassSum(t, o, ids, time, fuel)
    decreases |ids|
  {
    if |ids| > 0 {
      var terms := CmTerms(t, o, ids, time, fuel);
      assert terms[..|ids| - 1] == CmTerms(t, o, ids[..|ids| - 1], time, fuel);
      CmWeightsAreMasses(t, o, ids[..|ids| - 1], time, fuel);
    }
  }

  /** A component without caching or mass override bits: its own mass plus its children's. */
  lemma PlainMassUnfolds(t: Tree, o: Own, id: Id, time: real, fuel: nat)
    requires id in t && !t[id].caching
    requires !HasFlag(t[id].stored.massOverride, OVERRIDE) && !HasFlag(t[id].stored.massOverride, OVERRIDEALL)
    ensures MassOf(t, o, id, time, fuel)
            == o.mass(t[id], time) + (if fuel == 0 then 0.0 else MassSum(t, o, Children(t[id]), time, fuel - 1))
  {
    assert MassOf(t, o, id, time, fuel) == MassWithComponents(t, o, id, time, fuel);
  }

  /**
   * A component without caching or centre-of-mass override bits: the average
   * over its children and its own centre of mass, weighted by its own mass.
   */
  lemma PlainCmUnfolds(t: Tree, o: Own, id: Id, time: real, fuel: nat)
    requires id in t && !t[id].caching
    requires !HasFlag(t[id].stored.cmOverride, OVERRIDE) && !HasFlag(t[id].stored.cmOverride, OVERRIDEALL)
    ensures CmOf(t, o, id, time, fuel)
            == Aero.CpAverage(if fuel == 0 then [] else CmTerms(t, o, Children(t[id]), time, fuel - 1), o.mass(t[id], time), o.cm(t[id], time))
  {
    assert CmOf(t, o, id, time, fuel) == CmWithComponents(t, o, id, time, fuel);
  }

  /**
   * A uniform assembly: without caching or override bits, when every
   * component of the subtree calculates its own centre of mass at `p`, the
   * centre of mass of the whole is `p` whenever its mass is not 0.
   */
  lemma {:induction false} CmOfUniformSubtree(t: Tree, o: Own, id: Id, time: real, fuel: nat, p: Vec3)
    requires Plain(t, Subtree(t, id, fuel))
    requires forall i :: 0 <= i < |Subtree(t, id, fuel)| ==> o.cm(t[Subtree(t, id, fuel)[i]], time) == p
    ensures MassOf(t, o, id, time, fuel) != 0.0 ==> CmOf(t, o, id, time, fuel) == p
    decreases fuel, 1, 0
  {
    if id in t && MassOf(t, o, id, time, fuel) != 0.0 {
      var n := t[id];
      var s := Subtree(t, id, fuel);
      var rest := if fuel == 0 then [] else Forest(t, Children(n), fuel - 1);
      assert s == [id] + rest;
      PlainSplits(t, [id], rest);
      assert o.cm(n, time) == p by {
        assert s[0] == id;
      }
      if fuel > 0 {
        ChildrenUniform(t, o, id, time, fuel, p);
      }
      PlainCmAtPoint(t, o, id, time, fuel, p);
    }
  }

  /**
   * One component without caching or override bits whose own centre of mass
   * is `p` and whose children's terms are at `p` or weigh nothing: its centre
   * of mass is `p` whenever its mass is not 0.
   */
  lemma PlainCmAtPoint(t: Tree, o: Own, id: Id, time: real, fuel: nat, p: Vec3)
    requires id in t && Plain(t, [id])
    requires o.cm(t[id], time) == p
    requires fuel > 0 ==> var terms := CmTerms(t, o, Children(t[id]), time, fuel - 1);
             forall i :: 0 <= i < |terms| ==> terms[i].1 == p || terms[i].0 == 0.0
    requires MassOf(t, o, id, time, fuel) != 0.0
    ensures CmOf(t, o, id, time, fuel) == p
  {
    assert [id][0] == id;
    var n := t[id];
    PlainMassUnfolds(t, o, id, time, fuel);
    PlainCmUnfolds(t, o, id, time, fuel);
    if fuel > 0 {
      CmWeightsAreMasses(t, o, Children(n), time, fuel - 1);
    }
    var terms := if fuel == 0 then [] else CmTerms(t, o, Children(n), time, fuel - 1);
    Aero.CpAverageOfEqualPoints(terms, o.mass(n, time), p);
  }

  /** In a uniform subtree, each child's term is at `p` or weighs nothing. */
  lemma ChildrenUniform(t: Tree, o: Own, id: Id, time: real, fuel: nat, p: Vec3)
    requires id in t && fuel > 0
    requires Plain(t, Subtree(t, id, fuel))
    requires forall i :: 0 <= i < |Subtree(t, id, fuel)| ==> o.cm(t[Subtree(t, id, fuel)[i]], time) == p
    ensures var terms := CmTerms(t, o, Children(t[id]), time, fuel - 1);
            forall i :: 0 <= i < |terms| ==> terms[i].1 == p || terms[i].0 == 0.0
    decreases fuel, 0, 0
  {
    var s := Subtree(t, id, fuel);
    var rest := Forest(t, Children(t[id]), fuel - 1);
    assert s == [id] + rest;
    PlainSplits(t, [id], rest);
    forall i | 0 <= i < |rest|
      ensures o.cm(t[rest[i]], time) == p
    {
      assert rest[i] == s[i + 1];
    }
    CmTermsUniform(t, o, Children(t[id]), time, fuel - 1, p);
  }

  lemma {:induction false} CmTermsUniform(t: Tree, o: Own, ids: seq<Id>, time: real, fuel: nat, p: Vec3)
    requires Plain(t, Forest(t, ids, fuel))
    requires forall i :: 0 <= i < |Forest(t, ids, fuel)| ==> o.cm(t[Forest(t, ids, fuel)[i]], time) == p
    ensures forall i :: 0 <= i < |ids| ==> CmTerms(t, o, ids, time, fuel)[i].1 == p || CmTerms(t, o, ids, time, fuel)[i].0 == 0.0
    decreases fuel, 2, |ids|
  {
    if |ids| > 0 {
      var init, last := ids[..|ids| - 1], ids[|ids| - 1];
      var a, b := Forest(t, init, fuel), Subtree(t, last, fuel);
      PlainSplits(t, a, b);
      forall i | 0 <= i < |a|
        ensures o.cm(t[a[i]], time) == p
      {
        assert a[i] == (a + b)[i];
      }
      forall i | 0 <= i < |b|
        ensures o.cm(t[b[i]], time) == p
      {
        assert b[i] == (a + b)[|a| + i];
      }
      CmTermsUniform(t, o, init, time, fuel, p);
      CmOfUniformSubtree(t, o, last, time, fuel, p);
    }
  }

  /** One more child of the `calculateCmWithComponents` loop. */
  lemma CmTermsStep(t: Tree, o: Own, ids: seq<Id>, i: nat, time: real, fuel: nat)
    requires i < |ids|
    ensures var m := MassOf(t, o, ids[i], time, fuel);
            Aero.WeightedCp(CmTerms(t, o, ids[..i + 1], time, fuel))
            == Points.Add(Aero.WeightedCp(CmTerms(t, o, ids[..i], time, fuel)), Scale(CmOf(t, o, ids[i], time, fuel), m))
    ensures Aero.SlopeSum(CmTerms(t, o, ids[..i + 1], time, fuel))
            == Aero.SlopeSum(CmTerms(t, o, ids[..i], time, fuel)) + MassOf(t, o, ids[i], time, fuel)
  {
    assert ids[..i + 1][..i] == ids[..i];
    var terms := CmTerms(t, o, ids[..i + 1], time, fuel);
    assert terms[..i] == CmTerms(t, o, ids[..i], time, fuel);
  }

  /**
   * The loop of `calculateCmWithComponents`: the children's mass-weighted
   * centres of mass and their total mass.
   */
  method CmSums(t: Tree, o: Own, comps: seq<Id>, time: real, fuel: nat) returns (weightedCompCm: Vec3, totalCompMass: real)
    ensures weightedCompCm == Aero.WeightedCp(CmTerms(t, o, comps, time, fuel))
    ensures totalCompMass == Aero.SlopeSum(CmTerms(t, o, comps, time, fuel))
  {
    weightedCompCm := Zero;
    totalCompMass := 0.0;
    var i := 0;
    while i < |comps|
      invariant 0 <= i <= |comps|
      invariant weightedCompCm == Aero.WeightedCp(CmTerms(t, o, comps[..i], time, fuel))
      invariant totalCompMass == Aero.SlopeSum(CmTerms(t, o, comps[..i], time, fuel))
    {
      var m := MassOf(t, o, comps[i], time, fuel);
      CmTermsStep(t, o, comps, i, time, fuel);
      weightedCompCm := Points.Add(weightedCompCm, Scale(CmOf(t, o, comps[i], time, fuel), m));
      totalCompMass := totalCompMass + m;
      i := i + 1;
    }
    assert comps[..i] == comps;
  }

  /** `calculateCmWithComponents`: the children's sums and the component's own mass at its own centre of mass. */
  method CmLoop(t: Tree, o: Own, id: Id, time: real, fuel: nat) returns (cm: Vec3)
    requires id in t && fuel > 0
    ensures cm == CmWithComponents(t, o, id, time, fuel)
  {
    var n := t[id];
    if HasFlag(n.stored.cmOverride, OVERRIDEALL) {
      return n.stored.cm;
    }
    var own := if HasFlag(n.stored.cmOverride, OVERRIDE) then n.stored.cm else o.cm(n, time);
    var weightedCompCm, totalCompMass := CmSums(t, o, Children(n), time, fuel - 1);
    var thisMass := o.mass(n, time);
    ghost var terms := CmTerms(t, o, Children(n), time, fuel - 1);
    assert CmWithComponents(t, o, id, time, fuel) == Aero.CpAverage(terms, thisMass, own);
    var weightedCm := Points.Add(weightedCompCm, Scale(own, thisMass));
    var totalMass := totalCompMass + thisMass;
    assert totalMass == Aero.SlopeSum(terms) + thisMass;
    assert weightedCm == Points.Add(Aero.WeightedCp(terms), Scale(own, thisMass));
    if totalMass == 0.0 {
      cm := Zero;
    } else {
      cm := Div(weightedCm, totalMass);
    }
  }

  // ---------------------------------------------------------------------
  // Thrust
  // ---------------------------------------------------------------------

  /** `thrust(time)`: the cached value at `time` when caching is on and there is one; never clamped. */
  function ThrustOf(t: Tree, o: Own, id: Id, time: real, fuel: nat): Vec3
    decreases fuel, 1, 0
  {
    if id !in t then Zero
    else if t[id].caching && time in t[id].memo.base.thrust then t[id].memo.base.thrust[time]
    else ThrustWithComponents(t, o, id, time, fuel)
  }

  /** `calculateThrustWithComponents`: the children's thrusts plus the own thrust; there are no override bits. */
  function ThrustWithComponents(t: Tree, o: Own, id: Id, time: real, fuel: nat): (r: Vec3)
    requires id in t
    ensures Leaf(t, id, fuel) ==> r == o.thrust(t[id], time)
    decreases fuel, 0, 0
  {
    Points.Add(if fuel == 0 then Zero else ThrustSum(t, o, Children(t[id]), time, fuel - 1), o.thrust(t[id], time))
  }

  function ThrustSum(t: Tree, o: Own, ids: seq<Id>, time: real, fuel: nat): Vec3
    decreases fuel, 2, |ids|
  {
    if |ids| == 0 then Zero
    else Points.Add(ThrustSum(t, o, ids[..|ids| - 1], time, fuel), ThrustOf(t, o, ids[|ids| - 1], time, fuel))
  }

  function OwnThrustTotal(t: Tree, o: Own, ids: seq<Id>, time: real): Vec3
  {
    if |ids| == 0 then Zero
    else Points.Add(OwnThrustTotal(t, o, ids[..|ids| - 1], time), if ids[|ids| - 1] in t then o.thrust(t[ids[|ids| - 1]], time) else Zero)
  }

  lemma {:induction false} OwnThrustTotalAppend(t: Tree, o: Own, a: seq<Id>, b: seq<Id>, time: real)
    ensures OwnThrustTotal(t, o, a + b, time) == Points.Add(OwnThrustTotal(t, o, a, time), OwnThrustTotal(t, o, b, time))
    decreases |b|
  {
    if |b| > 0 {
      var n := |b| - 1;
      assert (a + b)[..|a| + n] == a + b[..n];
      OwnThrustTotalAppend(t, o, a, b[..n], time);
    } else {
      assert a + b == a;
    }
  }

  /** No component of `ids` caches its values. */
  ghost predicate Uncached(t: Tree, ids: seq<Id>)
  {
    forall i :: 0 <= i < |ids| ==> ids[i] in t && !t[ids[i]].caching
  }

  lemma UncachedSplits(t: Tree, a: seq<Id>, b: seq<Id>)
    requires Uncached(t, a + b)
    ensures Uncached(t, a) && Uncached(t, b)
  {
    forall i | 0 <= i < |a|
      ensures (a + b)[i] == a[i]
    {
    }
    forall i | 0 <= i < |b|
      ensures (a + b)[|a| + i] == b[i]
    {
    }
  }

  /** Without caching, the thrust of a component is the sum of the own thrusts over its subtree. */
  lemma {:induction false} ThrustIsSubtreeSum(t: Tree, o: Own, id: Id, time: real, fuel: nat)
    requires Uncached(t, Subtree(t, id, fuel))
    ensures ThrustOf(t, o, id, time, fuel) == OwnThrustTotal(t, o, Subtree(t, id, fuel), time)
    decreases fuel, 1, 0
  {
    if id in t {
      var n := t[id];
      assert Subtree(t, id, fuel)[0] == id;
      var rest := if fuel == 0 then [] else Forest(t, Children(n), fuel - 1);
      assert Subtree(t, id, fuel) == [id] + rest;
      UncachedSplits(t, [id], rest);
      OwnThrustTotalAppend(t, o, [id], rest, time);
      assert OwnThrustTotal(t, o, [id], time) == Points.Add(Zero, o.thrust(n, time));
      if fuel > 0 {
        ThrustSumIsForestSum(t, o, Children(n), time, fuel - 1);
      }
    }
  }

  lemma {:induction false} ThrustSumIsForestSum(t: Tree, o: Own, ids: seq<Id>, time: real, fuel: nat)
    requires Uncached(t, Forest(t, ids, fuel))
    ensures ThrustSum(t, o, ids, time, fuel) == OwnThrustTotal(t, o, Forest(t, ids, fuel), time)
    decreases fuel, 2, |ids|
  {
    if |ids| > 0 {
      var init, last := ids[..|ids| - 1], ids[|ids| - 1];
      UncachedSplits(t, Forest(t, init, fuel), Subtree(t, last, fuel));
      ThrustSumIsForestSum(t, o, init, time, fuel);
      ThrustIsSubtreeSum(t, o, last, time, fuel);
      OwnThrustTotalAppend(t, o, Forest(t, init, fuel), Subtree(t, last, fuel), time);
    }
  }

  /** The loop of `calculateThrustWithComponents`. */
  method ThrustLoop(t: Tree, o: Own, id: Id, time: real, fuel: nat) returns (total: Vec3)
    requires id in t && fuel > 0
    ensures total == ThrustWithComponents(t, o, id, time, fuel)
  {
    var comps := Children(t[id]);
    var compThrust := Zero;
    var i := 0;
    while i < |comps|
      invariant 0 <= i <= |comps|
      invariant compThrust == ThrustSum(t, o, comps[..i], time, fuel - 1)
    {
      assert comps[..i + 1][..i] == comps[..i];
      compThrust := Points.Add(compThrust, ThrustOf(t, o, comps[i], time, fuel - 1));
      i := i + 1;
    }
    assert comps[..i] == comps;
    total := Points.Add(compThrust, o.thrust(t[id], time));
  }

  // ---------------------------------------------------------------------
  // Thrust position
  // ---------------------------------------------------------------------

  /**
   * The thrust-magnitude-weighted average of `calculateThrustPositionWithComponents`:
   * the zero vector unless the magnitudes sum to a positive total.
   */
  function ThrustAverage(terms: seq<(real, Vec3)>, ownMagnitude: real, ownPosition: Vec3): (r: Vec3)
    ensures Aero.SlopeSum(terms) + ownMagnitude <= 0.0 ==> r == Zero
    ensures Aero.SlopeSum(terms) + ownMagnitude > 0.0 ==>
              Scale(r, Aero.SlopeSum(terms) + ownMagnitude) == Points.Add(Aero.WeightedCp(terms), Scale(ownPosition, ownMagnitude))
  {
    var total := Aero.SlopeSum(terms) + ownMagnitude;
    if total > 0.0 then Div(Points.Add(Aero.WeightedCp(terms), Scale(ownPosition, ownMagnitude)), total) else Zero
  }

  lemma {:induction false} MagnitudesNonNegative(terms: seq<(real, Vec3)>)
    requires forall i :: 0 <= i < |terms| ==> terms[i].0 >= 0.0
    ensures Aero.SlopeSum(terms) >= 0.0
  {
    if |terms| > 0 {
      MagnitudesNonNegative(terms[..|terms| - 1]);
    }
  }

  /**
   * With non-negative magnitudes, as norms are, the `> 0` guard of the thrust
   * position and the `== 0` guard of the centre of mass agree: both are the
   * same weighted average.
   */
  lemma ThrustAverageIsWeightedAverage(terms: seq<(real, Vec3)>, ownMagnitude: real, ownPosition: Vec3)
    requires forall i :: 0 <= i < |terms| ==> terms[i].0 >= 0.0
    requires ownMagnitude >= 0.0
    ensures ThrustAverage(terms, ownMagnitude, ownPosition) == Aero.CpAverage(terms, ownMagnitude, ownPosition)
  {
    MagnitudesNonNegative(terms);
  }

  /** `thrustPosition(time)`: the cached value at `time` when caching is on and there is one; never stored. */
  function ThrustPositionOf(t: Tree, o: Own, norm: Vec3 -> real, id: Id, time: real, fuel: nat): Vec3
    decreases fuel, 1, 0
  {
    if id !in t then Zero
    else if t[id].caching && time in t[id].memo.base.thrustPosition then t[id].memo.base.thrustPosition[time]
    else ThrustPositionWithComponents(t, o, norm, id, time, fuel)
  }

  /**
   * `calculateThrustPosition`: where the component's own thrust acts, the
   * class's override or else `cm(time)`.
   */
  function OwnThrustPosition(t: Tree, o: Own, id: Id, time: real, fuel: nat): (r: Vec3)
    requires id in t
    ensures o.thrustPosition(t[id], time).None? ==> r == CmOf(t, o, id, time, fuel)
    ensures o.thrustPosition(t[id], time).Some? ==> r == o.thrustPosition(t[id], time).value
  {
    match o.thrustPosition(t[id], time)
    case None => CmOf(t, o, id, time, fuel)
    case Some(p) => p
  }

  /**
   * `calculateThrustPositionWithComponents`: each child's thrust position
   * weighted by the norm of its thrust, and the component's own thrust
   * acting at its `calculateThrustPosition`.
   */
  function ThrustPositionWithComponents(t: Tree, o: Own, norm: Vec3 -> real, id: Id, time: real, fuel: nat): (r: Vec3)
    requires id in t
    ensures Leaf(t, id, fuel) ==>
              r == (if norm(o.thrust(t[id], time)) > 0.0 then OwnThrustPosition(t, o, id, time, fuel) else Zero)
    decreases fuel, 0, 0
  {
    var terms := if fuel == 0 then [] else ThrustTerms(t, o, norm, Children(t[id]), time, fuel - 1);
    ThrustAverage(terms, norm(o.thrust(t[id], time)), OwnThrustPosition(t, o, id, time, fuel))
  }

  /** The (thrust magnitude, thrust position) pair of each component of a list. */
  function ThrustTerms(t: Tree, o: Own, norm: Vec3 -> real, ids: seq<Id>, time: real, fuel: nat): (r: seq<(real, Vec3)>)
    ensures |r| == |ids|
    decreases fuel, 2, |ids|
  {
    if |ids| == 0 then []
    else ThrustTerms(t, o, norm, ids[..|ids| - 1], time, fuel)
         + [(norm(ThrustOf(t, o, ids[|ids| - 1], time, fuel)), ThrustPositionOf(t, o, norm, ids[|ids| - 1], time, fuel))]
  }

  /** A subtree in which nothing produces thrust, with nothing cached, has the zero vector as its thrust position. */
  lemma ThrustlessSubtree(t: Tree, o: Own, norm: Vec3 -> real, id: Id, time: real, fuel: nat)
    requires Uncached(t, Subtree(t, id, fuel)) && norm(Zero) == 0.0
    requires forall i :: 0 <= i < |Subtree(t, id, fuel)| ==> o.thrust(t[Subtree(t, id, fuel)[i]], time) == Zero
    ensures ThrustPositionOf(t, o, norm, id, time, fuel) == Zero
  {
    if id in t {
      var n := t[id];
      var s := Subtree(t, id, fuel);
      assert s[0] == id;
      if fuel > 0 {
        var rest := Forest(t, Children(n), fuel - 1);
        assert s == [id] + rest;
        UncachedSplits(t, [id], rest);
        forall i | 0 <= i < |rest|
          ensures o.thrust(t[rest[i]], time) == Zero
        {
          assert rest[i] == s[i + 1];
        }
        ThrustlessTerms(t, o, norm, Children(n), time, fuel - 1);
      }
    }
  }

  lemma {:induction false} ThrustlessTerms(t: Tree, o: Own, norm: Vec3 -> real, ids: seq<Id>, time: real, fuel: nat)
    requires Uncached(t, Forest(t, ids, fuel)) && norm(Zero) == 0.0
    requires forall i :: 0 <= i < |Forest(t, ids, fuel)| ==> o.thrust(t[Forest(t, ids, fuel)[i]], time) == Zero
    ensures Aero.SlopeSum(ThrustTerms(t, o, norm, ids, time, fuel)) == 0.0
    decreases |ids|
  {
    if |ids| > 0 {
      var init, last := ids[..|ids| - 1], ids[|ids| - 1];
      var a, b := Forest(t, init, fuel), Subtree(t, last, fuel);
      UncachedSplits(t, a, b);
      forall i | 0 <= i < |a|
        ensures o.thrust(t[a[i]], time) == Zero
      {
        assert a[i] == (a + b)[i];
      }
      forall i | 0 <= i < |b|
        ensures o.thrust(t[b[i]], time) == Zero
      {
        assert b[i] == (a + b)[|a| + i];
      }
      ThrustlessTerms(t, o, norm, init, time, fuel);
      ThrustIsSubtreeSum(t, o, last, time, fuel);
      NoThrustTotal(t, o, b, time);
      var terms := ThrustTerms(t, o, norm, ids, time, fuel);
      assert terms[..|ids| - 1] == ThrustTerms(t, o, norm, init, time, fuel);
    }
  }

  lemma {:induction false} NoThrustTotal(t: Tree, o: Own, ids: seq<Id>, time: real)
    requires forall i :: 0 <= i < |ids| ==> ids[i] in t && o.thrust(t[ids[i]], time) == Zero
    ensures OwnThrustTotal(t, o, ids, time) == Zero
  {
    if |ids| > 0 {
      NoThrustTotal(t, o, ids[..|ids| - 1], time);
    }
  }

  /** The loop of `calculateThrustPositionWithComponents`. */
  method ThrustPositionLoop(t: Tree, o: Own, norm: Vec3 -> real, id: Id, time: real, fuel: nat) returns (position: Vec3)
    requires id in t && fuel > 0
    ensures position == ThrustPositionWithComponents(t, o, norm, id, time, fuel)
  {
    var comps := Children(t[id]);
    var weightedThrustPos := Zero;
    var thrustMagnitude := 0.0;
    var i := 0;
    while i < |comps|
      invariant 0 <= i <= |comps|
      invariant weightedThrustPos == Aero.WeightedCp(ThrustTerms(t, o, norm, comps[..i], time, fuel - 1))
      invariant thrustMagnitude == Aero.SlopeSum(ThrustTerms(t, o, norm, comps[..i], time, fuel - 1))
    {
      var tMag := norm(ThrustOf(t, o, comps[i], time, fuel - 1));
      var at := ThrustPositionOf(t, o, norm, comps[i], time, fuel - 1);
      ghost var before := ThrustTerms(t, o, norm, comps[..i], time, fuel - 1);
      assert comps[..i + 1][..i] == comps[..i];
      assert ThrustTerms(t, o, norm, comps[..i + 1], time, fuel - 1) == before + [(tMag, at)];
      assert (before + [(tMag, at)])[..i] == before;
      weightedThrustPos := Points.Add(weightedThrustPos, Scale(at, tMag));
      thrustMagnitude := thrustMagnitude + tMag;
      i := i + 1;
    }
    assert comps[..i] == comps;
    var tMag := norm(o.thrust(t[id], time));
    assert ThrustPositionWithComponents(t, o, norm, id, time, fuel)
        == ThrustAverage(ThrustTerms(t, o, norm, comps, time, fuel - 1), tMag, OwnThrustPosition(t, o, id, time, fuel));
    thrustMagnitude := thrustMagnitude + tMag;
    position := Zero;
    if thrustMagnitude > 0.0 {
      weightedThrustPos := Points.Add(weightedThrustPos, Scale(OwnThrustPosition(t, o, id, time, fuel), tMag));
      position := Div(weightedThrustPos, thrustMagnitude);
    }
  }
}
