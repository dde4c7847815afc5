/**
 * The component objects of `component.cpp` and its subclasses as one
 * mutable assembly: the tree of components is a field, and each member
 * function that changes a component (adding, removing, the setters, the
 * caching switch, the memoising queries) is a method whose new state is the
 * corresponding function of `ComponentTree`, `Aggregates` or `TreeQueries`
 * applied to the old state. Recursion is bounded by the number of
 * components, which is enough for any tree without cycles.
 */
module Assemblies {
  import opened Wrappers
  import opened Points
  import opened Maths
  import opened OverrideFlags
  import opened ComponentTree
  import opened Folds
  import opened Aggregates
  import TreeQueries

  /**
   * A setter's effect: the component gets its new fields and then
   * `clearCaches` runs from it up to the root.
   */
  function Touch(t: Tree, id: Id, n: Node): (r: Tree)
    requires id in t
    ensures r.Keys == t.Keys
    ensures r[id] == Clear(n)
  {
    ClearChain(t[id := n], id, |t|)
  }

  /** A setter that leaves the parent, kind and child lists alone keeps the tree invariant. */
  lemma TouchValid(t: Tree, id: Id, n: Node)
    requires Valid(t) && id in t
    requires n.parent == t[id].parent && n.kind == t[id].kind && n.lists == t[id].lists
    ensures Valid(Touch(t, id, n))
  {
    StructureValid(t, t[id := n]);
    ClearChainSameShape(t[id := n], id, |t|);
    SameShapeValid(t[id := n], Touch(t, id, n));
  }

  /**
   * After a setter the component has no cached values, so its next mass and
   * centre-of-mass queries are computed afresh from the new fields.
   */
  lemma TouchRecomputes(t: Tree, o: Own, id: Id, n: Node, time: real)
    requires id in t
    ensures var r := Touch(t, id, n);
            && MassOf(r, o, id, time, |r|) == MassWithComponents(r, o, id, if n.caching then Clamp(time, n.burnoutTime) else time, |r|)
            && CmOf(r, o, id, time, |r|) == CmWithComponents(r, o, id, time, |r|)
  {
  }

  /** `overrideMass(OVERRIDEALL, value)`: from then on the mass query gives `value`, at any time. */
  lemma OverrideAllMassTakesEffect(t: Tree, o: Own, id: Id, value: real, time: real)
    requires id in t
    ensures var t1 := Touch(t, id, t[id].(stored := t[id].stored.(mass := value)));
            var t2 := Touch(t1, id, t1[id].(stored := t1[id].stored.(massOverride := OVERRIDEALL)));
            MassOf(t2, o, id, time, |t2|) == value
  {
    var t1 := Touch(t, id, t[id].(stored := t[id].stored.(mass := value)));
    var n2 := t1[id].(stored := t1[id].stored.(massOverride := OVERRIDEALL));
    var t2 := Touch(t1, id, n2);
    var at := if n2.caching then Clamp(time, n2.burnoutTime) else time;
    TouchRecomputes(t1, o, id, n2, time);
    OverrideAllIsSet();
    assert t2[id].stored == n2.stored;
    assert t2[id].stored.massOverride == OVERRIDEALL;
    assert MassWithComponents(t2, o, id, at, |t2|) == n2.stored.mass;
  }

  /** `overrideCm(OVERRIDEALL, value)`: from then on the centre-of-mass query gives `value`. */
  lemma OverrideAllCmTakesEffect(t: Tree, o: Own, id: Id, value: Vec3, time: real)
    requires id in t
    ensures var t1 := Touch(t, id, t[id].(stored := t[id].stored.(cm := value)));
            var t2 := Touch(t1, id, t1[id].(stored := t1[id].stored.(cmOverride := OVERRIDEALL)));
            CmOf(t2, o, id, time, |t2|) == value
  {
    var t1 := Touch(t, id, t[id].(stored := t[id].stored.(cm := value)));
    var n2 := t1[id].(stored := t1[id].stored.(cmOverride := OVERRIDEALL));
    var t2 := Touch(t1, id, n2);
    TouchRecomputes(t1, o, id, n2, time);
    OverrideAllIsSet();
    assert t2[id].stored == n2.stored;
    assert t2[id].stored.cmOverride == OVERRIDEALL;
    assert CmWithComponents(t2, o, id, time, |t2|) == n2.stored.cm;
  }

  /** The mass cache of `id` with `v` stored at `at`. */
  function StoreMass(t: Tree, id: Id, at: real, v: real): (r: Tree)
    requires id in t
    ensures r.Keys == t.Keys && r[id].memo.base.mass == t[id].memo.base.mass[at := v]
  {
    var n := t[id];
    t[id := n.(memo := n.memo.(base := n.memo.base.(mass := n.memo.base.mass[at := v])))]
  }

  function StoreInertia(t: Tree, id: Id, at: real, v: Mat3): (r: Tree)
    requires id in t
    ensures r.Keys == t.Keys && r[id].memo.base.inertia == t[id].memo.base.inertia[at := v]
  {
    var n := t[id];
    t[id := n.(memo := n.memo.(base := n.memo.base.(inertia := n.memo.base.inertia[at := v])))]
  }

  function StoreThrust(t: Tree, id: Id, at: real, v: Vec3): (r: Tree)
    requires id in t
    ensures r.Keys == t.Keys && r[id].memo.base.thrust == t[id].memo.base.thrust[at := v]
  {
    var n := t[id];
    t[id := n.(memo := n.memo.(base := n.memo.base.(thrust := n.memo.base.thrust[at := v])))]
  }

  /** With caching on, a stored thrust is what the next query at that time finds. */
  lemma StoredThrustFound(t: Tree, o: Own, id: Id, time: real, v: Vec3, fuel: nat)
    requires id in t && t[id].caching
    ensures ThrustOf(StoreThrust(t, id, time, v), o, id, time, fuel) == v
  {
    var r := StoreThrust(t, id, time, v);
    assert r[id].caching && time in r[id].memo.base.thrust;
  }

  /** A new component with no parent and no children joins a valid tree without breaking it. */
  lemma InsertFreshValid(t: Tree, id: Id, n: Node)
    requires Valid(t) && id !in t && n.parent.None? && Children(n) == []
    ensures Valid(t[id := n])
  {
    var r := t[id := n];
    forall q: Id, y: Id | IsChild(r, q, y)
      ensures y in r && r[y].parent == Some(q)
    {
      assert IsChild(t, q, y);
    }
    forall y: Id, q: Id | y in r && q in r && r[y].parent == Some(q)
      ensures IsChild(r, q, y)
    {
      assert IsChild(t, q, y);
    }
    forall q: Id | q in r
      ensures NoDup(Children(r[q]))
    {
    }
    forall q: Id, y: Id | IsChild(r, q, y) && y in r
      ensures Accepts(r[q].kind, r[y].kind) && y in ListFor(r[q], r[y].kind)
    {
      assert IsChild(t, q, y);
    }
  }

  /** The ids of a subtree are components of the tree. */
  lemma {:induction false} SubtreeInTree(t: Tree, id: Id, fuel: nat)
    ensures forall x :: x in Subtree(t, id, fuel) ==> x in t
    decreases fuel, 1, 0
  {
    if id in t && fuel > 0 {
      ForestInTree(t, Children(t[id]), fuel - 1);
    }
  }

  lemma {:induction false} ForestInTree(t: Tree, ids: seq<Id>, fuel: nat)
    ensures forall x :: x in Forest(t, ids, fuel) ==> x in t
    decreases fuel, 2, |ids|
  {
    if |ids| > 0 {
      ForestInTree(t, ids[..|ids| - 1], fuel);
      SubtreeInTree(t, ids[|ids| - 1], fuel);
    }
  }

  /** All the components of one rocket (or of any detached part), keyed by id. */
  class Assembly {
    var nodes: Tree

    ghost predicate Valid()
      reads this
    {
      ComponentTree.Valid(nodes)
    }

    constructor ()
      ensures nodes == map[] && Valid()
    {
      nodes := map[];
    }

    /**
     * The constructor and `create(parent, name, position)`: the new
     * component (its fields as the class initialises them, with no parent
     * and no children) starts with empty caches and, when a parent is
     * given, is added to it.
     */
    method Create(id: Id, initial: Node, parent: Option<Id>) returns (reported: bool)
      requires Valid() && id !in nodes && initial.parent.None? && Children(initial) == []
      requires parent.Some? ==> parent.value in nodes
      modifies this
      ensures Valid()
      ensures parent.None? ==> nodes == old(nodes)[id := Clear(initial)] && !reported
      ensures parent.Some? ==> (nodes, reported) == AddGuarded(old(nodes)[id := Clear(initial)], parent.value, id)
    {
      nodes := nodes[id := Clear(initial)];
      InsertFreshValid(old(nodes), id, Clear(initial));
      reported := false;
      if parent.Some? {
        reported := AddComponent(parent.value, id);
      }
    }

    /**
     * `addComponent`: a child of a kind the parent takes is detached from its
     * old parent and appended; any other is refused with an error message.
     * The written method has no cycle guard (see `ComponentTree.AddGuarded`);
     * here a child that is the parent or one of its ancestors is refused too.
     */
    method AddComponent(p: Id, c: Id) returns (reported: bool)
      requires Valid() && p in nodes && c in nodes
      modifies this
      ensures Valid()
      ensures (nodes, reported) == AddGuarded(old(nodes), p, c)
    {
      AddGuardedValid(nodes, p, c);
      var r := AddGuarded(nodes, p, c);
      nodes, reported := r.0, r.1;
    }

    /**
     * `removeComponent(component)`: the first entry of the child is erased
     * and its parent unset; `reported` is the "unable to find" message, here
     * printed only when the child was not found.
     */
    method RemoveComponent(p: Id, c: Id) returns (reported: bool)
      requires Valid() && p in nodes && c in nodes
      modifies this
      ensures Valid()
      ensures (nodes, reported) == Remove(old(nodes), p, c)
    {
      RemoveValid(nodes, p, c);
      var r := Remove(nodes, p, c);
      nodes, reported := r.0, r.1;
    }

    /**
     * `removeComponent(id)`: a direct child with that id is found and removed;
     * otherwise nothing changes, and the search reports the miss unless the
     * parent is a body, whose `findComponent` prints nothing.
     */
    method RemoveById(p: Id, key: Id) returns (reported: bool)
      requires Valid() && p in nodes
      modifies this
      ensures Valid()
      ensures key in Children(old(nodes)[p]) ==> key in old(nodes) && (nodes, reported) == Remove(old(nodes), p, key)
      ensures key !in Children(old(nodes)[p]) ==> nodes == old(nodes) && reported == (old(nodes)[p].kind != BodyPart)
    {
      var found := TreeQueries.FindChild(nodes, p, key);
      if found.Some? {
        assert IsChild(nodes, p, key);
        reported := RemoveComponent(p, found.value);
      } else {
        reported := nodes[p].kind != BodyPart;
      }
    }

    /** `setPosition(pos)`: the position is stored and the caches are cleared up to the root. */
    method SetPosition(id: Id, pos: Vec3)
      requires Valid() && id in nodes
      modifies this
      ensures Valid()
      ensures nodes == Touch(old(nodes), id, old(nodes)[id].(position := pos))
    {
      TouchValid(nodes, id, nodes[id].(position := pos));
      nodes := Touch(nodes, id, nodes[id].(position := pos));
    }

    /** `setMass(mass)`. */
    method SetMass(id: Id, mass: real)
      requires Valid() && id in nodes
      modifies this
      ensures Valid()
      ensures nodes == Touch(old(nodes), id, old(nodes)[id].(stored := old(nodes)[id].stored.(mass := mass)))
    {
      var n := nodes[id].(stored := nodes[id].stored.(mass := mass));
      TouchValid(nodes, id, n);
      nodes := Touch(nodes, id, n);
    }

    /** `overrideMass(flags)`. */
    method OverrideMass(id: Id, flags: int)
      requires Valid() && id in nodes
      modifies this
      ensures Valid()
      ensures nodes == Touch(old(nodes), id, old(nodes)[id].(stored := old(nodes)[id].stored.(massOverride := flags)))
    {
      var n := nodes[id].(stored := nodes[id].stored.(massOverride := flags));
      TouchValid(nodes, id, n);
      nodes := Touch(nodes, id, n);
    }

    /** `overrideMass(flags, value)`: `setMass(value)`, then `overrideMass(flags)`. */
    method OverrideMassWith(id: Id, flags: int, value: real)
      requires Valid() && id in nodes
      modifies this
      ensures Valid()
      ensures var t1 := Touch(old(nodes), id, old(nodes)[id].(stored := old(nodes)[id].stored.(mass := value)));
              nodes == Touch(t1, id, t1[id].(stored := t1[id].stored.(massOverride := flags)))
    {
      SetMass(id, value);
      OverrideMass(id, flags);
    }

    /** `setInertia(inertia)`. */
    method SetInertia(id: Id, inertia: Mat3)
      requires Valid() && id in nodes
      modifies this
      ensures Valid()
      ensures nodes == Touch(old(nodes), id, old(nodes)[id].(stored := old(nodes)[id].stored.(inertia := inertia)))
    {
      var n := nodes[id].(stored := nodes[id].stored.(inertia := inertia));
      TouchValid(nodes, id, n);
      nodes := Touch(nodes, id, n);
    }

    /** `overrideInertia(flags)`. */
    method OverrideInertia(id: Id, flags: int)
      requires Valid() && id in nodes
      modifies this
      ensures Valid()
      ensures nodes == Touch(old(nodes), id, old(nodes)[id].(stored := old(nodes)[id].stored.(inertiaOverride := flags)))
    {
      var n := nodes[id].(stored := nodes[id].stored.(inertiaOverride := flags));
      TouchValid(nodes, id, n);
      nodes := Touch(nodes, id, n);
    }

    /** `overrideInertia(flags, value)`: `setInertia(value)`, then `overrideInertia(flags)`. */
    method OverrideInertiaWith(id: Id, flags: int, value: Mat3)
      requires Valid() && id in nodes
      modifies this
      ensures Valid()
      ensures var t1 := Touch(old(nodes), id, old(nodes)[id].(stored := old(nodes)[id].stored.(inertia := value)));
              nodes == Touch(t1, id, t1[id].(stored := t1[id].stored.(inertiaOverride := flags)))
    {
      SetInertia(id, value);
      OverrideInertia(id, flags);
    }

    /** `setCm(cm)`. */
    method SetCm(id: Id, cm: Vec3)
      requires Valid() && id in nodes
      modifies this
      ensures Valid()
      ensures nodes == Touch(old(nodes), id, old(nodes)[id].(stored := old(nodes)[id].stored.(cm := cm)))
    {
      var n := nodes[id].(stored := nodes[id].stored.(cm := cm));
      TouchValid(nodes, id, n);
      nodes := Touch(nodes, id, n);
    }

    /** `overrideCm(flags)`. */
    method OverrideCm(id: Id, flags: int)
      requires Valid() && id in nodes
      modifies this
      ensures Valid()
      ensures nodes == Touch(old(nodes), id, old(nodes)[id].(stored := old(nodes)[id].stored.(cmOverride := flags)))
    {
      var n := nodes[id].(stored := nodes[id].stored.(cmOverride := flags));
      TouchValid(nodes, id, n);
      nodes := Touch(nodes, id, n);
    }

    /** `overrideCm(flags, value)`: `setCm(value)`, then `overrideCm(flags)`. */
    method OverrideCmWith(id: Id, flags: int, value: Vec3)
      requires Valid() && id in nodes
      modifies this
      ensures Valid()
      ensures var t1 := Touch(old(nodes), id, old(nodes)[id].(stored := old(nodes)[id].stored.(cm := value)));
              nodes == Touch(t1, id, t1[id].(stored := t1[id].stored.(cmOverride := flags)))
    {
      SetCm(id, value);
      OverrideCm(id, flags);
    }

    /** `setCaching(toCache)`: the flag alone; no cache is cleared. */
    method SetCaching(id: Id, toCache: bool)
      requires Valid() && id in nodes
      modifies this
      ensures Valid()
      ensures nodes == old(nodes)[id := old(nodes)[id].(caching := toCache)]
    {
      StructureValid(nodes, nodes[id := nodes[id].(caching := toCache)]);
      nodes := nodes[id := nodes[id].(caching := toCache)];
    }

    /** `setAllCaching(toCache)`: the flag on the component, then on each child's subtree in turn. */
    method SetAllCaching(id: Id, toCache: bool)
      requires Valid()
      modifies this
      ensures Valid()
      ensures nodes == TreeQueries.SetAllCaching(old(nodes), id, toCache, |old(nodes)|)
    {
      ghost var t0 := nodes;
      SetAllCachingFrom(id, toCache, |nodes|);
      TreeQueries.SetAllCachingStructure(t0, id, toCache, |t0|);
      StructureValid(t0, nodes);
    }

    method SetAllCachingFrom(id: Id, toCache: bool, fuel: nat)
      modifies this
      ensures nodes == TreeQueries.SetAllCaching(old(nodes), id, toCache, fuel)
      decreases fuel, 1
    {
      if id !in nodes {
        return;
      }
      TreeQueries.SetAllCachingUnfolds(nodes, id, toCache, fuel);
      var comps := Children(nodes[id]);
      nodes := nodes[id := nodes[id].(caching := toCache)];
      if fuel > 0 {
        SetForestCaching(comps, toCache, fuel - 1);
      }
    }

    /** The loop of `setAllCaching` over the children. */
    method SetForestCaching(comps: seq<Id>, toCache: bool, fuel: nat)
      modifies this
      ensures nodes == TreeQueries.SetForestCaching(old(nodes), comps, toCache, fuel)
      decreases fuel, 2
    {
      ghost var t0 := nodes;
      var i := 0;
      while i < |comps|
        invariant 0 <= i <= |comps|
        invariant nodes == TreeQueries.SetForestCaching(t0, comps[..i], toCache, fuel)
      {
        TreeQueries.SetForestCachingStep(t0, comps, i, toCache, fuel);
        SetAllCachingFrom(comps[i], toCache, fuel);
        i := i + 1;
      }
      assert comps[..i] == comps;
    }

    /**
     * `calculateBurnoutTime()`: the greatest burnout time of the children
     * (each of which stores its own), stored in the component and returned.
     * A class that supplies its own burnout time (`own`) answers with it.
     */
    method CalculateBurnoutTime(own: Id -> Option<real>, id: Id, fuel: nat) returns (btime: real)
      requires Valid()
      modifies this
      ensures btime == TreeQueries.Burnout(old(nodes), own, id, fuel)
      ensures nodes == TreeQueries.StoreBurnout(old(nodes), own, id, fuel)
      ensures Valid()
      decreases fuel, 1
    {
      if id !in nodes {
        return 0.0;
      }
      if own(id).Some? {
        return own(id).value;
      }
      ghost var t0 := nodes;
      if fuel == 0 {
        btime := 0.0;
      } else {
        btime := LatestBurnout(own, Children(nodes[id]), fuel - 1);
      }
      TreeQueries.BurnoutStep(t0, own, id, fuel, nodes, btime);
      nodes := nodes[id := nodes[id].(burnoutTime := btime)];
      TreeQueries.StoreBurnoutValid(t0, own, id, fuel);
    }

    /** The loop of `calculateBurnoutTime` over the children, each storing its own burnout time. */
    method LatestBurnout(own: Id -> Option<real>, comps: seq<Id>, fuel: nat) returns (latest: real)
      requires Valid()
      modifies this
      ensures latest == MaxOrZero(TreeQueries.BurnoutTimes(old(nodes), own, comps, fuel))
      ensures nodes == TreeQueries.StoreBurnoutForest(old(nodes), own, comps, fuel)
      ensures Valid()
      decreases fuel, 2
    {
      ghost var t0 := nodes;
      latest := 0.0;
      var i := 0;
      while i < |comps|
        invariant 0 <= i <= |comps|
        invariant nodes == TreeQueries.StoreBurnoutForest(t0, own, comps[..i], fuel)
        invariant latest == MaxOrZero(TreeQueries.BurnoutTimes(t0, own, comps[..i], fuel))
        invariant Valid()
      {
        ghost var before := nodes;
        var b := CalculateBurnoutTime(own, comps[i], fuel);
        TreeQueries.LatestBurnoutStep(t0, own, comps, i, fuel, before, nodes, b);
        latest := Max(latest, b);
        i := i + 1;
      }
      assert comps[..i] == comps;
    }

    /**
     * `mass(time)`: without caching the aggregate; with caching the cached
     * value at the clamped time, computed and stored on a miss. Asking again
     * gives the same answer.
     */
    method Mass(o: Own, id: Id, time: real) returns (m: real)
      requires Valid() && id in nodes
      modifies this
      ensures Valid()
      ensures m == MassOf(old(nodes), o, id, time, |old(nodes)|)
      ensures !old(nodes)[id].caching ==> nodes == old(nodes)
      ensures old(nodes)[id].caching ==> nodes == StoreMass(old(nodes), id, Clamp(time, old(nodes)[id].burnoutTime), m)
      ensures MassOf(nodes, o, id, time, |nodes|) == m
    {
      var n := nodes[id];
      if !n.caching {
        m := MassLoop(nodes, o, id, time, |nodes|);
        return;
      }
      var at := Clamp(time, n.burnoutTime);
      if at in n.memo.base.mass {
        m := n.memo.base.mass[at];
        assert StoreMass(nodes, id, at, m) == nodes by {
          assert n.memo.base.mass[at := m] == n.memo.base.mass;
        }
        return;
      }
      m := MassLoop(nodes, o, id, at, |nodes|);
      StructureValid(nodes, StoreMass(nodes, id, at, m));
      nodes := StoreMass(nodes, id, at, m);
    }

    /** `inertia(time)`: as `mass`, with the inertia cache. */
    method Inertia(o: Own, id: Id, time: real) returns (inertia: Mat3)
      requires Valid() && id in nodes
      modifies this
      ensures Valid()
      ensures inertia == InertiaOf(old(nodes), o, id, time, |old(nodes)|)
      ensures !old(nodes)[id].caching ==> nodes == old(nodes)
      ensures old(nodes)[id].caching ==> nodes == StoreInertia(old(nodes), id, Clamp(time, old(nodes)[id].burnoutTime), inertia)
      ensures InertiaOf(nodes, o, id, time, |nodes|) == inertia
    {
      var n := nodes[id];
      if !n.caching {
        inertia := InertiaLoop(nodes, o, id, time, |nodes|);
        return;
      }
      var at := Clamp(time, n.burnoutTime);
      if at in n.memo.base.inertia {
        inertia := n.memo.base.inertia[at];
        assert StoreInertia(nodes, id, at, inertia) == nodes by {
          assert n.memo.base.inertia[at := inertia] == n.memo.base.inertia;
        }
        return;
      }
      inertia := InertiaLoop(nodes, o, id, at, |nodes|);
      StructureValid(nodes, StoreInertia(nodes, id, at, inertia));
      nodes := StoreInertia(nodes, id, at, inertia);
    }

    /** `thrust(time)`: as `mass`, with the thrust cache and without clamping. */
    method Thrust(o: Own, id: Id, time: real) returns (thrust: Vec3)
      requires Valid() && id in nodes
      modifies this
      ensures Valid()
      ensures thrust == ThrustOf(old(nodes), o, id, time, |old(nodes)|)
      ensures !old(nodes)[id].caching ==> nodes == old(nodes)
      ensures old(nodes)[id].caching ==> nodes == StoreThrust(old(nodes), id, time, thrust)
      ensures ThrustOf(nodes, o, id, time, |nodes|) == thrust
    {
      var n := nodes[id];
      if !n.caching {
        thrust := ThrustLoop(nodes, o, id, time, |nodes|);
        return;
      }
      if time in n.memo.base.thrust {
        thrust := n.memo.base.thrust[time];
        assert StoreThrust(nodes, id, time, thrust) == nodes by {
          assert n.memo.base.thrust[time := thrust] == n.memo.base.thrust;
        }
        return;
      }
      thrust := ThrustLoop(nodes, o, id, time, |nodes|);
      StructureValid(nodes, StoreThrust(nodes, id, time, thrust));
      StoredThrustFound(nodes, o, id, time, thrust, |nodes|);
      nodes := StoreThrust(nodes, id, time, thrust);
    }

    /** `cm(time)`: the cached value when caching is on and there is one, the aggregate otherwise; nothing is stored. */
    method Cm(o: Own, id: Id, time: real) returns (cm: Vec3)
      requires id in nodes
      ensures cm == CmOf(nodes, o, id, time, |nodes|)
    {
      var n := nodes[id];
      if n.caching && time in n.memo.base.cm {
        return n.memo.base.cm[time];
      }
      cm := CmLoop(nodes, o, id, time, |nodes|);
    }

    /** `thrustPosition(time)`: as `cm`, with the thrust-position cache. */
    method ThrustPosition(o: Own, norm: Vec3 -> real, id: Id, time: real) returns (position: Vec3)
      requires id in nodes
      ensures position == ThrustPositionOf(nodes, o, norm, id, time, |nodes|)
    {
      var n := nodes[id];
      if n.caching && time in n.memo.base.thrustPosition {
        return n.memo.base.thrustPosition[time];
      }
      position := ThrustPositionLoop(nodes, o, norm, id, time, |nodes|);
    }

    /**
     * `bodyLift(alpha)` of a body: always computed afresh, and with caching
     * on also written to the body-lift cache.
     */
    method BodyLift(id: Id, alpha: real, planformArea: real, referenceArea: real, sin: real -> real) returns (lift: real)
      requires Valid() && id in nodes && referenceArea != 0.0
      modifies this
      ensures Valid()
      ensures lift == TreeQueries.BodyLift(alpha, planformArea, referenceArea, sin)
      ensures var n := old(nodes)[id];
              nodes == old(nodes)[id := n.(memo := n.memo.(bodyLift := TreeQueries.BodyLiftWithCache(n.memo.bodyLift, n.caching, alpha, lift).1))]
    {
      var n := nodes[id];
      lift := TreeQueries.BodyLift(alpha, planformArea, referenceArea, sin);
      var cached := TreeQueries.BodyLiftWithCache(n.memo.bodyLift, n.caching, alpha, lift);
      StructureValid(nodes, nodes[id := n.(memo := n.memo.(bodyLift := cached.1))]);
      nodes := nodes[id := n.(memo := n.memo.(bodyLift := cached.1))];
    }
  }
}
