/**
 * The recursive walks of `component.cpp` and the component subclasses that
 * are not mass aggregates: `height`, the tree drawing of
 * `componentTreeRepr`, `setAllCaching`, `calculateBurnoutTime`,
 * `bodyRadius`, `findComponent` and the body-lift coefficient with its
 * write-only cache.
 */
module TreeQueries {
  import opened Wrappers
  import opened Points
  import opened ComponentTree
  import opened Folds
  import opened Aggregates

  // ---------------------------------------------------------------------
  // Height
  // ---------------------------------------------------------------------

  /** `height()`: 0 for a childless component, otherwise one more than the tallest child. */
  function Height(t: Tree, id: Id, fuel: nat): (r: nat)
    ensures r <= fuel
    ensures r == 0 <==> id !in t || fuel == 0 || |Children(t[id])| == 0
    decreases fuel, 1, 0
  {
    if id !in t || fuel == 0 || |Children(t[id])| == 0 then 0
    else 1 + MaxHeight(t, Children(t[id]), fuel - 1)
  }

  /** The loop of `height()`: the greatest child height, from 0. */
  function MaxHeight(t: Tree, ids: seq<Id>, fuel: nat): (r: nat)
    ensures r <= fuel
    decreases fuel, 2, |ids|
  {
    if |ids| == 0 then 0
    else
      var h := MaxHeight(t, ids[..|ids| - 1], fuel);
      var c := Height(t, ids[|ids| - 1], fuel);
      if c > h then c else h
  }

  lemma {:induction false} MaxHeightBounds(t: Tree, ids: seq<Id>, fuel: nat)
    ensures forall i :: 0 <= i < |ids| ==> Height(t, ids[i], fuel) <= MaxHeight(t, ids, fuel)
    ensures |ids| > 0 ==> exists i :: 0 <= i < |ids| && Height(t, ids[i], fuel) == MaxHeight(t, ids, fuel)
    decreases |ids|
  {
    if |ids| > 0 {
      var n := |ids| - 1;
      MaxHeightBounds(t, ids[..n], fuel);
      assert forall i :: 0 <= i < n ==> ids[..n][i] == ids[i];
      if Height(t, ids[n], fuel) <= MaxHeight(t, ids[..n], fuel) && n > 0 {
        var i :| 0 <= i < n && Height(t, ids[..n][i], fuel) == MaxHeight(t, ids[..n], fuel);
        assert Height(t, ids[i], fuel) == MaxHeight(t, ids, fuel);
      }
    }
  }

  /**
   * A component's height is 0 exactly when it has no children; otherwise it
   * is above every child's height and one more than some child's.
   */
  lemma HeightIsLongestPath(t: Tree, id: Id, fuel: nat)
    requires id in t && fuel > 0
    ensures Height(t, id, fuel) == 0 <==> |Children(t[id])| == 0
    ensures forall c :: c in Children(t[id]) ==> Height(t, c, fuel - 1) + 1 <= Height(t, id, fuel)
    ensures |Children(t[id])| > 0 ==> exists c :: c in Children(t[id]) && Height(t, id, fuel) == Height(t, c, fuel - 1) + 1
  {
    var ids := Children(t[id]);
    MaxHeightBounds(t, ids, fuel - 1);
    if |ids| > 0 {
      var i :| 0 <= i < |ids| && Height(t, ids[i], fuel - 1) == MaxHeight(t, ids, fuel - 1);
      assert ids[i] in ids;
    }
  }

  // ---------------------------------------------------------------------
  // Tree drawing
  // ---------------------------------------------------------------------

  /** One line of the drawing: the prefix drawn before the component's name. */
  datatype Line = Line(prefix: string, id: Id)

  const Tee := "├── "
  const Pipe := "│   "
  const Elbow := "└── "
  const Blank := "    "

  /**
   * The prefix and child prefix added for child `c` when `back` is the last
   * child: the source tests whether `c` is the same object as `comps.back()`.
   */
  function Branch(c: Id, back: Id): (r: (string, string))
    ensures |r.0| == 4 && |r.1| == 4
  {
    if c == back then (Elbow, Blank) else (Tee, Pipe)
  }

  /**
   * `componentTreeRepr(prefix, childPrefix, treeHeight)`: a line for the
   * component, then the drawing of each child with the child prefix extended
   * by a branch. The name, mass and centre-of-mass columns are not modelled.
   */
  function Repr(t: Tree, id: Id, prefix: string, childPrefix: string, fuel: nat): (r: seq<Line>)
    ensures id !in t <==> r == []
    ensures id in t ==> r[0] == Line(prefix, id)
    ensures forall k :: 1 <= k < |r| ==> childPrefix <= r[k].prefix
    decreases fuel, 1, 0
  {
    if id !in t then []
    else
      var comps := Children(t[id]);
      [Line(prefix, id)] + (if fuel == 0 || |comps| == 0 then [] else ReprChildren(t, comps, comps[|comps| - 1], childPrefix, fuel - 1))
  }

  /** The drawings of the children, each indented under the child prefix. */
  function ReprChildren(t: Tree, ids: seq<Id>, back: Id, childPrefix: string, fuel: nat): (r: seq<Line>)
    ensures forall k :: 0 <= k < |r| ==> childPrefix <= r[k].prefix
    decreases fuel, 2, |ids|
  {
    if |ids| == 0 then []
    else
      var c := ids[|ids| - 1];
      var (branch, extension) := Branch(c, back);
      ReprChildren(t, ids[..|ids| - 1], back, childPrefix, fuel) + Repr(t, c, childPrefix + branch, childPrefix + extension, fuel)
  }

  function Ids(lines: seq<Line>): (r: seq<Id>)
    ensures |r| == |lines| && forall i :: 0 <= i < |lines| ==> r[i] == lines[i].id
  {
    seq(|lines|, i requires 0 <= i < |lines| => lines[i].id)
  }

  lemma IdsAppend(a: seq<Line>, b: seq<Line>)
    ensures Ids(a + b) == Ids(a) + Ids(b)
  {
  }

  /** The drawing has one line per component of the subtree, in pre-order. */
  lemma {:induction false} ReprListsSubtree(t: Tree, id: Id, prefix: string, childPrefix: string, fuel: nat)
    ensures Ids(Repr(t, id, prefix, childPrefix, fuel)) == Subtree(t, id, fuel)
    decreases fuel, 1, 0
  {
    if id in t {
      var comps := Children(t[id]);
      if fuel == 0 || |comps| == 0 {
        assert Repr(t, id, prefix, childPrefix, fuel) == [Line(prefix, id)];
        assert Subtree(t, id, fuel) == [id];
      } else {
        var rest := ReprChildren(t, comps, comps[|comps| - 1], childPrefix, fuel - 1);
        ReprChildrenListsForest(t, comps, comps[|comps| - 1], childPrefix, fuel - 1);
        assert Repr(t, id, prefix, childPrefix, fuel) == [Line(prefix, id)] + rest;
        assert Subtree(t, id, fuel) == [id] + Forest(t, comps, fuel - 1);
        IdsAppend([Line(prefix, id)], rest);
        assert Ids([Line(prefix, id)]) == [id];
      }
    }
  }

  lemma {:induction false} ReprChildrenListsForest(t: Tree, ids: seq<Id>, back: Id, childPrefix: string, fuel: nat)
    ensures Ids(ReprChildren(t, ids, back, childPrefix, fuel)) == Forest(t, ids, fuel)
    decreases fuel, 2, |ids|
  {
    if |ids| > 0 {
      var c := ids[|ids| - 1];
      var (branch, extension) := Branch(c, back);
      ReprChildrenListsForest(t, ids[..|ids| - 1], back, childPrefix, fuel);
      ReprListsSubtree(t, c, childPrefix + branch, childPrefix + extension, fuel);
      IdsAppend(ReprChildren(t, ids[..|ids| - 1], back, childPrefix, fuel), Repr(t, c, childPrefix + branch, childPrefix + extension, fuel));
    }
  }

  /**
   * The name column is `4 * height()` characters wider than the longest
   * name: every prefix drawn from equally long prefixes fits in 4 characters
   * per level of height.
   */
  lemma {:induction false} ReprPrefixesFit(t: Tree, id: Id, prefix: string, childPrefix: string, fuel: nat)
    requires |prefix| == |childPrefix|
    ensures forall l :: l in Repr(t, id, prefix, childPrefix, fuel) ==> |l.prefix| <= |prefix| + 4 * Height(t, id, fuel)
    decreases fuel, 1, 0
  {
    if id in t {
      var comps := Children(t[id]);
      if fuel > 0 && |comps| > 0 {
        ReprChildrenPrefixesFit(t, comps, comps[|comps| - 1], childPrefix, fuel - 1);
      }
    }
  }

  lemma {:induction false} ReprChildrenPrefixesFit(t: Tree, ids: seq<Id>, back: Id, childPrefix: string, fuel: nat)
    ensures forall l :: l in ReprChildren(t, ids, back, childPrefix, fuel) ==>
              |l.prefix| <= |childPrefix| + 4 + 4 * MaxHeight(t, ids, fuel)
    decreases fuel, 2, |ids|
  {
    if |ids| > 0 {
      var c := ids[|ids| - 1];
      var (branch, extension) := Branch(c, back);
      ReprChildrenPrefixesFit(t, ids[..|ids| - 1], back, childPrefix, fuel);
      ReprPrefixesFit(t, c, childPrefix + branch, childPrefix + extension, fuel);
    }
  }

  /** Drawn from the root with empty prefixes, every prefix fits the `4 * height()` column. */
  lemma TreePrefixesFit(t: Tree, id: Id, fuel: nat)
    ensures forall l :: l in Repr(t, id, "", "", fuel) ==> |l.prefix| <= 4 * Height(t, id, fuel)
  {
    ReprPrefixesFit(t, id, "", "", fuel);
  }

  /**
   * With each child listed once, every child but the last is drawn with
   * "├── " and "│   ", and the last with "└── " and "    ".
   */
  lemma BranchesOfDistinctChildren(ids: seq<Id>)
    requires NoDup(ids) && |ids| > 0
    ensures Branch(ids[|ids| - 1], ids[|ids| - 1]) == (Elbow, Blank)
    ensures forall i :: 0 <= i < |ids| - 1 ==> Branch(ids[i], ids[|ids| - 1]) == (Tee, Pipe)
  {
    var n := |ids| - 1;
    assert multiset(ids) == multiset(ids[..n]) + multiset([ids[n]]) by {
      assert ids == ids[..n] + [ids[n]];
    }
    assert multiset(ids)[ids[n]] == multiset(ids[..n])[ids[n]] + 1;
    assert ids[n] !in ids[..n];
    forall i | 0 <= i < n
      ensures ids[i] != ids[n]
    {
      assert ids[i] == ids[..n][i];
    }
  }

  // ---------------------------------------------------------------------
  // setAllCaching
  // ---------------------------------------------------------------------

  /** Two trees with the same components and the same child lists. */
  ghost predicate SameLists(a: Tree, b: Tree)
  {
    a.Keys == b.Keys && forall x :: x in a ==> a[x].lists == b[x].lists
  }

  /** The subtree depends on the child lists only. */
  lemma {:induction false} SubtreeOfSameLists(a: Tree, b: Tree, id: Id, fuel: nat)
    requires SameLists(a, b)
    ensures Subtree(a, id, fuel) == Subtree(b, id, fuel)
    decreases fuel, 1, 0
  {
    if id in a && fuel > 0 {
      ForestOfSameLists(a, b, Children(a[id]), fuel - 1);
    }
  }

  lemma {:induction false} ForestOfSameLists(a: Tree, b: Tree, ids: seq<Id>, fuel: nat)
    requires SameLists(a, b)
    ensures Forest(a, ids, fuel) == Forest(b, ids, fuel)
    decreases fuel, 2, |ids|
  {
    if |ids| > 0 {
      ForestOfSameLists(a, b, ids[..|ids| - 1], fuel);
      SubtreeOfSameLists(a, b, ids[|ids| - 1], fuel);
    }
  }

  /**
   * `setAllCaching(toCache)`: the flag is set on the component and then on
   * each child's subtree in list order.
   */
  function SetAllCaching(t: Tree, id: Id, toCache: bool, fuel: nat): (r: Tree)
    ensures r.Keys == t.Keys
    decreases fuel, 1, 0
  {
    if id !in t then t
    else
      var t1 := t[id := t[id].(caching := toCache)];
      if fuel == 0 then t1 else SetForestCaching(t1, Children(t[id]), toCache, fuel - 1)
  }

  /** The loop of `setAllCaching` over the children, first to last. */
  function SetForestCaching(t: Tree, ids: seq<Id>, toCache: bool, fuel: nat): (r: Tree)
    ensures r.Keys == t.Keys
    decreases fuel, 2, |ids|
  {
    if |ids| == 0 then t
    else SetAllCaching(SetForestCaching(t, ids[..|ids| - 1], toCache, fuel), ids[|ids| - 1], toCache, fuel)
  }

  /** `t` with the caching switch set to `toCache` on exactly the components in `ids`. */
  ghost function WithCaching(t: Tree, ids: seq<Id>, toCache: bool): Tree
  {
    map x | x in t :: if x in ids then t[x].(caching := toCache) else t[x]
  }

  /** Setting the switch on `a` and then on `b` sets it on `a + b`. */
  lemma WithCachingThen(t: Tree, a: seq<Id>, b: seq<Id>, toCache: bool)
    ensures WithCaching(WithCaching(t, a, toCache), b, toCache) == WithCaching(t, a + b, toCache)
  {
    var l, r := WithCaching(WithCaching(t, a, toCache), b, toCache), WithCaching(t, a + b, toCache);
    forall x | x in t
      ensures l[x] == r[x]
    {
      assert x in a + b <==> x in a || x in b;
    }
  }

  /** Setting the switch on one component is the single-entry update. */
  lemma WithCachingOne(t: Tree, id: Id, toCache: bool)
    requires id in t
    ensures WithCaching(t, [id], toCache) == t[id := t[id].(caching := toCache)]
  {
  }

  /** Setting the switch on nothing changes nothing. */
  lemma WithCachingNone(t: Tree, toCache: bool)
    ensures WithCaching(t, [], toCache) == t
  {
  }

  /** Setting the switch leaves every child list as it was. */
  lemma WithCachingSameLists(t: Tree, ids: seq<Id>, toCache: bool)
    ensures SameLists(t, WithCaching(t, ids, toCache))
  {
  }

  /** Exactly the components of the subtree get the flag, and nothing else changes. */
  lemma {:induction false} SetAllCachingSetsSubtree(t: Tree, id: Id, toCache: bool, fuel: nat)
    ensures SetAllCaching(t, id, toCache, fuel) == WithCaching(t, Subtree(t, id, fuel), toCache)
    decreases fuel, 1, 0
  {
    if id !in t {
      WithCachingNone(t, toCache);
    } else if fuel == 0 {
      WithCachingOne(t, id, toCache);
    } else {
      var f: nat := fuel - 1;
      var kids := Children(t[id]);
      var t1 := WithCaching(t, [id], toCache);
      WithCachingOne(t, id, toCache);
      SetAllCachingUnfolds(t, id, toCache, fuel);
      SubtreeUnfolds(t, id, fuel);
      WithCachingSameLists(t, [id], toCache);
      ForestOfSameLists(t, t1, kids, f);
      SetForestCachingSetsForest(t1, kids, toCache, f);
      WithCachingThen(t, [id], Forest(t, kids, f), toCache);
      calc {
        SetAllCaching(t, id, toCache, fuel);
        SetForestCaching(t1, kids, toCache, f);
        WithCaching(t1, Forest(t1, kids, f), toCache);
        WithCaching(t1, Forest(t, kids, f), toCache);
        WithCaching(t, [id] + Forest(t, kids, f), toCache);
      }
    }
  }

  /** Over a list of children, exactly their subtrees' components get the flag. */
  lemma {:induction false} SetForestCachingSetsForest(t: Tree, ids: seq<Id>, toCache: bool, fuel: nat)
    ensures SetForestCaching(t, ids, toCache, fuel) == WithCaching(t, Forest(t, ids, fuel), toCache)
    decreases fuel, 2, |ids|
  {
    if |ids| == 0 {
      WithCachingNone(t, toCache);
    } else {
      var n := |ids| - 1;
      var front := Forest(t, ids[..n], fuel);
      var t1 := WithCaching(t, front, toCache);
      SetForestCachingSetsForest(t, ids[..n], toCache, fuel);
      WithCachingSameLists(t, front, toCache);
      SubtreeOfSameLists(t, t1, ids[n], fuel);
      SetAllCachingSetsSubtree(t1, ids[n], toCache, fuel);
      WithCachingThen(t, front, Subtree(t, ids[n], fuel), toCache);
    }
  }

  /** The first step of `setAllCaching`: the component's own flag, then its children. */
  lemma SetAllCachingUnfolds(t: Tree, id: Id, toCache: bool, fuel: nat)
    requires id in t
    ensures SetAllCaching(t, id, toCache, fuel)
            == if fuel == 0 then t[id := t[id].(caching := toCache)]
               else SetForestCaching(t[id := t[id].(caching := toCache)], Children(t[id]), toCache, fuel - 1)
  {
  }

  /** One more child of the `setAllCaching` loop. */
  lemma SetForestCachingStep(t: Tree, ids: seq<Id>, i: nat, toCache: bool, fuel: nat)
    requires i < |ids|
    ensures SetForestCaching(t, ids[..i + 1], toCache, fuel)
            == SetAllCaching(SetForestCaching(t, ids[..i], toCache, fuel), ids[i], toCache, fuel)
  {
    assert ids[..i + 1][..i] == ids[..i];
  }

  /** `setAllCaching` changes the caching flags only. */
  lemma SetAllCachingStructure(t: Tree, id: Id, toCache: bool, fuel: nat)
    ensures SameStructure(t, SetAllCaching(t, id, toCache, fuel))
  {
    var r := SetAllCaching(t, id, toCache, fuel);
    SetAllCachingSetsSubtree(t, id, toCache, fuel);
    forall x | x in t
      ensures r[x].parent == t[x].parent && r[x].kind == t[x].kind && r[x].lists == t[x].lists
    {
      assert r[x] == t[x] || r[x] == t[x].(caching := toCache);
    }
  }

  // ---------------------------------------------------------------------
  // calculateBurnoutTime
  // ---------------------------------------------------------------------

  /**
   * `calculateBurnoutTime()`: a class that overrides it (the motor) gives its
   * own value through `own`; the base version is the greatest burnout time
   * of the children, and 0 without children.
   */
  function Burnout(t: Tree, own: Id -> Option<real>, id: Id, fuel: nat): (r: real)
    ensures id in t && own(id).None? ==> r >= 0.0
    decreases fuel, 1, 0
  {
    if id !in t then 0.0
    else if own(id).Some? then own(id).value
    else if fuel == 0 then 0.0
    else MaxOrZero(BurnoutTimes(t, own, Children(t[id]), fuel - 1))
  }

  function BurnoutTimes(t: Tree, own: Id -> Option<real>, ids: seq<Id>, fuel: nat): (r: seq<real>)
    ensures |r| == |ids|
    decreases fuel, 2, |ids|
  {
    if |ids| == 0 then []
    else BurnoutTimes(t, own, ids[..|ids| - 1], fuel) + [Burnout(t, own, ids[|ids| - 1], fuel)]
  }

  lemma {:induction false} BurnoutTimesAt(t: Tree, own: Id -> Option<real>, ids: seq<Id>, fuel: nat)
    ensures forall i :: 0 <= i < |ids| ==> BurnoutTimes(t, own, ids, fuel)[i] == Burnout(t, own, ids[i], fuel)
    decreases |ids|
  {
    if |ids| > 0 {
      BurnoutTimesAt(t, own, ids[..|ids| - 1], fuel);
    }
  }

  /** A base-class component burns out when its last child does, and never before 0. */
  lemma BurnoutIsLatestChild(t: Tree, own: Id -> Option<real>, id: Id, fuel: nat)
    requires id in t && own(id).None? && fuel > 0
    ensures forall c :: c in Children(t[id]) ==> Burnout(t, own, c, fuel - 1) <= Burnout(t, own, id, fuel)
    ensures Burnout(t, own, id, fuel) == 0.0
            || exists c :: c in Children(t[id]) && Burnout(t, own, id, fuel) == Burnout(t, own, c, fuel - 1)
  {
    var ids := Children(t[id]);
    var times := BurnoutTimes(t, own, ids, fuel - 1);
    BurnoutTimesAt(t, own, ids, fuel - 1);
    forall c | c in ids
      ensures Burnout(t, own, c, fuel - 1) <= Burnout(t, own, id, fuel)
    {
      var i :| 0 <= i < |ids| && ids[i] == c;
      assert times[i] == Burnout(t, own, c, fuel - 1);
    }
    if Burnout(t, own, id, fuel) != 0.0 {
      var i :| 0 <= i < |times| && times[i] == Burnout(t, own, id, fuel);
      assert ids[i] in ids;
    }
  }

  /** The burnout time depends on the child lists only. */
  lemma {:induction false} BurnoutOfSameLists(a: Tree, b: Tree, own: Id -> Option<real>, id: Id, fuel: nat)
    requires SameLists(a, b)
    ensures Burnout(a, own, id, fuel) == Burnout(b, own, id, fuel)
    decreases fuel, 1, 0
  {
    if id in a && own(id).None? && fuel > 0 {
      assert id in b && a[id].lists == b[id].lists;
      var comps := Children(a[id]);
      assert comps == Children(b[id]);
      BurnoutTimesOfSameLists(a, b, own, comps, fuel - 1);
      BurnoutOfChildren(a, own, id, fuel);
      BurnoutOfChildren(b, own, id, fuel);
    }
  }

  /** A component without its own motor burns out with the latest of its children. */
  lemma BurnoutOfChildren(t: Tree, own: Id -> Option<real>, id: Id, fuel: nat)
    requires id in t && own(id).None? && fuel > 0
    ensures Burnout(t, own, id, fuel) == MaxOrZero(BurnoutTimes(t, own, Children(t[id]), fuel - 1))
  {
  }

  lemma {:induction false} BurnoutTimesOfSameLists(a: Tree, b: Tree, own: Id -> Option<real>, ids: seq<Id>, fuel: nat)
    requires SameLists(a, b)
    ensures BurnoutTimes(a, own, ids, fuel) == BurnoutTimes(b, own, ids, fuel)
    decreases fuel, 2, |ids|
  {
    if |ids| > 0 {
      BurnoutTimesOfSameLists(a, b, own, ids[..|ids| - 1], fuel);
      BurnoutOfSameLists(a, b, own, ids[|ids| - 1], fuel);
    }
  }

  /**
   * The stores of `calculateBurnoutTime`: every base-class component it
   * visits keeps its result in `_burnoutTime`. What changes is stated by
   * `StoreBurnoutChangesOnlyBurnout`.
   */
  function StoreBurnout(t: Tree, own: Id -> Option<real>, id: Id, fuel: nat): (r: Tree)
    ensures r.Keys == t.Keys
    decreases fuel, 1, 0
  {
    if id !in t || own(id).Some? then t
    else
      var t1 := if fuel == 0 then t else StoreBurnoutForest(t, own, Children(t[id]), fuel - 1);
      t1[id := t1[id].(burnoutTime := Burnout(t, own, id, fuel))]
  }

  function StoreBurnoutForest(t: Tree, own: Id -> Option<real>, ids: seq<Id>, fuel: nat): (r: Tree)
    ensures r.Keys == t.Keys
    decreases fuel, 2, |ids|
  {
    if |ids| == 0 then t
    else StoreBurnout(StoreBurnoutForest(t, own, ids[..|ids| - 1], fuel), own, ids[|ids| - 1], fuel)
  }

  /** `r` is `t` with, at most, other burnout times. */
  ghost predicate OnlyBurnoutChanged(t: Tree, r: Tree)
  {
    r.Keys == t.Keys && forall x :: x in t ==> r[x] == t[x].(burnoutTime := r[x].burnoutTime)
  }

  lemma OnlyBurnoutChangedTransitive(a: Tree, b: Tree, c: Tree)
    requires OnlyBurnoutChanged(a, b) && OnlyBurnoutChanged(b, c)
    ensures OnlyBurnoutChanged(a, c)
  {
    forall x | x in a
      ensures c[x] == a[x].(burnoutTime := c[x].burnoutTime)
    {
      assert b[x] == a[x].(burnoutTime := b[x].burnoutTime);
    }
  }

  /**
   * `calculateBurnoutTime` changes nothing but burnout times, and a
   * component without its own motor stores the burnout time it returns.
   */
  lemma {:induction false} StoreBurnoutChangesOnlyBurnout(t: Tree, own: Id -> Option<real>, id: Id, fuel: nat)
    ensures OnlyBurnoutChanged(t, StoreBurnout(t, own, id, fuel))
    ensures id in t && own(id).None? ==> StoreBurnout(t, own, id, fuel)[id].burnoutTime == Burnout(t, own, id, fuel)
    decreases fuel, 1, 0
  {
    if id in t && own(id).None? {
      var t1 := if fuel == 0 then t else StoreBurnoutForest(t, own, Children(t[id]), fuel - 1);
      if fuel > 0 {
        StoreBurnoutForestChangesOnlyBurnout(t, own, Children(t[id]), fuel - 1);
      }
      assert OnlyBurnoutChanged(t, t1);
      var r := t1[id := t1[id].(burnoutTime := Burnout(t, own, id, fuel))];
      assert OnlyBurnoutChanged(t1, r);
      OnlyBurnoutChangedTransitive(t, t1, r);
    }
  }

  lemma {:induction false} StoreBurnoutForestChangesOnlyBurnout(t: Tree, own: Id -> Option<real>, ids: seq<Id>, fuel: nat)
    ensures OnlyBurnoutChanged(t, StoreBurnoutForest(t, own, ids, fuel))
    decreases fuel, 2, |ids|
  {
    if |ids| > 0 {
      var t1 := StoreBurnoutForest(t, own, ids[..|ids| - 1], fuel);
      StoreBurnoutForestChangesOnlyBurnout(t, own, ids[..|ids| - 1], fuel);
      StoreBurnoutChangesOnlyBurnout(t1, own, ids[|ids| - 1], fuel);
      OnlyBurnoutChangedTransitive(t, t1, StoreBurnout(t1, own, ids[|ids| - 1], fuel));
    }
  }

  /** Changing burnout times keeps the child lists. */
  /** Storing burnout times keeps the tree invariant: no link, kind or list changes. */
  lemma StoreBurnoutValid(t: Tree, own: Id -> Option<real>, id: Id, fuel: nat)
    requires ComponentTree.Valid(t)
    ensures ComponentTree.Valid(StoreBurnout(t, own, id, fuel))
  {
    StoreBurnoutChangesOnlyBurnout(t, own, id, fuel);
    OnlyBurnoutChangedStructure(t, StoreBurnout(t, own, id, fuel));
    StructureValid(t, StoreBurnout(t, own, id, fuel));
  }

  lemma OnlyBurnoutChangedStructure(t: Tree, r: Tree)
    requires OnlyBurnoutChanged(t, r)
    ensures SameStructure(t, r)
  {
    forall x | x in t
      ensures r[x].parent == t[x].parent && r[x].kind == t[x].kind && r[x].lists == t[x].lists
    {
      assert r[x] == t[x].(burnoutTime := r[x].burnoutTime);
    }
  }

  lemma OnlyBurnoutChangedSameLists(t: Tree, r: Tree)
    requires OnlyBurnoutChanged(t, r)
    ensures SameLists(t, r)
  {
    forall x | x in t
      ensures t[x].lists == r[x].lists
    {
      assert r[x] == t[x].(burnoutTime := r[x].burnoutTime);
    }
  }

  /**
   * One component's step of `calculateBurnoutTime`: the children's tree and
   * latest burnout time `b` first, then the component's own entry.
   */
  lemma BurnoutStep(t: Tree, own: Id -> Option<real>, id: Id, fuel: nat, t1: Tree, b: real)
    requires id in t && own(id).None?
    requires fuel == 0 ==> t1 == t && b == 0.0
    requires fuel > 0 ==> t1 == StoreBurnoutForest(t, own, Children(t[id]), fuel - 1)
    requires fuel > 0 ==> b == MaxOrZero(BurnoutTimes(t, own, Children(t[id]), fuel - 1))
    ensures id in t1
    ensures Burnout(t, own, id, fuel) == b
    ensures StoreBurnout(t, own, id, fuel) == t1[id := t1[id].(burnoutTime := b)]
  {
  }

  /**
   * One pass of the `calculateBurnoutTime` loop: the child, asked in the tree
   * the earlier children left, stores and returns what it would have in the
   * original tree.
   */
  lemma LatestBurnoutStep(t0: Tree, own: Id -> Option<real>, comps: seq<Id>, i: nat, fuel: nat, before: Tree, after: Tree, b: real)
    requires i < |comps|
    requires before == StoreBurnoutForest(t0, own, comps[..i], fuel)
    requires after == StoreBurnout(before, own, comps[i], fuel)
    requires b == Burnout(before, own, comps[i], fuel)
    ensures after == StoreBurnoutForest(t0, own, comps[..i + 1], fuel)
    ensures MaxOrZero(BurnoutTimes(t0, own, comps[..i + 1], fuel))
            == Max(MaxOrZero(BurnoutTimes(t0, own, comps[..i], fuel)), b)
  {
    StoreBurnoutForestStep(t0, own, comps, i, fuel);
    StoreBurnoutForestChangesOnlyBurnout(t0, own, comps[..i], fuel);
    OnlyBurnoutChangedSameLists(t0, before);
    BurnoutOfSameLists(t0, before, own, comps[i], fuel);
  }

  /** One more child of the `calculateBurnoutTime` loop. */
  lemma StoreBurnoutForestStep(t: Tree, own: Id -> Option<real>, ids: seq<Id>, i: nat, fuel: nat)
    requires i < |ids|
    ensures StoreBurnoutForest(t, own, ids[..i + 1], fuel)
            == StoreBurnout(StoreBurnoutForest(t, own, ids[..i], fuel), own, ids[i], fuel)
    ensures MaxOrZero(BurnoutTimes(t, own, ids[..i + 1], fuel))
            == Max(MaxOrZero(BurnoutTimes(t, own, ids[..i], fuel)), Burnout(t, own, ids[i], fuel))
  {
    assert ids[..i + 1][..i] == ids[..i];
    var vals := BurnoutTimes(t, own, ids[..i + 1], fuel);
    assert vals[..i] == BurnoutTimes(t, own, ids[..i], fuel);
  }

  // ---------------------------------------------------------------------
  // bodyRadius
  // ---------------------------------------------------------------------

  /** The classes derived from `AeroComponent`: everything but an internal part. */
  predicate IsAero(k: Kind)
  {
    k != InternalPart
  }

  /**
   * `bodyRadius(x)`: an external part asks its parent when the parent is an
   * aero component and gives 0 otherwise; any other aero class answers with
   * its own `bodyRadius`, which for a body is its radius at `x`.
   */
  function BodyRadius(t: Tree, radius: (Node, real) -> real, id: Id, x: real, fuel: nat): (r: real)
    ensures id in t && t[id].kind == ExternalPart && t[id].parent.None? ==> r == 0.0
    decreases fuel
  {
    if id !in t then 0.0
    else if t[id].kind != ExternalPart then radius(t[id], x)
    else if t[id].parent.Some? && t[id].parent.value in t && IsAero(t[t[id].parent.value].kind) && fuel > 0 then
      BodyRadius(t, radius, t[id].parent.value, x, fuel - 1)
    else 0.0
  }

  /** In a valid tree, an external part on a body, or on an external part on a body, has the body's radius. */
  lemma BodyRadiusOfAttachedPart(t: Tree, radius: (Node, real) -> real, c: Id, x: real, fuel: nat)
    requires Valid(t) && c in t && t[c].kind == ExternalPart && t[c].parent.Some? && fuel >= 2
    ensures var p := t[c].parent.value;
            && (t[p].kind == BodyPart ==> BodyRadius(t, radius, c, x, fuel) == radius(t[p], x))
            && (t[p].kind == ExternalPart && t[p].parent.Some? && t[t[p].parent.value].kind == BodyPart ==>
                  BodyRadius(t, radius, c, x, fuel) == radius(t[t[p].parent.value], x))
  {
    var p := t[c].parent.value;
    assert p in t;
    if t[p].kind == BodyPart {
      assert BodyRadius(t, radius, c, x, fuel) == BodyRadius(t, radius, p, x, fuel - 1);
    }
    if t[p].kind == ExternalPart && t[p].parent.Some? {
      var q := t[p].parent.value;
      assert q in t;
      if t[q].kind == BodyPart {
        assert BodyRadius(t, radius, c, x, fuel) == BodyRadius(t, radius, p, x, fuel - 1);
        assert BodyRadius(t, radius, p, x, fuel - 1) == BodyRadius(t, radius, q, x, fuel - 2);
      }
    }
  }

  // ---------------------------------------------------------------------
  // findComponent
  // ---------------------------------------------------------------------

  /**
   * `findComponent(id)` of bodies, internal and external parts and the
   * rocket: a search of the direct children only, giving none when no child
   * has the id. The message the internal, external and rocket versions print
   * on a miss is reported by the caller.
   */
  method FindChild(t: Tree, p: Id, key: Id) returns (r: Option<Id>)
    requires p in t
    ensures r.Some? <==> key in Children(t[p])
    ensures r.Some? ==> r.value == key
  {
    var comps := Children(t[p]);
    var i := 0;
    while i < |comps|
      invariant 0 <= i <= |comps|
      invariant key !in comps[..i]
    {
      if comps[i] == key {
        return Some(comps[i]);
      }
      assert comps[..i + 1] == comps[..i] + [comps[i]];
      i := i + 1;
    }
    assert comps[..i] == comps;
    return None;
  }

  // ---------------------------------------------------------------------
  // Body lift
  // ---------------------------------------------------------------------

  /** `bodyLiftConst` is declared `float`: the single-precision value nearest 1.1. */
  const BodyLiftConst: real := 1.10000002384185791015625

  /**
   * `calculateBodyLift(alpha)`: 0 at alpha = 0, otherwise
   * `bodyLiftConst · planformArea / referenceArea · sin²(alpha) / alpha`,
   * with `sin` supplied by the caller.
   */
  function BodyLift(alpha: real, planformArea: real, referenceArea: real, sin: real -> real): (r: real)
    requires referenceArea != 0.0
    ensures alpha == 0.0 ==> r == 0.0
    ensures alpha > 0.0 && planformArea / referenceArea >= 0.0 ==> r >= 0.0
  {
    if alpha == 0.0 then 0.0
    else
      var ratio := planformArea / referenceArea;
      var s2 := sin(alpha) * sin(alpha);
      assert alpha > 0.0 && ratio >= 0.0 ==> BodyLiftConst * ratio * s2 / alpha >= 0.0 by {
        if alpha > 0.0 && ratio >= 0.0 {
          assert BodyLiftConst * ratio * s2 >= 0.0;
        }
      }
      BodyLiftConst * ratio * s2 / alpha
  }

  /** With an odd sine, the body lift is odd in alpha. */
  lemma BodyLiftIsOdd(alpha: real, planformArea: real, referenceArea: real, sin: real -> real)
    requires referenceArea != 0.0 && sin(-alpha) == -sin(alpha)
    ensures BodyLift(-alpha, planformArea, referenceArea, sin) == -BodyLift(alpha, planformArea, referenceArea, sin)
  {
    if alpha != 0.0 {
      var k := BodyLiftConst * (planformArea / referenceArea) * (sin(alpha) * sin(alpha));
      assert sin(-alpha) * sin(-alpha) == sin(alpha) * sin(alpha);
      assert k / (-alpha) == -(k / alpha);
    }
  }

  /**
   * `calculateBodyLiftWithCache(alpha)`: the value is always recomputed; with
   * caching on it is also written to the cache at `alpha`, which is never
   * read.
   */
  function BodyLiftWithCache(cache: map<real, real>, caching: bool, alpha: real, computed: real): (r: (real, map<real, real>))
    ensures r.0 == computed
    ensures caching ==> r.1 == cache[alpha := computed]
    ensures !caching ==> r.1 == cache
  {
    if !caching then (computed, cache) else (computed, cache[alpha := computed])
  }
}
