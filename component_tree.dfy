/**
 * The component tree of `component.cpp`, `bodyComponent.cpp`,
 * `internalComponent.cpp`, `externalComponent.cpp` and `rocket.cpp`:
 * components keyed by id, typed child lists with parent links, and the
 * per-component caches that `clearCaches` empties from a component up to
 * the root. `std::shared_ptr` handles become ids into one map of nodes.
 */
module ComponentTree {
  import opened Wrappers
  import opened Points
  import opened Maths
  import opened Aero

  type Id = nat

  /** The concrete classes whose child lists the tree distinguishes. */
  datatype Kind = RocketPart | StagePart | BodyPart | InternalPart | ExternalPart

  /** The five memo tables of `Component`, keyed by time. */
  datatype Caches = Caches(mass: map<real, real>, inertia: map<real, Mat3>, cm: map<real, Vec3>,
                           thrust: map<real, Vec3>, thrustPosition: map<real, Vec3>)

  const NoCaches := Caches(map[], map[], map[], map[], map[])

  /** Every cache a component keeps: the base ones, the aero ones and the body-lift one. */
  datatype Memo = Memo(base: Caches, aero: AeroCaches, bodyLift: map<real, real>)

  const NoMemo := Memo(NoCaches, NoAeroCaches, map[])

  /**
   * The three child lists: a body uses `externals` and `internals`, an
   * internal or external part the list of its own kind, a rocket `stages`.
   */
  datatype Lists = Lists(externals: seq<Id>, internals: seq<Id>, stages: seq<Id>)

  /** The stored mass, inertia and centre of mass, with their override flags. */
  datatype Stored = Stored(mass: real, massOverride: int, inertia: Mat3, inertiaOverride: int,
                           cm: Vec3, cmOverride: int)

  /** One component: name, kind, parent link, child lists, stored values, position, caching flag, burnout time and caches. */
  datatype Node = Node(name: string, kind: Kind, parent: Option<Id>, lists: Lists, stored: Stored,
                       position: Vec3, caching: bool, burnoutTime: real, memo: Memo)

  type Tree = map<Id, Node>

  /** `components()`: for a body the external children first, then the internal ones. */
  function Children(n: Node): (r: seq<Id>)
    ensures |r| == |n.lists.externals| + |n.lists.internals| + |n.lists.stages|
    ensures r[..|n.lists.externals|] == n.lists.externals
  {
    n.lists.externals + n.lists.internals + n.lists.stages
  }

  /** A component's children are exactly the entries of its three lists. */
  lemma ChildrenMembers(n: Node, x: Id)
    ensures x in Children(n) <==> x in n.lists.externals || x in n.lists.internals || x in n.lists.stages
  {
  }

  /** `aeroComponents()`: the external children of a body or external part, the stages of a rocket. */
  function AeroChildren(n: Node): (r: seq<Id>)
    ensures |n.lists.externals| <= |r| && r[..|n.lists.externals|] == n.lists.externals
    ensures forall x :: x in r <==> x in n.lists.externals || x in n.lists.stages
  {
    n.lists.externals + n.lists.stages
  }

  /** The `dynamic_cast` tests of the four `addComponent` overloads. */
  predicate Accepts(parent: Kind, child: Kind)
  {
    (parent == RocketPart && child == StagePart)
    || (parent == BodyPart && (child == InternalPart || child == ExternalPart))
    || (parent == InternalPart && child == InternalPart)
    || (parent == ExternalPart && child == ExternalPart)
  }

  predicate Listed(k: Kind)
  {
    k == ExternalPart || k == InternalPart || k == StagePart
  }

  lemma AcceptedChildIsListed(parent: Kind, child: Kind)
    requires Accepts(parent, child)
    ensures Listed(child)
  {
  }

  /** The list that holds children of kind `k`. */
  function ListFor(n: Node, k: Kind): seq<Id>
  {
    match k
    case ExternalPart => n.lists.externals
    case InternalPart => n.lists.internals
    case StagePart => n.lists.stages
    case _ => []
  }

  /** `n` with the list for kind `k` replaced by `s`, and nothing else changed. */
  function WithList(n: Node, k: Kind, s: seq<Id>): (r: Node)
    requires Listed(k)
    ensures ListFor(r, k) == s
    ensures forall j :: j != k ==> ListFor(r, j) == ListFor(n, j)
    ensures r == n.(lists := r.lists)
  {
    match k
    case ExternalPart => n.(lists := n.lists.(externals := s))
    case InternalPart => n.(lists := n.lists.(internals := s))
    case StagePart => n.(lists := n.lists.(stages := s))
  }

  /** Replacing one list changes how often `x` is listed by the difference between the two lists. */
  lemma WithListCount(n: Node, k: Kind, s: seq<Id>, x: Id)
    requires Listed(k)
    ensures multiset(Children(WithList(n, k, s)))[x]
            == multiset(Children(n))[x] - multiset(ListFor(n, k))[x] + multiset(s)[x]
  {
    var e, i, g := n.lists.externals, n.lists.internals, n.lists.stages;
    match k
    case ExternalPart =>
      assert Children(WithList(n, k, s)) == s + i + g;
    case InternalPart =>
      assert Children(WithList(n, k, s)) == e + s + g;
    case StagePart =>
      assert Children(WithList(n, k, s)) == e + i + s;
  }

  /** Replacing one list twice leaves the second replacement, whatever the node's other fields. */
  lemma WithListOver(m: Node, n: Node, k: Kind, a: seq<Id>, b: seq<Id>)
    requires Listed(k) && m.lists == WithList(n, k, a).lists
    ensures ListFor(m, k) == a
    ensures WithList(m, k, b).lists == WithList(n, k, b).lists
  {
  }

  lemma ListedInChildren(n: Node, k: Kind, x: Id)
    requires x in ListFor(n, k)
    ensures x in Children(n)
  {
  }

  /** Every entry of a list occurs once. */
  ghost predicate NoDup(s: seq<Id>)
  {
    forall x :: multiset(s)[x] <= 1
  }

  /**
   * `std::vector::erase` at the first entry equal to `x`: one occurrence of
   * `x` fewer, every other entry kept; a list without `x` is returned
   * unchanged.
   */
  function RemoveFirst(s: seq<Id>, x: Id): (r: seq<Id>)
    ensures forall y :: multiset(r)[y] == if y == x && x in s then multiset(s)[y] - 1 else multiset(s)[y]
    ensures x !in s ==> r == s
  {
    if |s| == 0 then s
    else if s[0] == x then
      assert s == [s[0]] + s[1..];
      s[1..]
    else
      assert s == [s[0]] + s[1..];
      [s[0]] + RemoveFirst(s[1..], x)
  }

  /** The position of the first entry equal to `x`. */
  function FirstIndex(s: seq<Id>, x: Id): (i: nat)
    requires x in s
    ensures i < |s| && s[i] == x && x !in s[..i]
  {
    if s[0] == x then 0
    else
      assert x in s[1..] by { assert s == [s[0]] + s[1..]; }
      var j := FirstIndex(s[1..], x);
      assert s[..j + 1] == [s[0]] + s[1..][..j];
      j + 1
  }

  /** The erased entry is the first occurrence, and the entries around it keep their order. */
  lemma {:induction false} RemoveFirstAt(s: seq<Id>, x: Id)
    requires x in s
    ensures RemoveFirst(s, x) == s[..FirstIndex(s, x)] + s[FirstIndex(s, x) + 1..]
  {
    if s[0] != x {
      assert s == [s[0]] + s[1..];
      RemoveFirstAt(s[1..], x);
      var j := FirstIndex(s[1..], x);
      assert s[..j + 1] == [s[0]] + s[1..][..j];
      assert s[j + 2..] == s[1..][j + 1..];
    }
  }

  // ---------------------------------------------------------------------
  // The structural invariant
  // ---------------------------------------------------------------------

  /** `c` is in one of `p`'s child lists. */
  ghost predicate IsChild(t: Tree, p: Id, c: Id)
  {
    p in t && c in Children(t[p])
  }

  /** Every listed child exists and names the lister as its parent. */
  ghost predicate ChildrenLinked(t: Tree)
  {
    forall p: Id, c: Id {:trigger IsChild(t, p, c)} :: IsChild(t, p, c) ==> c in t && t[c].parent == Some(p)
  }

  /** Every parent link points at an existing component that lists the child. */
  ghost predicate ParentsLinked(t: Tree)
  {
    && (forall c :: c in t && t[c].parent.Some? ==> t[c].parent.value in t)
    && (forall c: Id, q: Id {:trigger IsChild(t, q, c)} :: c in t && q in t && t[c].parent == Some(q) ==> IsChild(t, q, c))
  }

  ghost predicate Unique(t: Tree)
  {
    forall p {:trigger NoDup(Children(t[p]))} :: p in t ==> NoDup(Children(t[p]))
  }

  /** Every child sits in the list of its own kind, under a parent that accepts that kind. */
  ghost predicate Typed(t: Tree)
  {
    forall p: Id, c: Id {:trigger IsChild(t, p, c)} :: IsChild(t, p, c) && c in t ==>
      Accepts(t[p].kind, t[c].kind) && c in ListFor(t[p], t[c].kind)
  }

  /**
   * The tree invariant: a component appears in at most one parent's lists,
   * once, in the list of its kind, and its parent field agrees with that list.
   */
  ghost predicate Valid(t: Tree)
  {
    ChildrenLinked(t) && ParentsLinked(t) && Unique(t) && Typed(t)
  }

  /** Under the invariant a component is listed by its parent, once, and by no other component. */
  lemma ListedOnlyByParent(t: Tree, c: Id, q: Id)
    requires Valid(t) && c in t && q in t
    ensures c in Children(t[q]) <==> t[c].parent == Some(q)
    ensures c in Children(t[q]) ==> multiset(Children(t[q]))[c] == 1 && Holds(t, q, c)
  {
    assert IsChild(t, q, c) <==> c in Children(t[q]);
    assert NoDup(Children(t[q]));
  }

  /** Under the invariant a list whose kind the component does not accept is empty. */
  lemma ListOfRefusedKindEmpty(t: Tree, p: Id, k: Kind)
    requires Valid(t) && p in t && Listed(k)
    ensures !Accepts(t[p].kind, k) ==> ListFor(t[p], k) == []
  {
    var n := t[p];
    forall c | c in ListFor(n, k)
      ensures Accepts(n.kind, k)
    {
      assert IsChild(t, p, c);
      var m := multiset(Children(n));
      assert m == multiset(n.lists.externals) + multiset(n.lists.internals) + multiset(n.lists.stages);
      assert NoDup(Children(n));
      assert m[c] <= 1;
    }
    if ListFor(n, k) != [] {
      assert ListFor(n, k)[0] in ListFor(n, k);
    }
  }

  /**
   * `components()` and `aeroComponents()` of each class: a body lists its
   * external children, then its internal ones; an internal or external part
   * its own list; a rocket its stages; a stage nothing.
   */
  lemma ComponentsByKind(t: Tree, p: Id)
    requires Valid(t) && p in t
    ensures var n := t[p];
            && (n.kind == BodyPart ==> Children(n) == n.lists.externals + n.lists.internals
                                       && AeroChildren(n) == n.lists.externals)
            && (n.kind == InternalPart ==> Children(n) == n.lists.internals && AeroChildren(n) == [])
            && (n.kind == ExternalPart ==> Children(n) == n.lists.externals == AeroChildren(n))
            && (n.kind == RocketPart ==> Children(n) == n.lists.stages == AeroChildren(n))
            && (n.kind == StagePart ==> Children(n) == [])
  {
    ListOfRefusedKindEmpty(t, p, ExternalPart);
    ListOfRefusedKindEmpty(t, p, InternalPart);
    ListOfRefusedKindEmpty(t, p, StagePart);
    var n := t[p];
    assert n.lists.externals == ListFor(n, ExternalPart);
    assert n.lists.internals == ListFor(n, InternalPart);
    assert n.lists.stages == ListFor(n, StagePart);
  }

  // ---------------------------------------------------------------------
  // Cache clearing up the ancestor chain
  // ---------------------------------------------------------------------

  /** The node with every cache emptied: the base caches, the aero caches and the body-lift cache. */
  function Clear(n: Node): (r: Node)
    ensures r.memo == NoMemo
    ensures r.name == n.name && r.kind == n.kind && r.parent == n.parent && r.lists == n.lists
    ensures r.stored == n.stored && r.position == n.position && r.caching == n.caching && r.burnoutTime == n.burnoutTime
  {
    n.(memo := NoMemo)
  }

  /** The component and its ancestors, followed for at most `fuel` links. */
  function Chain(t: Tree, id: Id, fuel: nat): (r: set<Id>)
    ensures id in r <==> fuel > 0 && id in t
    decreases fuel
  {
    if fuel == 0 || id !in t then {}
    else {id} + (if t[id].parent.Some? then Chain(t, t[id].parent.value, fuel - 1) else {})
  }

  /** Two trees that differ only in cached values. */
  ghost predicate SameShape(a: Tree, b: Tree)
  {
    a.Keys == b.Keys && forall x :: x in a ==> Clear(a[x]) == Clear(b[x])
  }

  lemma {:induction false} ChainOfSameShape(a: Tree, b: Tree, id: Id, fuel: nat)
    requires SameShape(a, b)
    ensures Chain(a, id, fuel) == Chain(b, id, fuel)
    decreases fuel
  {
    if fuel > 0 && id in a {
      assert a[id].parent == Clear(a[id]).parent == Clear(b[id]).parent == b[id].parent;
      if a[id].parent.Some? {
        ChainOfSameShape(a, b, a[id].parent.value, fuel - 1);
      }
    }
  }

  /**
   * `clearCaches`: the component's caches are emptied and then its parent's,
   * recursively, so exactly the component and its ancestors lose their
   * cached values. The recursion in the source has no bound; `fuel` bounds
   * it, and the callers pass the number of components.
   */
  function ClearChain(t: Tree, id: Id, fuel: nat): (r: Tree)
    ensures r.Keys == t.Keys
    ensures forall x :: x in t ==> r[x] == if x in Chain(t, id, fuel) then Clear(t[x]) else t[x]
    decreases fuel
  {
    if fuel == 0 || id !in t then t
    else
      var t1 := t[id := Clear(t[id])];
      assert SameShape(t, t1);
      if t[id].parent.Some? then
        ChainOfSameShape(t, t1, t[id].parent.value, fuel - 1);
        ClearChain(t1, t[id].parent.value, fuel - 1)
      else t1
  }

  lemma ClearChainSameShape(t: Tree, id: Id, fuel: nat)
    ensures SameShape(t, ClearChain(t, id, fuel))
  {
  }

  /** With one link of fuel per component the clearing reaches the root of a tree whose chain ends. */
  lemma ClearChainReachesParent(t: Tree, id: Id, fuel: nat)
    requires id in t && fuel >= 2 && t[id].parent.Some? && t[id].parent.value in t
    ensures var r := ClearChain(t, id, fuel);
            r[id] == Clear(t[id]) && r[t[id].parent.value] == Clear(t[t[id].parent.value])
  {
  }

  lemma SameShapeAt(a: Tree, b: Tree, x: Id)
    requires SameShape(a, b) && x in a
    ensures b[x].parent == a[x].parent && b[x].kind == a[x].kind && b[x].lists == a[x].lists
  {
    assert Clear(a[x]) == Clear(b[x]);
  }

  /** Two trees with the same components, parents, kinds and child lists: whatever else differs, the invariant cannot tell them apart. */
  ghost predicate SameStructure(a: Tree, b: Tree)
  {
    a.Keys == b.Keys && forall x :: x in a ==> b[x].parent == a[x].parent && b[x].kind == a[x].kind && b[x].lists == a[x].lists
  }

  lemma SameShapeStructure(a: Tree, b: Tree)
    requires SameShape(a, b)
    ensures SameStructure(a, b)
  {
    forall x | x in a
      ensures b[x].parent == a[x].parent && b[x].kind == a[x].kind && b[x].lists == a[x].lists
    {
      SameShapeAt(a, b, x);
    }
  }

  lemma StructureLinks(a: Tree, b: Tree)
    requires SameStructure(a, b) && ChildrenLinked(a) && ParentsLinked(a)
    ensures ChildrenLinked(b) && ParentsLinked(b)
  {
    forall q: Id, y: Id | IsChild(b, q, y)
      ensures y in b && b[y].parent == Some(q)
    {
      assert IsChild(a, q, y);
    }
    forall y: Id, q: Id | y in b && q in b && b[y].parent == Some(q)
      ensures IsChild(b, q, y)
    {
      assert IsChild(a, q, y);
    }
  }

  lemma StructureTyped(a: Tree, b: Tree)
    requires SameStructure(a, b) && Unique(a) && Typed(a)
    ensures Unique(b) && Typed(b)
  {
    forall q: Id | q in b
      ensures NoDup(Children(b[q]))
    {
      assert Children(b[q]) == Children(a[q]);
    }
    forall q: Id, y: Id | IsChild(b, q, y) && y in b
      ensures Accepts(b[q].kind, b[y].kind) && y in ListFor(b[q], b[y].kind)
    {
      assert IsChild(a, q, y);
      assert ListFor(b[q], b[y].kind) == ListFor(a[q], a[y].kind);
    }
  }

  /** The invariant speaks of structure only. */
  lemma StructureValid(a: Tree, b: Tree)
    requires SameStructure(a, b) && Valid(a)
    ensures Valid(b)
  {
    StructureLinks(a, b);
    StructureTyped(a, b);
  }

  /** Clearing caches keeps the invariant. */
  lemma SameShapeValid(a: Tree, b: Tree)
    requires SameShape(a, b) && Valid(a)
    ensures Valid(b)
  {
    SameShapeStructure(a, b);
    StructureValid(a, b);
  }

  // ---------------------------------------------------------------------
  // Removal and addition
  // ---------------------------------------------------------------------

  /** Whether `p`'s `removeComponent` finds `c`: it looks only in the list of `c`'s kind, and only for kinds it accepts. */
  predicate Holds(t: Tree, p: Id, c: Id)
    requires p in t && c in t
  {
    Accepts(t[p].kind, t[c].kind) && c in ListFor(t[p], t[c].kind)
  }

  /** The list edit of a successful removal: `c` loses its parent and leaves `p`'s list of its kind. */
  function Unlink(t: Tree, p: Id, c: Id): (r: Tree)
    requires p in t && c in t && Listed(t[c].kind)
    ensures r.Keys == t.Keys
  {
    var k := t[c].kind;
    var t1 := t[c := t[c].(parent := None)];
    t1[p := WithList(t1[p], k, RemoveFirst(ListFor(t1[p], k), c))]
  }

  /** The list edit of an addition: `c` names `p` as parent and is appended to `p`'s list of its kind. */
  function Link(t: Tree, p: Id, c: Id): (r: Tree)
    requires p in t && c in t && Listed(t[c].kind)
    ensures r.Keys == t.Keys
  {
    var k := t[c].kind;
    var t1 := t[c := t[c].(parent := Some(p))];
    t1[p := WithList(t1[p], k, ListFor(t1[p], k) + [c])]
  }

  /** What `Unlink` does to one component: only `c`'s parent and `p`'s list of `c`'s kind change. */
  lemma UnlinkAt(t: Tree, p: Id, c: Id, x: Id)
    requires p in t && c in t && x in t && Listed(t[c].kind)
    ensures var r := Unlink(t, p, c);
            && r[x].parent == (if x == c then None else t[x].parent)
            && r[x].kind == t[x].kind
            && (x != p ==> r[x].lists == t[x].lists)
            && (x == p ==> r[p].lists == WithList(t[p], t[c].kind, RemoveFirst(ListFor(t[p], t[c].kind), c)).lists)
  {
    var t1 := t[c := t[c].(parent := None)];
    assert t1[p].lists == t[p].lists;
  }

  /** `p` lists `c` once fewer after `Unlink`, and every other child as often as before. */
  lemma UnlinkCount(t: Tree, p: Id, c: Id, y: Id)
    requires p in t && c in t && Listed(t[c].kind) && c in ListFor(t[p], t[c].kind)
    ensures multiset(Children(Unlink(t, p, c)[p]))[y] == multiset(Children(t[p]))[y] - (if y == c then 1 else 0)
  {
    var k := t[c].kind;
    var l: seq<Id> := ListFor(t[p], k);
    var w := WithList(t[p], k, RemoveFirst(l, c));
    UnlinkAt(t, p, c, p);
    assert Children(Unlink(t, p, c)[p]) == Children(w);
    WithListCount(t[p], k, RemoveFirst(l, c), y);
  }

  /** What `Link` does to one component: only `c`'s parent and `p`'s list of `c`'s kind change. */
  lemma LinkAt(t: Tree, p: Id, c: Id, x: Id)
    requires p in t && c in t && x in t && Listed(t[c].kind)
    ensures var r := Link(t, p, c);
            && r[x].parent == (if x == c then Some(p) else t[x].parent)
            && r[x].kind == t[x].kind
            && (x != p ==> r[x].lists == t[x].lists)
            && (x == p ==> r[p].lists == WithList(t[p], t[c].kind, ListFor(t[p], t[c].kind) + [c]).lists)
  {
    var t1 := t[c := t[c].(parent := Some(p))];
    assert t1[p].lists == t[p].lists;
  }

  /** `p` lists `c` once more after `Link`, and every other child as often as before. */
  lemma LinkCount(t: Tree, p: Id, c: Id, y: Id)
    requires p in t && c in t && Listed(t[c].kind)
    ensures multiset(Children(Link(t, p, c)[p]))[y] == multiset(Children(t[p]))[y] + (if y == c then 1 else 0)
  {
    var k := t[c].kind;
    var l: seq<Id> := ListFor(t[p], k);
    var w := WithList(t[p], k, l + [c]);
    LinkAt(t, p, c, p);
    assert Children(Link(t, p, c)[p]) == Children(w);
    WithListCount(t[p], k, l + [c], y);
    assert multiset(l + [c])[y] == multiset(l)[y] + (if y == c then 1 else 0);
  }

  lemma UnlinkLinks(t: Tree, p: Id, c: Id)
    requires Valid(t) && p in t && c in t && Holds(t, p, c)
    ensures ChildrenLinked(Unlink(t, p, c)) && ParentsLinked(Unlink(t, p, c))
  {
    var r := Unlink(t, p, c);
    ListedInChildren(t[p], t[c].kind, c);
    assert IsChild(t, p, c) && NoDup(Children(t[p]));
    forall q: Id, y: Id | IsChild(r, q, y)
      ensures y in r && r[y].parent == Some(q)
    {
      UnlinkAt(t, p, c, q);
      if q == p {
        UnlinkCount(t, p, c, y);
        assert multiset(Children(r[p]))[y] > 0;
        assert y != c && IsChild(t, p, y);
      } else {
        assert Children(r[q]) == Children(t[q]);
        assert IsChild(t, q, y);
      }
      UnlinkAt(t, p, c, y);
    }
    forall y: Id | y in r && r[y].parent.Some?
      ensures r[y].parent.value in r
    {
      UnlinkAt(t, p, c, y);
    }
    forall y: Id, q: Id | y in r && q in r && r[y].parent == Some(q)
      ensures IsChild(r, q, y)
    {
      UnlinkAt(t, p, c, y);
      UnlinkAt(t, p, c, q);
      assert IsChild(t, q, y);
      if q == p {
        UnlinkCount(t, p, c, y);
        assert multiset(Children(t[p]))[y] > 0;
      } else {
        assert Children(r[q]) == Children(t[q]);
      }
    }
  }

  /** After `Unlink` every component still lists each child at most once. */
  lemma UnlinkUniqueAt(t: Tree, p: Id, c: Id, q: Id)
    requires Unique(t) && p in t && c in t && q in t && Holds(t, p, c)
    ensures NoDup(Children(Unlink(t, p, c)[q]))
  {
    var r := Unlink(t, p, c);
    UnlinkAt(t, p, c, q);
    assert NoDup(Children(t[q]));
    if q == p {
      forall y: Id
        ensures multiset(Children(r[p]))[y] <= 1
      {
        UnlinkCount(t, p, c, y);
      }
    } else {
      assert Children(r[q]) == Children(t[q]);
    }
  }

  /** A child `p` still lists after `Unlink` is one it listed before, and not `c`. */
  lemma UnlinkParentChild(t: Tree, p: Id, c: Id, y: Id)
    requires p in t && c in t && Holds(t, p, c) && NoDup(Children(t[p]))
    requires y in Children(Unlink(t, p, c)[p])
    ensures y != c && y in Children(t[p])
  {
    UnlinkCount(t, p, c, y);
    assert multiset(Children(Unlink(t, p, c)[p]))[y] > 0;
  }

  /** `Unlink` erases only `c` from `p`'s lists. */
  lemma UnlinkParentList(t: Tree, p: Id, c: Id, y: Id, j: Kind)
    requires p in t && c in t && Holds(t, p, c) && y != c && y in ListFor(t[p], j)
    ensures y in ListFor(Unlink(t, p, c)[p], j)
  {
    var k := t[c].kind;
    var l: seq<Id> := ListFor(t[p], k);
    UnlinkAt(t, p, c, p);
    var w := WithList(t[p], k, RemoveFirst(l, c));
    assert ListFor(Unlink(t, p, c)[p], j) == ListFor(w, j);
    if j == k {
      assert multiset(l)[y] > 0;
      assert multiset(RemoveFirst(l, c))[y] > 0;
    }
  }

  /** After `Unlink` every remaining child is still in the list of its kind under an accepting parent. */
  lemma UnlinkTypedAt(t: Tree, p: Id, c: Id, q: Id, y: Id)
    requires Typed(t) && Unique(t) && p in t && c in t && Holds(t, p, c)
    requires IsChild(Unlink(t, p, c), q, y) && y in t
    ensures var r := Unlink(t, p, c); Accepts(r[q].kind, r[y].kind) && y in ListFor(r[q], r[y].kind)
  {
    var r := Unlink(t, p, c);
    UnlinkAt(t, p, c, q);
    UnlinkAt(t, p, c, y);
    if q == p {
      assert NoDup(Children(t[p]));
      UnlinkParentChild(t, p, c, y);
      assert IsChild(t, p, y);
      UnlinkParentList(t, p, c, y, t[y].kind);
    } else {
      assert Children(r[q]) == Children(t[q]);
      assert IsChild(t, q, y);
      assert ListFor(r[q], t[y].kind) == ListFor(t[q], t[y].kind);
    }
  }

  lemma UnlinkTyped(t: Tree, p: Id, c: Id)
    requires Valid(t) && p in t && c in t && Holds(t, p, c)
    ensures Unique(Unlink(t, p, c)) && Typed(Unlink(t, p, c))
  {
    var r := Unlink(t, p, c);
    forall q: Id | q in r
      ensures NoDup(Children(r[q]))
    {
      UnlinkUniqueAt(t, p, c, q);
    }
    forall q: Id, y: Id | IsChild(r, q, y) && y in r
      ensures Accepts(r[q].kind, r[y].kind) && y in ListFor(r[q], r[y].kind)
    {
      UnlinkTypedAt(t, p, c, q, y);
    }
  }

  lemma UnlinkValid(t: Tree, p: Id, c: Id)
    requires Valid(t) && p in t && c in t && Holds(t, p, c)
    ensures Valid(Unlink(t, p, c))
  {
    UnlinkLinks(t, p, c);
    UnlinkTyped(t, p, c);
  }

  lemma LinkLinks(t: Tree, p: Id, c: Id)
    requires Valid(t) && p in t && c in t && Accepts(t[p].kind, t[c].kind) && t[c].parent == None
    ensures ChildrenLinked(Link(t, p, c)) && ParentsLinked(Link(t, p, c))
  {
    var r := Link(t, p, c);
    forall q: Id, y: Id | IsChild(r, q, y)
      ensures y in r && r[y].parent == Some(q)
    {
      LinkAt(t, p, c, q);
      if q == p {
        LinkCount(t, p, c, y);
        if y != c {
          assert multiset(Children(r[p]))[y] > 0;
          assert IsChild(t, p, y);
        }
      } else {
        assert Children(r[q]) == Children(t[q]);
        assert IsChild(t, q, y);
      }
      LinkAt(t, p, c, y);
    }
    forall y: Id | y in r && r[y].parent.Some?
      ensures r[y].parent.value in r
    {
      LinkAt(t, p, c, y);
    }
    forall y: Id, q: Id | y in r && q in r && r[y].parent == Some(q)
      ensures IsChild(r, q, y)
    {
      LinkAt(t, p, c, y);
      LinkAt(t, p, c, q);
      if q == p {
        LinkCount(t, p, c, y);
        if y != c {
          assert IsChild(t, q, y);
          assert multiset(Children(t[p]))[y] > 0;
        }
      } else {
        assert y != c && IsChild(t, q, y);
        assert Children(r[q]) == Children(t[q]);
      }
    }
  }

  /** After `Link` every component still lists each child at most once. */
  lemma LinkUniqueAt(t: Tree, p: Id, c: Id, q: Id)
    requires Unique(t) && p in t && c in t && q in t && Listed(t[c].kind) && c !in Children(t[p])
    ensures NoDup(Children(Link(t, p, c)[q]))
  {
    var r := Link(t, p, c);
    LinkAt(t, p, c, q);
    assert NoDup(Children(t[q]));
    if q == p {
      forall y: Id
        ensures multiset(Children(r[p]))[y] <= 1
      {
        LinkCount(t, p, c, y);
      }
    } else {
      assert Children(r[q]) == Children(t[q]);
    }
  }

  /** A child `p` lists after `Link` is `c` or one it listed before. */
  lemma LinkParentChild(t: Tree, p: Id, c: Id, y: Id)
    requires p in t && c in t && Listed(t[c].kind)
    requires y in Children(Link(t, p, c)[p])
    ensures y == c || y in Children(t[p])
  {
    LinkCount(t, p, c, y);
    assert multiset(Children(Link(t, p, c)[p]))[y] > 0;
  }

  /** `Link` keeps every entry of `p`'s lists and puts `c` in the list of its kind. */
  lemma LinkParentList(t: Tree, p: Id, c: Id, y: Id, j: Kind)
    requires p in t && c in t && Listed(t[c].kind)
    requires y in ListFor(t[p], j) || (y == c && j == t[c].kind)
    ensures y in ListFor(Link(t, p, c)[p], j)
  {
    var k := t[c].kind;
    var l: seq<Id> := ListFor(t[p], k);
    LinkAt(t, p, c, p);
    var w := WithList(t[p], k, l + [c]);
    assert ListFor(Link(t, p, c)[p], j) == ListFor(w, j);
  }

  /** After `Link` every child, the new one included, is in the list of its kind under an accepting parent. */
  lemma LinkTypedAt(t: Tree, p: Id, c: Id, q: Id, y: Id)
    requires Typed(t) && p in t && c in t && Accepts(t[p].kind, t[c].kind) && t[c].parent == None
    requires IsChild(Link(t, p, c), q, y) && y in t
    ensures var r := Link(t, p, c); Accepts(r[q].kind, r[y].kind) && y in ListFor(r[q], r[y].kind)
  {
    var r := Link(t, p, c);
    LinkAt(t, p, c, q);
    LinkAt(t, p, c, y);
    if q == p {
      LinkParentChild(t, p, c, y);
      if y != c {
        assert IsChild(t, p, y);
      }
      LinkParentList(t, p, c, y, t[y].kind);
    } else {
      assert Children(r[q]) == Children(t[q]);
      assert IsChild(t, q, y);
      assert ListFor(r[q], t[y].kind) == ListFor(t[q], t[y].kind);
    }
  }

  lemma LinkTyped(t: Tree, p: Id, c: Id)
    requires Valid(t) && p in t && c in t && Accepts(t[p].kind, t[c].kind) && t[c].parent == None
    ensures Unique(Link(t, p, c)) && Typed(Link(t, p, c))
  {
    var r := Link(t, p, c);
    assert !IsChild(t, p, c);
    forall q: Id | q in r
      ensures NoDup(Children(r[q]))
    {
      LinkUniqueAt(t, p, c, q);
    }
    forall q: Id, y: Id | IsChild(r, q, y) && y in r
      ensures Accepts(r[q].kind, r[y].kind) && y in ListFor(r[q], r[y].kind)
    {
      LinkTypedAt(t, p, c, q, y);
    }
  }

  lemma LinkValid(t: Tree, p: Id, c: Id)
    requires Valid(t) && p in t && c in t && Accepts(t[p].kind, t[c].kind) && t[c].parent == None
    ensures Valid(Link(t, p, c))
  {
    LinkLinks(t, p, c);
    LinkTyped(t, p, c);
  }

  /**
   * `removeComponent` as the body's overload performs it and as the other
   * overloads evidently intend: when `p` holds `c`, the first entry is
   * erased, `c`'s parent is unset and `p`'s caches are cleared up to the
   * root; otherwise nothing changes. The flag is whether the "could not
   * find" message is printed.
   */
  function Remove(t: Tree, p: Id, c: Id): (r: (Tree, bool))
    requires p in t && c in t
    ensures r.0.Keys == t.Keys
    ensures r.1 <==> !Holds(t, p, c)
    ensures r.1 ==> r.0 == t
  {
    if Holds(t, p, c) then (ClearChain(Unlink(t, p, c), p, |t|), false) else (t, true)
  }

  /**
   * The internal, external and rocket overloads print the "unable to find"
   * message after the loop whether or not an entry was erased.
   */
  function RemoveAsWritten(t: Tree, p: Id, c: Id): (r: (Tree, bool))
    requires p in t && c in t
    ensures r.0.Keys == t.Keys
    ensures t[p].kind != BodyPart ==> r.1
    ensures t[p].kind == BodyPart ==> (r.1 <==> !Holds(t, p, c))
  {
    var (t1, notFound) := Remove(t, p, c);
    (t1, if t[p].kind == BodyPart then notFound else true)
  }

  /** A successful removal from anything but a body still reports failure. */
  lemma RemoveAsWrittenReportsSuccess(t: Tree, p: Id, c: Id)
    requires p in t && c in t && t[p].kind != BodyPart && Holds(t, p, c)
    ensures RemoveAsWritten(t, p, c).1 && !Remove(t, p, c).1
  {
  }

  /** Removal keeps the tree invariant. */
  lemma RemoveValid(t: Tree, p: Id, c: Id)
    requires Valid(t) && p in t && c in t
    ensures Valid(Remove(t, p, c).0)
  {
    if Holds(t, p, c) {
      UnlinkValid(t, p, c);
      ClearChainSameShape(Unlink(t, p, c), p, |t|);
      SameShapeValid(Unlink(t, p, c), Remove(t, p, c).0);
    }
  }

  /** What a removal that finds its child does to one component. */
  lemma RemoveAt(t: Tree, p: Id, c: Id, x: Id)
    requires p in t && c in t && x in t && Holds(t, p, c)
    ensures var r := Remove(t, p, c).0;
            && r[x].parent == (if x == c then None else t[x].parent)
            && r[x].kind == t[x].kind
            && (x != p ==> r[x].lists == t[x].lists)
            && (x == p ==> r[p].lists == WithList(t[p], t[c].kind, RemoveFirst(ListFor(t[p], t[c].kind), c)).lists)
            && (x != p && x != c ==> Clear(r[x]) == Clear(t[x]))
  {
    var u := Unlink(t, p, c);
    UnlinkAt(t, p, c, x);
    ClearChainSameShape(u, p, |t|);
    SameShapeAt(u, Remove(t, p, c).0, x);
    if x != p && x != c {
      assert u[x] == t[x];
    }
  }

  /** A removal changes no component's kind. */
  lemma RemoveKind(t: Tree, p: Id, c: Id, x: Id)
    requires p in t && c in t && x in t
    ensures Remove(t, p, c).0[x].kind == t[x].kind
  {
    if Holds(t, p, c) {
      RemoveAt(t, p, c, x);
    }
  }

  /** After a removal that finds its child, no component lists it. */
  lemma RemoveUnlists(t: Tree, p: Id, c: Id)
    requires Valid(t) && p in t && c in t && Holds(t, p, c)
    ensures forall q :: q in t ==> c !in Children(Remove(t, p, c).0[q])
  {
    var r := Remove(t, p, c).0;
    RemoveValid(t, p, c);
    RemoveAt(t, p, c, c);
    forall q: Id | q in r
      ensures c !in Children(r[q])
    {
      ListedOnlyByParent(r, c, q);
    }
  }

  /**
   * Under the invariant, removal finds exactly the listed children. A found
   * child is left without a parent and out of every list; `p`'s lists are
   * the old ones with the first entry of the child erased from the list of
   * its kind; no other component's lists change, and elsewhere only cached
   * values do.
   */
  lemma RemoveEffect(t: Tree, p: Id, c: Id)
    requires Valid(t) && p in t && c in t
    ensures !Remove(t, p, c).1 <==> c in Children(t[p])
    ensures var r := Remove(t, p, c).0;
            c in Children(t[p]) ==>
              && r[c].parent == None
              && (forall q :: q in r ==> c !in Children(r[q]))
              && r[p].lists == WithList(t[p], t[c].kind, RemoveFirst(ListFor(t[p], t[c].kind), c)).lists
              && (forall x :: x in t && x != p ==> r[x].lists == t[x].lists)
              && (forall x :: x in t && x != p && x != c ==> Clear(r[x]) == Clear(t[x]))
  {
    if c in Children(t[p]) {
      RemoveFound(t, p, c);
      RemoveKeepsOthers(t, p, c);
    } else {
      ListInChildren(t[p], t[c].kind, c);
    }
  }

  /** A list of one kind is part of the children. */
  lemma ListInChildren(n: Node, k: Kind, c: Id)
    ensures c in ListFor(n, k) ==> c in Children(n)
  {
  }

  /** Removal of a listed child: what `RemoveEffect` promises when the child is found. */
  lemma RemoveFound(t: Tree, p: Id, c: Id)
    requires Valid(t) && p in t && c in t && c in Children(t[p])
    ensures !Remove(t, p, c).1
    ensures var r := Remove(t, p, c).0;
            && r[c].parent == None
            && (forall q :: q in r ==> c !in Children(r[q]))
            && r[p].lists == WithList(t[p], t[c].kind, RemoveFirst(ListFor(t[p], t[c].kind), c)).lists
  {
    assert IsChild(t, p, c);
    assert Holds(t, p, c);
    RemoveAt(t, p, c, c);
    RemoveAt(t, p, c, p);
    RemoveUnlists(t, p, c);
  }

  /** Removal leaves the other components' lists, and all but the parent's and the child's caches. */
  lemma RemoveKeepsOthers(t: Tree, p: Id, c: Id)
    requires p in t && c in t && Holds(t, p, c)
    ensures var r := Remove(t, p, c).0;
            && (forall x :: x in t && x != p ==> r[x].lists == t[x].lists)
            && (forall x :: x in t && x != p && x != c ==> Clear(r[x]) == Clear(t[x]))
  {
    var r := Remove(t, p, c).0;
    forall x: Id | x in t && x != p
      ensures r[x].lists == t[x].lists
      ensures x != c ==> Clear(r[x]) == Clear(t[x])
    {
      RemoveAt(t, p, c, x);
    }
  }

  /** `c`'s previous parent removes it, if `c` has one. */
  function Detach(t: Tree, c: Id): (r: Tree)
    requires c in t
    ensures r.Keys == t.Keys
  {
    if t[c].parent.Some? && t[c].parent.value in t then Remove(t, t[c].parent.value, c).0 else t
  }

  /** Detaching changes no component's kind. */
  lemma DetachKind(t: Tree, c: Id, x: Id)
    requires c in t && x in t
    ensures Detach(t, c)[x].kind == t[x].kind
  {
    if t[c].parent.Some? && t[c].parent.value in t {
      RemoveKind(t, t[c].parent.value, c, x);
    }
  }

  /**
   * `addComponent`: a child of an accepted kind is removed from its previous
   * parent, gets `p` as parent, is appended to `p`'s list of its kind, and
   * `p`'s caches are cleared up to the root. Any other child leaves the tree
   * unchanged and the flag (the printed error) is set.
   */
  function Add(t: Tree, p: Id, c: Id): (r: (Tree, bool))
    requires p in t && c in t
    ensures r.0.Keys == t.Keys
    ensures r.1 <==> !Accepts(t[p].kind, t[c].kind)
    ensures r.1 ==> r.0 == t
  {
    if !Accepts(t[p].kind, t[c].kind) then (t, true)
    else
      var t1 := Detach(t, c);
      DetachKind(t, c, c);
      var t2 := Link(t1, p, c);
      (ClearChain(t2, p, |t2|), false)
  }

  lemma DetachValid(t: Tree, c: Id)
    requires Valid(t) && c in t
    ensures Valid(Detach(t, c)) && Detach(t, c)[c].parent == None
  {
    if t[c].parent.Some? {
      var q := t[c].parent.value;
      ListedOnlyByParent(t, c, q);
      RemoveValid(t, q, c);
      RemoveAt(t, q, c, c);
    }
  }

  /** Addition keeps the tree invariant. */
  lemma AddValid(t: Tree, p: Id, c: Id)
    requires Valid(t) && p in t && c in t
    ensures Valid(Add(t, p, c).0)
  {
    if Accepts(t[p].kind, t[c].kind) {
      var t1 := Detach(t, c);
      DetachValid(t, c);
      DetachKind(t, c, c);
      DetachKind(t, c, p);
      LinkValid(t1, p, c);
      var t2 := Link(t1, p, c);
      ClearChainSameShape(t2, p, |t2|);
      SameShapeValid(t2, Add(t, p, c).0);
    }
  }

  /** Detaching changes the lists of `c`'s parent only. */
  lemma DetachOtherLists(t: Tree, c: Id, x: Id)
    requires Valid(t) && c in t && x in t && t[c].parent != Some(x)
    ensures Detach(t, c)[x].lists == t[x].lists
  {
    if t[c].parent.Some? {
      var q := t[c].parent.value;
      ListedOnlyByParent(t, c, q);
      RemoveAt(t, q, c, x);
    }
  }

  /** `p`'s lists before the link of an addition: the old ones, with `c` already erased if `p` was its parent. */
  lemma DetachLists(t: Tree, p: Id, c: Id)
    requires Valid(t) && p in t && c in t && Accepts(t[p].kind, t[c].kind)
    ensures Detach(t, c)[p].lists == WithList(t[p], t[c].kind, RemoveFirst(ListFor(t[p], t[c].kind), c)).lists
  {
    if t[c].parent == Some(p) {
      DetachListsFromParent(t, p, c);
    } else {
      DetachListsElsewhere(t, p, c);
    }
  }

  /** `c` was `p`'s child: detaching erases it from `p`'s list. */
  lemma DetachListsFromParent(t: Tree, p: Id, c: Id)
    requires Valid(t) && p in t && c in t && Accepts(t[p].kind, t[c].kind) && t[c].parent == Some(p)
    ensures Detach(t, c)[p].lists == WithList(t[p], t[c].kind, RemoveFirst(ListFor(t[p], t[c].kind), c)).lists
  {
    ListedOnlyByParent(t, c, p);
    RemoveAt(t, p, c, p);
  }

  /** `c` was not `p`'s child: detaching leaves `p`'s lists alone, and `c` was in none of them. */
  lemma DetachListsElsewhere(t: Tree, p: Id, c: Id)
    requires Valid(t) && p in t && c in t && Accepts(t[p].kind, t[c].kind) && t[c].parent != Some(p)
    ensures Detach(t, c)[p].lists == WithList(t[p], t[c].kind, RemoveFirst(ListFor(t[p], t[c].kind), c)).lists
  {
    var k := t[c].kind;
    ListedOnlyByParent(t, c, p);
    assert c !in ListFor(t[p], k);
    assert WithList(t[p], k, RemoveFirst(ListFor(t[p], k), c)) == t[p];
    DetachOtherLists(t, c, p);
  }

  /**
   * After an accepted addition `p` is `c`'s parent and `p`'s list of `c`'s
   * kind is the old one, without `c`, with `c` appended as its last entry;
   * `p`'s other lists are unchanged.
   */
  lemma AddEffect(t: Tree, p: Id, c: Id)
    requires Valid(t) && p in t && c in t && Accepts(t[p].kind, t[c].kind)
    ensures var r := Add(t, p, c).0;
            && r[c].parent == Some(p)
            && r[p].lists == WithList(t[p], t[c].kind, RemoveFirst(ListFor(t[p], t[c].kind), c) + [c]).lists
  {
    var k := t[c].kind;
    var t1 := Detach(t, c);
    DetachKind(t, c, c);
    DetachLists(t, p, c);
    var l: seq<Id> := RemoveFirst(ListFor(t[p], k), c);
    WithListOver(t1[p], t[p], k, l, l + [c]);
    var t2 := Link(t1, p, c);
    LinkAt(t1, p, c, p);
    LinkAt(t1, p, c, c);
    ClearChainSameShape(t2, p, |t2|);
    SameShapeAt(t2, Add(t, p, c).0, p);
    SameShapeAt(t2, Add(t, p, c).0, c);
  }

  /** After an addition `c` is listed once, by `p`, and by no other component: it ends up in exactly one list. */
  lemma AddListsOnce(t: Tree, p: Id, c: Id)
    requires Valid(t) && p in t && c in t && Accepts(t[p].kind, t[c].kind)
    ensures var r := Add(t, p, c).0;
            && multiset(Children(r[p]))[c] == 1
            && (forall q :: q in r && q != p ==> c !in Children(r[q]))
  {
    var r := Add(t, p, c).0;
    AddEffect(t, p, c);
    AddValid(t, p, c);
    forall q: Id | q in r
      ensures c in Children(r[q]) <==> q == p
    {
      ListedOnlyByParent(r, c, q);
    }
    ListedOnlyByParent(r, c, p);
  }

  /** An addition changes the parent of the added component and of no other. */
  lemma AddParentAt(t: Tree, p: Id, c: Id, x: Id)
    requires p in t && c in t && x in t && x != c
    ensures Add(t, p, c).0[x].parent == t[x].parent
  {
    if Accepts(t[p].kind, t[c].kind) {
      var t1 := Detach(t, c);
      if t[c].parent.Some? && t[c].parent.value in t && Holds(t, t[c].parent.value, c) {
        RemoveAt(t, t[c].parent.value, c, x);
      }
      assert t1[x].parent == t[x].parent;
      DetachKind(t, c, c);
      AcceptedChildIsListed(t[p].kind, t[c].kind);
      LinkAt(t1, p, c, x);
      var t2 := Link(t1, p, c);
      ClearChainSameShape(t2, p, |t2|);
      SameShapeAt(t2, Add(t, p, c).0, x);
    }
  }

  /** A chain that avoids `c` is the same in any tree that differs from `t` only in `c`'s parent. */
  lemma {:induction false} ChainAvoiding(t: Tree, r: Tree, c: Id, x: Id, fuel: nat)
    requires SameParentsBut(t, r, c)
    requires c !in Chain(t, x, fuel)
    ensures Chain(r, x, fuel) == Chain(t, x, fuel)
    decreases fuel
  {
    if fuel > 0 && x in t && t[x].parent.Some? {
      ChainAvoiding(t, r, c, t[x].parent.value, fuel - 1);
    }
  }

  /**
   * The written `addComponent` has no cycle guard: adding a component to
   * itself is accepted for an internal or external part, and the part
   * becomes its own parent, so `clearCaches` would climb from it forever.
   */
  lemma AddAsWrittenSelfParent(t: Tree, c: Id)
    requires Valid(t) && c in t && (t[c].kind == InternalPart || t[c].kind == ExternalPart)
    ensures !Add(t, c, c).1 && Add(t, c, c).0[c].parent == Some(c)
    ensures c in Chain(Add(t, c, c).0, Add(t, c, c).0[c].parent.value, 1)
  {
    AddEffect(t, c, c);
  }

  /**
   * `addComponent` with the cycle guard it lacks: besides a child of a kind
   * the parent refuses, a child that is the parent itself or one of its
   * ancestors is refused too; any other child is added as before.
   */
  function AddGuarded(t: Tree, p: Id, c: Id): (r: (Tree, bool))
    requires p in t && c in t
    ensures r.0.Keys == t.Keys
    ensures r.1 <==> !Accepts(t[p].kind, t[c].kind) || c in Chain(t, p, |t|)
    ensures r.1 ==> r.0 == t
  {
    if c in Chain(t, p, |t|) then (t, true) else Add(t, p, c)
  }

  /** A guarded addition keeps the invariant. */
  lemma AddGuardedValid(t: Tree, p: Id, c: Id)
    requires Valid(t) && p in t && c in t
    ensures Valid(AddGuarded(t, p, c).0)
  {
    AddValid(t, p, c);
  }

  /**
   * An accepted guarded addition closes no cycle: `c` hangs under `p`, and
   * `c` is not among `p`'s ancestors in the new tree, within as many links
   * as there are components.
   */
  lemma AddGuardedClosesNoCycle(t: Tree, p: Id, c: Id)
    requires p in t && c in t && Accepts(t[p].kind, t[c].kind) && c !in Chain(t, p, |t|)
    ensures AddGuarded(t, p, c).0[c].parent == Some(p)
    ensures c !in Chain(AddGuarded(t, p, c).0, p, |t|)
  {
    AddGuardedAccepted(t, p, c);
    AddClosesNoCycle(t, p, c);
  }

  /** An accepted guarded addition is the written addition. */
  lemma AddGuardedAccepted(t: Tree, p: Id, c: Id)
    requires p in t && c in t && Accepts(t[p].kind, t[c].kind) && c !in Chain(t, p, |t|)
    ensures AddGuarded(t, p, c) == Add(t, p, c)
  {
  }

  /** The unguarded addition of a child that is neither the parent nor one of its ancestors closes no cycle. */
  lemma AddClosesNoCycle(t: Tree, p: Id, c: Id)
    requires p in t && c in t && Accepts(t[p].kind, t[c].kind) && c !in Chain(t, p, |t|)
    ensures Add(t, p, c).0[c].parent == Some(p)
    ensures c !in Chain(Add(t, p, c).0, p, |t|)
  {
    AddParentOfChild(t, p, c);
    AddOtherParents(t, p, c);
    ChainAvoiding(t, Add(t, p, c).0, c, p, |t|);
  }

  lemma AddParentOfChild(t: Tree, p: Id, c: Id)
    requires p in t && c in t && Accepts(t[p].kind, t[c].kind)
    ensures Add(t, p, c).0[c].parent == Some(p)
  {
    var t1 := Detach(t, c);
    DetachKind(t, c, c);
    AcceptedChildIsListed(t[p].kind, t[c].kind);
    LinkAt(t1, p, c, c);
    var t2 := Link(t1, p, c);
    ClearChainSameShape(t2, p, |t2|);
    SameShapeAt(t2, Add(t, p, c).0, c);
  }

  lemma AddOtherParents(t: Tree, p: Id, c: Id)
    requires p in t && c in t
    ensures SameParentsBut(t, Add(t, p, c).0, c)
  {
    var r := Add(t, p, c).0;
    forall y | y in t && y != c
      ensures r[y].parent == t[y].parent
    {
      AddParentAt(t, p, c, y);
    }
  }

  /** `r` has the components of `t`, and each but `c` keeps its parent. */
  ghost predicate SameParentsBut(t: Tree, r: Tree, c: Id)
  {
    r.Keys == t.Keys && forall y :: y in t && y != c ==> r[y].parent == t[y].parent
  }

  /**
   * The iteration of the internal and external `removeComponent` as
   * written: after `erase` the loop still advances its cursor, so it skips
   * the entry that moved into the erased slot, and after erasing the last
   * entry it steps past the end. The flag says the cursor overran the end.
   */
  function EraseScanAsWritten(s: seq<Id>, x: Id, i: nat): (r: (seq<Id>, bool))
    ensures |r.0| <= |s| && forall y :: y in r.0 ==> y in s
    ensures r.1 ==> |r.0| < |s| || i > |s|
    decreases |s| + 1 - i
  {
    if i > |s| then (s, true)
    else if i == |s| then (s, false)
    else if s[i] == x then EraseScanAsWritten(s[..i] + s[i + 1..], x, i + 1)
    else EraseScanAsWritten(s, x, i + 1)
  }

  /**
   * Removing the only child of an internal or external part runs the cursor
   * past the end, where the erase-first removal simply empties the list.
   */
  lemma EraseScanOverruns(x: Id)
    ensures EraseScanAsWritten([x], x, 0).1
    ensures RemoveFirst([x], x) == []
  {
  }

  /** A scan that finds nothing to erase leaves the list unchanged and ends at its end. */
  lemma {:induction false} EraseScanWithoutMatch(s: seq<Id>, x: Id, i: nat)
    requires i <= |s| && x !in s[i..]
    ensures EraseScanAsWritten(s, x, i) == (s, false)
    ensures EraseScanAsWritten(s, x, i).0 == RemoveFirst(s, x) || x in s[..i]
    decreases |s| - i
  {
    if i < |s| {
      assert s[i] != x by { assert s[i] == s[i..][0]; }
      assert s[i..] == [s[i]] + s[i + 1..];
      EraseScanWithoutMatch(s, x, i + 1);
    }
    assert s == s[..i] + s[i..];
  }
}
