/**
 * The aerodynamic bookkeeping of `rocket/components/aeroComponent.cpp`: the
 * three-level coefficient caches keyed by (mach, alpha, gamma), the memoised
 * damping coefficient, the area-scaled aggregation of the children's
 * coefficients, the centre of pressure as a weighted average, and the drag
 * adjustment of `Cda2Cd`.
 *
 * A component's own coefficients (the virtual `calculate*` members) and the
 * children's values are inputs here; the component tree that supplies them
 * lives in `ComponentTree`.
 */
module Aero {
  import opened Points
  import opened Maths

  /** `_c_n_aCache[mach][alpha][gamma]` and its siblings. */
  type Cache3<T> = map<real, map<real, map<real, T>>>

  /** `c_n_aExists` and its siblings: the key is present at all three levels. */
  predicate Exists<T>(c: Cache3<T>, mach: real, alpha: real, gamma: real)
  {
    mach in c && alpha in c[mach] && gamma in c[mach][alpha]
  }

  function Lookup<T>(c: Cache3<T>, mach: real, alpha: real, gamma: real): T
    requires Exists(c, mach, alpha, gamma)
  {
    c[mach][alpha][gamma]
  }

  /**
   * `createC_n_aMapping` and its siblings: `operator[]` inserts empty inner
   * maps on the way down, so the entry exists afterwards and holds `value`,
   * and every other entry is kept.
   */
  function Create<T>(c: Cache3<T>, value: T, mach: real, alpha: real, gamma: real): (r: Cache3<T>)
    ensures Exists(r, mach, alpha, gamma) && Lookup(r, mach, alpha, gamma) == value
    ensures forall m, a, g :: m != mach || a != alpha || g != gamma ==>
              (Exists(r, m, a, g) <==> Exists(c, m, a, g))
    ensures forall m, a, g :: (m != mach || a != alpha || g != gamma) && Exists(c, m, a, g) ==>
              Lookup(r, m, a, g) == Lookup(c, m, a, g)
  {
    var inner := if mach in c then c[mach] else map[];
    var innermost := if alpha in inner then inner[alpha] else map[];
    c[mach := inner[alpha := innermost[gamma := value]]]
  }

  /** The caches one aero component owns. */
  datatype AeroCaches = AeroCaches(cna: Cache3<real>, cma: Cache3<real>, cp: Cache3<Vec3>, damp: map<real, real>)

  /** The state after `clearCaches`: every level of every cache emptied. */
  const NoAeroCaches := AeroCaches(map[], map[], map[], map[])

  lemma ClearedHasNoEntries(mach: real, alpha: real, gamma: real, x: real)
    ensures !Exists(NoAeroCaches.cna, mach, alpha, gamma)
    ensures !Exists(NoAeroCaches.cma, mach, alpha, gamma)
    ensures !Exists(NoAeroCaches.cp, mach, alpha, gamma)
    ensures x !in NoAeroCaches.damp
  {
  }

  /** Every cached entry is the value `f` computes for its key. */
  ghost predicate Agrees<T>(c: Cache3<T>, f: (real, real, real) -> T)
  {
    forall m, a, g :: Exists(c, m, a, g) ==> Lookup(c, m, a, g) == f(m, a, g)
  }

  /**
   * `c_n_a`, `c_m_a` and `cp`: with caching on and the key present, the cached
   * value; otherwise `computed`, the value of `calculate*WithComponents`,
   * which is not stored.
   */
  function Query<T>(c: Cache3<T>, caching: bool, mach: real, alpha: real, gamma: real, computed: T): (r: T)
    ensures caching && Exists(c, mach, alpha, gamma) ==> r == Lookup(c, mach, alpha, gamma)
    ensures !caching || !Exists(c, mach, alpha, gamma) ==> r == computed
  {
    if caching && Exists(c, mach, alpha, gamma) then Lookup(c, mach, alpha, gamma) else computed
  }

  /** A cache that agrees with the computation is invisible: the query returns the computed value. */
  lemma QueryTransparent<T>(c: Cache3<T>, f: (real, real, real) -> T, caching: bool, mach: real, alpha: real, gamma: real)
    requires Agrees(c, f)
    ensures Query(c, caching, mach, alpha, gamma, f(mach, alpha, gamma)) == f(mach, alpha, gamma)
  {
  }

  /** Storing the computed value keeps the cache in agreement. */
  lemma CreateKeepsAgreement<T>(c: Cache3<T>, f: (real, real, real) -> T, mach: real, alpha: real, gamma: real)
    requires Agrees(c, f)
    ensures Agrees(Create(c, f(mach, alpha, gamma), mach, alpha, gamma), f)
  {
  }

  /** `c_n` and `c_m`: the slope times alpha, so zero at zero incidence. */
  function Coefficient(slope: real, alpha: real): (r: real)
    ensures alpha == 0.0 ==> r == 0.0
    ensures slope >= 0.0 && alpha >= 0.0 ==> r >= 0.0
  {
    slope * alpha
  }

  /** `omega²/v²` for the damping coefficient. */
  function RateFactor(omega: real, v: real): real
    requires v != 0.0
  {
    omega * omega / (v * v)
  }

  /**
   * `c_m_damp`: zero when omega or v is zero; otherwise the velocity-free
   * coefficient for `x` times omega²/v². With caching on, that coefficient is
   * taken from the cache, or computed (`computed`) and stored under `x`.
   */
  function Damp(cache: map<real, real>, caching: bool, x: real, omega: real, v: real, computed: real): (r: (real, map<real, real>))
    ensures omega == 0.0 || v == 0.0 ==> r == (0.0, cache)
    ensures r.1 == cache || (x !in cache && r.1 == cache[x := computed])
    ensures x in r.1 ==> x in cache || r.1[x] == computed
  {
    if omega == 0.0 || v == 0.0 then (0.0, cache)
    else if !caching then (computed * RateFactor(omega, v), cache)
    else if x in cache then (cache[x] * RateFactor(omega, v), cache)
    else (computed * RateFactor(omega, v), cache[x := computed])
  }

  ghost predicate DampAgrees(cache: map<real, real>, f: real -> real)
  {
    forall x :: x in cache ==> cache[x] == f(x)
  }

  /**
   * The memo is invisible: with a cache that agrees with the velocity-free
   * coefficient `f`, the result is `f(x)·omega²/v²` (or 0), and the updated
   * cache still agrees.
   */
  lemma DampTransparent(cache: map<real, real>, f: real -> real, caching: bool, x: real, omega: real, v: real)
    requires DampAgrees(cache, f)
    ensures var r := Damp(cache, caching, x, omega, v, f(x));
            DampAgrees(r.1, f) &&
            r.0 == (if omega == 0.0 || v == 0.0 then 0.0 else f(x) * RateFactor(omega, v))
  {
  }

  /** A second identical query returns the same value and stores nothing more. */
  lemma DampTwice(cache: map<real, real>, caching: bool, x: real, omega: real, v: real, computed: real)
    ensures var r := Damp(cache, caching, x, omega, v, computed);
            Damp(r.1, caching, x, omega, v, computed) == r
  {
    if omega != 0.0 && v != 0.0 && caching && x !in cache {
      var stored := cache[x := computed];
      var r := Damp(cache, caching, x, omega, v, computed);
      assert r.1 == stored && r.0 == computed * RateFactor(omega, v);
      var again := Damp(stored, caching, x, omega, v, computed);
      assert again.1 == stored && again.0 == stored[x] * RateFactor(omega, v);
      assert again.0 == r.0;
    }
  }

  /** The drag adjustment factor as a function of the absolute angle of attack. */
  function DragFactor(absAlpha: real): (r: real)
    ensures absAlpha == 0.0 ==> r == 1.0
  {
    if absAlpha <= 17.0 * Pi / 180.0 then
      -22.9706 * absAlpha * absAlpha * absAlpha + 10.2233 * absAlpha * absAlpha + 1.0
    else
      -1.48 * absAlpha * absAlpha * absAlpha * absAlpha + 6.7849 * absAlpha * absAlpha * absAlpha
      - 10.0627 * absAlpha * absAlpha + 4.334 * absAlpha + 0.7342
  }

  /** `Cda2Cd`: the axial drag coefficient scaled by the factor for |alpha|. */
  function Cda2Cd(cda: real, alpha: real): (r: real)
    ensures alpha == 0.0 ==> r == cda
  {
    DragFactor(Abs(alpha)) * cda
  }

  /**
   * Up to 17 degrees the cubic factor is at least 1, so a non-negative axial
   * coefficient never shrinks: `a²·(10.2233 − 22.9706·a) ≥ 0` while a ≤ 0.445.
   */
  lemma {:induction false} DragFactorAtLeastOne(alpha: real)
    requires Abs(alpha) <= 17.0 * Pi / 180.0
    ensures DragFactor(Abs(alpha)) >= 1.0
  {
    var a := Abs(alpha);
    assert 0.0 <= a <= 0.3;
    var tail := 10.2233 - 22.9706 * a;
    assert tail >= 0.0;
    MulNonNegative(a * a, tail);
    assert -22.9706 * a * a * a + 10.2233 * a * a == (a * a) * tail;
  }

  /** Area scaling: the sum of `coefficient·weight/denominator` over the children. */
  function ScaledSum(terms: seq<(real, real)>, denominator: real): (r: real)
    requires denominator != 0.0
    ensures (forall i :: 0 <= i < |terms| ==> terms[i].1 == 0.0) ==> r == 0.0
  {
    if |terms| == 0 then 0.0
    else ScaledSum(terms[..|terms| - 1], denominator) + terms[|terms| - 1].0 * terms[|terms| - 1].1 / denominator
  }

  /** The plain weighted sum, without the common denominator. */
  function WeightedSum(terms: seq<(real, real)>): real
  {
    if |terms| == 0 then 0.0
    else WeightedSum(terms[..|terms| - 1]) + terms[|terms| - 1].0 * terms[|terms| - 1].1
  }

  /**
   * Scaling each child by the component's own reference quantity is the same
   * as scaling the weighted sum once: children carry weight in proportion to
   * their reference area (and length).
   */
  lemma {:induction false} ScaledSumFactors(terms: seq<(real, real)>, denominator: real)
    requires denominator != 0.0
    ensures ScaledSum(terms, denominator) == WeightedSum(terms) / denominator
  {
    if |terms| > 0 {
      var n := |terms| - 1;
      ScaledSumFactors(terms[..n], denominator);
      assert WeightedSum(terms) / denominator
          == WeightedSum(terms[..n]) / denominator + terms[n].0 * terms[n].1 / denominator;
    }
  }

  /** Children whose coefficients and weights are non-negative only raise the total. */
  lemma {:induction false} ScaledSumNonNegative(terms: seq<(real, real)>, denominator: real)
    requires denominator > 0.0
    requires forall i :: 0 <= i < |terms| ==> terms[i].0 >= 0.0 && terms[i].1 >= 0.0
    ensures ScaledSum(terms, denominator) >= 0.0
  {
    if |terms| > 0 {
      var n := |terms| - 1;
      ScaledSumNonNegative(terms[..n], denominator);
      MulNonNegative(terms[n].0, terms[n].1);
    }
  }

  /**
   * `calculateC_n_aWithComponents`, `calculateC_m_aWithComponents` and
   * `calculateC_m_dampWithComponents`: the component's own coefficient plus
   * each child's coefficient times its weight (reference area, or reference
   * area times reference length) over the component's own.
   */
  method WithComponents(own: real, terms: seq<(real, real)>, denominator: real) returns (total: real)
    requires denominator != 0.0
    ensures total == own + ScaledSum(terms, denominator)
  {
    total := own;
    var i := 0;
    while i < |terms|
      invariant 0 <= i <= |terms|
      invariant total == own + ScaledSum(terms[..i], denominator)
    {
      assert terms[..i + 1][..i] == terms[..i];
      total := total + terms[i].0 * terms[i].1 / denominator;
      i := i + 1;
    }
    assert terms[..i] == terms;
  }

  /**
   * `calculateC_m_aAtOrigin`: the own moment slope moved to the origin with
   * the normal-force slope acting at the centre of pressure `cpX`.
   */
  function MomentAtOrigin(cma: real, cna: real, cpX: real, referenceLength: real): (r: real)
    requires referenceLength != 0.0
    ensures r == cma - cna * cpX / referenceLength
    ensures cpX == 0.0 || cna == 0.0 ==> r == cma
  {
    (cma * referenceLength - cna * cpX) / referenceLength
  }

  /** The sum of the children's normal-force slopes. */
  function SlopeSum(children: seq<(real, Vec3)>): real
  {
    if |children| == 0 then 0.0 else SlopeSum(children[..|children| - 1]) + children[|children| - 1].0
  }

  /** The sum of the children's centres of pressure weighted by their slopes. */
  function WeightedCp(children: seq<(real, Vec3)>): Vec3
  {
    if |children| == 0 then Zero
    else Add(WeightedCp(children[..|children| - 1]), Scale(children[|children| - 1].1, children[|children| - 1].0))
  }

  /**
   * The centre of pressure of `calculateCpWithComponents`: the slope-weighted
   * average of the children's and the own centre of pressure, and the zero
   * vector when the slopes sum to 0.
   */
  function CpAverage(children: seq<(real, Vec3)>, ownCna: real, ownCp: Vec3): (r: Vec3)
    ensures SlopeSum(children) + ownCna == 0.0 ==> r == Zero
    ensures SlopeSum(children) + ownCna != 0.0 ==>
              Scale(r, SlopeSum(children) + ownCna) == Add(WeightedCp(children), Scale(ownCp, ownCna))
  {
    var total := SlopeSum(children) + ownCna;
    if total == 0.0 then Zero else Div(Add(WeightedCp(children), Scale(ownCp, ownCna)), total)
  }

  /** Children of zero slope add nothing to the weighted sum, wherever their centres lie. */
  lemma {:induction false} WeightedCpOfZeroWeights(children: seq<(real, Vec3)>)
    requires forall i :: 0 <= i < |children| ==> children[i].0 == 0.0
    ensures WeightedCp(children) == Zero
  {
    if |children| > 0 {
      WeightedCpOfZeroWeights(children[..|children| - 1]);
    }
  }

  /** Children whose centres are `p`, or whose slope is 0, sum to `p` times the slope sum. */
  lemma {:induction false} WeightedCpOfEqualPoints(children: seq<(real, Vec3)>, p: Vec3)
    requires forall i :: 0 <= i < |children| ==> children[i].1 == p || children[i].0 == 0.0
    ensures WeightedCp(children) == Scale(p, SlopeSum(children))
  {
    if |children| > 0 {
      var n := |children| - 1;
      WeightedCpOfEqualPoints(children[..n], p);
      ScaleDistributes(p, SlopeSum(children[..n]), children[n].0);
    }
  }

  /**
   * When every centre of pressure is the same point (or carries no slope), so is
   * their average; the same average weights centres of mass by masses.
   */
  lemma CpAverageOfEqualPoints(children: seq<(real, Vec3)>, ownCna: real, p: Vec3)
    requires forall i :: 0 <= i < |children| ==> children[i].1 == p || children[i].0 == 0.0
    requires SlopeSum(children) + ownCna != 0.0
    ensures CpAverage(children, ownCna, p) == p
  {
    WeightedCpOfEqualPoints(children, p);
    var s := SlopeSum(children);
    ScaleDistributes(p, s, ownCna);
    DivUndoesScale(p, s + ownCna);
  }

  lemma ScaleDistributes(p: Vec3, a: real, b: real)
    ensures Add(Scale(p, a), Scale(p, b)) == Scale(p, a + b)
  {
    assert a * p.x + b * p.x == (a + b) * p.x;
    assert a * p.y + b * p.y == (a + b) * p.y;
    assert a * p.z + b * p.z == (a + b) * p.z;
  }

  /** The loop of `calculateCpWithComponents`: children first, then the component's own term. */
  method CpWithComponents(children: seq<(real, Vec3)>, ownCna: real, ownCp: Vec3) returns (cp: Vec3)
    ensures cp == CpAverage(children, ownCna, ownCp)
  {
    var weighted := Zero;
    var sum := 0.0;
    var i := 0;
    while i < |children|
      invariant 0 <= i <= |children|
      invariant weighted == WeightedCp(children[..i]) && sum == SlopeSum(children[..i])
    {
      assert children[..i + 1][..i] == children[..i];
      weighted := Add(weighted, Scale(children[i].1, children[i].0));
      sum := sum + children[i].0;
      i := i + 1;
    }
    assert children[..i] == children;
    sum := sum + ownCna;
    weighted := Add(weighted, Scale(ownCp, ownCna));
    if sum == 0.0 {
      cp := Zero;
    } else {
      cp := Div(weighted, sum);
    }
  }
}
