/**
 * The twelve-slot simulation state of `sim/stateArray.hpp`: each position or
 * angle slot is followed by its rate.
 */
module StateArrays {
  import opened Points

  const Xp := 0
  const Xv := 1
  const Yp := 2
  const Yv := 3
  const Zp := 4
  const Zv := 5
  const Phi := 6
  const dPhi := 7
  const Theta := 8
  const dTheta := 9
  const Psi := 10
  const dPsi := 11
  const LAST := 12

  type StateArray = s: seq<real> | |s| == LAST
    witness [0.0, 0.0, 0.0, 0.0, 0.0, 0.0, 0.0, 0.0, 0.0, 0.0, 0.0, 0.0]

  /** A slot that holds a rate (a velocity or an angular velocity). */
  predicate IsRateSlot(i: int)
  {
    0 <= i < LAST && i % 2 == 1
  }

  /** `defaultStateVector`: every slot is zero. */
  function DefaultStateVector(): (r: StateArray)
    ensures forall i :: 0 <= i < LAST ==> r[i] == 0.0
  {
    seq(LAST, _ => 0.0)
  }

  /**
   * `defaultDeriv`: every rate moves into the position or angle slot before it,
   * and every rate slot becomes zero.
   */
  function DefaultDeriv(s: StateArray): (r: StateArray)
    ensures forall i :: 0 <= i < LAST && !IsRateSlot(i) ==> r[i] == s[i + 1]
    ensures forall i :: IsRateSlot(i) ==> r[i] == 0.0
  {
    [s[Xv], 0.0, s[Yv], 0.0, s[Zv], 0.0, s[dPhi], 0.0, s[dTheta], 0.0, s[dPsi], 0.0]
  }

  /** Applying `defaultDeriv` twice gives the zero state. */
  lemma DefaultDerivTwice(s: StateArray)
    ensures DefaultDeriv(DefaultDeriv(s)) == DefaultStateVector()
  {
    var d := DefaultDeriv(s);
    assert forall i :: 0 <= i < LAST && !IsRateSlot(i) ==> i + 1 < LAST && IsRateSlot(i + 1);
    assert forall i :: 0 <= i < LAST ==> DefaultDeriv(d)[i] == 0.0;
  }

  function Velocity(s: StateArray): (r: Vec3)
    ensures r == Vec3(s[Xv], s[Yv], s[Zv])
  {
    Vec3(s[1], s[3], s[5])
  }

  function Position(s: StateArray): (r: Vec3)
    ensures r == Vec3(s[Xp], s[Yp], s[Zp])
  {
    Vec3(s[0], s[2], s[4])
  }

  function AngVelocity(s: StateArray): (r: Vec3)
    ensures r == Vec3(s[dPhi], s[dTheta], s[dPsi])
  {
    Vec3(s[7], s[9], s[11])
  }

  function Orientation(s: StateArray): (r: Vec3)
    ensures r == Vec3(s[Phi], s[Theta], s[Psi])
  {
    Vec3(s[6], s[8], s[10])
  }

  /** The four accessors together read every slot once: a state is determined by its four triples. */
  lemma TriplesDetermineState(s: StateArray, t: StateArray)
    requires Velocity(s) == Velocity(t) && Position(s) == Position(t)
    requires AngVelocity(s) == AngVelocity(t) && Orientation(s) == Orientation(t)
    ensures s == t
  {
    assert forall i :: 0 <= i < LAST ==> s[i] == t[i];
  }
}
