/**
 * The integrator control of `sim/simulation.cpp`: time-step selection, the
 * RK4 combination, the solve loop with its takeoff and on-rod latches and
 * termination rules, the apogee scan, and the acceleration guards at the end
 * of `calculate`. The force and moment physics of `calculate` is a parameter,
 * and so are the vector norm and the wall clock.
 */
module Simulation {
  import opened Points
  import opened Maths
  import opened StateArrays
  import Folds

  /** Named values recorded per step, in the order `calculate` lists them. */
  type StepData = seq<(string, real)>

  const MaxSteps: nat := 100000
  const MinTimeStep: real := 0.001
  const MaxAngleStep: real := 3.0 * Pi / 180.0
  const MaxPitchStepChange: real := 4.0 * Pi / 180.0

  /** `std::numeric_limits<double>::max()`, the value of every unused candidate. */
  const DoubleMax: real := 179769313486231570814527423731704356798070567525844996598917476803157260780028538760589558632766878171540458953514382464234321326889464182768467546703537516986049910576551282076245490090389328944075868508455133942304583236903222948165808559332123348274797826204144723168738177180919299881250404026184124858368.0

  /** `std::numeric_limits<double>::epsilon()`, 2^-52. */
  const Epsilon: real := 1.0 / 4503599627370496.0

  /** `minCoeff`: the least element. */
  function MinOf(s: seq<real>): (r: real)
    requires |s| > 0
    ensures r in s && forall x :: x in s ==> r <= x
  {
    if |s| == 1 then s[0]
    else
      var rest := MinOf(s[1..]);
      assert forall x :: x in s ==> x == s[0] || x in s[1..];
      if s[0] <= rest then s[0] else rest
  }

  /** The first candidate: the user step gated to the minimum, a fifth of it on the rod. */
  function BaseStep(userStep: real, onRod: bool): real
  {
    if onRod then Folds.Max(userStep, MinTimeStep) / 5.0 else Folds.Max(userStep, MinTimeStep)
  }

  /**
   * The candidates that are finite. A quotient by zero is infinite in the
   * source and never the minimum, so it is left out; the three unused slots
   * keep `DoubleMax`.
   */
  function StepCandidates(state: StateArray, lastState: StateArray, k1: StateArray, currStep: real,
                          userStep: real, onRod: bool, rodLen: real, norm: Vec3 -> real): (r: seq<real>)
    requires currStep > 0.0
    ensures |r| >= 3 && r[0] == BaseStep(userStep, onRod) && r[1] == 1.5 * currStep && DoubleMax in r
    ensures state[dTheta] != 0.0 ==> Abs(MaxAngleStep / state[dTheta]) in r
    ensures var change := (state[dTheta] - lastState[dTheta]) / currStep;
            change != 0.0 ==> Abs(MaxPitchStepChange / change) in r
    ensures onRod && norm(Position(k1)) != 0.0 ==> rodLen / norm(Position(k1)) / 10.0 in r
    ensures |r| <= 6
    ensures var change, speed := (state[dTheta] - lastState[dTheta]) / currStep, norm(Position(k1));
            forall x :: x in r ==>
              x == BaseStep(userStep, onRod) || x == 1.5 * currStep || x == DoubleMax
              || (state[dTheta] != 0.0 && x == Abs(MaxAngleStep / state[dTheta]))
              || (change != 0.0 && x == Abs(MaxPitchStepChange / change))
              || (onRod && speed != 0.0 && x == rodLen / speed / 10.0)
  {
    var pitchRateChange := (state[dTheta] - lastState[dTheta]) / currStep;
    var speed := norm(Position(k1));
    var fixed := [BaseStep(userStep, onRod), 1.5 * currStep, DoubleMax];
    var r := fixed
      + (if state[dTheta] != 0.0 then [Abs(MaxAngleStep / state[dTheta])] else [])
      + (if pitchRateChange != 0.0 then [Abs(MaxPitchStepChange / pitchRateChange)] else [])
      + (if onRod && speed != 0.0 then [rodLen / speed / 10.0] else []);
    assert r[..3] == fixed;
    assert r[2] == DoubleMax;
    r
  }

  /**
   * `selectTimeStep`: the user step when nothing changed since the last step,
   * otherwise the least candidate, which is at most 1.5 times the current step
   * and at most the gated user step.
   */
  function SelectTimeStep(state: StateArray, lastState: StateArray, k1: StateArray, currStep: real,
                          userStep: real, onRod: bool, rodLen: real, norm: Vec3 -> real): (r: real)
    requires currStep > 0.0
    ensures state == lastState ==> r == userStep
    ensures state != lastState ==> r <= 1.5 * currStep && r <= BaseStep(userStep, onRod)
    ensures state != lastState ==> r in StepCandidates(state, lastState, k1, currStep, userStep, onRod, rodLen, norm)
    ensures state != lastState ==> forall x :: x in StepCandidates(state, lastState, k1, currStep, userStep, onRod, rodLen, norm) ==> r <= x
    ensures state != lastState && state[dTheta] != 0.0 ==> r <= Abs(MaxAngleStep / state[dTheta])
    ensures var change := (state[dTheta] - lastState[dTheta]) / currStep;
            state != lastState && change != 0.0 ==> r <= Abs(MaxPitchStepChange / change)
    ensures state != lastState && onRod && norm(Position(k1)) != 0.0 ==> r <= rodLen / norm(Position(k1)) / 10.0
  {
    if state == lastState then userStep
    else
      var c := StepCandidates(state, lastState, k1, currStep, userStep, onRod, rodLen, norm);
      assert c[0] in c && c[1] in c;
      MinOf(c)
  }

  /** The chosen step is positive when the rod length is positive and norms are never negative. */
  lemma SelectedStepPositive(state: StateArray, lastState: StateArray, k1: StateArray, currStep: real,
                             userStep: real, onRod: bool, rodLen: real, norm: Vec3 -> real)
    requires currStep > 0.0 && rodLen > 0.0 && norm(Position(k1)) >= 0.0
    requires state != lastState
    ensures SelectTimeStep(state, lastState, k1, currStep, userStep, onRod, rodLen, norm) > 0.0
  {
    var c := StepCandidates(state, lastState, k1, currStep, userStep, onRod, rodLen, norm);
    var pitchRateChange := (state[dTheta] - lastState[dTheta]) / currStep;
    var speed := norm(Position(k1));
    if state[dTheta] != 0.0 {
      QuotientMagnitudePositive(MaxAngleStep, state[dTheta]);
    }
    if pitchRateChange != 0.0 {
      QuotientMagnitudePositive(MaxPitchStepChange, pitchRateChange);
    }
    if onRod && speed != 0.0 {
      assert rodLen / speed > 0.0;
    }
    assert forall x :: x in c ==> x > 0.0;
  }

  lemma QuotientMagnitudePositive(a: real, b: real)
    requires a > 0.0 && b != 0.0
    ensures Abs(a / b) > 0.0
  {
    if b > 0.0 {
      assert a / b > 0.0;
    } else {
      assert a / b < 0.0;
    }
  }

  /** `s + k * f`, slot by slot. */
  function AddScaled(s: StateArray, k: StateArray, f: real): (r: StateArray)
    ensures forall i :: 0 <= i < LAST ==> r[i] == s[i] + k[i] * f
  {
    seq(LAST, i requires 0 <= i < LAST => s[i] + k[i] * f)
  }

  /** The RK4 weighting `state + h/6 (k1 + 2 k2 + 2 k3 + k4)`. */
  function Combine(state: StateArray, k1: StateArray, k2: StateArray, k3: StateArray, k4: StateArray, h: real): (r: StateArray)
    ensures forall i :: 0 <= i < LAST ==> r[i] == state[i] + h / 6.0 * (k1[i] + 2.0 * k2[i] + 2.0 * k3[i] + k4[i])
  {
    seq(LAST, i requires 0 <= i < LAST => state[i] + h / 6.0 * (k1[i] + 2.0 * k2[i] + 2.0 * k3[i] + k4[i]))
  }

  /** The weights sum to one: four equal slopes give a plain Euler step. */
  lemma CombineConsistent(state: StateArray, k: StateArray, h: real)
    ensures Combine(state, k, k, k, k, h) == AddScaled(state, k, h)
  {
    forall i | 0 <= i < LAST
      ensures Combine(state, k, k, k, k, h)[i] == AddScaled(state, k, h)[i]
    {
      assert k[i] + 2.0 * k[i] + 2.0 * k[i] + k[i] == 6.0 * k[i];
    }
  }

  /** The same weighting of one step-data value. */
  function Weighted(a: real, b: real, c: real, d: real): real
  {
    (a + 2.0 * b + 2.0 * c + d) / 6.0
  }

  /** The step-data loop of `RK4Integrate`: k1's names, in k1's order, with weighted values. */
  method AverageStepData(k1St: StepData, k2St: StepData, k3St: StepData, k4St: StepData) returns (avg: StepData)
    requires |k2St| >= |k1St| && |k3St| >= |k1St| && |k4St| >= |k1St|
    ensures |avg| == |k1St|
    ensures forall i :: 0 <= i < |k1St| ==> avg[i].0 == k1St[i].0
    ensures forall i :: 0 <= i < |k1St| ==> avg[i].1 == Weighted(k1St[i].1, k2St[i].1, k3St[i].1, k4St[i].1)
  {
    avg := [];
    var i := 0;
    while i < |k1St|
      invariant 0 <= i <= |k1St| && |avg| == i
      invariant forall j :: 0 <= j < i ==> avg[j].0 == k1St[j].0
      invariant forall j :: 0 <= j < i ==> avg[j].1 == Weighted(k1St[j].1, k2St[j].1, k3St[j].1, k4St[j].1)
    {
      avg := avg + [(k1St[i].0, (k1St[i].1 + 2.0 * k2St[i].1 + 2.0 * k3St[i].1 + k4St[i].1) / 6.0)];
      i := i + 1;
    }
  }

  /** Four equal stage values average to that value. */
  lemma WeightedOfEqual(v: real)
    ensures Weighted(v, v, v, v) == v
  {
    assert v + 2.0 * v + 2.0 * v + v == 6.0 * v;
  }

  /** Every entry is zero or larger than machine epsilon in magnitude. */
  predicate Flushed(s: StateArray)
  {
    forall i :: 0 <= i < LAST ==> s[i] == 0.0 || Abs(s[i]) > Epsilon
  }

  /** Entries no larger than machine epsilon in magnitude are flushed to zero. */
  function Flush(s: StateArray): (r: StateArray)
    ensures Flushed(r)
    ensures forall i :: 0 <= i < LAST ==> r[i] == s[i] || Abs(s[i]) <= Epsilon
  {
    seq(LAST, i requires 0 <= i < LAST => if Epsilon < Abs(s[i]) then s[i] else 0.0)
  }

  /** The vertical velocity has been positive in some stored state after the first. */
  predicate TookOff(states: seq<StateArray>)
  {
    exists k :: 1 <= k < |states| && states[k][Zv] > 0.0
  }

  /** Some stored state after the first is farther from the origin than the rod. */
  predicate LeftRod(states: seq<StateArray>, rodLen: real, norm: Vec3 -> real)
  {
    exists k :: 1 <= k < |states| && norm(Position(states[k])) > rodLen
  }

  /** Step k lands: after takeoff, altitude goes from non-negative to negative. */
  predicate Lands(states: seq<StateArray>, k: nat)
    requires 1 <= k < |states|
  {
    states[k][Zp] < 0.0 && states[k - 1][Zp] >= 0.0 && TookOff(states[..k + 1])
  }

  /** Whether step k lands depends only on the states up to k. */
  lemma LandsExtend(states: seq<StateArray>, s: StateArray)
    ensures forall k :: 1 <= k < |states| ==> (Lands(states + [s], k) <==> Lands(states, k))
  {
    forall k | 1 <= k < |states|
      ensures Lands(states + [s], k) <==> Lands(states, k)
    {
      assert (states + [s])[..k + 1] == states[..k + 1];
    }
  }

  /** Whether the appended state lands is decided by it, the state before it and the extended list. */
  lemma LandsAtEnd(states: seq<StateArray>, s: StateArray)
    requires |states| >= 1
    ensures Lands(states + [s], |states|)
            <==> s[Zp] < 0.0 && states[|states| - 1][Zp] >= 0.0 && TookOff(states + [s])
  {
    assert (states + [s])[..|states| + 1] == states + [s];
  }

  /** No step before `n` lands. */
  predicate NoLandingBefore(states: seq<StateArray>, n: nat)
    requires n <= |states|
  {
    forall k :: 1 <= k < n ==> !Lands(states, k)
  }

  /**
   * The stored run after `n` steps: times strictly increase, every stored
   * state after the first is flushed, and no step before `n` lands.
   */
  predicate Recorded(states: seq<StateArray>, times: seq<real>, n: nat)
  {
    && |states| == n + 1 && |times| == n + 1
    && (forall k :: 1 <= k <= n ==> times[k - 1] < times[k])
    && (forall k :: 1 <= k <= n ==> Flushed(states[k]))
    && NoLandingBefore(states, n)
  }

  /** A later, flushed state after a step that did not land extends the run by one step. */
  lemma RecordStep(states: seq<StateArray>, times: seq<real>, n: nat, s: StateArray, t: real)
    requires Recorded(states, times, n) && (n >= 1 ==> !Lands(states, n))
    requires times[n] < t && Flushed(s)
    ensures Recorded(states + [s], times + [t], n + 1)
  {
    LandsExtend(states, s);
    var ss, ts := states + [s], times + [t];
    forall k | 1 <= k <= n + 1
      ensures ts[k - 1] < ts[k] && Flushed(ss[k])
    {
      if k <= n {
        assert ts[k - 1] == times[k - 1] && ts[k] == times[k] && ss[k] == states[k];
      }
    }
  }

  lemma TookOffExtend(states: seq<StateArray>, s: StateArray)
    requires |states| >= 1
    ensures TookOff(states + [s]) <==> TookOff(states) || s[Zv] > 0.0
  {
    var ext := states + [s];
    if s[Zv] > 0.0 {
      assert ext[|states|][Zv] > 0.0;
    }
    if TookOff(states) {
      var k :| 1 <= k < |states| && states[k][Zv] > 0.0;
      assert ext[k] == states[k];
    }
    if TookOff(ext) {
      var k :| 1 <= k < |ext| && ext[k][Zv] > 0.0;
      if k < |states| {
        assert states[k] == ext[k];
      }
    }
  }

  lemma LeftRodExtend(states: seq<StateArray>, s: StateArray, rodLen: real, norm: Vec3 -> real)
    requires |states| >= 1
    ensures LeftRod(states + [s], rodLen, norm) <==> LeftRod(states, rodLen, norm) || norm(Position(s)) > rodLen
  {
    var ext := states + [s];
    if norm(Position(s)) > rodLen {
      assert ext[|states|] == s;
    }
    if LeftRod(states, rodLen, norm) {
      var k :| 1 <= k < |states| && norm(Position(states[k])) > rodLen;
      assert ext[k] == states[k];
    }
    if LeftRod(ext, rodLen, norm) {
      var k :| 1 <= k < |ext| && norm(Position(ext[k])) > rodLen;
      if k < |states| {
        assert states[k] == ext[k];
      }
    }
  }

  /**
   * The apogee scan: the largest positive altitude among the stored states,
   * with the time of its first occurrence; (0, 0) when none is positive.
   */
  method ApogeeScan(states: seq<StateArray>, times: seq<real>) returns (apogee: real, apogeeTime: real)
    requires |times| == |states|
    ensures apogee >= 0.0 && forall i :: 0 <= i < |states| ==> states[i][Zp] <= apogee
    ensures apogee == 0.0 ==> apogeeTime == 0.0
    ensures apogee > 0.0 ==> exists i :: 0 <= i < |states| && states[i][Zp] == apogee && times[i] == apogeeTime
                                     && forall j :: 0 <= j < i ==> states[j][Zp] < apogee
  {
    apogee := 0.0;
    apogeeTime := 0.0;
    var i := 0;
    while i < |states|
      invariant 0 <= i <= |states| && apogee >= 0.0
      invariant forall j :: 0 <= j < i ==> states[j][Zp] <= apogee
      invariant apogee == 0.0 ==> apogeeTime == 0.0
      invariant apogee > 0.0 ==> exists k :: 0 <= k < i && states[k][Zp] == apogee && times[k] == apogeeTime
                                          && forall j :: 0 <= j < k ==> states[j][Zp] < apogee
    {
      var st := states[i];
      var t := times[i];
      if st[Zp] > apogee {
        apogee := st[Zp];
        apogeeTime := t;
      }
      i := i + 1;
    }
  }

  /**
   * The guards at the end of `calculate`: before takeoff a downward vertical
   * acceleration is clamped to zero; on the rod the angular acceleration is
   * zeroed and the acceleration is turned along the rod with its magnitude kept.
   */
  function GuardAccelerations(acc: Vec3, angAcc: Vec3, takeoff: bool, onRod: bool, rodVec: Vec3, norm: Vec3 -> real): (r: (Vec3, Vec3))
    ensures var lifted := if !takeoff && acc.z < 0.0 then acc.(z := 0.0) else acc;
            if onRod then r == (Scale(rodVec, norm(lifted)), Zero) else r == (lifted, angAcc)
  {
    var acc1 := if !takeoff && acc.z < 0.0 then acc.(z := 0.0) else acc;
    if onRod then (Scale(rodVec, norm(acc1)), Zero) else (acc1, angAcc)
  }

  /** Off the rod and before takeoff the rocket never accelerates downwards. */
  lemma NoSinkingBeforeTakeoff(acc: Vec3, angAcc: Vec3, rodVec: Vec3, norm: Vec3 -> real)
    ensures GuardAccelerations(acc, angAcc, false, false, rodVec, norm).0.z >= 0.0
    ensures GuardAccelerations(acc, angAcc, false, false, rodVec, norm).0.z == Folds.Max(acc.z, 0.0)
  {
  }

  /** The guards are idempotent off the rod. */
  lemma GuardTwice(acc: Vec3, angAcc: Vec3, takeoff: bool, rodVec: Vec3, norm: Vec3 -> real)
    ensures var once := GuardAccelerations(acc, angAcc, takeoff, false, rodVec, norm);
            GuardAccelerations(once.0, once.1, takeoff, false, rodVec, norm) == once
  {
  }

  /** The derivative `calculate` returns: `defaultDeriv` with the rate slots set to the accelerations. */
  function Derivative(state: StateArray, acc: Vec3, angAcc: Vec3): (r: StateArray)
    ensures Position(r) == Velocity(state) && Orientation(r) == AngVelocity(state)
    ensures Velocity(r) == acc && AngVelocity(r) == angAcc
  {
    DefaultDeriv(state)[Xv := acc.x][Yv := acc.y][Zv := acc.z][dPhi := angAcc.x][dTheta := angAcc.y][dPsi := angAcc.z]
  }

  /**
   * `calculate` at a time and state, given the takeoff and on-rod flags it
   * reads: the derivative and the step data.
   */
  type Calculator = (real, StateArray, bool, bool) -> (StateArray, Record)

  /** `calculate` always records the same 21 named values. */
  const DataWidth: nat := 21

  type Record = d: StepData | |d| == DataWidth
    witness seq(21, _ => ("", 0.0))

  /** The four `calculate` results of one RK4 step. */
  datatype Stages = Stages(k1: (StateArray, Record), k2: (StateArray, Record), k3: (StateArray, Record), k4: (StateArray, Record))

  /** k1 at the start, k2 and k3 at the midpoint along k1 and k2, k4 at the end along k3. */
  function RunStages(calculator: Calculator, time: real, h: real, state: StateArray, takeoff: bool, onRod: bool): (r: Stages)
    ensures r.k1 == calculator(time, state, takeoff, onRod)
    ensures r.k2 == calculator(time + h / 2.0, AddScaled(state, r.k1.0, h / 2.0), takeoff, onRod)
    ensures r.k3 == calculator(time + h / 2.0, AddScaled(state, r.k2.0, h / 2.0), takeoff, onRod)
    ensures r.k4 == calculator(time + h, AddScaled(state, r.k3.0, h), takeoff, onRod)
  {
    var k1 := calculator(time, state, takeoff, onRod);
    var k2 := calculator(time + h / 2.0, AddScaled(state, k1.0, h / 2.0), takeoff, onRod);
    var k3 := calculator(time + h / 2.0, AddScaled(state, k2.0, h / 2.0), takeoff, onRod);
    var k4 := calculator(time + h, AddScaled(state, k3.0, h), takeoff, onRod);
    Stages(k1, k2, k3, k4)
  }

  /** The step data of the four stages, weighted like the state, under k1's names. */
  function AverageData(st: Stages): (r: Record)
    ensures forall i :: 0 <= i < DataWidth ==> r[i].0 == st.k1.1[i].0
    ensures forall i :: 0 <= i < DataWidth ==>
              r[i].1 == Weighted(st.k1.1[i].1, st.k2.1[i].1, st.k3.1[i].1, st.k4.1[i].1)
  {
    seq(DataWidth, i requires 0 <= i < DataWidth =>
      (st.k1.1[i].0, Weighted(st.k1.1[i].1, st.k2.1[i].1, st.k3.1[i].1, st.k4.1[i].1)))
  }

  class Sim {
    /** `_takeoff` and `_onRod`, which `calculate` also reads. */
    var takeoff: bool
    var onRod: bool
    const userStep: real
    /** `_rodLen`, which the constructor fixes at 0.1. */
    const rodLen: real := 0.1
    const norm: Vec3 -> real
    const calculate: Calculator

    constructor (userStep: real, norm: Vec3 -> real, calculate: Calculator)
      ensures this.userStep == userStep && rodLen == 0.1
      ensures this.norm == norm && this.calculate == calculate
      ensures !takeoff && onRod
    {
      this.userStep := userStep;
      this.norm := norm;
      this.calculate := calculate;
      takeoff := false;
      onRod := true;
    }

    /**
     * `RK4Integrate`: the step is chosen from k1, then the four stages are
     * combined with RK4 weights, the step data too; the new time is `time + step`.
     */
    method RK4Integrate(time: real, step: real, state: StateArray, lastState: StateArray)
      returns (newTime: real, newState: StateArray, data: StepData)
      requires step > 0.0
      ensures var k1 := calculate(time, state, takeoff, onRod).0;
              var h := SelectTimeStep(state, lastState, k1, step, userStep, onRod, rodLen, norm);
              var st := RunStages(calculate, time, h, state, takeoff, onRod);
              newTime == time + h && newState == Combine(state, st.k1.0, st.k2.0, st.k3.0, st.k4.0, h)
              && data == AverageData(st)
      ensures userStep > 0.0 && norm(Position(calculate(time, state, takeoff, onRod).0)) >= 0.0
              ==> newTime > time
    {
      var k1 := calculate(time, state, takeoff, onRod).0;
      var newStep := SelectTimeStep(state, lastState, k1, step, userStep, onRod, rodLen, norm);
      var st := RunStages(calculate, time, newStep, state, takeoff, onRod);
      newState := Combine(state, st.k1.0, st.k2.0, st.k3.0, st.k4.0, newStep);
      data := AverageStepData(st.k1.1, st.k2.1, st.k3.1, st.k4.1);
      assert data == AverageData(st);
      newTime := time + newStep;
      if userStep > 0.0 && norm(Position(k1)) >= 0.0 && state != lastState {
        SelectedStepPositive(state, lastState, k1, step, userStep, onRod, rodLen, norm);
      }
    }

    /** The takeoff and on-rod latches: each flips at most once, on the first state that trips it. */
    method Latch(newState: StateArray)
      modifies this
      ensures takeoff == (old(takeoff) || newState[Zv] > 0.0)
      ensures onRod == (old(onRod) && !(norm(Position(newState)) > rodLen))
    {
      if !takeoff {
        if newState[Zv] > 0.0 {
          takeoff := true;
        }
      }
      if onRod {
        if norm(Position(newState)) > rodLen {
          onRod := false;
        }
      }
    }

    /** One RK4 step with tiny entries of the new state flushed to zero. */
    method Advance(time: real, step: real, state: StateArray, lastState: StateArray)
      returns (newTime: real, newState: StateArray, data: StepData)
      requires step > 0.0 && userStep > 0.0 && forall v :: norm(v) >= 0.0
      ensures newTime > time && Flushed(newState)
    {
      var integrated;
      newTime, integrated, data := RK4Integrate(time, step, state, lastState);
      newState := Flush(integrated);
    }

    /**
     * One pass of the loop of `solve`: an RK4 step from the last stored state,
     * the latches updated from the new state, and whether it lands.
     */
    method Step(states: seq<StateArray>, time: real, step: real, lastState: StateArray)
      returns (newTime: real, newState: StateArray, data: StepData, landed: bool)
      requires |states| >= 1 && step > 0.0 && userStep > 0.0 && forall v :: norm(v) >= 0.0
      requires takeoff == TookOff(states) && onRod == !LeftRod(states, rodLen, norm)
      modifies this
      ensures newTime > time && Flushed(newState)
      ensures takeoff == TookOff(states + [newState]) && onRod == !LeftRod(states + [newState], rodLen, norm)
      ensures landed <==> Lands(states + [newState], |states|)
    {
      var state := states[|states| - 1];
      newTime, newState, data := Advance(time, step, state, lastState);
      TookOffExtend(states, newState);
      LandsAtEnd(states, newState);
      LeftRodExtend(states, newState, rodLen, norm);
      Latch(newState);
      landed := newState[Zp] < 0.0 && state[Zp] >= 0.0 && takeoff;
    }

    /**
     * The loop of `solve`, from the stored initial state and step data until a
     * step lands after takeoff or the counter reaches `MaxSteps`.
     */
    method Integrate(init: StateArray, data0: StepData, elapsed: nat -> int)
      returns (states: seq<StateArray>, times: seq<real>, stepData: seq<StepData>, compTimes: seq<int>)
      requires userStep > 0.0 && forall v :: norm(v) >= 0.0
      requires !takeoff && onRod
      modifies this
      ensures |times| == |states| && |stepData| == |states| && |compTimes| == |states|
      ensures 2 <= |states| <= MaxSteps + 2
      ensures states[0] == init && times[0] == 0.0 && compTimes[0] == 0 && stepData[0] == data0
      ensures Recorded(states, times, |states| - 1)
      ensures takeoff == TookOff(states) && onRod == !LeftRod(states, rodLen, norm)
      ensures Lands(states, |states| - 1) || |states| == MaxSteps + 2
    {
      states := [init];
      stepData := [data0];
      times := [0.0];
      compTimes := [0];
      var lastState := init;
      var state := init;
      var counter: nat := 0;
      var step := userStep;
      var time := 0.0;
      var term := false;
      while !term
        invariant Recorded(states, times, counter)
        invariant |stepData| == counter + 1 && |compTimes| == counter + 1
        invariant counter <= MaxSteps + 1 && (counter == MaxSteps + 1 ==> term)
        invariant step > 0.0
        invariant states[0] == init && times[0] == 0.0 && compTimes[0] == 0 && stepData[0] == data0
        invariant state == states[counter] && time == times[counter]
        invariant takeoff == TookOff(states) && onRod == !LeftRod(states, rodLen, norm)
        invariant term <==> counter >= 1 && (Lands(states, counter) || counter == MaxSteps + 1)
        decreases MaxSteps + 1 - counter
      {
        assert counter >= 1 ==> !Lands(states, counter);
        var newTime, newState, data, landed := Step(states, time, step, lastState);
        RecordStep(states, times, counter, newState, newTime);
        var thisStep := newTime - time;
        step := thisStep;
        if landed {
          term := true;
        }
        if counter >= MaxSteps {
          term := true;
        }
        counter := counter + 1;
        time := time + thisStep;
        times := times + [time];
        states := states + [newState];
        stepData := stepData + [data];
        lastState := state;
        state := newState;
        compTimes := compTimes + [elapsed(counter)];
      }
    }

    /**
     * `solve`: RK4 steps from the initial conditions until, after takeoff, the
     * altitude goes from non-negative to negative, or the step counter reaches
     * `MaxSteps`. Every list gains one entry per step; takeoff and leaving the
     * rod are latched from the stored states. `elapsed` stands for the clock.
     * The refill of an empty step-data list in the source never runs, as the
     * list starts with one entry.
     */
    method Solve(init: StateArray, elapsed: nat -> int)
      returns (final: StateArray, states: seq<StateArray>, times: seq<real>, stepData: seq<StepData>,
               compTimes: seq<int>, apogee: real, apogeeTime: real)
      requires userStep > 0.0 && forall v :: norm(v) >= 0.0
      modifies this
      ensures |times| == |states| && |stepData| == |states| && |compTimes| == |states|
      ensures 2 <= |states| <= MaxSteps + 2
      ensures states[0] == init && times[0] == 0.0 && compTimes[0] == 0
      ensures stepData[0] == calculate(0.0, init, false, true).1
      ensures final == states[|states| - 1]
      ensures forall k :: 1 <= k < |states| ==> times[k - 1] < times[k]
      ensures takeoff == TookOff(states) && onRod == !LeftRod(states, rodLen, norm)
      ensures forall k :: 1 <= k < |states| - 1 ==> !Lands(states, k)
      ensures Lands(states, |states| - 1) || |states| == MaxSteps + 2
      ensures forall k :: 1 <= k < |states| ==> Flushed(states[k])
      ensures apogee >= 0.0 && forall k :: 0 <= k < |states| ==> states[k][Zp] <= apogee
    {
      takeoff := false;
      onRod := true;
      var data0 := calculate(0.0, init, takeoff, onRod).1;
      states, times, stepData, compTimes := Integrate(init, data0, elapsed);
      final := states[|states| - 1];
      apogee, apogeeTime := ApogeeScan(states, times);
    }
  }
}
