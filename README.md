# Farseer core in Dafny

Farseer is a six-degree-of-freedom rocket flight simulator written in C++.
A rocket is a tree of components:
- the rocket holds stages;
- a body component (nosecone, body tube) holds internal and external parts;
- internal and external parts hold parts of their own kind.

Each component has a shape. Shapes include cylinders, hollow shapes, trapezoidal prisms and fins, and numerically integrated nosecones. A component's mass, inertia, centre of mass, thrust and thrust position are its own value plus its children's, memoised by time when caching is on. Aerodynamic coefficients (normal-force and moment slopes, centre of pressure, damping) are aggregated in the same way, with per-(mach, alpha, gamma) caches. The simulator integrates a 12-slot state array with an adaptive RK4 step until the rocket lands. The U.S. Standard Atmosphere 1976 tables give temperature, pressure and gravity.

This project models that core in Dafny. It is organised as follows.
- **Values.** Vectors, inertia tensors and the state array are datatypes (`Points`, `Maths`, `StateArrays`). Shape formulas are functions (`Prisms`, `FinShapes`, `Cylinders`, `Nosecones`, `NoseconeData`), and the override flags are bit tests (`OverrideFlags`).
- **Objects whose fields the source updates in place** are classes with `modifies` clauses:
  - `Points.Point` (the compound assignments);
  - `Parts.Material`, `Parts.Finish` and `Parts.BodyTube`;
  - `Prisms.TrapezoidalPrism` and `Cylinders.Cylinder`, which carry their memo fields;
  - `HollowCylinders.HollowCylinder` and `FinShapes.TrapezoidalFinShape`;
  - `Nosecones.NumericalNosecone`, with its ten NaN-sentinel property caches;
  - `Fins.FinSet` and `Fins.Fin`;
  - `Simulation.Sim`, with the takeoff and on-rod latches;
  - `Assemblies.Assembly`, which holds the whole component tree.
- **The component tree.** `ComponentTree` is a map from component ids to nodes. Each node has a parent link, three typed child lists, stored values with override flags, a caching switch and its memo tables. `ComponentTree.Valid` is the tree invariant: every child is listed once, by its parent only, in the list of its own kind. The tree edits (`Add`, `Remove`, the setters' `clearCaches` up to the root) are proved to keep it.
- **Aggregates.** `Aggregates` and `TreeQueries` define mass, inertia, centre of mass, thrust, thrust position, burnout time, height, the tree print-out and body radius as recursive functions over the tree. The loops of the source are methods proved equal to them. The sums are proved to be sums over the whole subtree.
- **Aerodynamics.** The `Aero` and `Fins` modules model the aerodynamic caches, the `WithComponents` sums, the centre-of-pressure average, the fin-count correction and the fin centre-of-pressure interpolation.
- **Motor.** `Motor` models the RASP `.eng` reader and the mass table built from cumulative impulse.
- **Atmosphere.** `Atmosphere` and `Integration` model the table interpolations, temperature, pressure, gravity and the cumulative trapezoid.
- **Simulation.** `Simulation` models time-step selection, the RK4 combination, the acceleration guards, the termination latches and the `solve` loop.

Floating point is modelled as `real`. A NaN used as "not yet computed" is `Option.None`. An error printed to `std::cerr` is a returned `reported` flag. Square roots, exponentials, powers, trigonometry and norms are function parameters.

## Model

| member | source | states |
|---|---|---|
| Points.Equal | src/utils/point.cpp:26-28 | true exactly when all three coordinates are equal |
| Points.NotEqual | src/utils/point.cpp:30-32 | true exactly when some coordinate differs |
| Points.Add | src/utils/point.cpp:42-44 | adding the origin on either side leaves the other point unchanged |
| Points.Sub | src/utils/point.cpp:53-55 | adding the subtrahend back gives the minuend, and the difference is the origin exactly when the points are equal |
| Points.Neg | src/utils/point.cpp:58-60 | a point plus its negation is the origin, and only the origin negates to the origin |
| Points.Scale | src/utils/point.cpp:70-72 | factor 0 gives the origin and factor 1 the point itself |
| Points.ScaleLeft | src/utils/point.cpp:74-76 | `f * p` is `p * f` |
| Points.Cross | src/utils/point.cpp:91-96 | the cross product is orthogonal to both factors and vanishes when they are equal |
| Points.Dot | src/utils/point.cpp:98-100 | a point dotted with itself is non-negative, and the origin dotted with anything is 0 |
| Points.DivAsWritten | src/utils/point.cpp:86-88 | each coordinate of the result times the point's coordinate gives the factor: the factor is divided by the point, as written |
| Points.Div | src/utils/point.cpp:79-84 | the quotient scaled back by the divisor is the dividend (division as `/=` performs it) |
| Points.Component | src/utils/point.cpp:114-125 | indices 0, 1, 2 give x, y, z; any other index is the out-of-range error |
| Points.Format | src/utils/point.cpp:140-143 | the text is `(`, x, `, `, y, `, `, z, `)` with each coordinate's own rendering in place |
| Points.AddSubInverse | src/utils/point.cpp:35-60 | subtracting what was added restores the point, and a point plus its negation is the origin |
| Points.ScaleCommutes | src/utils/point.cpp:63-76 | `p * f` and `f * p` agree |
| Points.CrossProperties | src/utils/point.cpp:91-100 | the cross product is anti-commutative, vanishes on equal arguments and is orthogonal to both factors |
| Points.DivUndoesScale | src/utils/point.cpp:79-84 | dividing by a non-zero factor undoes scaling by it |
| Points.DivAsWrittenDiffers | src/utils/point.cpp:86-88 | the binary `/` leaves (2,2,2)/4 at (2,2,2) where division gives (0.5,0.5,0.5) |
| Points.Point.constructor | src/utils/point.cpp:10 | the point holds the three given coordinates |
| Points.Point.Origin | src/utils/point.cpp:11 | the default point is the origin |
| Points.Point.Copy | src/utils/point.cpp:12 | the copy holds the other point's coordinates |
| Points.Point.Assign | src/utils/point.cpp:16-23 | the point takes the other point's coordinates, and self-assignment changes nothing |
| Points.Point.AddAssign | src/utils/point.cpp:35-40 | the new value is the old value plus the other point |
| Points.Point.SubAssign | src/utils/point.cpp:46-51 | the new value is the old value minus the other point |
| Points.Point.MulAssign | src/utils/point.cpp:63-68 | the new value is the old value scaled by the factor |
| Points.Point.DivAssign | src/utils/point.cpp:79-84 | the new value is the old value divided by the factor |
| Points.Point.SetComponent | src/utils/point.cpp:127-138 | succeeds exactly for indices 0..2; it sets that coordinate and leaves the others unchanged |
| StateArrays.DefaultStateVector | src/sim/stateArray.cpp:5-7 | every slot is zero |
| StateArrays.DefaultDeriv | src/sim/stateArray.cpp:10-12 | each position and angle slot receives the rate slot after it, and every rate slot is zero |
| StateArrays.DefaultDerivTwice | src/sim/stateArray.cpp:10-12 | applying the default derivative twice gives the zero state |
| StateArrays.Velocity | src/sim/stateArray.cpp:14-16 | the velocity slots, in x, y, z order |
| StateArrays.Position | src/sim/stateArray.cpp:17-19 | the position slots, in x, y, z order |
| StateArrays.AngVelocity | src/sim/stateArray.cpp:20-22 | the angular-rate slots, in roll, pitch, yaw order |
| StateArrays.Orientation | src/sim/stateArray.cpp:23-25 | the Euler-angle slots, in roll, pitch, yaw order |
| StateArrays.TriplesDetermineState | src/sim/stateArray.cpp:14-25 | two states with equal velocity, position, angular velocity and orientation are equal |
| Maths.ClampNonNegative | src/rocket/components/bodyTube/hollowCylinder.cpp:22-28 | non-negative; a non-negative value is kept and a negative one becomes 0 (the `std::max(v, 0.0)` of every setter) |
| Maths.Abs | src/rocket/components/aeroComponent.cpp:320 | non-negative, and equal to the value or its negation (the `std::abs(alpha)` of the drag correction) |
| Maths.ShiftTensorShape | src/utils/maths.cpp:9-11 | the parallel-axis shift term is symmetric, with a non-negative diagonal for a non-negative volume |
| Maths.ShiftAnnihilatesDisplacement | src/utils/maths.cpp:9-17 | the shift added by the transform maps the displacement vector to zero (the `d d^T` term cancels the `|d|^2 I` term along `d`) |
| Maths.TransformIdentityCases | src/utils/maths.cpp:7-20 | zero displacement or zero volume leaves the tensor unchanged, in either direction |
| Maths.TransformRoundTrip | src/utils/maths.cpp:13-18 | the inverse transform undoes the forward transform |
| Maths.TransformKeepsSymmetry | src/utils/maths.cpp:7-20 | a symmetric tensor stays symmetric |
| Maths.ShiftTensor | src/utils/maths.cpp:9-11 | the term `volume * ((d·d) I - d dᵀ)` added by the transform, entry by entry (its properties are `Maths.ShiftTensorShape` and `Maths.ShiftAnnihilatesDisplacement`) |
| Maths.ParallelAxisTransform | src/utils/maths.cpp:7-20 | adds the shift term, or subtracts it when `inverse` is set (its properties are the `Transform…` lemmas) |
| Maths.ParallelAxisLegacy | src/utils/parallelAxis.cpp:6-21 | the older three-argument transform, with the products of inertia added with a positive sign (its properties are the `Legacy…` lemmas) |
| Maths.LegacyAgainstTransform | src/utils/parallelAxis.cpp:13-17 | the tensor as written has the transform's diagonal but products of inertia of the opposite sign |
| Maths.LegacySymmetricIdentity | src/utils/parallelAxis.cpp:13-17 | the tensor as written keeps symmetry and is the identity at zero displacement |
| Maths.LegacyAtUnitDiagonal | src/utils/parallelAxis.cpp:13-17 | the value of the tensor as written at displacement (1,1,0) and unit volume |
| Maths.LegacyCounterexample | src/utils/parallelAxis.cpp:13-17 | the tensor as written does not map the displacement to zero: (1,1,0) goes to (2,2,0) |
| OverrideFlags.HasFlagIsBit | src/utils/overrideFlags.hpp:10-16 | `v & flag` is non-zero exactly when the flag's bit is set |
| OverrideFlags.HasFlag | src/rocket/components/component.cpp:108-111 | a flag value has its own bit, OVERRIDE\|OVERRIDEALL has both, and NONE and the other single flag have neither |
| OverrideFlags.InOverrideFlags | src/utils/overrideFlags.hpp:10-16 | true exactly when the OVERRIDE or the OVERRIDEALL bit is set |
| OverrideFlags.LowBits | src/utils/overrideFlags.hpp:5-16 | the two low bits of a flag value are exactly its OVERRIDE and OVERRIDEALL bits |
| OverrideFlags.FlagValues | src/utils/overrideFlags.hpp:5-9 | NONE, OVERRIDE and OVERRIDEALL are 0, 1 and 2; OVERRIDE\|OVERRIDEALL counts as an override, and 4 does not |
| OverrideFlags.OverrideAllIsSet | src/utils/overrideFlags.hpp:10-16 | OVERRIDEALL tests positive for its own bit |
| Parts.NamedNumberJson | src/rocket/components/material.hpp:16-21 | the object has exactly the keys `name` and the number's key (`density` here, `roughness` in finish.hpp:16-21), holding the given values |
| Json.At | src/rocket/components/material.hpp:29-30 | succeeds exactly for an object holding the key, with that value; a missing key is the out-of-range error and a non-object the type error |
| Json.AsNumber | src/rocket/components/material.hpp:30 | succeeds exactly for a number, with its value |
| Json.AsString | src/rocket/components/material.hpp:29 | succeeds exactly for a string, with its value |
| Json.AsBool | src/rocket/components/bodyTube.cpp:33 | succeeds exactly for a boolean, with its value |
| Parts.MaterialFields | src/rocket/components/material.hpp:28-32 | succeeds exactly when `name` is a string and `density` a number, and returns those values |
| Parts.MaterialRoundTrip | src/rocket/components/material.hpp:16-32 | reading back the written object gives the name and density |
| Parts.MaterialMissingDensity | src/rocket/components/material.hpp:28-32 | an object without `density` fails with the out-of-range error for that key |
| Parts.Material.constructor | src/rocket/components/material.hpp:23-26 | keeps the name; the density is clamped to be non-negative |
| Parts.Material.GetDensity | src/rocket/components/material.hpp:13 | the density is never negative |
| Parts.Material.SetDensity | src/rocket/components/material.hpp:14 | stores the clamped density and keeps the name |
| Parts.Material.ToJson | src/rocket/components/material.hpp:16-21 | the object reads back as the material's own name and density |
| Parts.Material.FromJson | src/rocket/components/material.hpp:28-32 | a readable object gives a material with its name and clamped density; otherwise the reading error |
| Parts.MaterialFromOwnJson | src/rocket/components/material.hpp:16-32 | a material read back from its own JSON is the same material |
| Parts.FinishFields | src/rocket/components/finish.hpp:28-34 | succeeds exactly when both keys have the right types, and returns their values |
| Parts.FinishRoundTrip | src/rocket/components/finish.hpp:16-34 | reading back the written object gives the name and roughness |
| Parts.Finish.constructor | src/rocket/components/finish.hpp:23-26 | keeps the name; the roughness is clamped to be non-negative |
| Parts.Finish.GetRoughness | src/rocket/components/finish.hpp:13 | the roughness is never negative |
| Parts.Finish.SetRoughness | src/rocket/components/finish.hpp:14 | stores the clamped roughness and keeps the name |
| Parts.Finish.ToJson | src/rocket/components/finish.hpp:16-21 | the object reads back as the finish's own name and roughness |
| Parts.Finish.FromJson | src/rocket/components/finish.hpp:28-34 | a readable object gives a finish with its name and clamped roughness; otherwise the reading error |
| Parts.TubeJson | src/rocket/components/bodyTube.cpp:18-25 | the properties object has exactly height, diameter, thickness and filled, holding the tube's values |
| Parts.TubeFields | src/rocket/components/bodyTube.cpp:28-38 | succeeds exactly when `properties` is present with the four typed fields, and returns them |
| Parts.Clamped | src/rocket/components/bodyTube.hpp:23-29 | every length is non-negative, `filled` is kept, and non-negative properties are unchanged |
| Parts.TubeRoundTrip | src/rocket/components/bodyTube.cpp:18-38 | non-negative properties read back from their own JSON unchanged |
| Parts.TubeRoundTripClampsNegative | src/rocket/components/bodyTube.cpp:28-38 | a negative height read back through the setters becomes 0 |
| Parts.BodyTube.Properties | src/rocket/components/bodyTube.hpp:8-11 | the four stored properties |
| Parts.BodyTube.Default | src/rocket/components/bodyTube.cpp:5-6 | the default tube is all zeros and unfilled |
| Parts.BodyTube.constructor | src/rocket/components/bodyTube.cpp:9-15 | the tube holds the given properties |
| Parts.BodyTube.SetHeight | src/rocket/components/bodyTube.hpp:23 | only the height changes, to its clamped value |
| Parts.BodyTube.SetDiameter | src/rocket/components/bodyTube.hpp:25 | only the diameter changes, to its clamped value |
| Parts.BodyTube.SetThickness | src/rocket/components/bodyTube.hpp:27 | only the thickness changes, to its clamped value |
| Parts.BodyTube.SetFilled | src/rocket/components/bodyTube.hpp:29 | only the filled flag changes |
| Parts.BodyTube.PropertiesToJson | src/rocket/components/bodyTube.cpp:18-25 | the four keys are written, and a tube with non-negative properties reads back as itself |
| Parts.BodyTube.JsonToProperties | src/rocket/components/bodyTube.cpp:28-38 | on success the tube takes the clamped fields; on failure it reports the reading error and keeps its properties |
| Parts.BodyTube.Type | src/rocket/components/bodyTube.hpp:31 | the body-tube type |
| Parts.BodyTube.AllowedComponents | src/rocket/components/bodyTube.hpp:32-37 | exactly motors and fin sets, motors first; a body tube cannot hold another body tube |
| Prisms.TrapezoidArea | src/rocket/shapes/primitives/trapezoidalPrism.cpp:59-61 | non-negative for non-negative sides; with equal chords it is chord times height |
| Prisms.PrismVolume | src/rocket/shapes/primitives/trapezoidalPrism.cpp:64-66 | non-negative for non-negative dimensions, and zero for zero thickness or height |
| Prisms.WeightedMean3 | src/rocket/shapes/primitives/trapezoidalPrism.cpp:92-106 | undefined (the 0/0 NaN) exactly when the weights sum to zero |
| Prisms.WeightedMeanBounds | src/rocket/shapes/primitives/trapezoidalPrism.cpp:92-106 | the weighted mean lies between the smallest and largest values |
| Prisms.PrismCm | src/rocket/shapes/primitives/trapezoidalPrism.cpp:92-106 | undefined exactly when the three piece areas sum to zero; the centre lies in the fin plane |
| Prisms.PrismCmSpanwise | src/rocket/shapes/primitives/trapezoidalPrism.cpp:92-106 | the spanwise centre lies between a third and a half of the height |
| Prisms.PrismCmOfRectangle | src/rocket/shapes/primitives/trapezoidalPrism.cpp:92-106 | an unswept rectangle has its centre at half chord and half height |
| Prisms.PrismTensor | src/rocket/shapes/primitives/trapezoidalPrism.cpp:77-86 | symmetric, with no products of inertia out of the fin plane |
| Prisms.PrismInertia | src/rocket/shapes/primitives/trapezoidalPrism.cpp:68-90 | defined exactly when the centre of mass is defined; shifted by `-cm` with the three-argument transform of src/utils/parallelAxis.cpp:6-21 (the only overload src/utils/maths.hpp:7 declares), so each product of inertia grows by volume times the product of the centre's coordinates |
| Prisms.PrismInertiaSymmetric | src/rocket/shapes/primitives/trapezoidalPrism.cpp:68-90 | the shifted tensor is symmetric |
| Prisms.PrismInertiaOfSquare | src/rocket/shapes/primitives/trapezoidalPrism.cpp:88 | a 2 by 2 unswept prism of unit thickness (centre (1,1,0), volume 4) gains 4 in its product of inertia, where the four-argument transform of src/utils/maths.cpp:7-20 would take 4 away; the moments agree |
| Prisms.TrapezoidalPrism.constructor | src/rocket/shapes/primitives/trapezoidalPrism.cpp:6-12 | holds the given dimensions with an empty inertia cache |
| Prisms.TrapezoidalPrism.SetRootChord | src/rocket/shapes/primitives/trapezoidalPrism.cpp:18-21 | only the root chord changes, to its clamped value, and the cache is emptied |
| Prisms.TrapezoidalPrism.SetTipChord | src/rocket/shapes/primitives/trapezoidalPrism.cpp:27-30 | only the tip chord changes, to its clamped value, and the cache is emptied |
| Prisms.TrapezoidalPrism.SetHeight | src/rocket/shapes/primitives/trapezoidalPrism.cpp:36-39 | only the height changes, to its clamped value, and the cache is emptied |
| Prisms.TrapezoidalPrism.SetSweepLength | src/rocket/shapes/primitives/trapezoidalPrism.cpp:45-48 | only the sweep length changes (negative sweep allowed), and the cache is emptied |
| Prisms.TrapezoidalPrism.SetThickness | src/rocket/shapes/primitives/trapezoidalPrism.cpp:54-57 | only the thickness changes, to its clamped value, and the cache is emptied |
| Prisms.TrapezoidalPrism.Inertia | src/rocket/shapes/primitives/trapezoidalPrism.cpp:68-90 | with an empty cache, computes `PrismInertia` (the shift as the code applies it) without storing it, so every call recomputes; a stored tensor would be returned as is |
| FinShapes.Chord | src/rocket/shapes/components/fins/trapezoidalFin.cpp:12-16 | defined exactly for a non-zero height, and linear from root to tip along the span |
| FinShapes.ChordEnds | src/rocket/shapes/components/fins/trapezoidalFin.cpp:12-16 | the chord is the root chord at the root and the tip chord at the tip |
| FinShapes.AreaIsMeanChordTimesSpan | src/rocket/shapes/components/fins/trapezoidalFin.cpp:12-16 | the planform area is the mean of the end chords times the span |
| FinShapes.MacAsWritten | src/rocket/shapes/components/fins/trapezoidalFin.cpp:18-23 | the mean aerodynamic chord as written, defined exactly for a non-zero root chord |
| FinShapes.Mac | src/rocket/shapes/components/fins/trapezoidalFin.cpp:18-23 | the mean aerodynamic chord with real 2/3 and the taper denominator; defined exactly when root and root+tip are non-zero |
| FinShapes.MacAsWrittenVanishes | src/rocket/shapes/components/fins/trapezoidalFin.cpp:21 | the integer 2/3 makes the chord as written 0 for every fin |
| FinShapes.MacOfRectangle | src/rocket/shapes/components/fins/trapezoidalFin.cpp:18-23 | a rectangular fin's mean chord is its chord |
| FinShapes.MacBetweenChords | src/rocket/shapes/components/fins/trapezoidalFin.cpp:18-23 | a tapered fin's mean chord lies between its tip and root chords |
| FinShapes.YMacAsWritten | src/rocket/shapes/components/fins/trapezoidalFin.cpp:25-31 | the spanwise MAC position as written, defined exactly when root + tip is non-zero |
| FinShapes.YMacAsWrittenLeavesFin | src/rocket/shapes/components/fins/trapezoidalFin.cpp:29 | with the planform area in place of the span, a 4 by 1 fin gets its MAC at 2, outside the 1-unit span |
| FinShapes.YMac | src/rocket/shapes/components/fins/trapezoidalFin.cpp:25-31 | the spanwise MAC position from the span, defined exactly when root + tip is non-zero |
| FinShapes.YMacWithinFin | src/rocket/shapes/components/fins/trapezoidalFin.cpp:25-31 | the MAC lies between a third and two thirds of the span, and inboard of half span when the fin tapers |
| FinShapes.XMacLeadingEdge | src/rocket/shapes/components/fins/trapezoidalFin.cpp:33-36 | a third of the sweep, defined exactly when root + 2 tip is non-zero |
| FinShapes.MidChordSweep | src/rocket/shapes/components/fins/trapezoidalFin.cpp:38-61 | 0 for a non-positive height; otherwise the angle of the line between the root and tip mid-chords |
| FinShapes.PlanformCenter | src/rocket/shapes/components/fins/trapezoidalFin.cpp:106-111 | at half span in the fin plane, midway between the root and tip mid-chord points |
| FinShapes.PlanformCenterOfRectangle | src/rocket/shapes/components/fins/trapezoidalFin.cpp:106-111 | for a rectangle the planform centre is the prism's centre of mass |
| FinShapes.TrapezoidalFinShape.constructor | src/rocket/shapes/components/fins/trapezoidalFin.cpp:7-10 | owns a new prism with the given dimensions |
| FinShapes.TrapezoidalFinShape.SetShape | src/rocket/shapes/components/fins/trapezoidalFin.cpp:72-85 | a trapezoidal prism replaces the shape; any other shape is reported and ignored |
| FinShapes.TrapezoidalFinShape.SetRootChord | src/rocket/shapes/components/fins/trapezoidalFin.hpp:37 | a positive length becomes the root chord and empties the cache; other lengths change nothing; other dimensions are kept |
| FinShapes.TrapezoidalFinShape.YMax | src/rocket/shapes/components/fins/trapezoidalFin.cpp:63-65 | the fin's height |
| FinShapes.TrapezoidalFinShape.PlanformArea | src/rocket/shapes/components/fins/trapezoidalFin.cpp:102-104 | the prism's trapezoid area |
| Cylinders.FilledVolume | src/rocket/shapes/cylinder.cpp:25-28 | zero for zero radius or length, non-negative for non-negative length |
| Cylinders.WallIsCylinderMinusBore | src/rocket/shapes/cylinder.cpp:21-28 | the wall volume is the solid volume minus the bore's |
| Cylinders.WallNoMoreThanSolid | src/rocket/shapes/cylinder.cpp:21-28 | the wall never holds more than the solid cylinder |
| Cylinders.UnfilledVolume | src/rocket/shapes/cylinder.cpp:21-23 | zero for a zero wall or length; a wall as thick as the radius has the solid volume |
| Cylinders.FilledTensor | src/rocket/shapes/cylinder.cpp:54-73 | diagonal, with equal transverse moments |
| Cylinders.UnfilledTensor | src/rocket/shapes/cylinder.cpp:32-53 | diagonal, with equal transverse moments |
| Cylinders.FullWallIsFilled | src/rocket/shapes/cylinder.cpp:21-73 | a wall as thick as the radius has the solid cylinder's volume and inertia |
| Cylinders.FilledTensorNonNegative | src/rocket/shapes/cylinder.cpp:54-73 | the solid cylinder's moments are non-negative |
| Cylinders.Cylinder.Solid | src/rocket/shapes/cylinder.cpp:9-13 | filled, with clamped radius and length and empty caches |
| Cylinders.Cylinder.Hollow | src/rocket/shapes/cylinder.cpp:14-19 | unfilled, with clamped radius, length and thickness and empty caches |
| Cylinders.Cylinder.SetRadius | src/rocket/shapes/cylinder.cpp:82-88 | only the radius changes, to its clamped value; both inertia caches are emptied |
| Cylinders.Cylinder.SetLength | src/rocket/shapes/cylinder.cpp:94-100 | only the length changes, to its clamped value; both inertia caches are emptied |
| Cylinders.Cylinder.SetThickness | src/rocket/shapes/cylinder.cpp:102-108 | only the thickness changes; the unfilled cache is emptied and the filled one kept |
| Cylinders.Cylinder.SetFilled | src/rocket/shapes/primitives/hollowShape.cpp:41-43 | only the filled flag changes |
| Cylinders.Cylinder.FilledInertia | src/rocket/shapes/cylinder.cpp:54-73 | returns the solid tensor and caches it |
| Cylinders.Cylinder.UnfilledInertia | src/rocket/shapes/cylinder.cpp:32-53 | returns the wall tensor and caches it |
| Cylinders.Cylinder.Volume | src/rocket/shapes/primitives/hollowShape.cpp:4-6 | the solid volume when filled, the wall volume otherwise |
| Cylinders.Cylinder.Inertia | src/rocket/shapes/primitives/hollowShape.cpp:7-9 | the solid tensor when filled, the wall tensor otherwise |
| Cylinders.Cylinder.Cm | src/rocket/shapes/primitives/hollowShape.cpp:13-23 | the origin, filled or not |
| Cylinders.CrossSection | src/rocket/shapes/components/bodyTube/bodyTube.cpp:39-41 | the circular cross-section area is non-negative |
| Cylinders.TubeCm | src/rocket/shapes/components/bodyTube/bodyTube.cpp:55-57 | at half length on the axis |
| Cylinders.WettedArea | src/rocket/shapes/components/bodyTube/bodyTube.cpp:35-37 | non-negative for non-negative dimensions, and zero for a zero radius or length |
| Cylinders.PlanformArea | src/rocket/shapes/components/bodyTube/bodyTube.cpp:47-49 | non-negative for non-negative dimensions, and zero for a zero radius or length |
| Cylinders.ReferenceLength | src/rocket/shapes/components/bodyTube/bodyTube.cpp:43-45 | the diameter: half of it is the radius, and it is at least the radius |
| Cylinders.WettedIsPiTimesPlanform | src/rocket/shapes/components/bodyTube/bodyTube.cpp:35-49 | the wetted area is pi times the planform area |
| Cylinders.VolumeIsReferenceAreaTimesLength | src/rocket/shapes/components/bodyTube/bodyTube.cpp:39-41 | the solid volume is the reference area times the length |
| Cylinders.ReferenceAreaFromLength | src/rocket/shapes/components/bodyTube/bodyTube.cpp:39-45 | the reference area is the circle whose diameter is the reference length |
| Cylinders.BisectedAverageRadiusAsWritten | src/rocket/shapes/components/bodyTube/bodyTube.cpp:62-66 | as written: a cut at or before the top gives (radius, 0) |
| Cylinders.BisectedAverageRadius | src/rocket/shapes/components/bodyTube/bodyTube.cpp:62-66 | [above the cut, below the cut]: (0, radius) at or before the top, (radius, 0) at or past the bottom, (radius, radius) between |
| Cylinders.BisectedAsWrittenSwapsEnds | src/rocket/shapes/components/bodyTube/bodyTube.cpp:63-64 | at x = 0 the code as written puts the radius above the cut, where nothing of the tube lies |
| Cylinders.BodyTubeShape.Solid | src/rocket/shapes/components/bodyTube/bodyTube.cpp:9-13 | owns a new solid cylinder with the clamped dimensions |
| Cylinders.BodyTubeShape.Hollow | src/rocket/shapes/components/bodyTube/bodyTube.cpp:15-18 | owns a new hollow cylinder with the clamped dimensions |
| Cylinders.BodyTubeShape.SetShape | src/rocket/shapes/components/bodyTube/bodyTube.cpp:24-33 | a cylinder replaces the shape; any other shape is reported and ignored |
| Cylinders.BodyTubeShape.ReferenceArea | src/rocket/shapes/components/bodyTube/bodyTube.cpp:39-41 | the cross-section of the cylinder's radius |
| Cylinders.BodyTubeShape.PlanformCenter | src/rocket/shapes/components/bodyTube/bodyTube.cpp:51-53 | the axial coordinate of the tube's centre |
| Cylinders.BodyTubeShape.AverageRadius | src/rocket/shapes/components/bodyTube/bodyTube.cpp:59-61 | the cylinder's radius |
| HollowCylinders.HollowCylinder.Default | src/rocket/components/bodyTube/hollowCylinder.cpp:6-11 | all zeros, unfilled, zero volume |
| HollowCylinders.HollowCylinder.constructor | src/rocket/components/bodyTube/hollowCylinder.cpp:13-18 | clamped dimensions and the given fill, unfilled when none is given |
| HollowCylinders.HollowCylinder.SetRadius | src/rocket/components/bodyTube/hollowCylinder.cpp:22 | only the radius changes, to its clamped value |
| HollowCylinders.HollowCylinder.SetHeight | src/rocket/components/bodyTube/hollowCylinder.cpp:25 | only the height changes, to its clamped value |
| HollowCylinders.HollowCylinder.SetThickness | src/rocket/components/bodyTube/hollowCylinder.cpp:28 | only the thickness changes, to its clamped value |
| HollowCylinders.HollowCylinder.SetFilled | src/rocket/components/bodyTube/hollowCylinder.cpp:31 | only the fill changes |
| HollowCylinders.HollowCylinder.Volume | src/rocket/components/bodyTube/hollowCylinder.cpp:34-42 | the solid volume when filled, the wall volume otherwise, never more than the solid |
| NoseconeData.LowerBound | src/rocket/components/nosecone/noseconeData.cpp:15-50 | `std::map::lower_bound`: every key before it is below mach, and the key at it is not |
| NoseconeData.LowerBoundSplits | src/rocket/components/nosecone/noseconeData.cpp:15-50 | in an increasing table every key from the bound on is at least mach |
| NoseconeData.LowerBoundOfKey | src/rocket/components/nosecone/noseconeData.cpp:23-25 | looking up a key of the table finds that entry |
| NoseconeData.PowerCoeffsAsWritten | src/rocket/components/nosecone/noseconeData.cpp:5-13 | the fitted power curve passes through the second table point |
| NoseconeData.PowerCoeffs | src/rocket/components/nosecone/noseconeData.cpp:5-13 | the fitted power curve passes through the first table point |
| NoseconeData.PowerCurveAsWrittenMissesFirstPoint | src/rocket/components/nosecone/noseconeData.cpp:6-7 | with the post-increment, a square-law table gets a curve with value 2.25 at the first point, which holds 2 |
| NoseconeData.MirroredIsReflected | src/rocket/components/nosecone/noseconeData.cpp:45-47 | the blend as written is the linear blend reflected about the interval's midpoint |
| NoseconeData.LinearBlendEnds | src/rocket/components/nosecone/noseconeData.cpp:43-48 | the linear blend takes the end values at the two ends |
| NoseconeData.LinearBlendBetween | src/rocket/components/nosecone/noseconeData.cpp:43-48 | the linear blend lies between the two end values |
| NoseconeData.MirroredBlendBetween | src/rocket/components/nosecone/noseconeData.cpp:45-47 | the blend as written also stays between the end values |
| NoseconeData.MirroredBlendCounterexample | src/rocket/components/nosecone/noseconeData.cpp:45-47 | a quarter of the way from (1, 0) to (2, 1) the code gives 0.75 where interpolation gives 0.25 |
| NoseconeData.InterpAsWritten | src/rocket/components/nosecone/noseconeData.cpp:15-50 | mach 0 gives the zero-mach value; inside an interval the blend as written |
| NoseconeData.Interp | src/rocket/components/nosecone/noseconeData.cpp:15-50 | mach 0 gives the zero-mach value; inside an interval the linear interpolation |
| NoseconeData.InterpAboveTable | src/rocket/components/nosecone/noseconeData.cpp:20-21 | beyond the last key both versions give the last value |
| NoseconeData.InterpAtKey | src/rocket/components/nosecone/noseconeData.cpp:23-25 | at a table key both versions give that entry's value |
| NoseconeData.InterpBelowZeroStart | src/rocket/components/nosecone/noseconeData.cpp:27-41 | below a table that starts at value 0 both versions give 0 |
| NoseconeData.InterpBelowOnCurve | src/rocket/components/nosecone/noseconeData.cpp:27-41 | below the table, the fitted power curve |
| NoseconeData.InterpBetween | src/rocket/components/nosecone/noseconeData.cpp:43-48 | between two keys the value lies between their values |
| Nosecones.MeanBounds | src/rocket/shapes/primitives/nosecone/numericalNoseconeShape.cpp:147 | the mean of the samples lies within their bounds |
| Nosecones.SegmentSum | src/rocket/shapes/primitives/nosecone/numericalNoseconeShape.cpp:150-158 | zero with fewer than two samples |
| Nosecones.SegmentSumOfConstant | src/rocket/shapes/primitives/nosecone/numericalNoseconeShape.cpp:150-158 | over equal samples the segment sum is the number of segments times one segment's term |
| Nosecones.FrustumVolume | src/rocket/shapes/primitives/nosecone/numericalNoseconeShape.cpp:168 | zero for a zero step or zero radii |
| Nosecones.FrustumOfEqualRadii | src/rocket/shapes/primitives/nosecone/numericalNoseconeShape.cpp:168 | a frustum with equal radii has the volume of the cylinder of that radius |
| Nosecones.WallHeight | src/rocket/shapes/primitives/nosecone/numericalNoseconeShape.cpp:153-154 | the thickness when the slant equals the step, and non-negative for non-negative inputs |
| Nosecones.SegmentWallVolume | src/rocket/shapes/primitives/nosecone/numericalNoseconeShape.cpp:168-171 | the frustum's volume when either radius is below the wall height, and zero for a zero wall with non-negative radii |
| Nosecones.UnclampedWallBelowFrustum | src/rocket/shapes/primitives/nosecone/numericalNoseconeShape.cpp:168-169 | a segment's wall shell before clamping is no larger than its frustum |
| Nosecones.InnerRadius | src/rocket/shapes/primitives/nosecone/numericalNoseconeShape.cpp:180-182 | non-negative, and no larger than the segment's mean radius when the wall height is non-negative and both radii are |
| Nosecones.WettedAreaOf | src/rocket/shapes/primitives/nosecone/numericalNoseconeShape.cpp:153-157 | zero with fewer than two samples |
| Nosecones.WettedAreaOfCylinder | src/rocket/shapes/primitives/nosecone/numericalNoseconeShape.cpp:153-157 | a constant profile has the wetted area of a cylinder of the sampled length |
| Nosecones.PlanformAreaOf | src/rocket/shapes/primitives/nosecone/numericalNoseconeShape.cpp:158 | zero with fewer than two samples |
| Nosecones.PlanformAreaOfCylinder | src/rocket/shapes/primitives/nosecone/numericalNoseconeShape.cpp:158 | a constant profile has the planform area of a cylinder of the sampled length |
| Nosecones.FilledVolumeOf | src/rocket/shapes/primitives/nosecone/numericalNoseconeShape.cpp:165 | zero with fewer than two samples |
| Nosecones.FilledVolumeOfCylinder | src/rocket/shapes/primitives/nosecone/numericalNoseconeShape.cpp:165 | a constant profile has the volume of a cylinder of the sampled length |
| Nosecones.UnfilledCmOf | src/rocket/shapes/primitives/nosecone/numericalNoseconeShape.cpp:176-177 | defined exactly when the summed wall volume is non-zero, and then on the axis |
| Nosecones.UnfilledInertiaOf | src/rocket/shapes/primitives/nosecone/numericalNoseconeShape.cpp:179-193 | diagonal, with equal moments about the two transverse axes |
| Nosecones.FilledInertiaOf | src/rocket/shapes/primitives/nosecone/numericalNoseconeShape.cpp:194-204 | diagonal, with equal moments about the two transverse axes |
| Nosecones.SegmentWallBounds | src/rocket/shapes/primitives/nosecone/numericalNoseconeShape.cpp:168-172 | a segment's wall volume is between zero and the frustum's volume |
| Nosecones.WallVolumeNonNegative | src/rocket/shapes/primitives/nosecone/numericalNoseconeShape.cpp:168-172 | the summed wall volume is non-negative |
| Nosecones.PlanformCenterOf | src/rocket/shapes/primitives/nosecone/numericalNoseconeShape.cpp:137-205 | undefined (0/0) exactly when the planform area is zero |
| Nosecones.CalculateProperties | src/rocket/shapes/primitives/nosecone/numericalNoseconeShape.cpp:137-205 | average radius is the sample mean; the filled cm sits on the axis at the planform centre; volume and inertias are defined exactly for a non-zero step, and at a zero step the unfilled cm is undefined too (corrected: the code recurses, see Findings) |
| Nosecones.UnfilledCmAsWritten | src/rocket/shapes/primitives/nosecone/numericalNoseconeShape.cpp:32-35 | the written cm step, which re-enters the calculation through `unfilledVolume()` while the volume is NaN; when it returns, it returns the cm of `CalculateProperties` at a non-zero step |
| Nosecones.UnfilledCmAsWrittenLoopsAtZeroLength | src/rocket/shapes/primitives/nosecone/numericalNoseconeShape.cpp:176 | at a zero step the written recursion never returns, for any fuel |
| Nosecones.UnfilledCmAsWrittenReturns | src/rocket/shapes/primitives/nosecone/numericalNoseconeShape.cpp:172-177 | at a non-zero step it returns after one call with the cm of `CalculateProperties` |
| Nosecones.RoundNonNegative | src/rocket/shapes/primitives/nosecone/numericalNoseconeShape.cpp:110-111 | `std::round` of a non-negative value is within a half of it |
| Nosecones.TipSampleCount | src/rocket/shapes/primitives/nosecone/numericalNoseconeShape.cpp:110-111 | the tip part of a split has between 2 and all-but-2 samples, rounded from the fraction |
| Nosecones.SplitKeepsBothSides | src/rocket/shapes/primitives/nosecone/numericalNoseconeShape.cpp:110-111 | both sides of the split keep at least two samples and together all of them |
| Nosecones.EqualSpaced | src/rocket/shapes/primitives/nosecone/numericalNoseconeShape.cpp:115-118 | n samples, the k-th the profile at `low + k·step` |
| Nosecones.SegmentMeanBounds | src/rocket/shapes/primitives/nosecone/numericalNoseconeShape.cpp:125-132 | the mean of the segment midpoints lies within the samples' bounds |
| Nosecones.SideBounded | src/rocket/shapes/primitives/nosecone/numericalNoseconeShape.cpp:112-132 | a profile within [0, hi] on the nose gives a side average within [0, hi] |
| Nosecones.SidesBounded | src/rocket/shapes/primitives/nosecone/numericalNoseconeShape.cpp:112-132 | both side averages lie within [0, hi] when the profile does |
| Nosecones.NumericalNosecone.Samples | src/rocket/shapes/primitives/nosecone/numericalNoseconeShape.cpp:137-147 | one radius sample per division |
| Nosecones.NumericalNosecone.constructor | src/rocket/shapes/primitives/nosecone/noseconeShape.cpp:6-12 | holds the dimensions, with every property cache cleared |
| Nosecones.NumericalNosecone.ClearProperties | src/rocket/shapes/primitives/nosecone/numericalNoseconeShape.cpp:62-73 | every property cache is cleared |
| Nosecones.NumericalNosecone.Store | src/rocket/shapes/primitives/nosecone/numericalNoseconeShape.cpp:137-205 | every cache holds the computed properties |
| Nosecones.NumericalNosecone.CalculateAll | src/rocket/shapes/primitives/nosecone/numericalNoseconeShape.cpp:137-205 | every cache holds the properties of the current dimensions |
| Nosecones.NumericalNosecone.SetThickness | src/rocket/shapes/primitives/nosecone/numericalNoseconeShape.cpp:75-78 | stores the clamped thickness and recomputes every property |
| Nosecones.NumericalNosecone.SetLength | src/rocket/shapes/primitives/nosecone/numericalNoseconeShape.cpp:80-83 | stores the clamped length and recomputes every property |
| Nosecones.NumericalNosecone.SetRadius | src/rocket/shapes/primitives/nosecone/numericalNoseconeShape.cpp:85-88 | stores the clamped radius and recomputes every property |
| Nosecones.NumericalNosecone.SetShapeParam | src/rocket/shapes/primitives/nosecone/numericalNoseconeShape.cpp:90-93 | stores the shape parameter and recomputes every property |
| Nosecones.NumericalNosecone.ReferenceArea | src/rocket/shapes/primitives/nosecone/noseconeShape.cpp:38-40 | the cross-section of the base radius |
| Nosecones.NumericalNosecone.GetUnfilledVolume | src/rocket/shapes/primitives/nosecone/numericalNoseconeShape.cpp:32-35 | the current dimensions' wall volume; a cached value changes nothing |
| Nosecones.NumericalNosecone.GetFilledVolume | src/rocket/shapes/primitives/nosecone/numericalNoseconeShape.cpp:37-40 | the current dimensions' solid volume; a cached value changes nothing |
| Nosecones.NumericalNosecone.GetUnfilledInertia | src/rocket/shapes/primitives/nosecone/numericalNoseconeShape.cpp:12-15 | the current dimensions' wall inertia; a cached value changes nothing |
| Nosecones.NumericalNosecone.GetFilledInertia | src/rocket/shapes/primitives/nosecone/numericalNoseconeShape.cpp:17-20 | the current dimensions' solid inertia; a cached value changes nothing |
| Nosecones.NumericalNosecone.GetUnfilledCm | src/rocket/shapes/primitives/nosecone/numericalNoseconeShape.cpp:22-25 | the current dimensions' wall centre of mass; a cached value changes nothing |
| Nosecones.NumericalNosecone.GetFilledCm | src/rocket/shapes/primitives/nosecone/numericalNoseconeShape.cpp:27-30 | the solid centre of mass, on the axis at the planform centre |
| Nosecones.NumericalNosecone.GetWettedArea | src/rocket/shapes/primitives/nosecone/numericalNoseconeShape.cpp:42-45 | the current dimensions' wetted area; a cached value changes nothing |
| Nosecones.NumericalNosecone.GetPlanformArea | src/rocket/shapes/primitives/nosecone/numericalNoseconeShape.cpp:47-50 | the current dimensions' planform area; a cached value changes nothing |
| Nosecones.NumericalNosecone.GetPlanformCenter | src/rocket/shapes/primitives/nosecone/numericalNoseconeShape.cpp:52-55 | the current dimensions' planform centre; a cached value changes nothing |
| Nosecones.NumericalNosecone.GetAverageRadius | src/rocket/shapes/primitives/nosecone/numericalNoseconeShape.cpp:57-60 | the mean of the current radius samples |
| Nosecones.NumericalNosecone.BisectedAverageRadius | src/rocket/shapes/primitives/nosecone/numericalNoseconeShape.cpp:107-135 | (0, average) at or before the tip, (average, 0) at or past the base, and the means of the two split sample sets between |
| Nosecones.NumericalNosecone.InteriorAverages | src/rocket/shapes/primitives/nosecone/numericalNoseconeShape.cpp:110-134 | for a split point inside the nose, both side averages lie within [0, radius] when the profile does |
| Integration.Cumulative | src/sim/RealAtmos.cpp:137-146 | starts at 0, and each entry adds the trapezoid of its interval to the previous one |
| Integration.SegmentNonNegative | src/sim/RealAtmos.cpp:137-146 | a trapezoid over an increasing interval with non-negative ends is non-negative |
| Integration.CumulativeNonDecreasing | src/sim/RealAtmos.cpp:137-146 | over increasing abscissae and non-negative ordinates the cumulative integral never decreases |
| Integration.CumulativeTrapezoid | src/sim/RealAtmos.cpp:137-146 | the loop fills a new array with exactly the cumulative integral |
| Motor.Insert | src/rocket/components/motor/motor.cpp:63 | inserting into a sorted thrust curve keeps it sorted; the new point is first or last exactly when its time is |
| Motor.InsertMap | src/rocket/components/motor/motor.cpp:63 | the curve as a map is the old map with that time set to that thrust (later points overwrite earlier ones) |
| Motor.WordLength | src/rocket/components/motor/motor.cpp:31-35 | the length of the leading run of non-space characters |
| Motor.Tokens | src/rocket/components/motor/motor.cpp:31-35 | every token is non-empty and free of spaces, and there are none exactly when the line is blank |
| Motor.HeaderOf | src/rocket/components/motor/motor.cpp:46-51 | name, diameter and length in metres (millimetres / 1000), propellant and total mass from the seven header fields |
| Motor.Finish | src/rocket/components/motor/motor.cpp:72 | the read motor has half the diameter as radius and the header's values and curve |
| Motor.Continue | src/rocket/components/motor/motor.cpp:26-65 | the thrust curve read so far stays sorted |
| Motor.FromFile | src/rocket/components/motor/motor.cpp:10-80 | the reading loop gives exactly the line-by-line specification |
| Motor.ReadFile | src/rocket/components/motor/motor.cpp:10-80 | null exactly when the file did not open; a curve read is sorted by time |
| Motor.CommentsSkipped | src/rocket/components/motor/motor.cpp:26 | comment lines have no effect |
| Motor.HeaderNeedsSevenTokens | src/rocket/components/motor/motor.cpp:37-42 | a header line without seven tokens is the invalid-header error |
| Motor.HeaderFields | src/rocket/components/motor/motor.cpp:28-51 | a seven-token header gives the motor its name, radius, length and masses, with an empty curve |
| Motor.StopsAtZeroThrust | src/rocket/components/motor/motor.cpp:52-65 | once the last point has zero thrust, reading stops and later lines are ignored |
| Motor.LastWriteWins | src/rocket/components/motor/motor.cpp:63 | a repeated time keeps the later thrust |
| Motor.Times | src/rocket/components/motor/motor.cpp:108-115 | the curve's times, in order |
| Motor.Thrusts | src/rocket/components/motor/motor.cpp:108-115 | the curve's thrusts, in order |
| Motor.Impulse | src/rocket/components/motor/motor.cpp:125-137 | one cumulative impulse per curve point |
| Motor.CalculateMassData | src/rocket/components/motor/motor.cpp:108-149 | the loop builds exactly the mass table, which is undefined when the total impulse is zero |
| Motor.MassTable | src/rocket/components/motor/motor.cpp:108-149 | undefined (NaN masses) exactly when there is more than one sample and the total impulse is zero |
| Motor.FillAt | src/rocket/components/motor/motor.cpp:139-147 | at each later curve time the mass is total mass minus propellant times the impulse fraction |
| Motor.FillKeys | src/rocket/components/motor/motor.cpp:139-147 | the table's times are 0 and the curve's times after the first |
| Motor.FillAtZero | src/rocket/components/motor/motor.cpp:139-147 | the table holds 0 at time 0 |
| Motor.MassTableEnds | src/rocket/components/motor/motor.cpp:139-147 | the keys are 0 and the later curve times; 0 maps to 0; the last time maps to the dry mass |
| Motor.MassNonIncreasing | src/rocket/components/motor/motor.cpp:132-147 | with non-negative thrust and propellant, the mass never rises between curve points |
| Motor.ImpulseGrows | src/rocket/components/motor/motor.cpp:125-137 | with non-negative thrust the cumulative impulse is non-negative and non-decreasing |
| Motor.MassOrder | src/rocket/components/motor/motor.cpp:139-147 | a larger impulse fraction leaves a smaller mass |
| Aero.Create | src/rocket/components/aeroComponent.cpp:72-81 | the new entry is present with its value, and every other entry is unchanged |
| Aero.ClearedHasNoEntries | src/rocket/components/aeroComponent.cpp:19-70 | after clearing, no coefficient and no damping value is cached |
| Aero.Query | src/rocket/components/aeroComponent.cpp:83-129 | with caching on, a cached entry is returned; otherwise the computed value |
| Aero.QueryTransparent | src/rocket/components/aeroComponent.cpp:145-153 | a cache that agrees with the computation never changes a result |
| Aero.CreateKeepsAgreement | src/rocket/components/aeroComponent.cpp:72-81 | storing a computed value keeps the cache in agreement with the computation |
| Aero.Coefficient | src/rocket/components/aeroComponent.cpp:155-157 | zero at zero angle of attack, non-negative for a non-negative slope and angle |
| Aero.Damp | src/rocket/components/aeroComponent.cpp:242-250 | zero without rotation or airspeed; otherwise the cache gains at most the computed entry |
| Aero.DampTransparent | src/rocket/components/aeroComponent.cpp:242-250 | with an agreeing cache the damping is the computed coefficient times the rate factor, and the cache keeps agreeing |
| Aero.DampTwice | src/rocket/components/aeroComponent.cpp:242-250 | a second identical query returns the same value and cache |
| Aero.Cda2Cd | src/rocket/components/aeroComponent.cpp:317-328 | at zero angle of attack the drag coefficient equals the input |
| Aero.DragFactor | src/rocket/components/aeroComponent.cpp:321-325 | 1 at zero angle of attack |
| Aero.DragFactorAtLeastOne | src/rocket/components/aeroComponent.cpp:317-328 | up to 17 degrees the angle-of-attack drag factor is at least 1 |
| Aero.ScaledSumFactors | src/rocket/components/aeroComponent.cpp:133-143 | the sum of children's scaled slopes is their weighted sum over the reference area |
| Aero.ScaledSumNonNegative | src/rocket/components/aeroComponent.cpp:133-143 | non-negative slopes and areas give a non-negative sum |
| Aero.ScaledSum | src/rocket/components/aeroComponent.cpp:136-141 | zero when every child coefficient is zero |
| Aero.WithComponents | src/rocket/components/aeroComponent.cpp:133-143 | the loop's total is the own coefficient plus the scaled children's sum |
| Aero.MomentAtOrigin | src/rocket/components/aeroComponent.cpp:160-170 | the moment slope moved to the origin; unchanged when the centre of pressure or the normal slope is zero |
| Aero.CpAverage | src/rocket/components/aeroComponent.cpp:198-219 | the origin when the slopes sum to zero; otherwise the slope-weighted average of the children's and own centres |
| Aero.WeightedCpOfZeroWeights | src/rocket/components/aeroComponent.cpp:204-210 | children with zero slopes add nothing to the weighted sum |
| Aero.WeightedCpOfEqualPoints | src/rocket/components/aeroComponent.cpp:204-210 | children whose centres of pressure are one point, or whose slope is 0, sum to that point times the slope sum |
| Aero.CpAverageOfEqualPoints | src/rocket/components/aeroComponent.cpp:198-219 | when every centre is the same point (or carries no slope) and the weights do not sum to 0, the average is that point; the centre-of-mass average of component.cpp:222-253 is the same average and reuses it |
| Aero.CpWithComponents | src/rocket/components/aeroComponent.cpp:198-219 | the loop gives exactly the average |
| Fins.FinCountFactor | src/rocket/components/fins/finSet.cpp:104-123 | between 0.75 and 1, 1 below five fins, and equal to the table everywhere but at eight fins |
| Fins.FinCountFactorAsWritten | src/rocket/components/fins/finSet.cpp:104-123 | between 0.75 and 1; 1 below five fins and, as written, for eight |
| Fins.EffectiveFins | src/rocket/components/fins/finSet.cpp:124 | non-negative for a non-negative factor and count, and zero without fins or with a zero factor |
| Fins.AsWrittenEightOutweighsNine | src/rocket/components/fins/finSet.cpp:120-121 | with eight fins falling to the default 1, eight fins count as 4 where nine count as 3.375 |
| Fins.EffectiveFinsStep | src/rocket/components/fins/finSet.cpp:104-123 | with the corrected table, adding one fin never lowers the effective fin count |
| Fins.EffectiveFinsMonotone | src/rocket/components/fins/finSet.cpp:104-123 | more fins never give a lower effective fin count |
| Fins.Interference | src/rocket/components/fins/finSet.cpp:126-134 | 0 without span or body, and between 1 and 2 for a positive span and body radius |
| Fins.SetNormalSlope | src/rocket/components/fins/finSet.cpp:100-136 | 0 without fins or span; non-negative for a non-negative fin slope; equal to the code for every fin count but eight, where it uses the corrected factor 0.81 (see Findings) |
| Fins.SetNormalSlopeAsWritten | src/rocket/components/fins/finSet.cpp:100-136 | the code's slope, with eight fins at the default factor 1; 0 without fins or span |
| Fins.SetNormalSlopeAsWrittenEightOverNine | src/rocket/components/fins/finSet.cpp:120-123 | as written, eight fins give a steeper slope than nine of the same fin |
| Fins.SetNormalSlopeMonotone | src/rocket/components/fins/finSet.cpp:104-135 | with the corrected factor, more fins never lower the set's slope |
| Fins.SetNormalSlopeFewFins | src/rocket/components/fins/finSet.cpp:105-106 | up to four fins the slope is the fin's times `N/2` times the interference |
| Fins.SetMomentSlope | src/rocket/components/fins/finSet.cpp:138-140 | the fin set's moment slope is zero |
| Fins.ExposedFins | src/rocket/components/fins/finSet.cpp:147-152 | the number of fins, capped at four |
| Fins.DampingSaturates | src/rocket/components/fins/finSet.cpp:147-152 | from four fins on, the damping is that of four fins |
| Fins.SetDamping | src/rocket/components/fins/finSet.cpp:147-152 | zero without fins and without fin area |
| Fins.SurfaceDistance | src/rocket/components/fins/finSet.cpp:186-190 | 0 before the fin set, the distance into it along the fin, and the full distance past it |
| Fins.SurfaceDistanceMonotone | src/rocket/components/fins/finSet.cpp:186-190 | the distance travelled grows with x and stays within [0, max] |
| Fins.PerSet | src/rocket/components/fins/finSet.cpp:49-51 | zero for no fins, the single fin's value for one, non-negative for non-negative values |
| Fins.OnCentreline | src/rocket/components/fins/finSet.cpp:93-98 | the fin set's point is its position shifted axially by the fin's point |
| Fins.Angles | src/rocket/components/fins/finSet.cpp:53-62 | one rotation per fin, evenly spaced around the body |
| Fins.FinSet.constructor | src/rocket/components/fins/finSet.cpp:10-13 | holds the fin count and its rotations |
| Fins.FinSet.FinRotations | src/rocket/components/fins/finSet.cpp:53-62 | the cached rotations when present, else the evenly spaced angles |
| Fins.FinSet.RotationsTransparent | src/rocket/components/fins/finSet.cpp:53-62 | the cache never changes the rotations returned |
| Fins.FinSet.ClearCaches | src/rocket/components/fins/finSet.cpp:28-31 | empties the rotation cache and keeps the count |
| Fins.FinSet.SetNumFins | src/rocket/components/fins/finSet.cpp:168-172 | stores the count, with the rotations for it |
| Fins.PolyCoeffs | src/rocket/components/fins/fin.cpp:30-45 | the interpolation polynomial is defined exactly when the area and the aspect-ratio term are non-zero |
| Fins.Polynomial | src/rocket/components/fins/fin.cpp:30-45 | at mach 0 it is the constant coefficient |
| Fins.SupersonicSlope | src/rocket/components/fins/fin.cpp:57-65 | at zero angle of attack it is the area ratio times 2/beta |
| Fins.PowerNonZero | src/rocket/components/fins/fin.cpp:30-45 | powers of a non-zero number are non-zero |
| Fins.FinNormalSlope | src/rocket/components/fins/fin.cpp:68-71 | the subsonic slope up to mach 1, the supersonic slope above |
| Fins.FinCpX | src/rocket/components/fins/fin.cpp:73-89 | the quarter-MAC point up to mach 0.5, the polynomial between 0.5 and 2 (defined when the coefficients are); from mach 2, defined exactly when the planform area and `2·AR·b − 1` are non-zero |
| Fins.SupersonicCpFraction | src/rocket/components/fins/fin.cpp:83-84 | once `AR·b >= 1`, the supersonic fraction of the mean chord lies between 0.33 and 0.5 |
| Fins.SupersonicCpWithinChord | src/rocket/components/fins/fin.cpp:73-89 | from mach 2 with `AR·b >= 1`, the centre of pressure is defined and lies between a third and a half of the mean chord behind its leading edge |
| Fins.FinCp | src/rocket/components/fins/fin.cpp:73-89 | the axial centre at the MAC's span position, in the fin plane |
| Fins.SetShapeAsWritten | src/rocket/components/fins/fin.cpp:96-108 | accepts exactly a fin shape |
| Fins.SetShapeAsWrittenReportsSuccess | src/rocket/components/fins/fin.cpp:96-108 | as written, a successful set also prints the invalid-shape message |
| Fins.SetShapeOutcome | src/rocket/components/fins/fin.cpp:96-108 | accepts exactly a fin shape, and reports exactly when it rejects |
| Fins.Fin.constructor | src/rocket/components/fins/fin.cpp:8-13 | holds the geometry and its coefficients |
| Fins.Fin.CpInterpPolyCoeffs | src/rocket/components/fins/fin.cpp:30-45 | the cached coefficients when present, else freshly computed |
| Fins.Fin.CoefficientsTransparent | src/rocket/components/fins/fin.cpp:30-45 | the cache never changes the coefficients |
| Fins.Fin.ClearCaches | src/rocket/components/fins/fin.cpp:15-18 | empties the coefficient cache and keeps the geometry |
| Fins.Fin.SetFinShape | src/rocket/components/fins/fin.cpp:124-128 | stores the geometry, with its coefficients |
| Fins.Fin.SetShape | src/rocket/components/fins/fin.cpp:110-122 | a fin shape replaces the geometry; any other shape is reported and changes nothing |
| Fins.Fin.Cp | src/rocket/components/fins/fin.cpp:73-89 | the centre of pressure of the current geometry |
| Atmosphere.GeopsAsWrittenPressureRises | src/sim/RealAtmos.cpp:37 | in the table as written, the pressure at the 51 km base exceeds the 47 km one |
| Atmosphere.GeopsPressureFalls | src/sim/RealAtmos.cpp:31-40 | with 66.9389 Pa at 51 km, base pressure falls with height; every other row is unchanged |
| Atmosphere.TablesIncreasing | src/sim/RealAtmos.cpp:31-59 | both tables have increasing heights |
| Atmosphere.Interp | src/sim/RealAtmos.cpp:104-107 | the line through the two points passes through both |
| Atmosphere.InterpSymmetric | src/sim/RealAtmos.cpp:104-107 | swapping the two points gives the same line |
| Atmosphere.InterpSlope | src/sim/RealAtmos.cpp:104-107 | it is the point-slope form of the line |
| Atmosphere.InterpBetween | src/sim/RealAtmos.cpp:104-107 | between the abscissae it lies between the ordinates |
| Atmosphere.UpperBound | src/sim/RealAtmos.cpp:109-114 | `std::map::upper_bound`: keys before it are at most the value, the key at it is above |
| Atmosphere.UpperBoundSplits | src/sim/RealAtmos.cpp:109-114 | in an increasing table every key from the bound on is above the value |
| Atmosphere.UpperBoundAtLast | src/sim/RealAtmos.cpp:109-114 | a value at or past the last key gives the end |
| Atmosphere.InterpMapAsWritten | src/sim/RealAtmos.cpp:109-114 | as written, defined only strictly inside the table |
| Atmosphere.InterpOrdered | src/sim/RealAtmos.cpp:109-114 | the same lookup written over the ordered keys |
| Atmosphere.InterpMap | src/sim/RealAtmos.cpp:109-114 | agrees with the code inside the table, and holds the first or last value outside it |
| Atmosphere.InterpMapBetween | src/sim/RealAtmos.cpp:109-114 | inside an interval the value lies between its ends |
| Atmosphere.InterpMapAsWrittenPastEnd | src/sim/RealAtmos.cpp:109-114 | at 86 km, the last key, the code reads past the molar table where the corrected lookup gives 0.999579 |
| Atmosphere.Field | src/sim/RealAtmos.cpp:116-125 | one field of each level, at the same heights |
| Atmosphere.FieldIncreasing | src/sim/RealAtmos.cpp:116-125 | the field table keeps increasing heights |
| Atmosphere.InterpLevelAsWritten | src/sim/RealAtmos.cpp:116-125 | as written, defined only strictly inside the table |
| Atmosphere.InterpLevel | src/sim/RealAtmos.cpp:116-125 | agrees with the code inside, and holds the last level past the end |
| Atmosphere.InterpLevelFieldwise | src/sim/RealAtmos.cpp:116-125 | interpolating a level is interpolating each of its fields |
| Atmosphere.Clamp | src/sim/RealAtmos.cpp:284 | within the bounds, and unchanged when already within them |
| Atmosphere.GeopotentialHeight | src/sim/RealAtmos.cpp:383-386 | 0 at sea level, below the geometric height above it, and further down below it |
| Atmosphere.Gravity | src/sim/RealAtmos.cpp:354-357 | the sea-level value at 0, positive, and weaker with height |
| Atmosphere.UpperTemperature | src/sim/RealAtmos.cpp:307-321 | between 110 and 120 km it lies between 240 and 360 K |
| Atmosphere.TemperatureAsWrittenCoolsBelowSeaLevel | src/sim/RealAtmos.cpp:286-290 | as written, heights below sea level get less than 288.15 K |
| Atmosphere.TemperatureWarmsBelowSeaLevel | src/sim/RealAtmos.cpp:286-290 | the lapse rate warms the air below sea level, above 288.15 K |
| Atmosphere.TemperatureAsWrittenBelowSeaLevel | src/sim/RealAtmos.cpp:284-290 | as written, from -5 km to sea level the temperature is 288.15 K plus 6.5 K per geopotential km |
| Atmosphere.TemperatureClamped | src/sim/RealAtmos.cpp:284 | both temperatures take the -5 km value below -5 km and the 1000 km value above 1000 km |
| Atmosphere.TemperatureAsWrittenUndefinedAbove86km | src/sim/RealAtmos.cpp:291-297 | as written, 86 to 91 km reads past the molar table |
| Atmosphere.MolecularTemperatureAt86km | src/sim/RealAtmos.cpp:394-397 | the molecular temperature at 86 km is 186.95 K |
| Atmosphere.TemperatureIsothermalAbove86km | src/sim/RealAtmos.cpp:291-297 | 86 to 91 km is isothermal at 186.95 K times the last molar ratio |
| Atmosphere.TemperatureLinearLayer | src/sim/RealAtmos.cpp:307-311 | between 110 and 120 km the temperature rises by 12 K per km from 240 K |
| Atmosphere.MolecularTemperatureAsWritten | src/sim/RealAtmos.cpp:394-397 | as written, defined exactly when the geopotential height lies in [0, 84852) m, where `upper_bound` finds a level on both sides |
| Atmosphere.MolecularTemperature | src/sim/RealAtmos.cpp:394-397 | equals the written lookup wherever that is defined, and is 186.95 K from the last level on |
| Atmosphere.TemperatureAsWritten | src/sim/RealAtmos.cpp:282-322 | defined at and below sea level and above 91 km; between 86 and 91 km it is not (`TemperatureAsWrittenUndefinedAbove86km`) |
| Atmosphere.Temperature | src/sim/RealAtmos.cpp:282-322 | at least 288.15 K at and below sea level, and between 240 and 360 K from 110 to 120 km |
| Atmosphere.LayerPressure | src/sim/RealAtmos.cpp:333-343 | defined exactly when the height is below the table's end |
| Atmosphere.LevelPressure | src/sim/RealAtmos.cpp:338-342 | at the level's own height the pressure is the level's base pressure, given `exp(0) = 1` and `pow(1, e) = 1` |
| Atmosphere.LayerTemperature | src/sim/RealAtmos.cpp:341 | the level's molecular temperature at its own height and throughout an isothermal layer |
| Atmosphere.IsothermalExponent | src/sim/RealAtmos.cpp:339 | zero at the level's own height |
| Atmosphere.LayerPressurePositive | src/sim/RealAtmos.cpp:333-343 | with positive base pressures, a positive `exp` and `pow`, and a positive layer temperature, the pressure is positive |
| Atmosphere.IsothermalLayerPressureFalls | src/sim/RealAtmos.cpp:337-338 | inside one isothermal layer, with an increasing `exp`, pressure falls strictly with height |
| Atmosphere.GradientLayerPressureFalls | src/sim/RealAtmos.cpp:339-341 | inside one layer with a gradient, with `pow` monotone in its base, pressure falls strictly with height, whether the layer warms or cools |
| Atmosphere.Pressure | src/sim/RealAtmos.cpp:325-346 | 0 above 1000 km, and defined from 86 km up, where it uses the corrected temperature (see Left out) |
| Atmosphere.PressureAsWrittenJumpsAt47km | src/sim/RealAtmos.cpp:37 | with the typo, pressure at 47.64 km is above the 47 km base pressure |
| Atmosphere.MolecularWeight | src/sim/RealAtmos.cpp:417-422 | the sea-level molar mass up to 86 km |
| Atmosphere.EddyDiffusion | src/sim/RealAtmos.cpp:424-435 | undefined below 86 km, 120 up to 95 km, 0 from 115 km |
| Atmosphere.TemperatureGradient | src/sim/RealAtmos.cpp:437-457 | undefined below 86 km, 0 up to 91 km, 0.012 K/m between 110 and 120 km |
| Simulation.MinOf | src/sim/simulation.cpp:293-320 | `minCoeff`: a candidate that no candidate undercuts |
| Simulation.StepCandidates | src/sim/simulation.cpp:293-320 | the gated user step (a fifth on the rod), 1.5 times the current step and the double maximum are candidates, and so are the pitch-rate, pitch-change and on-rod bounds whenever their divisor is non-zero; nothing else is a candidate, and there are at most six |
| Simulation.SelectTimeStep | src/sim/simulation.cpp:293-320 | an unchanged state keeps the user step; otherwise the least candidate (`minCoeff`): one of them and at most every one, so at most 1.5 times the current step, the gated user step, the pitch-rate bound, the pitch-change bound and, on the rod, the rod bound |
| Simulation.SelectedStepPositive | src/sim/simulation.cpp:293-320 | with positive step, rod and norm, the chosen step is positive |
| Simulation.AddScaled | src/sim/simulation.cpp:258-291 | `state + k * f`, slot by slot |
| Simulation.Combine | src/sim/simulation.cpp:273 | the RK4 combination h/6 (k1 + 2k2 + 2k3 + k4), slot by slot |
| Simulation.CombineConsistent | src/sim/simulation.cpp:273 | with four equal slopes RK4 is one Euler step |
| Simulation.AverageStepData | src/sim/simulation.cpp:280-287 | one entry per first-stage entry, with its name and the 1-2-2-1 weighted value |
| Simulation.WeightedOfEqual | src/sim/simulation.cpp:280-287 | four equal values average to that value |
| Simulation.Flush | src/sim/simulation.cpp:110 | slots at most epsilon in magnitude become 0, and the others are kept |
| Simulation.LandsExtend | src/sim/simulation.cpp:127-134 | adding a step does not change earlier landing tests |
| Simulation.LandsAtEnd | src/sim/simulation.cpp:127-134 | the new step lands exactly when it crosses zero altitude downward after takeoff |
| Simulation.RecordStep | src/sim/simulation.cpp:137-153 | appending a later, flushed step keeps the record well formed |
| Simulation.TookOffExtend | src/sim/simulation.cpp:112-117 | the takeoff latch sets once the vertical speed is positive |
| Simulation.LeftRodExtend | src/sim/simulation.cpp:118-123 | the rod latch clears once the position leaves the rod |
| Simulation.ApogeeScan | src/sim/simulation.cpp:157-166 | the apogee is at least every altitude and 0; when positive it is the first state that reaches it, with its time |
| Simulation.GuardAccelerations | src/sim/simulation.cpp:534-545 | before takeoff downward acceleration is cut; on the rod the acceleration's magnitude is along the rod, with no angular acceleration |
| Simulation.NoSinkingBeforeTakeoff | src/sim/simulation.cpp:534-539 | off the rod before takeoff the vertical acceleration is max(a, 0) |
| Simulation.GuardTwice | src/sim/simulation.cpp:534-545 | applying the guard again changes nothing |
| Simulation.Derivative | src/sim/simulation.cpp:534-554 | position rates are the velocity, angle rates the angular velocity, and the velocity and angular rates are the accelerations |
| Simulation.RunStages | src/sim/simulation.cpp:258-271 | the four RK4 evaluations at t, t+h/2, t+h/2 and t+h, each from the previous stage's slope |
| Simulation.AverageData | src/sim/simulation.cpp:280-287 | each datum keeps its name and takes the weighted stage average |
| Simulation.Sim.constructor | src/sim/simulation.cpp:19-23 | the user step is stored and the rod length is 0.1; the simulation has not taken off and is on the rod |
| Simulation.Sim.RK4Integrate | src/sim/simulation.cpp:258-291 | the selected step, the RK4 state and the averaged data; time advances when step, rod and norm are positive |
| Simulation.Sim.Latch | src/sim/simulation.cpp:112-123 | takeoff latches on positive vertical speed; on-rod clears once past the rod |
| Simulation.Sim.Advance | src/sim/simulation.cpp:104-110 | time advances and the new state is flushed |
| Simulation.Sim.Step | src/sim/simulation.cpp:104-134 | the latches match the whole history, and the step reports landing exactly when the landing test holds |
| Simulation.Sim.Integrate | src/sim/simulation.cpp:100-153 | stops at landing or after the step limit; the first state is the initial one; the record is well formed |
| Simulation.Sim.Solve | src/sim/simulation.cpp:75-166 | times increase, only the last step lands (or the step limit is hit), later states are flushed, and the apogee bounds every altitude |
| ComponentTree.AcceptedChildIsListed | src/rocket/components/bodyComponent.cpp:78-113 | every accepted child kind has a list of its own |
| ComponentTree.WithList | src/rocket/components/bodyComponent.cpp:78-144 | replaces exactly one child list and nothing else |
| ComponentTree.ListedInChildren | src/rocket/components/bodyComponent.cpp:59-69 | an id in any of a component's typed lists is among its components |
| ComponentTree.RemoveFirst | src/rocket/components/bodyComponent.cpp:115-144 | erasing the first occurrence removes one copy when present and changes nothing otherwise |
| ComponentTree.FirstIndex | src/rocket/components/bodyComponent.cpp:115-144 | the first position holding the id |
| ComponentTree.RemoveFirstAt | src/rocket/components/bodyComponent.cpp:115-144 | the erase-first removal is the list around the first occurrence |
| ComponentTree.ListedOnlyByParent | src/rocket/components/component.cpp:46-53 | under the invariant a component is listed by its parent alone, once |
| ComponentTree.ListOfRefusedKindEmpty | src/rocket/components/bodyComponent.cpp:78-113 | under the invariant a list the component's class does not accept is empty |
| ComponentTree.ComponentsByKind | src/rocket/components/bodyComponent.cpp:55-69 | per class: a body's components are externals then internals and its aero ones the externals; internal parts have no aero children; external parts and rockets list their own kind |
| ComponentTree.Children | src/rocket/components/bodyComponent.cpp:59-69 | the external children come first, and there are as many entries as in the three lists together |
| ComponentTree.ChildrenMembers | src/rocket/components/bodyComponent.cpp:59-69 | the children are exactly the entries of the three lists |
| ComponentTree.AeroChildren | src/rocket/components/bodyComponent.cpp:55-57 | the external children first; exactly the external children and the stages (externalComponent.cpp:5-7, rocket.cpp:23-30) |
| ComponentTree.Clear | src/rocket/components/component.cpp:27-32 | every cache is empty and every other field is kept |
| ComponentTree.Chain | src/rocket/components/component.cpp:33-36 | contains the component itself exactly when it exists and fuel remains |
| ComponentTree.ClearChain | src/rocket/components/component.cpp:27-37 | `clearCaches` clears the component and its ancestors and nothing else |
| ComponentTree.ClearChainSameShape | src/rocket/components/component.cpp:27-37 | clearing caches changes no parent link, kind or child list |
| ComponentTree.ClearChainReachesParent | src/rocket/components/component.cpp:27-37 | both the component and its parent are cleared |
| ComponentTree.SameShapeValid | src/rocket/components/component.cpp:27-37 | clearing caches keeps the tree invariant |
| ComponentTree.StructureValid | src/rocket/components/component.cpp:345-355 | any edit that keeps every parent link, kind and child list keeps the tree invariant |
| ComponentTree.UnlinkValid | src/rocket/components/bodyComponent.cpp:115-144 | taking a held child off its parent keeps the invariant |
| ComponentTree.LinkValid | src/rocket/components/bodyComponent.cpp:78-113 | hanging an unparented child of an accepted kind under a parent keeps the invariant |
| ComponentTree.Remove | src/rocket/components/bodyComponent.cpp:115-144 | reports exactly when the child is not held; then nothing changes |
| ComponentTree.RemoveAsWrittenReportsSuccess | src/rocket/components/internalComponent.cpp:61-75 | as written, internal parts, external parts (externalComponent.cpp:55) and the rocket (rocket.cpp:74) report "unable to find" after a successful removal |
| ComponentTree.RemoveAsWritten | src/rocket/components/internalComponent.cpp:61-75 | keeps every component; a body reports exactly a missing child, every other kind always reports |
| ComponentTree.RemoveValid | src/rocket/components/bodyComponent.cpp:115-144 | removal keeps the tree invariant |
| ComponentTree.RemoveAt | src/rocket/components/bodyComponent.cpp:115-144 | the child loses its parent, the parent's list loses it, other components keep their links |
| ComponentTree.RemoveUnlists | src/rocket/components/bodyComponent.cpp:115-144 | after removal no component lists the child |
| ComponentTree.RemoveEffect | src/rocket/components/bodyComponent.cpp:115-144 | it succeeds exactly when the parent lists the child; the child is then unparented and listed nowhere; other components keep their lists |
| ComponentTree.Add | src/rocket/components/bodyComponent.cpp:78-113 | reports exactly when the parent's class does not accept the child; then nothing changes |
| ComponentTree.AddValid | src/rocket/components/bodyComponent.cpp:78-113 | adding keeps the tree invariant |
| ComponentTree.DetachValid | src/rocket/components/component.cpp:46-53 | detaching from the previous parent keeps the invariant and leaves the child unparented |
| ComponentTree.Detach | src/rocket/components/component.cpp:46-53 | keeps every component |
| ComponentTree.AddEffect | src/rocket/components/bodyComponent.cpp:78-113 | the child's parent is set and it is moved to the end of the list of its kind |
| ComponentTree.AddListsOnce | src/rocket/components/bodyComponent.cpp:78-113 | after adding, the new parent lists the child once and no one else lists it |
| ComponentTree.AddParentAt | src/rocket/components/internalComponent.cpp:42-59 | adding changes the parent of the added component and of no other |
| ComponentTree.AddAsWrittenSelfParent | src/rocket/components/internalComponent.cpp:42-59 | an internal or external part added to itself is accepted and becomes its own parent, a one-link cycle |
| ComponentTree.AddGuarded | src/rocket/components/internalComponent.cpp:42-59 | corrected: reports exactly when the kind is refused or the child is the parent or one of its ancestors; a report changes nothing |
| ComponentTree.AddGuardedValid | src/rocket/components/internalComponent.cpp:42-59 | the guarded addition keeps the tree invariant |
| ComponentTree.AddGuardedClosesNoCycle | src/rocket/components/component.cpp:27-37 | after an accepted guarded addition the child hangs under the parent and is not among the parent's ancestors, so `clearCaches` climbing from the child ends |
| ComponentTree.EraseScanOverruns | src/rocket/components/internalComponent.cpp:64-71 | as written, removing the only child steps past the end of the list |
| ComponentTree.EraseScanWithoutMatch | src/rocket/components/internalComponent.cpp:64-71 | a scan that finds nothing leaves the list unchanged |
| ComponentTree.EraseScanAsWritten | src/rocket/components/internalComponent.cpp:64-71 | never lengthens the list or adds entries; it overruns only after an erase or when started past the end |
| Aggregates.SubtreeUnfolds | src/rocket/components/component.cpp:381-391 | a subtree is the component followed by its children's subtrees |
| Aggregates.Clamp | src/rocket/components/component.cpp:129-139 | the query time is capped at the burnout time |
| Aggregates.BothBitsActAsOverrideAll | src/rocket/components/component.cpp:105-127 | OVERRIDE\|OVERRIDEALL behaves as OVERRIDEALL: the stored mass alone |
| Aggregates.MassFrozenAfterBurnout | src/rocket/components/component.cpp:129-139 | with caching on, the mass after burnout is the mass at burnout |
| Aggregates.MassIsSubtreeSum | src/rocket/components/component.cpp:105-139 | without overrides or caches, the mass is the sum of own masses over the subtree |
| Aggregates.MassLoop | src/rocket/components/component.cpp:105-127 | the loop computes exactly the mass with components |
| Aggregates.MassWithComponents | src/rocket/components/component.cpp:105-127 | OVERRIDEALL gives the stored mass alone; a childless component without it has the stored mass under OVERRIDE and its own calculated mass otherwise |
| Aggregates.InertiaIsSubtreeSum | src/rocket/components/component.cpp:163-196 | without overrides or caches, the inertia is the sum over the subtree |
| Aggregates.InertiaLoop | src/rocket/components/component.cpp:163-184 | the loop computes exactly the inertia with components |
| Aggregates.InertiaWithComponents | src/rocket/components/component.cpp:163-184 | OVERRIDEALL gives the stored inertia alone; a childless component without it has the stored inertia under OVERRIDE and its own calculated inertia otherwise |
| Aggregates.CmTerms | src/rocket/components/component.cpp:222-253 | one mass-and-centre term per child |
| Aggregates.CmWeightsAreMasses | src/rocket/components/component.cpp:222-253 | the centre-of-mass weights add up to the children's mass |
| Aggregates.CmOfUniformSubtree | src/rocket/components/component.cpp:222-262 | a subtree whose parts share one centre, and whose mass is not zero, has that centre |
| Aggregates.PlainCmAtPoint | src/rocket/components/component.cpp:222-253 | one component whose own centre and whose children's weighted centres are one point has that centre when its mass is not zero |
| Aggregates.CmLoop | src/rocket/components/component.cpp:222-253 | the loop computes exactly the centre with components |
| Aggregates.CmSums | src/rocket/components/component.cpp:235-241 | the loop's sums are the children's mass-weighted centres of mass and their total mass |
| Aggregates.CmWithComponents | src/rocket/components/component.cpp:222-253 | OVERRIDEALL gives the stored centre alone; a massless childless component is at the origin; otherwise a childless component is at the stored centre under OVERRIDE and at its own calculated centre otherwise |
| Aggregates.ThrustIsSubtreeSum | src/rocket/components/component.cpp:288-305 | without caches, the thrust is the sum over the subtree |
| Aggregates.ThrustLoop | src/rocket/components/component.cpp:288-296 | the loop computes exactly the thrust with components |
| Aggregates.ThrustWithComponents | src/rocket/components/component.cpp:288-296 | a childless component's thrust is its own calculated thrust |
| Aggregates.ThrustAverage | src/rocket/components/component.cpp:312-332 | the origin without thrust; otherwise the thrust-weighted average position |
| Aggregates.ThrustAverageIsWeightedAverage | src/rocket/components/component.cpp:312-332 | with non-negative magnitudes it is the same weighted average as the centre of pressure |
| Aggregates.ThrustTerms | src/rocket/components/component.cpp:312-332 | one magnitude-and-position term per child |
| Aggregates.ThrustlessSubtree | src/rocket/components/component.cpp:312-339 | a subtree without thrust has its thrust position at the origin |
| Aggregates.OwnThrustPosition | src/rocket/components/component.cpp:308-310 | the class's own thrust position where it overrides `calculateThrustPosition` (a motor, motor.hpp:40), and the centre of mass `cm(time)` for the base class |
| Aggregates.ThrustPositionWithComponents | src/rocket/components/component.cpp:312-332 | a childless component with thrust is at its own thrust position, and one without thrust at the origin |
| Aggregates.ThrustPositionLoop | src/rocket/components/component.cpp:312-332 | the loop computes exactly the thrust position with components, the component's own term at its class's `calculateThrustPosition` (its centre of mass for the base class) |
| Folds.Max | src/rocket/components/component.cpp:94 | `std::max`: at least both and one of them (also the minimum-step gate at src/sim/simulation.cpp:304) |
| Folds.MaxOrZero | src/rocket/components/rocket.cpp:77-95 | the fold from 0 bounds every value, is non-negative, and is 0 or one of them |
| Folds.MaxOrZeroIsLeast | src/rocket/components/rocket.cpp:77-95 | it is the least such bound |
| Folds.MaxOrZeroLoop | src/rocket/components/rocket.cpp:77-95 | the loop computes exactly the fold |
| Folds.SumAppend | src/rocket/components/rocket.cpp:97-104 | a sum over a concatenation is the sum of the sums |
| Folds.SumNonNegative | src/rocket/components/rocket.cpp:97-104 | non-negative values sum to a non-negative total |
| Folds.EarliestGreatest | src/rocket/components/rocket.cpp:146-161 | none exactly for no values, otherwise an index |
| Folds.EarliestGreatestIsEarliestMaximum | src/rocket/components/rocket.cpp:146-161 | the chosen value is a maximum and every earlier value is strictly smaller |
| Folds.EarliestGreatestLoop | src/rocket/components/rocket.cpp:146-161 | the loop computes exactly that choice |
| Rockets.Values | src/rocket/components/rocket.cpp:77-104 | the stage values in stage order |
| Rockets.StageMaximum | src/rocket/components/rocket.cpp:77-95 | reference area, length and lowest point: at least every stage value and 0, and 0 or one of them |
| Rockets.StageSum | src/rocket/components/rocket.cpp:97-104 | wetted area and distance travelled: non-negative for non-negative stages |
| Rockets.StageSumAppend | src/rocket/components/rocket.cpp:97-104 | a new stage adds its value |
| Rockets.LowestStage | src/rocket/components/rocket.cpp:146-161 | none without stages, otherwise the earliest stage with the greatest lowest point |
| Rockets.CdbA | src/rocket/components/rocket.cpp:163-167 | 0 without stages, otherwise the base drag of a stage whose lowest point is greatest |
| TreeQueries.MaxHeightBounds | src/rocket/components/component.cpp:357-368 | the maximum bounds every child's height and is attained |
| TreeQueries.Height | src/rocket/components/component.cpp:357-368 | at most the fuel, and zero exactly for a missing component or one without children |
| TreeQueries.MaxHeight | src/rocket/components/component.cpp:362-365 | the greatest child height is at most the fuel |
| TreeQueries.HeightIsLongestPath | src/rocket/components/component.cpp:357-368 | 0 exactly for a leaf, and one more than the tallest child's height |
| TreeQueries.Branch | src/rocket/components/component.cpp:399-408 | the branch and continuation prefixes are each four characters |
| TreeQueries.Repr | src/rocket/components/component.cpp:393-410 | empty exactly for a missing component; the first line is the component under its prefix, and every later line starts with the child prefix |
| TreeQueries.ReprChildren | src/rocket/components/component.cpp:399-408 | every line printed for the children starts with the child prefix |
| TreeQueries.ReprListsSubtree | src/rocket/components/component.cpp:381-410 | the print-out lists the subtree in order, one line per component |
| TreeQueries.ReprPrefixesFit | src/rocket/components/component.cpp:393-410 | every line's prefix is at most four characters per level of the subtree longer than the first line's |
| TreeQueries.TreePrefixesFit | src/rocket/components/component.cpp:381-391 | no prefix is longer than four times the tree's height |
| TreeQueries.BranchesOfDistinctChildren | src/rocket/components/component.cpp:399-408 | the last child gets the elbow and the others the tee |
| TreeQueries.SetAllCaching | src/rocket/components/component.cpp:349-355 | only the caching switches change; the key set is the same |
| TreeQueries.SetForestCaching | src/rocket/components/component.cpp:349-355 | over a list of components, the key set is the same |
| TreeQueries.SetAllCachingSetsSubtree | src/rocket/components/component.cpp:349-355 | exactly the subtree's components get the switch |
| TreeQueries.SetForestCachingSetsForest | src/rocket/components/component.cpp:349-355 | over a list of children, exactly their subtrees' components get the switch |
| TreeQueries.SetAllCachingStructure | src/rocket/components/component.cpp:349-355 | the tree's structure is unchanged |
| TreeQueries.Burnout | src/rocket/components/component.cpp:90-98 | a component without its own motor burns out at a non-negative time |
| TreeQueries.BurnoutIsLatestChild | src/rocket/components/component.cpp:90-98 | it is the latest of its children's burnouts, or 0 |
| TreeQueries.BurnoutOfSameLists | src/rocket/components/component.cpp:90-98 | it depends only on the tree's lists |
| TreeQueries.BurnoutTimes | src/rocket/components/component.cpp:92-95 | one burnout time per child |
| TreeQueries.StoreBurnoutForest | src/rocket/components/component.cpp:93-96 | storing the children's burnout times keeps every component of the tree |
| TreeQueries.StoreBurnout | src/rocket/components/component.cpp:90-98 | the tree keeps the same components |
| TreeQueries.StoreBurnoutChangesOnlyBurnout | src/rocket/components/component.cpp:90-98 | only burnout times change, and a component without its own motor stores the burnout time it returns |
| TreeQueries.OnlyBurnoutChangedStructure | src/rocket/components/component.cpp:96 | a tree that differs only in burnout times has the same parent links, kinds and child lists |
| TreeQueries.StoreBurnoutValid | src/rocket/components/component.cpp:90-98 | storing burnout times keeps the tree invariant |
| TreeQueries.StoreBurnoutForestChangesOnlyBurnout | src/rocket/components/component.cpp:93-95 | the loop over the children changes only burnout times |
| TreeQueries.BodyRadius | src/rocket/components/externalComponent.cpp:58-64 | an unattached external part has body radius 0 |
| TreeQueries.BodyRadiusOfAttachedPart | src/rocket/components/externalComponent.cpp:58-64 | the radius of the nearest body ancestor, one or two levels up |
| TreeQueries.FindChild | src/rocket/components/bodyComponent.cpp:71-76 | found exactly when the id is a child |
| TreeQueries.BodyLift | src/rocket/components/bodyComponent.cpp:24-28 | 0 at zero angle; non-negative for a positive angle and area ratio |
| TreeQueries.BodyLiftIsOdd | src/rocket/components/bodyComponent.cpp:24-28 | an odd function of the angle when the sine is |
| TreeQueries.BodyLiftWithCache | src/rocket/components/bodyComponent.cpp:30-36 | returns the computed lift, and caches it when caching |
| Assemblies.Touch | src/rocket/components/component.cpp:27-37 | the component takes its new fields with emptied caches |
| Assemblies.TouchValid | src/rocket/components/component.cpp:27-37 | a setter keeps the tree invariant |
| Assemblies.TouchRecomputes | src/rocket/components/component.cpp:129-139 | after a setter the queries recompute from the stored values |
| Assemblies.OverrideAllMassTakesEffect | src/rocket/components/component.cpp:141-155 | `overrideMass(OVERRIDEALL, m)` makes the mass m |
| Assemblies.OverrideAllCmTakesEffect | src/rocket/components/component.cpp:264-281 | `overrideCm(OVERRIDEALL, p)` makes the centre p |
| Assemblies.StoreMass | src/rocket/components/component.cpp:129-139 | the mass memo gains the entry |
| Assemblies.StoreInertia | src/rocket/components/component.cpp:186-196 | the inertia memo gains the entry |
| Assemblies.StoreThrust | src/rocket/components/component.cpp:298-305 | the thrust memo gains the entry |
| Assemblies.InsertFreshValid | src/rocket/components/component.cpp:15-19 | a new unparented leaf keeps the invariant |
| Assemblies.Assembly.constructor | src/rocket/components/component.cpp:15-19 | an empty, valid assembly |
| Assemblies.Assembly.Create | src/rocket/components/internalComponent.cpp:13-21 | inserts the new component, added to its parent (with the cycle guard) when given |
| Assemblies.Assembly.AddComponent | src/rocket/components/bodyComponent.cpp:78-113 | the tree is ComponentTree.AddGuarded of the old tree (the written addition plus the cycle guard), and stays valid |
| Assemblies.Assembly.RemoveComponent | src/rocket/components/bodyComponent.cpp:115-144 | the tree is ComponentTree.Remove of the old tree, and stays valid |
| Assemblies.Assembly.RemoveById | src/rocket/components/component.cpp:56-61 | removes a child found by id; otherwise changes nothing, and reports the miss exactly when the parent is not a body (the body's `findComponent` at bodyComponent.cpp:71-76 prints nothing, the others at internalComponent.cpp:38, externalComponent.cpp:21 and rocket.cpp:19 do) |
| Assemblies.Assembly.SetPosition | src/rocket/components/component.cpp:76-79 | sets the position and clears caches up to the root |
| Assemblies.Assembly.SetMass | src/rocket/components/component.cpp:148-151 | sets the stored mass and clears caches |
| Assemblies.Assembly.OverrideMass | src/rocket/components/component.cpp:141-144 | sets the mass flags and clears caches |
| Assemblies.Assembly.OverrideMassWith | src/rocket/components/component.cpp:152-155 | sets the mass, then the flags, each clearing caches |
| Assemblies.Assembly.SetInertia | src/rocket/components/component.cpp:207-210 | sets the stored inertia and clears caches |
| Assemblies.Assembly.OverrideInertia | src/rocket/components/component.cpp:198-201 | sets the inertia flags and clears caches |
| Assemblies.Assembly.OverrideInertiaWith | src/rocket/components/component.cpp:211-214 | sets the inertia, then the flags |
| Assemblies.Assembly.SetCm | src/rocket/components/component.cpp:273-276 | sets the stored centre and clears caches |
| Assemblies.Assembly.OverrideCm | src/rocket/components/component.cpp:264-267 | sets the centre flags and clears caches |
| Assemblies.Assembly.OverrideCmWith | src/rocket/components/component.cpp:278-281 | sets the centre, then the flags |
| Assemblies.Assembly.SetCaching | src/rocket/components/component.cpp:345-347 | sets only this component's switch |
| Assemblies.Assembly.SetAllCaching | src/rocket/components/component.cpp:349-355 | the switch over the whole subtree, keeping the invariant |
| Assemblies.Assembly.SetAllCachingFrom | src/rocket/components/component.cpp:349-355 | the recursive method is the subtree function |
| Assemblies.Assembly.SetForestCaching | src/rocket/components/component.cpp:349-355 | the loop over children is the forest function |
| Assemblies.Assembly.CalculateBurnoutTime | src/rocket/components/component.cpp:90-98 | returns the burnout and stores it along the subtree; the tree invariant holds before and after |
| Assemblies.Assembly.LatestBurnout | src/rocket/components/component.cpp:90-98 | the latest burnout among the children, from 0; the tree invariant holds before and after |
| Assemblies.Assembly.Mass | src/rocket/components/component.cpp:129-139 | the subtree mass; with caching on, the memo gains the entry at the clamped time, and later queries agree |
| Assemblies.Assembly.Inertia | src/rocket/components/component.cpp:186-196 | the subtree inertia; with caching on, the memo gains the entry |
| Assemblies.Assembly.Thrust | src/rocket/components/component.cpp:298-305 | the subtree thrust; with caching on, the memo gains the entry |
| Assemblies.Assembly.Cm | src/rocket/components/component.cpp:255-262 | the subtree centre of mass |
| Assemblies.Assembly.ThrustPosition | src/rocket/components/component.cpp:312-339 | the cached value when caching is on and one is stored, else the thrust-weighted average over the subtree, each component's own thrust at its class's `calculateThrustPosition` (its centre of mass for the base class) |
| Assemblies.Assembly.BodyLift | src/rocket/components/bodyComponent.cpp:38-40 | the computed body lift, cached when caching |

## Left out

- Floating point is `real`: rounding, overflow, infinities and NaN arithmetic are not modelled. A NaN used as a "not computed yet" sentinel is `Option.None`, and a 0/0 is `None`.
- `sqrt`, `exp`, `pow` with fractional exponents, `sin`, `acos`, vector norms and `std::stod` are function parameters. No property of them is used beyond a lemma's own requirements.
- Text sent to `std::cerr` and `fmt::print` is a returned `reported` flag, or is omitted.
- File I/O is left out: the motor file is given as lines plus an `isOpen` flag, and the simulation's result files and timers are omitted.
- The randomness of `srand` is left out, and elapsed computing time is a parameter.
- Component UUIDs are ids chosen by the caller.
- `std::shared_ptr` handles are ids into one map of components; object lifetime and aliasing between trees are not modelled.
- Recursion over the tree carries a fuel bound equal to the number of components. The source has no cycle guard, and the invariant does not exclude cycles: a tree with a cycle exhausts the fuel instead of recursing forever. The assembly adds through the guarded addition, which refuses to close a cycle (see Findings).
- `findComponent` in the body and external classes (src/rocket/components/bodyComponent.cpp:71-76, externalComponent.cpp:17-23) compares iterators taken from separate temporary copies of `components()`. It is modelled as the intended search of the child list (`TreeQueries.FindChild`), which is what the internal class does on `_components` directly (internalComponent.cpp:34-40).
- Assemblies.Assembly.RemoveById: a motor's `findComponent` (src/rocket/components/motor/motor.hpp:60) returns none without a message, but the tree does not tell motors from other internal parts, so a miss under a motor is reported. A motor has no children, so nothing is removed either way.
- Assemblies.Assembly.AddComponent: refuses a child that is the parent or one of its ancestors, which the source accepts and which then makes `clearCaches` recurse without end (see Findings).
- The erase-inside-the-loop of the internal and external `removeComponent` is modelled as a single erase of the first occurrence. The as-written iteration is kept only to exhibit the finding.
- During a memoised mass, inertia or thrust query, the source also fills its descendants' memo tables. The model records only the queried component's entry; the returned values are unaffected.
- `Stage` (stage.cpp) is not part of this model. Stages are leaves of the tree, and adding or removing a stage goes through `ComponentTree.Add` and `ComponentTree.Remove`.
- component.hpp in this revision does not match component.cpp, so the field defaults of a new component are unknown. `Assemblies.Assembly.Create` takes the new component's node as a parameter.
- The tree print-out models the line order and branch prefixes. It leaves out the name, mass and centre-of-mass columns, the fmt field widths and the display width of the box-drawing characters.
- `Rocket::inertia` (rocket.cpp:106-112) is not modelled.
- `BodyComponent::setShape` (bodyComponent.cpp:151-168) is not modelled on the tree, whose nodes carry no shape. Its accept-or-report rule is that of `Cylinders.BodyTubeShape.SetShape`, and its cache clearing is that of `Assemblies.Touch`.
- `FinSet`'s `calculateInertia`, the fin rotation matrices, and the `CfOrk`/`CfNew` skin-friction and `subsonicCNa` correlations are left out. The subsonic slope is a parameter of `Fins.FinNormalSlope`.
- The `Sim::calculate` physics (forces, moments, rotation matrices, atmosphere lookups) is a parameter of `Simulation.Sim`. Only the derivative layout and the acceleration guards are modelled.
- Atmosphere.Pressure: from 86 to 91 km it multiplies by the corrected `Temperature`, where src/sim/RealAtmos.cpp:345 calls the written `temperature()`, which reads past the molar table there (see Findings). Below 86 km pressure does not use the temperature, and above 91 km the two temperatures agree.
- The number-density tables and the singleton access of the atmosphere are left out. The number density is a parameter of `Atmosphere.Pressure`.
- Motor.CalculateMassData: requires a non-empty thrust curve. A motor file with a header and no data lines reaches `calculateMassData` with an empty map, where `Eigen::seqN(1, -1)` at src/rocket/components/motor/motor.cpp:125 is undefined; that case is not modelled. The `std::cout` trace of the impulse fractions and masses (motor.cpp:131-146) is left out.
- Motor.FromFile: `stod` is a total function parameter, so the `std::invalid_argument` it throws on a malformed number is not modelled. The `std::cout` echo of the file name, header and curve (motor.cpp:11, 74-76) is left out.
- Motor.MassTable: requires a non-empty thrust curve, for the reason given for `Motor.CalculateMassData`.
- Nosecones.CalculateProperties: at a zero length it returns undefined volume, inertias and unfilled cm, where the source recurses without end (see Findings). The `std::cout` of the planform centre (src/rocket/shapes/primitives/nosecone/numericalNoseconeShape.cpp:163) and of the two sample counts in `bisectedAverageRadius` (numericalNoseconeShape.cpp:120 and 122) are left out.
- JSON values are a small record datatype with the nlohmann `at` and `get` failures as errors; parsing text is not modelled.
- A motor's burnout time, used by `calculateBurnoutTime`, is the `own` parameter of `TreeQueries.Burnout`.
- Aero.Cda2Cd: the contract states only the zero-angle value. The evenness of the drag factor in the angle of attack is not stated, because its proof does not finish within the solver's limits.
- TreeQueries.BodyLift: requires a non-zero reference area, where the source would divide by zero.
- Simulation.Sim.Advance: requires a positive user step. When the state has not changed, `selectTimeStep` returns the user step as it is (src/sim/simulation.cpp:294), so a zero or negative user step does not advance time, and the next call divides the state difference by that step (simulation.cpp:295); the infinities and NaN this produces are not modelled.
- Simulation.Sim.Step: requires a positive user step, for the reason given for `Simulation.Sim.Advance`.
- Simulation.Sim.Integrate: requires a positive user step, for the reason given for `Simulation.Sim.Advance`.
- Simulation.Sim.Solve: requires a positive user step, for the reason given for `Simulation.Sim.Advance`; with it, the recorded times strictly increase.
- A motor's `calculateThrustPosition` (src/rocket/components/motor/motor.hpp:40) is declared there but its body is not part of this model; it is the `thrustPosition` hook of `Aggregates.Own`, which falls back to the centre of mass when it gives none.
- The tensor about the centroid that a prism evidently intends (its corner tensor with the shift subtracted, as src/rocket/components/rocket.cpp:110 does with `inverse`) is not modelled; `Prisms.PrismInertia` follows the code, whose shift direction and product sign come from src/utils/parallelAxis.cpp (see Findings).
- Cylinders.CrossSection: only non-negativity is stated; its value (pi r^2) is tied to the other quantities by the lemmas beside it.

## Findings

| source | as written | input that shows it | evidently intended | confidence | as-written member | corrected member |
|---|---|---|---|---|---|---|
| src/utils/point.cpp:86-88 | the binary `/` divides the factor by each coordinate instead of each coordinate by the factor | (2,2,2) / 4 gives (2,2,2), since 4/2 = 2, where (0.5,0.5,0.5) is meant | division of each coordinate, as `/=` does | not executed | Points.DivAsWrittenDiffers | Points.DivUndoesScale |
| src/utils/parallelAxis.cpp:13-17 | the products of inertia are added with a positive sign | zero tensor, d = (1,1,0), unit volume: the shift maps d to (2,2,0) | the parallel-axis term `V(|d|^2 I - d d^T)`, which maps d to 0 | not executed | Maths.LegacyCounterexample | Maths.ShiftAnnihilatesDisplacement |
| src/rocket/shapes/components/fins/trapezoidalFin.cpp:21 | `2/3` is integer division, so the mean aerodynamic chord is 0; the expression also lacks the division by (1 + λ) | any fin with a non-zero root chord | (2/3) c_r (1 + λ + λ²)/(1 + λ) | not executed | FinShapes.MacAsWrittenVanishes | FinShapes.MacBetweenChords |
| src/rocket/shapes/components/fins/trapezoidalFin.cpp:29 | the spanwise MAC position uses the planform area where the span belongs | root = tip = 4, span 1: y = 2, outside the fin | (s/3)(1 + 2λ)/(1 + λ), between a third and two thirds of the span | not executed | FinShapes.YMacAsWrittenLeavesFin | FinShapes.YMacWithinFin |
| src/rocket/shapes/components/bodyTube/bodyTube.cpp:62-66 | the two end cases return [radius, 0] at the top and [0, radius] at the bottom | x = 0 gives (radius, 0) | [above, below]: (0, radius) at the top, as the nosecone does | not executed | Cylinders.BisectedAsWrittenSwapsEnds | Cylinders.BisectedAverageRadius |
| src/rocket/components/nosecone/noseconeData.cpp:45-47 | the blend weights are swapped, reflecting the interpolation | (1,0)-(2,1) at mach 1.25 gives 0.75 | linear interpolation, 0.25 | not executed | NoseconeData.MirroredBlendCounterexample | NoseconeData.InterpBetween |
| src/rocket/components/nosecone/noseconeData.cpp:6-7 | the post-increment makes the power fit use the second table point | square-law table (1.5, 2), (2, 4): the curve gives 2.25 at 1.5 | a curve through the first point, joining the table continuously | not executed | NoseconeData.PowerCurveAsWrittenMissesFirstPoint | NoseconeData.PowerCoeffs |
| src/sim/RealAtmos.cpp:37 | the 51 km base pressure is 669.38 Pa | pressure at 47.64 km rises above the 47 km base's 110.9 Pa | 66.9389 Pa from the U.S. Standard Atmosphere 1976 | not executed | Atmosphere.PressureAsWrittenJumpsAt47km | Atmosphere.GeopsPressureFalls |
| src/sim/RealAtmos.cpp:286-290 | below sea level the lapse rate is applied with the wrong sign | z = -1000 m gives less than 288.15 K | the standard layer formula, warmer below sea level | not executed | Atmosphere.TemperatureAsWrittenCoolsBelowSeaLevel | Atmosphere.TemperatureWarmsBelowSeaLevel |
| src/sim/RealAtmos.cpp:109-114 | the lookup dereferences `upper_bound` at the end of the table | 86 km in the molar table | the last value past the last key | not executed | Atmosphere.InterpMapAsWrittenPastEnd | Atmosphere.InterpMapBetween |
| src/sim/RealAtmos.cpp:291-297 | between 86 and 91 km the temperature reads past the molar table | z = 88 km | isothermal at 186.95 K times the last ratio | not executed | Atmosphere.TemperatureAsWrittenUndefinedAbove86km | Atmosphere.TemperatureIsothermalAbove86km |
| src/rocket/components/fins/finSet.cpp:120-123 | eight fins fall through to the default factor 1 | 8 fins count as 4 effective fins and 9 as 3.375, so a set of 8 has a steeper slope than a set of 9 identical fins | 0.81 for eight fins, as in the table's neighbours, so the slope grows with the fin count | not executed | Fins.SetNormalSlopeAsWrittenEightOverNine | Fins.SetNormalSlopeMonotone |
| src/rocket/components/fins/fin.cpp:96-108 | the invalid-shape message is printed after a successful set | any fin shape | report only a rejected shape | not executed | Fins.SetShapeAsWrittenReportsSuccess | Fins.SetShapeOutcome |
| src/rocket/components/internalComponent.cpp:74 | "unable to find" is printed whether or not the child was erased | removing a held child | report only a missing child | not executed | ComponentTree.RemoveAsWrittenReportsSuccess | ComponentTree.RemoveEffect |
| src/rocket/components/internalComponent.cpp:64-71 | the cursor advances after `erase`, skipping an entry and running past the end | removing the only child | one erase of the first occurrence | not executed | ComponentTree.EraseScanOverruns | ComponentTree.RemoveFirstAt |
| src/rocket/shapes/primitives/nosecone/numericalNoseconeShape.cpp:176 | the unfilled cm reads the volume through `unfilledVolume()`, which recomputes every property while the volume is NaN | a nosecone of length 0: the step is 0, the wall heights are 0/0, so the volume stays NaN and each call starts the next | store the undefined values and return | not executed | Nosecones.UnfilledCmAsWrittenLoopsAtZeroLength | Nosecones.CalculateProperties |
| src/rocket/components/internalComponent.cpp:42-59 | `addComponent` accepts any child of an accepted class, including the component itself or one of its ancestors | an internal part added to itself becomes its own parent; its next `clearCaches` (component.cpp:27-37) recurses without end | refuse a child that is the component or one of its ancestors | not executed | ComponentTree.AddAsWrittenSelfParent | ComponentTree.AddGuardedClosesNoCycle |
