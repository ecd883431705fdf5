# gravity — a verified model of the N-body core

This is a Dafny model of the simulation layer of the `gravity` N-body toy. It covers two files.

- `CelestialBody.cpp` defines one body. A body has a mass, a position, a velocity, an acceleration accumulator and a bounded trail of past positions.
  - `applyForce` adds force / mass to the accumulator.
  - `update` takes one semi-implicit Euler step and then resets the accumulator.
  - `addToTrajectory` appends a point and drops the oldest one when the trail is over its cap.
- `Simulator.cpp` defines the simulator, an ordered collection of bodies.
  - `addBody` appends a body.
  - `update(dt)` first gives every body the sum of the gravitational pulls of all the others, all computed from the start-of-tick positions. Then it integrates every body.
  - `calculateGravitationalForce` is Newton's inverse-square law. Separations are floored at 1e9, and G = 6.67430e-11.

The project has four files.

- `vectors.dfy` (module `Vectors`) holds three-vectors over `real`.
- `celestial_body.dfy` (module `Bodies`) holds the class `CelestialBody`. Its fields are updated in place by its methods.
  - Each method is specified against a function on `BodyState`, the value of a body: `Accelerated`, `Stepped` or `Pushed`.
- `gravity.dfy` (module `Gravity`) holds the pure force law.
- `simulator.dfy` (module `Simulation`) holds the class `Simulator`, whose field is a sequence of `CelestialBody` objects.
  - `Simulator.Update` is specified by the value-level function `Tick`.
  - `States()` is the value of `getBodies` (Simulator.h:17).

Beyond the per-operation contracts, the model proves the following.

- The trail always holds exactly the newest `MAX_TRAJECTORY_POINTS` positions it was given.
- Newton's third law holds pairwise.
- The net forces of a tick sum to zero.
- Total momentum is conserved by every tick that starts with the accumulators at zero, which is the state after construction and after every tick.

`glm::length` is not given a definition. Every function that needs it takes it as a parameter `norm`. The lemmas assume only `IsLength(norm)`: `norm(v)` is non-negative and its square is `Dot(v, v)`.

## Model

| member | source | states |
|---|---|---|
| Bodies.CelestialBody.constructor | CelestialBody.cpp:15-16 | A new body stores the given mass, position and velocity, has a zero acceleration and an empty trail. |
| Bodies.CelestialBody.Copy | Simulator.cpp:10-12 | The copy that `push_back` makes has the same value and the same trail cap as the original. |
| Bodies.CelestialBody.Update | CelestialBody.cpp:18-33 | The new state is one `Stepped` step of the old one. The body stays valid, with mass and trail unchanged. |
| Bodies.SteppedDisplacement | CelestialBody.cpp:24-32 | One step sets v' = v + a·dt and p' = p + v'·dt = p + v·dt + a·dt². Afterwards the acceleration is zero, and mass and trail are unchanged. |
| Bodies.CelestialBody.ApplyForce | CelestialBody.cpp:35-37 | Only the accumulator changes, and it grows by exactly force / mass. |
| Bodies.AccumulationCommutes | CelestialBody.cpp:35-37 | Two forces applied in either order give the same state. That state equals applying f1 + f2 once. |
| Bodies.CelestialBody.AddToTrajectory | CelestialBody.cpp:39-44 | Only the trail changes, to `Pushed(old trail, p, cap)`. The trail stays within its cap. |
| Bodies.Pushed | CelestialBody.cpp:39-44 | A trail within the cap stays within it and ends with p. Below the cap the old trail is a prefix and the length grows by one. At the cap the result is old[1..] + [p]. |
| Bodies.PushedAllKeepsNewest | CelestialBody.cpp:39-44 | Any run of pushes onto a trail within the cap leaves exactly the newest `cap` points of everything given, oldest first. |
| Bodies.OldestRetained | CelestialBody.cpp:40-42 | From an empty trail, n ≥ cap pushes leave exactly cap points. The first is the (n−cap+1)-th point pushed and the last is the newest. |
| Gravity.EffectiveDistance | Simulator.cpp:38-41 | The distance used is at least 1e9. It equals the true distance when that is at least 1e9 and is 1e9 otherwise. |
| Gravity.ClampedIffSquareBelow | Simulator.cpp:35-41 | The floor can be decided on the square: the length is below 1e9 exactly when the dot product is below 1e18. |
| Gravity.ClampedMagnitude | Simulator.cpp:38-45 | Below the floor the magnitude is G·m1·m2 / 1e18, whatever the true separation. |
| Gravity.Magnitude | Simulator.cpp:44-45 | For positive masses the magnitude is positive and at most G·m1·m2 / 1e18. |
| Gravity.MagnitudeSymmetric | Simulator.cpp:45 | The magnitude does not depend on the order of the two masses. |
| Gravity.LengthOfNeg | Simulator.cpp:35 | Reversing the direction does not change its length. |
| Gravity.NormalizeNeg | Simulator.cpp:53 | normalize(−v) = −normalize(v). |
| Gravity.ThirdLaw | Simulator.cpp:33-54 | The force on body1 from body2 is the negation of the force on body2 from body1. |
| Gravity.ThirdLawForAll | Simulator.cpp:33-54 | The third law holds for every pair of bodies at once. |
| Gravity.Normalize | Simulator.cpp:53 | glm::normalize: for a non-zero length, the result times the length is the vector itself (a unit vector along it). For a zero length it is the zero vector. |
| Gravity.Force | Simulator.cpp:33-54 | calculateGravitationalForce: for a separation d = b2 − b1 of non-zero length, the force is d · (Magnitude at the floored distance / length of d), i.e. normalize(d) times the magnitude. For a zero-length separation it is zero. |
| Gravity.ForceAlongSeparation | Simulator.cpp:34-53 | For distinct positions and positive masses the force is a positive multiple of b2 − b1, so it points from body1 towards body2 (it attracts), and its length is the magnitude. |
| Gravity.ForceAsWritten | Simulator.cpp:33-54 | The function as written: it has a value exactly when the separation has non-zero length, and that value is the force. |
| Gravity.CoincidentBodiesAsWritten | Simulator.cpp:47-53 | For two bodies at the same place the magnitude is positive, so the guard passes unless the float magnitude overflows, but the as-written force has no value (NaN). |
| Gravity.CoincidentBodiesNoForce | Simulator.cpp:53 | With normalize(0) taken as 0, bodies at the same place exert no force on each other. |
| Simulation.ForcePhase | Simulator.cpp:16-25 | The force loop changes only the accumulators. Mass, position, velocity and trail are kept, and the body count is unchanged. |
| Simulation.IntegratePhase | Simulator.cpp:28-30 | The integration loop leaves every accumulator at zero and keeps every mass and trail. |
| Simulation.Tick | Simulator.cpp:14-31 | A tick keeps the number of bodies and every mass and trail, and leaves every accumulator at zero. |
| Simulation.TickOfBody | Simulator.cpp:14-31 | In a tick each body's velocity gains (a + F_net/m)·dt and its position moves by the new velocity·dt. |
| Simulation.Run | Simulator.cpp:14-31 | Any number of ticks keeps the number of bodies and every body's mass and trail. |
| Simulation.PartialForceSumsOthers | Simulator.cpp:18-23 | After k steps the inner loop holds the sum of the pulls from exactly the bodies j < k with j ≠ i, in increasing index order. |
| Simulation.NetForceSumsOthers | Simulator.cpp:16-25 | The force given to body i is the sum over every j ≠ i of the pull of body j on body i. The self-pair is never included. |
| Simulation.StartOfTickForce | Simulator.cpp:16-25 | Midway through the force loop, the net force computed for body i equals the one from the start-of-tick state. |
| Simulation.ForcesFromPositions | Simulator.cpp:16-25 | Net forces depend only on masses and positions. Forces applied to earlier bodies in the loop do not change those computed for later ones. |
| Simulation.LoneBody | Simulator.cpp:18-23 | A lone body feels no force. |
| Simulation.TwoBodies | Simulator.cpp:18-23 | With two bodies, each feels exactly the pull of the other. |
| Simulation.AddedBodyPull | Simulator.cpp:16-25 | Appending a body adds exactly its pull to every earlier body's net force. |
| Simulation.ReactionSum | Simulator.cpp:16-25 | What body k feels from bodies 0..j−1 is the negation of what they feel from k. |
| Simulation.ForceSumStep | Simulator.cpp:18-23 | Letting the inner loop visit one more body k adds k's pull on each earlier body. |
| Simulation.ForcesCancelUpTo | Simulator.cpp:16-25 | Among bodies 0..k−1, the forces they exert on each other sum to zero. |
| Simulation.NetForcesCancel | Simulator.cpp:16-25 | The net forces of one tick sum to the zero vector. |
| Simulation.MomentumStep | Simulator.cpp:14-31 | From accumulators at zero, a tick changes the momentum of bodies 0..m−1 by dt times the sum of their net forces. |
| Simulation.MomentumConserved | Simulator.cpp:14-31 | A tick that starts with the accumulators at zero conserves total momentum. |
| Simulation.MomentumConservedOverRun | Simulator.cpp:14-31 | From accumulators at zero, total momentum is conserved over any number of ticks. |
| Simulation.Simulator.constructor | Simulator.cpp:8 | A new simulator holds no bodies. |
| Simulation.Simulator.AddBody | Simulator.cpp:10-12 | A fresh copy of the body, with the same value and trail cap, is appended. The earlier bodies are the same objects with the same values. |
| Simulation.Simulator.NetForceOn | Simulator.cpp:18-23 | The inner loop returns the sum, over every j ≠ i in index order, of the force on body i from body j. |
| Simulation.Simulator.ApplyNetForces | Simulator.cpp:16-25 | Every body's accumulator receives its net force, computed from start-of-tick positions. The bodies are the same objects. |
| Simulation.Simulator.Integrate | Simulator.cpp:28-30 | Every body, index 0 included, takes exactly one Euler step. |
| Simulation.Simulator.Update | Simulator.cpp:14-31 | The new values of the bodies are `Tick` of the old ones. The bodies are the same objects, in the same order. |

## Left out

- NaN/Inf guards and their logging (CelestialBody.cpp:19-22, 27-30; Simulator.cpp:39, 47-51): `real` has no non-finite values, and standard output is I/O. Over reals these guards have nothing to catch. In the source, the guard at Simulator.cpp:47-51 catches float overflow of the magnitude, which happens when G·m1·m2 / d² exceeds the largest `float`. That overflow is left out with the rest of floating point.
- With positive masses and exact arithmetic, the one source of NaN is normalize of a zero separation; that is the subject of the finding below. A zero mass is another: every force on the body is zero, and `force / mass` at CelestialBody.cpp:36 is 0/0. The constructor's positive-mass requirement excludes it. Float overflow followed by inf − inf is a third source, left out with the rest of floating point.
- Floating-point rounding and the float/double mix (for example `glm::vec3 totalForce` and `float distance`): everything is over exact reals.
- `glm::length` is the parameter `norm`, constrained only by `IsLength`; no square root is defined or verified.
- `glm::normalize(v)` is `v / norm(v)`, and for the zero vector it is the zero vector; see Findings.
- The value of `MAX_TRAJECTORY_POINTS` is not known: it is a positive constructor parameter of `CelestialBody`.
- `Bodies.CelestialBody.constructor` requires a positive mass. The source accepts any mass, but `applyForce` divides by it.
- `vec3_to_string`, the getters, the renderer, `main.cpp` and the stale `float` signatures in the headers are not part of this model.
- Mass sorting, an anchored index 0, trajectory recording inside `Simulator::update`, collisions and merging, and higher-order integrators are not in the code, so they are not modelled.
- `Simulator::update` is one function with two loops. In the model those loops are the two methods `ApplyNetForces` and `Integrate`, which `Update` calls in order.
- The inner `j` loop of the force phase is the read-only method `NetForceOn`.

## Findings

| source | as written | input that shows it | evidently intended | confidence | as-written member | corrected member |
|---|---|---|---|---|---|---|
| Simulator.cpp:53 | `glm::normalize(direction)` divides by the length of the separation. The magnitude guard at lines 47-51 does not cover this division. | Two bodies at the same position: the length is 0, the clamped magnitude is G·m1·m2 / 1e18 (no overflow for ordinary masses), and normalize returns NaN components. The NaN then reaches the accumulator and the velocity. | The comment at line 37 says division by zero is to be avoided, so coincident bodies should exert no (or a finite) force. | medium — matches glm's documented normalize; not executed | Gravity.CoincidentBodiesAsWritten | Gravity.CoincidentBodiesNoForce |
