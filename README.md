# web_painting: a Dafny model of the painting client's core

web_painting is a shared canvas in the browser. Users drag the mouse to paint a stroke, the
stroke becomes an animated effect (a rain cloud or a patch of dirt), and strokes are sent to
and received from a server. This project models the client's core in Dafny:

- **VectorLib** (`vector_lib.dfy`, from `public/VectorLib.js`): the `VectorMath` statics and
  the mutable `Vector2`. Pure statics work on a `Vec` value. The two statics that write through
  their argument (`Scale` and `GetNormalized`) and every `Vector2` setter are methods on a
  class with `modifies` clauses, so the aliasing in the source is visible in the contracts.
- **Utils** (`utils.dfy`, from `public/utils.js`): `lerp`, `clamp`, `ease_back`,
  `dot_product_to_angle`, `pos_neg_rand`, the polyline sampler `sample_spline`, the loop
  `multisample_spline` and `get_directions_from_spline`.
- **Strokes** (`strokes.dfy`, from `public/Stroke.js`):
  - the `Stroke` class: constructor, `getRandomType`, `advanceTime`, `simplify` and the
    `drawStroke` dispatch;
  - the lazily built cloud and dirt render state, the raindrop pool and the cloud growth ramp;
  - Stroke.js's own `multisample_spline`, which divides by `samples`, not `samples - 1`.
- **Flocking** (`flocking.dfy`, from `public/Boids.js`): the `Boids` container and `Boid`'s
  field-of-view test and neighbour scan.
- **Driver** (`driver.dfy`, from `public/main.js`): the page state and its handlers, each a
  method of `App`. These cover mousedown, mouseup, the point-append rule of `updateDrawBuffer`,
  `commitBuffer`, `receiveStrokes` and `newStroke`. The per-frame `updateBGBuffer` loop is
  modelled both as written and as evidently intended.
- `randomness.dfy` models `Math.random()` as a fixed stream of draws in [0, 1).
- `wrappers.dfy` holds `Option`, used where the source yields `undefined`.

Modelling conventions:

- JavaScript numbers are `real`: no rounding, no NaN, no infinities.
- `Math.floor` is `.Floor`. `Math.round(x)` is `(x + 0.5).Floor`. JavaScript's `%` keeps the
  sign of the dividend and is written out as `JsRemainder`.
- A square root is never taken. Where the source computes a magnitude or a distance, the caller
  passes the value `m` together with `IsMagnitude(v, m)`, i.e. `m >= 0` and `m * m` equals the
  squared length.
- Where the source throws a TypeError, the model returns `ok == false` or `None`. This covers
  reading `.x` of `undefined` in `sample_spline`, or reading it from an empty mouse buffer.

Where the design description and the code disagree, the model follows the code:

- The design describes strokes with a lifetime that die, wind and bird effects, and cross-stroke
  coupling through `environment`. In this code:
  - `isAlive` is never assigned, so it reads as `undefined`, which is false;
  - `drawWind` and `drawDefault` are empty;
  - `environment` is set every frame but never read.
- The camera is created at the origin and never moved, so `CAMERA` is a constant.
- The design says a completed gesture is always appended. In the code, `commitBuffer` first
  draws the new stroke. If that draw throws, for example on a one-point cloud stroke, nothing
  is appended or sent and the mouse buffer is not emptied.
- The field-of-view test `dot_product_to_angle(d) < 25` holds for every dot product of two
  unit vectors, so it lets through every other boid except one at exactly the same position
  (`Flocking.FovSeesAllButSelf`).

## Model

| member | source | states |
|---|---|---|
| VectorLib.VectorMath.Add | public/VectorLib.js:10-15 | the sum is the point from which subtracting either summand gives back the other |
| VectorLib.VectorMath.AddScalar | public/VectorLib.js:17-22 | adding a scalar is adding the vector (s, s) |
| VectorLib.VectorMath.Subtract | public/VectorLib.js:24-29 | the difference is (0, 0) exactly when the two points are equal |
| VectorLib.VectorMath.SubtractScalar | public/VectorLib.js:31-36 | subtracting a scalar is subtracting (s, s), and AddScalar with the same scalar undoes it |
| VectorLib.VectorMath.GetDistanceNoSqrt | public/VectorLib.js:52-57 | the squared distance is the dot product of the difference with itself, and never negative |
| VectorLib.VectorMath.GetMidpoint | public/VectorLib.js:65-69 | the midpoint doubled is the sum of the two ends |
| VectorLib.VectorMath.GetDotProduct | public/VectorLib.js:71-73 | a vector's dot product with itself is never negative |
| VectorLib.VectorMath.EqualTo | public/VectorLib.js:90-97 | exact component equality: true exactly when the two vectors are equal |
| VectorLib.VectorMath.Scale | public/VectorLib.js:38-43 | the argument is overwritten with its scaled coordinates and a fresh vector with the same coordinates is returned |
| VectorLib.VectorMath.GetNormalized | public/VectorLib.js:75-81 | the argument is overwritten with itself divided by its non-zero magnitude; the fresh result has those coordinates and unit length |
| VectorLib.Vector2.Zero | public/VectorLib.js:101-106 | the no-argument constructor yields (0, 0) |
| VectorLib.Vector2.Copy | public/VectorLib.js:107-110 | the one-argument constructor copies x and y into a new object, not an alias of the argument |
| VectorLib.Vector2.constructor | public/VectorLib.js:111-114 | the two-argument constructor stores (x, y) |
| VectorLib.Vector2.SetVector | public/VectorLib.js:181-184 | this takes the argument's coordinates |
| VectorLib.Vector2.Add | public/VectorLib.js:118-122 | this becomes the component-wise sum; the argument is unchanged unless it is this, which is then doubled |
| VectorLib.Vector2.Subtract | public/VectorLib.js:130-134 | this becomes the component-wise difference; the argument is unchanged unless it is this, which then becomes (0, 0) |
| VectorLib.Vector2.Scale | public/VectorLib.js:142-146 | written twice, through VectorMath.Scale and through SetVector, but this ends up scaled exactly once |
| VectorLib.Vector2.GetNormalized | public/VectorLib.js:171-173 | returns a fresh unit vector and also normalises this in place |
| VectorLib.Vector2.SetNormalized | public/VectorLib.js:175-179 | this becomes itself divided by its magnitude, a unit vector |
| VectorLib.Vector2.GetDistanceNoSqrt | public/VectorLib.js:152-157 | the instance squared distance agrees with the static one |
| VectorLib.Vector2.EqualTo | public/VectorLib.js:190-192 | true exactly when both coordinates are equal |
| VectorLib.NormalizedIsUnit | public/VectorLib.js:75-81 | a vector divided by its non-zero magnitude has length 1 |
| VectorLib.UnitDotBounds | public/VectorLib.js:71-73 | the dot product of two unit vectors lies in [-1, 1] |
| VectorLib.AddCommutes | public/VectorLib.js:10-15 | Add is symmetric |
| VectorLib.DistanceOfSelf | public/VectorLib.js:52-57 | a point is at squared distance 0 from itself |
| VectorLib.DistanceSymmetric | public/VectorLib.js:52-57 | the squared distance is symmetric |
| VectorLib.DotProductSymmetric | public/VectorLib.js:71-73 | the dot product is symmetric |
| VectorLib.MidpointOfSelf | public/VectorLib.js:65-69 | the midpoint of a point with itself is that point |
| VectorLib.MidpointIsHalfSum | public/VectorLib.js:65-69 | the midpoint is the sum scaled by one half |
| VectorLib.MidpointEquidistant | public/VectorLib.js:52-69 | the midpoint is at the same squared distance from both ends |
| VectorLib.EqualToIsEquivalence | public/VectorLib.js:90-97 | EqualTo is reflexive, symmetric and transitive |
| Utils.PosNegRand | public/utils.js:15-17 | a draw in [0, 1) becomes a value in [-1, 1), negative exactly for draws below 0.5 |
| Utils.Clamp | public/utils.js:70-72 | never below min; with min <= max never above max, and the value itself when it is in range; min when the value is below it |
| Utils.ClampIdempotent | public/utils.js:70-72 | with ordered bounds, clamping twice is clamping once |
| Utils.EaseBack | public/utils.js:11-13 | ease_back(0, o) == 0 and ease_back(1, o) == 1 for every overshoot o |
| Utils.DotProductToAngle | public/utils.js:61-64 | -1 maps to -180 and 1 maps to 0; the result is below 25 exactly when the dot product is below 115/90 |
| Utils.DotProductToAngleIncreasing | public/utils.js:61-64 | the remap is strictly increasing |
| Utils.Lerp | public/utils.js:19-21 | interpolating between equal ends gives that value for every f |
| Utils.LerpEnds | public/utils.js:19-21 | lerp(a, b, 0) == a and lerp(a, b, 1) == b |
| Utils.LerpBetween | public/utils.js:19-21 | for f in [0, 1], lerp lies between a and b |
| Utils.SampleSpline | public/utils.js:23-31 | a point is returned exactly when the polyline has at least two points and the fraction is non-negative; otherwise the source throws |
| Utils.SplineIndex | public/utils.js:24-25 | the segment index is never above len - 2, and below it only as floor(fac * len) |
| Utils.SplineIndexInRange | public/utils.js:24-25 | with at least two points and a non-negative fraction the clamped segment index lies in [0, len - 2] |
| Utils.SplineIndexOfOnePoint | public/utils.js:24-25 | on a one-point polyline the clamped index is negative |
| Utils.SampleAtZero | public/utils.js:23-31 | fraction 0 gives the first point |
| Utils.SampleAtOne | public/utils.js:23-31 | fraction 1 gives the second-to-last point |
| Utils.SampleBetweenNeighbours | public/utils.js:23-31 | for fac >= 0 every sample is a convex combination of two consecutive points, with one shared sub-position t in [0, 1); hence it lies in the box they span |
| Utils.MultisampleSpline | public/utils.js:33-43 | fails exactly when a sample is taken from fewer than two points; otherwise max(samples - 1, 0) points, point i being the sample at i / (samples - 1) |
| Utils.MultisampleFractions | public/utils.js:37-38 | every fraction multisample_spline uses lies in [0, 1) |
| Utils.GetDirectionsFromSpline | public/utils.js:45-59 | one fresh unit vector per segment, built from points i and i + 1 only, then the last one repeated as the same object; [null] for fewer than two points |
| Utils.SegmentDirectionIsUnit | public/utils.js:49-50 | each segment direction has length 1 |
| Strokes.Round | public/Stroke.js:23 | Math.round lands within one half of its argument |
| Strokes.JsRemainder | public/Stroke.js:24 | JavaScript's % agrees with the mathematical remainder on non-negative dividends and is never positive on negative ones |
| Strokes.GetRandomType | public/Stroke.js:22-26 | every result is one of cloud, dirt or wind, and every non-negative seed gives a result |
| Strokes.RandomTypeOfZero | public/Stroke.js:22-24 | seed 0 gives "dirt" |
| Strokes.RandomTypePeriodic | public/Stroke.js:22-24 | the type repeats every 0.03 of the seed |
| Strokes.RandomTypeNeighboursDiffer | public/Stroke.js:22-24 | seeds 0.01 apart give different types |
| Strokes.Stroke.constructor | public/Stroke.js:11-16 | keeps the caller's type and points; properties unset, time 0, not alive, no environment |
| Strokes.StrokeList.constructor | public/main.js:22 | the page's stroke list starts empty |
| Strokes.Stroke.AdvanceTime | public/Stroke.js:28-30 | time goes up by exactly 1; render state and environment are unchanged |
| Strokes.Stroke.Simplify | public/Stroke.js:32-37 | the record carries this stroke's own type and points |
| Strokes.Stroke.DrawStroke | public/Stroke.js:39-53 | dispatch on the type; returns normally exactly when the stroke is drawable; wind and unknown types change nothing and draw no random numbers; a built dirt stroke is left as it is. A cloud stroke gets one frame of drawCloud with the unit RAIN_DIRECTION: clouds built once at size SIZE_STEP and only grown afterwards, one drop sampled at the last draw pushed onto the pool, every drop moved. A dirt stroke draws no random number, and its first draw samples max(min(4 len, 50) - 1, 0) dirt points along the spline |
| Strokes.Stroke.DrawCloud | public/Stroke.js:55-148 | builds the clouds only while properties are unset: min(5 len, 100) - 1 clouds, never rebuilt; each frame pushes the drop sampled at the latest draw, evicts the oldest over 100, moves every drop and grows every cloud; throws exactly for fewer than two points, after building no clouds for an empty stroke |
| Strokes.Stroke.InitClouds | public/Stroke.js:70-99 | one cloud per sample at i / min(5 len, 100), each with sizeFac 0 and fewer than 20 micropoints within CLOUD_RADIUS of its centre; no rain yet |
| Strokes.Stroke.RainFrame | public/Stroke.js:104-134 | one random draw; a sampled drop pushed onto the pool, then every drop shifted and every cloud grown |
| Strokes.Stroke.ShiftRain | public/Stroke.js:114-118 | every drop is moved in place by the same vector; the clouds are untouched |
| Strokes.Stroke.GrowClouds | public/Stroke.js:131-134 | every cloud's sizeFac moves to min(sizeFac + 0.03, 1); the rain is untouched |
| Strokes.Stroke.DrawDirt | public/Stroke.js:150-171 | the first draw stores min(4 len, 50) - 1 sampled points and an empty lifePoints; later draws change nothing; a one-point stroke throws on its first draw |
| Strokes.MultisampleSpline | public/Stroke.js:210-219 | like utils.js's sampler but at fractions i / samples |
| Strokes.LocalFractions | public/Stroke.js:213-214 | those fractions lie in [0, 1) |
| Strokes.MicropointBound | public/Stroke.js:84 | floor(random * 20) lies in [0, 19] |
| Strokes.MakeMicropoints | public/Stroke.js:81-91 | fewer than 20 micropoints, each within CLOUD_RADIUS of the centre on both axes |
| Strokes.MakeClouds | public/Stroke.js:80-98 | one cloud per sampled point, at that point, with sizeFac 0 |
| Strokes.CloudCountRange | public/Stroke.js:71-72 | a drawable cloud stroke builds between 9 and 99 clouds |
| Strokes.PushRain | public/Stroke.js:104-112 | the new drop is last; the pool is the old pool plus the drop, minus the oldest when over 100; it never grows past 100 |
| Strokes.PushRainIsFifo | public/Stroke.js:104-112 | on a full pool the oldest drop leaves and the new one joins at the end |
| Strokes.Shifted | public/Stroke.js:114-118 | subtracting the direction from each moved drop gives back the original drop |
| Strokes.Grow | public/Stroke.js:134 | sizeFac never exceeds 1, never decreases from at most 1, and steps by 0.03 until it reaches 1 |
| Strokes.Grown | public/Stroke.js:131-134 | positions and micropoints stay; sizeFac in [0, 1] stays there and does not decrease |
| Strokes.SizeAfterClosedForm | public/Stroke.js:134 | after k frames a cloud's sizeFac is min(0.03 k, 1) |
| Strokes.SizeStaysFull | public/Stroke.js:134 | once a cloud is full size it stays full size |
| Flocking.Sight | public/Boids.js:31-35 | a boid never sees itself, and sees only boids closer than VISION_RADIUS |
| Flocking.DefaultNearest | public/Boids.js:22 | the default nearest is index 0 or 1 and never the boid itself |
| Flocking.InFieldOfView | public/Boids.js:69-81 | a point at distance 0 is never in view (the source divides by 0 and every comparison with NaN is false) |
| Flocking.Scan | public/Boids.js:29-46 | the scan of the first n indices counts at most n boids |
| Flocking.ScanStep | public/Boids.js:31-45 | one pass never moves the nearest further away; it counts one more exactly when the index is seen; the nearest changes only to a seen index strictly closer than the old one |
| Flocking.Perceive | public/Boids.js:19-46 | the perception counts at most the whole swarm and its nearest distance is never above the default nearest's |
| Flocking.FovSeesAllButSelf | public/Boids.js:69-81 | with a unit heading, isInFOV holds exactly for points at non-zero distance |
| Flocking.ScanNoFurther | public/Boids.js:38-41 | the scan never ends further away than the default nearest |
| Flocking.ScanMinimal | public/Boids.js:38-41 | the final nearest distance is at most every seen boid's distance |
| Flocking.ScanNearestSeen | public/Boids.js:38-41 | the nearest is the default or a seen boid at the recorded distance |
| Flocking.ScanEarliestWins | public/Boids.js:38-41 | replacement needs strict <, so every seen boid before the nearest is strictly further away |
| Flocking.ScanCountsSeen | public/Boids.js:29-46 | the count is exactly the number of seen indices, and the centre point exactly the sum of their positions |
| Flocking.ScanCountBound | public/Boids.js:29-46 | an unseen index caps the count of visible boids below the number scanned |
| Flocking.PerceiveFacts | public/Boids.js:19-46 | in a swarm of two or more the nearest is never the boid itself and is no further than the default; the count is exactly the number of boids in sight, which excludes the boid itself; the centre point is the sum of their positions |
| Flocking.PerceiveEarliestNearest | public/Boids.js:22-41 | the nearest is the default (which need not be in sight) or a boid in sight at its own distance; no boid in sight is closer, and every boid in sight before the nearest is strictly further, so a nearest in sight is the earliest of the closest |
| Flocking.PerceptionsAt | public/Boids.js:107-111 | entry i of a swarm update is boid i's own perception of the whole swarm |
| Flocking.Boid.constructor | public/Boids.js:13-16 | keeps the caller's position object; the heading is a fresh unit copy, and the caller's direction is normalised in place too |
| Flocking.Boid.IsInFOV | public/Boids.js:69-81 | the answer is InFieldOfView for the boid's position and heading |
| Flocking.Boid.Visit | public/Boids.js:31-45 | one loop pass: the visibility test, replacement of the nearest only when strictly closer, and centerPoint.Add, the only object written |
| Flocking.Boid.Survey | public/Boids.js:29-46 | the loop computes the Scan of the swarm into a fresh centre vector and writes no boid |
| Flocking.Boid.Update | public/Boids.js:18-46 | nothing for a swarm of at most one; otherwise the perception from the default nearest, with avoidFac from the default's distance; no boid changes |
| Flocking.Boids.constructor | public/Boids.js:85-88 | an empty swarm with length 0 |
| Flocking.Boids.AddBoid | public/Boids.js:90-93 | one new boid at the end, earlier boids unchanged, length + 1 |
| Flocking.Boids.PopBoid | public/Boids.js:95-97 | removes the last boid if any and leaves length as it is, so after a pop from an in-step swarm getLength() == length - 1 |
| Flocking.Boids.GetBoid | public/Boids.js:99-101 | the i-th boid in insertion order, null (undefined) out of range |
| Flocking.Boids.GetLength | public/Boids.js:103-105 | the array's size, never above the length counter |
| Flocking.Boids.Update | public/Boids.js:107-111 | each boid updated in turn with its own index; the list of perceptions is Perceptions of the swarm |
| Driver.App.constructor | public/main.js:16-25 | empty stroke list, button up, empty buffer; the seed is the next random draw (main.js:46) |
| Driver.App.MouseDown | public/main.js:37-40 | the button is down and the point is appended to the buffer |
| Driver.App.UpdateDrawBuffer | public/main.js:85-97 | with the button down, the point is appended exactly when its squared distance to the last buffered point exceeds 2500; an empty buffer throws; with the button up nothing changes |
| Driver.SpacingBySquares | public/main.js:95 | comparing the distance with 50 is comparing its square with 2500 |
| Driver.App.MouseUp | public/main.js:41-44 | the button is up, then the buffer is committed |
| Driver.App.CommitBuffer | public/main.js:134-153 | a non-empty buffer becomes one fresh stroke at the end of the list, with the seed's type, points shifted by the camera, parented to the list, and sent; the buffer is emptied; if the first draw throws nothing is appended and the buffer stays |
| Driver.ViewCorrect | public/main.js:139-141 | each corrected point plus the camera is the buffered point, in order |
| Driver.App.ReceiveStrokes | public/main.js:123-132 | a new list with one fresh stroke per record, same order, type and points |
| Driver.App.NewStroke | public/main.js:155-161 | exactly one fresh stroke with the record's type and points appended at the end |
| Driver.UpdateBGBuffer | public/main.js:71-83 | as written: when every stroke is drawable the loop completes; the list becomes the strokes whose fate is not Removed, in order; every visited stroke is parented and advanced once, and a stroke stepped over keeps its time, render state and environment: it is neither advanced, drawn nor parented |
| Driver.Sweep | public/main.js:74-82 | the loop as written, on a local copy: it completes when every stroke is drawable and ends with the survivors |
| Driver.Step | public/main.js:79-82 | one turn as written: the stroke at index i is the original's j-th; after a splice the next stroke takes index i and is stepped over |
| Driver.Tick | public/main.js:75-77 | parent, advance once, draw; returns normally exactly when the stroke is drawable |
| Driver.TickAt | public/main.js:75-77 | a tick on the j-th stroke changes only that stroke |
| Driver.Splice | public/main.js:80 | splice(i, 1): one shorter, elements before i unchanged, elements after i shifted down by one |
| Driver.FatesVisitedCorrect | public/main.js:74-82 | every stroke the loop as written does visit stays exactly when alive |
| Driver.SkipFollowsRemoval | public/main.js:79-82 | a stroke is stepped over exactly when the stroke before it was removed |
| Driver.AllDeadFates | public/main.js:74-82 | with no stroke alive the fates alternate: removed, stepped over, removed, ... |
| Driver.AllDeadSurvivors | public/main.js:74-82 | with no stroke alive the loop as written keeps exactly the strokes at odd positions |
| Driver.AsWrittenKeeps | public/main.js:74-82 | as written, a stroke stays exactly when it is alive or was stepped over |
| Driver.TwoDeadStrokes | public/main.js:74-82 | two dead strokes: the loop as written keeps the second, the intended loop neither |
| Driver.UpdateBGBufferCorrected | public/main.js:71-83 | as intended: every stroke is visited, advanced and parented, and exactly the live ones remain, in order |
| Driver.SweepCorrected | public/main.js:74-82 | the intended loop ends with exactly the live strokes |
| Driver.StepCorrected | public/main.js:79-82 | one intended turn: the index moves on only past a stroke that stays |
| Driver.IntendedKeeps | public/main.js:74-82 | as intended, a stroke stays exactly when it is alive |
| Driver.IntendedAllDead | public/main.js:74-82 | as intended, a list with no live stroke becomes empty |
| Driver.Fates | public/main.js:74-82 | one fate per stroke for the loop as written (Kept, Removed, or Skipped for the stroke that slides into a freed index); what each fate means is stated by Driver.FatesVisitedCorrect, Driver.SkipFollowsRemoval and Driver.AllDeadFates |
| Driver.Survivors | public/main.js:79-81 | the splices never lengthen the list; membership and order are stated by Driver.SurvivorsMember, Driver.SurvivorsSubset and Driver.SurvivorsDistinct |
| Driver.SurvivorsMember | public/main.js:79-81 | in a list without repeats a stroke survives exactly when its fate is not Removed |
| Driver.SurvivorsSubset | public/main.js:79-81 | splicing only removes: every survivor was in the list |
| Driver.SurvivorsDistinct | public/main.js:79-81 | the survivors of a list without repeats have no repeats |
| Driver.SurvivorsNone | public/main.js:79-81 | when every stroke is removed nothing survives |

## Left out

- Canvas drawing is not modelled: `draw_circle`, every `ctx` call, colours, line widths and the compositing in `main`. The preview loop in `updateDrawBuffer` (main.js:99-119) draws only.
- The socket, DOM listeners, `window.onload`, `requestAnimationFrame` and `console.log` are not modelled. What `commitBuffer` would send is the result of `App.CommitBuffer`.
- `Math.random` is a stream of draws in [0, 1) with no distribution. Only bounds that hold for every draw are stated.
- `Math.sqrt`, `Math.sin` (the cloud wiggle) and `Math.atan` are not computed. Magnitudes and distances are passed in with `IsMagnitude`. The wiggle, the drop line and the micropoint radius only feed the canvas.
- Floating-point rounding, NaN and infinities are not modelled. A zero-magnitude normalisation is excluded by `requires`, and the zero-distance field-of-view case returns false as NaN comparisons do.
- Boid steering and integration (Boids.js:27, 48-65) are not modelled. They call `Vector2.GetAngle` and `VectorMath.AngleToDirection`, neither of which exists, and the statics' `GetAngle` takes two vectors, not one.
- `Vector2.AddScalar`, `Vector2.SubtractScalar` and `Vector2.SetMidpoint` are not modelled. Each passes one argument to a two-argument static, so each is broken as written. The statics themselves are modelled.
- `GetMagnitude`, `GetDistance` and `GetAngle` are not modelled: they are square roots and arc tangents.
- `format_rgb` and `ToString` are not modelled: they only format strings.
- `drawWind` and `drawDefault` have empty bodies.
- public/Camera.js is not part of this model. main.js uses a plain `Vector2` at the origin as its camera.
- Default arguments (`new Stroke()`, `new Boid()`, `addBoid()`) are not modelled; callers pass every argument. `Boid`'s default direction (0, 0) cannot be normalised.
- Stroke.js's copies of `lerp`, `ease_back` and `sample_spline` are word-for-word copies of utils.js's. They are defined once, in Utils.
- `get_directions_from_spline` assumes every segment has non-zero length. A repeated point makes the source divide by zero.
- VectorLib.VectorMath.GetDistanceNoSqrt: states only that the squared distance is >= 0, and (VectorLib.DistanceOfSelf) 0 for equal points. The converse, 0 only for equal points, is not stated, because it is beyond the solver's nonlinear real arithmetic here. Z3 proves `p * p + q * q > 0.0` for plain reals `p` and `q` that are not both zero. It does not prove the same once the coordinate differences `a.x - b.x` and `a.y - b.y` stand for `p` and `q`, nor `d > 0.0 ==> d * d > 0.0` once `d * d` is reached through a function definition.
- Driver.UpdateBGBuffer: makes no promise about the list when a draw throws mid-frame. The loop splices a local copy of the list and stores it back at the end; no code reads the list during the loop, so the final state is the same.
- Driver.UpdateBGBuffer: takes the page's stroke list as a parameter rather than reading a global. `App` holds that list.
- Flocking.Boid.Update: models `update` only up to the end of the neighbour scan, without the call at line 27. That call, `this.direction.GetAngle()` at public/Boids.js:27, names a method `Vector2` does not have. As written, `update` therefore throws a TypeError before the scan, whenever the swarm has more than one boid. Boid.Update and Boid.Survey model the scan the code would run without that line. The program as written never reaches it. Distances and the visibility test use distances passed in, not recomputed square roots.

## Findings

| source | as written | input that shows it | evidently intended | confidence | as-written member | corrected member |
|---|---|---|---|---|---|---|
| public/main.js:74-82 | `strokes.splice(i, 1)` inside a `for` loop that still runs `i++`: the stroke after a removed one slides into index i and is never visited that frame, so it is neither advanced, drawn nor removed | two strokes, neither alive: the first is removed, the second stays. Since `isAlive` is never set, every frame keeps half the list (Driver.TwoDeadStrokes, Driver.AllDeadSurvivors) | every stroke is visited each frame and exactly the dead ones are removed | not executed | Driver.UpdateBGBuffer | Driver.UpdateBGBufferCorrected |
