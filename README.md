# Procedural circuit background, modelled in Dafny

The portfolio page draws a full-screen animated background (`BackgroundAnimation`,
`src/App.js`). On mount it does three things:

- It builds a "circuit board". Fifty traces are walked as clamped orthogonal random walks
  on a 30 × 30 grid of 15-unit cells centred on the origin.
- It collects every visited coordinate in a set of `"x,y"` strings and puts one node marker
  on each. About half of the traces also get a signal particle.
- It spawns 250 light streaks.

Every animation frame moves each signal along its trace by arc length and each streak to
the right, wrapping at the edge. Every change of the scroll progress `p` crossfades the
circuit layer out and the streak layer in.

The model has these modules:

| module | file | what it holds |
|---|---|---|
| `Grid` | `grid.dfy` | grid constants, integer points, clamping, start coordinates |
| `Traces` | `traces.dfy` | a trace as a function of its random draws: the re-drawn loop bound, the step, the walk, its shape |
| `NodeKeys` | `nodekeys.dfy` | the `` `${x},${y}` `` key, and its parse-back with `split(',')` and `Number` |
| `Circuit` | `circuit.dfy` | the generation loops as methods, the node set, one marker per node, the signal records |
| `SignalMotion` | `signals.dfy` | `% 1`, the two per-frame loops (total length, first matching segment), interpolation, and the `Signal` object |
| `Streaks` | `streaks.dfy` | streak spawning and wraparound, and the `Streak` object |
| `Crossfade` | `crossfade.dfy` | the opacities and colour blend factor as functions of `p` |
| `Background` | `background.dfy` | the whole scene: mount, one frame over all objects, scroll |

The model handles its inputs as follows:

- Every `Math.random()` call is a caller-supplied draw in [0, 1).
- Grid coordinates are `int`; progress, speeds, positions and opacities are `real`.
- The generator, the per-frame loops and the objects they update are imperative: methods
  with loops, and classes with `modifies` clauses.
- Each of these is proved against the specification functions (`TracePoints`,
  `CircuitKeys`, `Seeds`, `TotalLength`, `Locate`, `StreakStep`), and the properties are
  lemmas about those functions.
- The crossfade is pure: it is a set of functions.

The model treats three places in the code carefully:

- **When the walk stops.** The inner loop's bound `Math.floor(Math.random() * 5) + 3` is
  re-drawn before every iteration, so a trace takes a sequence of bound draws. The loop
  stops at the first index that is not below its fresh bound. That index is always
  between 3 and 7.
- **Zero-length segments.** Clamping can turn a move into no move at all, so a segment
  can have length 0. The lookup then divides 0 by 0. `Lookup.ZeroLength` exposes that
  case and `Position.NaN` is where it leads. It can happen only at distance 0 on the
  first segment. Two kinds of trace reach it. In the first, every move is clamped away
  at the left or bottom edge, so the total length is 0 and every frame divides 0 by 0;
  a trace stuck in a corner is one such case. In the second, the first move is clamped
  away, and the division happens on a frame where progress is exactly 0.
- **Segment lengths.** Trace segments are axis-parallel, so the source's `distanceTo` of a
  segment is `|dx| + |dy|`, an integer (`SegLenIsDistance`). Arc lengths are therefore
  exact.

## Model

| member | source | states |
|---|---|---|
| `Grid.Clamp` | src/App.js:264-265 | the clamped value lies in [-225, 225], is the value itself when already inside, otherwise is the bound it passed, and keeps multiples of 15 |
| `Grid.StartCoord` | src/App.js:255-256 | a start coordinate is a multiple of 15 in [-225, 210]: 225 itself is never a start |
| `Traces.SegmentBound` | src/App.js:260 | each freshly drawn loop bound lies in [3, 7] |
| `Traces.StepLength` | src/App.js:261 | a move's length is a multiple of 15 between 30 and 90 |
| `Traces.StartPoint` | src/App.js:255-257 | the first point of a trace is a grid point |
| `Traces.SegmentCountFrom` | src/App.js:260 | from iteration j the loop runs to some n in [max(j, 3), 7], and n is not below its own bound draw, so the loop stops there |
| `Traces.SegmentCountFromFirstStop` | src/App.js:260 | every iteration before the stopping index is below its bound draw: the loop stops at the first failing test |
| `Traces.SegmentCountRange` | src/App.js:260 | the iteration count lies in [3, 7]; iterations 0-2 always pass the test; every iteration before the count passes and the count itself fails |
| `Traces.StepShape` | src/App.js:261-265 | a step from a grid point lands on a grid point differing in at most one coordinate by at most 90; the axis not drawn only gets clamped |
| `Traces.ClampMove` | src/App.js:262-265 | moving a grid coordinate by whole cells, at most 90, then clamping, stays a multiple of 15 at most 90 away: clamping only shortens a move |
| `Traces.Step` | src/App.js:261-265 | computes one inner-loop iteration: x moves when the axis draw exceeds 0.5 and y otherwise, by plus the length when the sign draw exceeds 0.5 and minus it otherwise, then both coordinates are clamped; `StepShape` proves its shape |
| `Traces.SegmentCount` | src/App.js:260 | computes how many times the inner loop runs, testing each index against its own fresh bound; `SegmentCountRange` states what it promises |
| `Traces.TracePoints` | src/App.js:253-268 | computes the points one trace pushes: the walk from its start point over exactly `SegmentCount` iterations; `TraceShape` proves its shape |
| `Traces.Walk` | src/App.js:257-267 | the walk after n iterations has n + 1 points and starts at the start point |
| `Traces.WalkShape` | src/App.js:260-267 | every point of a walk from a grid point is a grid point, and consecutive points are adjacent |
| `Traces.TraceShape` | src/App.js:253-268 | every trace has 4 to 8 points, one more than its iteration count, starts at its start point, and is well formed |
| `NodeKeys.IntToString` | src/App.js:258 | computes the decimal text a template literal gives an integer: a '-' for negatives, then the digits without leading zeros; `NumberOfIntToString` inverts it |
| `NodeKeys.Number` | src/App.js:281 | computes `Number` on the empty string (0), on decimal digits and on '-' followed by digits; anything else is None (NaN) |
| `NodeKeys.Encode` | src/App.js:258 | computes the key `` `${x},${y}` `` of a point; `DecodeEncode` and `EncodeInjective` state what it promises |
| `NodeKeys.Decode` | src/App.js:281 | computes `const [x, y] = key.split(',').map(Number)`: a point when the first two parts are numbers, None otherwise |
| `NodeKeys.DigitChar` | src/App.js:258 | a digit's character is a decimal digit with that value |
| `NodeKeys.Split` | src/App.js:281 | `split(',')` returns at least one part |
| `NodeKeys.NatToStringDigits` | src/App.js:258 | a natural number prints as a non-empty string of digits |
| `NodeKeys.IntToStringCommaFree` | src/App.js:258 | a printed integer holds no comma, so the key's comma is its only one |
| `NodeKeys.DigitsValueOfNat` | src/App.js:281 | reading back the digits of a printed natural gives the number |
| `NodeKeys.NumberOfIntToString` | src/App.js:281 | `Number` of a printed integer, negatives included, is that integer |
| `NodeKeys.SplitCommaFreePrefix` | src/App.js:281 | splitting a comma-free prefix followed by more text glues that prefix onto the first part |
| `NodeKeys.SplitJoin` | src/App.js:281 | splitting comma-free parts joined with commas gives the parts back |
| `NodeKeys.JoinSplit` | src/App.js:281 | joining the parts of a split with commas gives the string back |
| `NodeKeys.DecodeEncode` | src/App.js:258-281 | decoding a point's `"x,y"` key gives the same integer pair back |
| `NodeKeys.EncodeInjective` | src/App.js:267 | two points have the same key if and only if they are the same point, so the set holds one key per distinct coordinate |
| `NodeKeys.EncodeCanonical` | src/App.js:258 | every key the code writes is in the canonical form `Decode` round-trips |
| `NodeKeys.DecodeIgnoresLeadingZeros` | src/App.js:281 | `Number` is not injective on arbitrary strings ("015,0" and "15,0" decode alike), which is why the round trip is stated for canonical keys |
| `Circuit.SignalSpeed` | src/App.js:275 | a signal's speed lies in [0.002, 0.006) |
| `Circuit.TracesOf` | src/App.js:253 | the generator makes one trace per outer iteration |
| `Circuit.TracesOfAt` | src/App.js:253-268 | trace k of the generated circuit is exactly the trace walked from draws k |
| `Circuit.TracesShape` | src/App.js:253-268 | every one of the generated traces has 4 to 8 points, all on the grid, consecutive points adjacent |
| `Circuit.Seeds` | src/App.js:272-276 | computes the `signals` array: the signal records of the traces, in trace order, each from `SeedOf` on its own draws; `SeedsValid` states what it holds |
| `Circuit.KeysOf` | src/App.js:258-267 | computes the keys one trace adds to the node set, point by point; `KeysOfMember` states what it holds |
| `Circuit.SeedOf` | src/App.js:272-275 | computes the signal record a trace gets: one when the coin draw exceeds 0.5 and the trace has more than one point, with the progress draw and the speed `SignalSpeed`; none otherwise |
| `Circuit.CircuitKeys` | src/App.js:251-267 | computes the node set: the union, trace by trace, of the keys of every point pushed; `CircuitKeysMember` states what it holds |
| `Circuit.Move` | src/App.js:261-265 | the body of the inner loop (move x or y by the signed length, then clamp both) computes exactly one `Step` |
| `Circuit.WalkTrace` | src/App.js:254-268 | the pushed points are the trace of the draws, and the node set has gained exactly the keys of those points |
| `Circuit.AddTrace` | src/App.js:254-277 | one outer iteration yields the trace, adds its keys, and appends a signal record exactly when the coin draw exceeds 0.5 and the trace has more than one point |
| `Circuit.GenerateCircuit` | src/App.js:251-278 | the outer loop yields the 50 traces of the draws, node set `CircuitKeys` of those traces, and signal records `Seeds` in trace order |
| `Circuit.ForEachKey` | src/App.js:280-285 | visiting each key of a set once and placing a point per key gives as many distinct points as keys, whose keys are exactly the set |
| `Circuit.PlaceNodes` | src/App.js:280-285 | one marker per key of the node set, at the point parsed from the key: the markers are distinct, as many as the keys, and their keys are the node set |
| `Circuit.KeysOfMember` | src/App.js:258-267 | a point's key is in a trace's keys if and only if the point is on the trace |
| `Circuit.KeysOfCanonical` | src/App.js:258-267 | every key a trace adds is canonical |
| `Circuit.CircuitKeysMember` | src/App.js:251-278 | a point's key is in the node set if and only if some trace visits the point |
| `Circuit.CircuitKeysCanonical` | src/App.js:251-278 | every key in the node set is canonical, so each parses back |
| `Circuit.NodesMatchTraces` | src/App.js:280-284 | the markers stand exactly on the coordinates the traces visit, no more and no fewer |
| `Circuit.SeedOnCoin` | src/App.js:272-275 | the `points.length > 1` guard never fails; a trace gets exactly one signal record when its coin draw exceeds 0.5, and that record is valid |
| `Circuit.SeedsValid` | src/App.js:272-276 | there are at most as many signal records as traces; each rides a well-formed trace of 4 to 8 points with progress in [0, 1) and speed in [0.002, 0.006) |
| `SignalMotion.Mod1` | src/App.js:319 | JavaScript `v % 1` on reals: the result lies in [0, 1) for v ≥ 0 and in (-1, 0] for v < 0, differs from v by an integer, and is v itself when v lies in (-1, 1) |
| `SignalMotion.WrapOnce` | src/App.js:319 | from progress in [0, 1) with a speed below 1, one frame adds the speed, minus 1 once the sum reaches 1 |
| `SignalMotion.ProgressStaysInRange` | src/App.js:275-319 | progress starting in [0, 1) with a non-negative speed stays in [0, 1) on every frame |
| `SignalMotion.SegLen` | src/App.js:321 | computes a segment's length as the sum of its absolute x and y extents, which is `distanceTo` on axis-parallel segments (`SegLenIsDistance`) |
| `SignalMotion.NumSegments` | src/App.js:321-324 | computes the loops' bound `points.length - 1`, and 0 for no points |
| `SignalMotion.SegmentLength` | src/App.js:325 | computes `segmentLength` of segment i as `SegLen` of its two ends |
| `SignalMotion.Matches` | src/App.js:326 | computes the lookup's test: accumulatedLength ≤ currentDist ≤ accumulatedLength + segmentLength, ends included |
| `SignalMotion.Distance` | src/App.js:322 | computes `currentDist`: progress times totalLength |
| `SignalMotion.ProgressAfter` | src/App.js:319 | computes progress after n frames by applying `(progress + speed) % 1` n times; `ProgressStaysInRange` states what it promises |
| `SignalMotion.Acc` | src/App.js:323-331 | computes `accumulatedLength` at segment i: the sum of the lengths of the segments before it |
| `SignalMotion.TotalLength` | src/App.js:320-321 | computes `totalLength`: the sum of all segment lengths |
| `SignalMotion.Lerp` | src/App.js:328 | computes `lerpVectors(a, b, t)` in the plane: a + (b - a) · t on each axis |
| `SignalMotion.Place` | src/App.js:326-329 | computes the particle's position after the lookup: the lerp on a found segment, NaN for 0 / 0, and the old position when nothing matched and nothing was written |
| `SignalMotion.LocateFrom` | src/App.js:324-331 | a segment the lookup returns from segment i on is a segment at index ≥ i that holds the distance, ends included |
| `SignalMotion.Locate` | src/App.js:324-331 | a segment the lookup returns is a segment of the trace that holds the distance |
| `SignalMotion.ComputeTotalLength` | src/App.js:320-321 | the first loop of a frame computes the trace's total length |
| `SignalMotion.FindSegment` | src/App.js:323-332 | the second loop, with its `break` on the first match, computes the lookup `Locate` |
| `SignalMotion.LocateProgress` | src/App.js:320-332 | both loops together locate `progress * totalLength` on the trace |
| `SignalMotion.LocateFromFirst` | src/App.js:324-331 | from segment i on, the returned segment holds d and no segment between i and it does; none is returned only when no segment from i on holds d |
| `SignalMotion.LocateFirst` | src/App.js:324-331 | the lookup returns the smallest index whose segment holds d; when it returns none, no segment holds d |
| `SignalMotion.MissedSegments` | src/App.js:324-331 | once the first j segments have all missed a non-negative distance, it lies beyond their end |
| `SignalMotion.LocateFinds` | src/App.js:320-331 | for a trace with a segment, every distance in [0, totalLength] is found on some segment |
| `SignalMotion.ZeroLengthOnlyAtStart` | src/App.js:325-327 | the 0 / 0 case arises only on segment 0 at distance 0 |
| `SignalMotion.SegmentProgressRange` | src/App.js:326-327 | segmentProgress lies in [0, 1]; it is 0 if and only if d is the segment's start, and 1 if and only if d is its end; the segment has positive length |
| `SignalMotion.LocateFromCase` | src/App.js:326-327 | at the match, a length of 0 gives `ZeroLength` and a positive length gives segmentProgress (d - acc) / len |
| `SignalMotion.BoundaryEarlierWins` | src/App.js:326-329 | at the boundary between segments i and i + 1 a segment is found, and it is segment i or an earlier one, never i + 1 |
| `SignalMotion.BoundaryAtEnd` | src/App.js:326-329 | when segment i has a length, the distance at its end is found on segment i itself with segmentProgress exactly 1 |
| `SignalMotion.NoEarlierMatch` | src/App.js:324-331 | no segment before a segment of positive length holds that segment's end |
| `SignalMotion.AccMonotone` | src/App.js:331 | the accumulated length never decreases from segment to segment |
| `SignalMotion.PositionOnSegment` | src/App.js:326-328 | the interpolated point lies on the matched segment: each coordinate lies between the segment's ends, and its axis offsets from the segment's start add up to d minus the arc length before the segment |
| `SignalMotion.LerpOnSegment` | src/App.js:328 | `lerpVectors` with t in [0, 1] gives a point whose coordinates each lie between the two ends' coordinates |
| `SignalMotion.LerpOffset` | src/App.js:328 | `lerpVectors` moves each coordinate by t times the segment's extent on that axis |
| `SignalMotion.LerpAt` | src/App.js:327-328 | interpolating with segmentProgress (d - acc) / len puts the point at axis distance d - acc from the segment's start, within the segment's extent on each axis |
| `SignalMotion.LerpDistance` | src/App.js:328 | `lerpVectors` with t in [0, 1] moves the point by t times the segment's axis length, and by no more than the segment's extent on each axis |
| `SignalMotion.SegLenIsDistance` | src/App.js:321 | on an axis-parallel segment the squared sum of the absolute x and y extents is the Euclidean length squared, so it is `distanceTo` |
| `SignalMotion.TraceSegmentsAxisParallel` | src/App.js:262-265 | every segment of a generated trace is axis-parallel |
| `SignalMotion.SignalAlwaysPlaced` | src/App.js:318-331 | for progress in [0, 1) on a trace with a segment, the lookup finds a segment, or the 0 / 0 case at distance 0 of segment 0 |
| `SignalMotion.CornerTraceGoesNaN` | src/App.js:255-267 | zero walk draws and a coin of 0.75 give a valid trace of four copies of (-225, -225), every move clamped away in the corner; its total length is 0, every frame's lookup is the 0 / 0 case, and the particle's position becomes NaN |
| `SignalMotion.Signal.constructor` | src/App.js:274-275 | a new signal holds its trace, progress and speed, and its particle sits at the origin |
| `SignalMotion.Signal.Tick` | src/App.js:318-332 | one frame sets progress to (progress + speed) % 1 and the particle to the lerp on the found segment, to NaN on 0 / 0, or leaves it when no segment matched |
| `Streaks.SpawnX` | src/App.js:298 | a streak's x lies in [-400, 400) |
| `Streaks.SpawnY` | src/App.js:299 | a streak's y lies in [-300, 300) |
| `Streaks.SpawnZ` | src/App.js:300 | a streak's z lies in (-300, 0] |
| `Streaks.SpawnHeight` | src/App.js:302 | a streak's height lies in [2, 7) |
| `Streaks.SpawnSpeed` | src/App.js:303 | a streak's speed lies in [0.2, 0.7) |
| `Streaks.StreakAfter` | src/App.js:336-337 | computes a streak's x after n frames by applying `StreakStep` n times; `StreakStaysInRange` and `StreakDrifts` state what it promises |
| `Streaks.StreakStep` | src/App.js:336-337 | computes one frame of a streak's x: x + speed, and -400 instead once that exceeds 400; `StepInRange` states what it promises |
| `Streaks.StepInRange` | src/App.js:336-337 | one frame keeps x in [-400, 400]; without a wrap x strictly increases; x decreases only by wrapping to -400 after passing 400 |
| `Streaks.StreakStaysInRange` | src/App.js:335-338 | x stays in [-400, 400] on every frame |
| `Streaks.StreakDrifts` | src/App.js:336 | until it would pass the edge, a streak moves at constant speed: x + n · speed after n frames |
| `Streaks.Streak.constructor` | src/App.js:297-303 | a new streak's position, height and speed are the spawn values of its draws, its width is 0.3, and it is in range |
| `Streaks.Streak.Tick` | src/App.js:336-337 | one frame sets x to x + speed, or -400 once that passes 400, keeps it in range, and changes nothing else (y, z, height and speed are constants) |
| `Crossfade.CircuitOpacity` | src/App.js:356 | computes `Math.max(0, 1 - p * 2)` |
| `Crossfade.StreakOpacity` | src/App.js:361 | computes `Math.min(1, p * 2)` |
| `Crossfade.TransitionProgress` | src/App.js:368 | computes `Math.min(1, p * 2)`, computed separately from the streak opacity |
| `Crossfade.FadeAt` | src/App.js:356-368 | the trace opacity is 0.2 × the signal opacity, and nodes share the signal opacity |
| `Crossfade.Complementary` | src/App.js:356-361 | on [0, 0.5] circuit opacity + streak opacity = 1 |
| `Crossfade.FadeComplete` | src/App.js:356-368 | from p = 0.5 on the circuit is 0 and the streaks are 1; every written value is fixed (0, 0, 0, 0.7, blend 1) |
| `Crossfade.StrictOnFirstHalf` | src/App.js:356-368 | on [0, 0.5] the circuit opacity strictly decreases and the streak opacity and blend factor strictly increase |
| `Crossfade.Monotone` | src/App.js:356-368 | the circuit opacity never increases with p; the streak opacity and the colour blend factor never decrease |
| `Crossfade.BlendFollowsStreaks` | src/App.js:361-368 | the colour blend factor equals the unscaled streak opacity; the streak material gets 0.7 times it |
| `Crossfade.InRange` | src/App.js:356-368 | for p in [0, 1] every written opacity and the blend factor lie in their ranges (trace ≤ 0.2, streak ≤ 0.7) |
| `Crossfade.UnclampedBelowZero` | src/App.js:356-361 | for p < 0 the circuit opacity exceeds 1 and the streak opacity is negative: neither formula is clamped on that side |
| `Crossfade.Samples` | src/App.js:356-368 | the values written at p = 0, 0.25 and 0.5 |
| `Background.MakeSignals` | src/App.js:272-276 | one new, distinct signal object per record, with the record's trace, progress and speed, its particle at the origin |
| `Background.MakeStreaks` | src/App.js:296-305 | one new, distinct, in-range streak per set of draws, placed and sized by those draws |
| `Background.TickSignals` | src/App.js:318-333 | every signal takes exactly one `Tick`, independently of the others, and keeps progress in [0, 1) and its trace's shape |
| `Background.TickStreaks` | src/App.js:335-338 | every streak takes exactly one step, independently of the others, and stays in range |
| `Background.BuildCircuit` | src/App.js:251-285 | the traces of the draws, each with 4 to 8 points and well formed, the node set, markers standing exactly on the visited coordinates, and valid signal records |
| `Background.Mount` | src/App.js:241-306 | the circuit as `BuildCircuit` makes it, every trace with 4 to 8 points and well formed; signal i is a new object holding the trace, progress and speed of signal record i, its particle at the origin; streak i is a new object placed and sized by streak draws i; all objects are distinct and satisfy their invariants |
| `Background.Scene.constructor` | src/App.js:227-306 | a mounted scene holds the traces, each with 4 to 8 points and well formed, the node set, markers on exactly the visited coordinates, signal i made from signal record i and streak i from streak draws i (new, distinct objects), the scene invariant, and the crossfade for the current p |
| `Background.Scene.Animate` | src/App.js:315-341 | one frame ticks every signal and every streak once, and the scene's invariant is kept |
| `Background.Scene.OnScroll` | src/App.js:353-376 | a scroll writes the crossfade for the new p and changes nothing else |

## Left out

- Three.js and WebGL are not modelled: scene, camera, renderer, geometries, materials, groups, `render`, `setPixelRatio`, `setClearColor`. They are library calls with no logic of the page's own. Markers, particles and sprites are reduced to their positions and the numbers that drive them.
- `THREE.Color.lerpColors` and its colour-space conversion are not modelled. Only its blend factor is (`Fade.blend`).
- `Vector3.distanceTo` is replaced, on the axis-parallel segments the traces have, by the integer `|dx| + |dy|`. `SegLenIsDistance` shows the two agree there.
- `requestAnimationFrame`, `cancelAnimationFrame`, the resize listener and `appendChild`/`removeChild` are host scheduling and I/O. `Scene.Animate` is one frame; the unmount clean-up is not modelled.
- The page computes the scroll progress elsewhere, outside the background (`scrollY / totalScroll`). The model takes p as a parameter.
- `Scene.OnScroll`: the `if (trace && signal && streak && node)` guard is not modelled. It skips the update before the materials exist, and in the model the scroll effect only runs on a mounted scene, where they always exist.
- IEEE floating point is not modelled. Progress, speeds, positions and opacities are exact reals. Rounding, and any NaN other than the 0 / 0 of a zero-length segment, are out of scope.
- `Math.random()` is not modelled. Every draw is a caller-supplied value in [0, 1). The draws are grouped per trace and per streak, not as one global stream, so the order of the calls is not modelled.
- `Number` is modelled only on what the keys contain: an optional minus sign followed by decimal digits. Whitespace, decimals, exponents and `NaN` are out of scope.
- Set iteration order: `nodePositions.forEach` visits the keys in insertion order, but `Circuit.ForEachKey` picks them in an arbitrary order. Its contract holds for any order, so marker order is not modelled.
- `Circuit.GenerateCircuit` collects signal records. `Background.MakeSignals` turns them into `Signal` objects after the loop, whereas the source creates each object inside the loop. No step between the two reads the signals.
- The material opacity that Three.js ignores on non-transparent materials (signal and node) is not modelled. The model records the value written.
- Each segment's z coordinate is not modelled, because every trace lies in the plane z = 0.
- The mount effect runs one frame itself: it calls `animate()` right after building the scene (src/App.js:342). In the model, `Scene.constructor` builds the scene without that frame, and the host's first call to `Scene.Animate` stands for it.
- `Signal.Tick`: its contract does not restate the signal's invariant. `Background.TickSignals` derives the invariant from the new progress, which `Mod1` bounds.
