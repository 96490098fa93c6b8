# Rock, Scissors, Paper agents — a Dafny model of the discrete core of `game.js`

`game.js` runs a browser simulation of three populations. Rock is the letter
'X', Scissors is 'O' and Paper is 'A'. On every animation frame, `update` does three things:

1. It partitions the roster by kind into the lists `Xs`, `Os` and `As`.
2. It moves every entity in roster order. Each entity steers away from its
   threats, towards its nearest prey and away from crowding, then bounces off
   the arena walls.
3. It runs the conversion pass. An 'O' within `entitySize` of a listed 'X'
   becomes 'X', an 'A' near a listed 'O' becomes 'O', and an 'X' near a listed
   'A' becomes 'A'.

The start button clamps the per-kind count to `[1, 50]`. It then lays out the
roster as the X's, then the O's, then the A's.

The model keeps the discrete and exact parts of this:

- `kinds.dfy`: the kinds, their letters, the dominance cycle and the fixed
  target sets of each kind.
- `entities.dfy`: the entity record and the game's constants. It also holds
  distances compared as squares, with lemmas that tie the source's
  square-root comparisons to them. `normalizeVector` is modelled with its
  square root given as a parameter. The per-kind partition (`Snapshot`) is here too.
- `forces.dfy`: the threat and prey lists, the contributor filtering of
  `calculateAvoidance` and `calculateSeparation`, and the first-found argmin
  of `calculateChase`. Each is a specification function, and each source loop
  is a method proved equal to its function.
- `motion.dfy`: the wall bounce and the movement loop. It works in place on an
  `array<Entity>`. The floating-point steering is a parameter.
- `conversion.dfy`: the three nested conversion loops. They run in place on
  the array against the partition taken at the start of the frame. The model
  proves they compute `Converted`, which relabels an entity exactly when an
  entity whose pre-pass kind converts it is in contact.
- `frame.dfy`: one whole `update` and repeated frames.
- `start.dfy`: the count clamp, `createEntities` and the roster layout.

Entities are values held in an array. The source's lists hold object
references, so the model names an entity by its index in the roster.
Coordinates are exact `real`s.

Two properties of the code shape the model:

- **Forces are not computed from one snapshot of positions.** In `update`, an
  entity moves (lines 225-243) before the next entity's forces are computed. The
  lists `Xs`, `Os`, `As` and `entities` hold the same objects, so later
  entities see earlier ones at their new positions. `Motion.MovedPrefix`
  models this: `steer` receives the roster as it stands at that entity's turn.
- **There are no obstacles, cooldowns or winners.** `game.js` has no obstacle
  collision (the `obstacles` array is only declared, and `createObstacles` is
  never called), no conversion cooldown, no termination or winner detection,
  and no speed band: the final velocity is always renormalised to `speed`.

## Model

| member | source | states |
|---|---|---|
| Kinds.Letter | game.js:289-291 | each kind is stored as one of the letters 'X', 'O', 'A' |
| Kinds.KindOfLetter | game.js:185-194 | exactly the three letters name a kind; any other letter falls through the dispatch |
| Kinds.LetterRoundTrip | game.js:176-178 | reading back a kind's letter gives the same kind |
| Kinds.Beats | game.js:250-272 | the kind each kind converts (X converts O, O converts A, A converts X) is never itself |
| Kinds.Predator | game.js:250-272 | the kind that converts `k` is never `k` and is the inverse of Beats |
| Kinds.PredatorOfBeats | game.js:250-272 | Predator undoes Beats |
| Kinds.DominanceIsCycle | game.js:250-272 | dominance is a three-cycle: two steps never return to the start and three steps always do |
| Kinds.AvoidKinds | game.js:185-194 | every kind avoids its predator and never its own kind |
| Kinds.ChaseKind | game.js:185-194 | every kind chases exactly the kind it converts |
| Kinds.AvoidanceAsymmetry | game.js:185-194 | X avoids only A and O avoids only X. A avoids O and X, so A also avoids the kind it chases, and only A does |
| Entities.DistSq | game.js:81-85 | the squared distance is never negative |
| Entities.DistSqSymmetric | game.js:81-85 | distance does not depend on argument order |
| Entities.DistSqZero | game.js:81-85 | the squared distance is zero exactly when the two positions coincide |
| Entities.RootComparison | game.js:84 | for a non-negative square root `d` of `sq`, `d < r` iff `sq < r*r`, and `d > 0` iff `sq > 0` |
| Entities.DistanceTests | game.js:105 | the source's tests `distance < entitySize` (line 252), `0 < dist < avoidanceRadius` (line 105) and `0 < dist < separationDistance` (line 154) equal the squared tests Close and InRing |
| Entities.RootOrder | game.js:131-132 | comparing two distances, as the argmin does, equals comparing their squares |
| Entities.NormalizeVector | game.js:92-96 | the result is `[0, 0]` iff the input is `[0, 0]`; otherwise it has unit length; either way it points along the input |
| Entities.Snapshot | game.js:176-178 | `filter` by letter gives, in increasing roster order, exactly the indices of the entities of that kind |
| Entities.SnapshotOfSameKinds | game.js:176-178 | the partition depends only on the kinds, so moving entities leaves it unchanged |
| Entities.SnapshotPartitions | game.js:176-178 | every entity lies in exactly one of the three lists |
| Forces.ForceOf | game.js:118-123 | zero contributors give `[0, 0]`; otherwise the force is a blend over the contributors |
| Forces.Threats | game.js:185-194 | the avoidance list of kind `k` holds exactly the entities whose kind is in AvoidKinds(k) |
| Forces.PreyList | game.js:185-194 | the chase list of kind `k` holds exactly the entities `k` converts |
| Forces.TargetsExcludeSelf | game.js:185-194 | an entity is never in its own threat or prey list |
| Forces.AvoidanceContributors | game.js:103-116 | a threat counts iff it is in the list at distance strictly between 0 and `avoidanceRadius`; there are never more contributors than threats |
| Forces.Avoidance | game.js:98-124 | the zero-contributor branch (`return [0, 0]`, line 123) is taken iff no threat in the list is strictly within `(0, avoidanceRadius)`; otherwise the force blends exactly the contributing threats |
| Forces.SeparationContributors | game.js:151-165 | a neighbour counts iff it is not the entity itself and lies at distance strictly between 0 and `separationDistance` |
| Forces.Separation | game.js:146-173 | the zero-contributor branch (`return [0, 0]`, line 172) is taken iff no other entity lies strictly within `(0, separationDistance)`; otherwise the force blends exactly those neighbours |
| Forces.Nearest | game.js:126-136 | none iff the prey list is empty; otherwise a prey at minimal distance, and strictly closer than every earlier prey (first found wins ties) |
| Forces.Chase | game.js:126-144 | an empty list gives `[0, 0]`; otherwise the vector to a minimal-distance prey that is the first of its distance |
| Forces.CalculateAvoidance | game.js:98-124 | the source's counting loop yields exactly Avoidance |
| Forces.CalculateSeparation | game.js:146-173 | the source's loop, skipping the entity itself, yields exactly Separation |
| Forces.CalculateChase | game.js:126-144 | the source's strict-`<` minimum loop yields exactly Chase |
| Motion.Clamp | game.js:229-243 | the clamped coordinate lies in `[0, 800 - entitySize]` and is unchanged when already there |
| Motion.ClampIsNearest | game.js:229-243 | the clamp moves to the nearest point of the interval |
| Motion.Bounce | game.js:229-243 | the coordinate is clamped, and the velocity component is negated exactly when the coordinate moved |
| Motion.BounceIdempotent | game.js:229-243 | a bounced coordinate bounces no further, and the velocity is left alone |
| Motion.Step | game.js:221-243 | after its turn an entity is inside the arena and keeps its kind; each axis is the wall bounce of that axis's own move, so an in-range axis is untouched when the other one is clamped; an in-range move is taken unchanged |
| Motion.MovedPrefix | game.js:180-247 | after `n` turns the roster keeps its length and kinds, the first `n` entities are inside the arena, and the rest are untouched |
| Motion.MovePass | game.js:180-247 | the in-place movement loop produces MovedPrefix over the whole roster |
| Conversion.AfterLoop | game.js:250-256 | one nested loop leaves positions and velocities alone, relabels `k` every listed prey some listed hunter touches, and changes no other entity |
| Conversion.Converted | game.js:249-272 | only `letter` changes; each new kind is the old kind or its predator; a kind changes iff an entity whose pre-pass kind is its predator lies within `entitySize` |
| Conversion.NoDoubleConversion | game.js:249-272 | no entity moves two steps round the cycle in one pass |
| Conversion.ActsUnderSnapshotKind | game.js:250-264 | an entity converts by its pre-pass kind, even if it is converted itself in the same pass |
| Conversion.HuntedBySnapshot | game.js:176-178 | contact with a member of a kind's list is contact with an entity of that kind |
| Conversion.ThreeLoopsConvert | game.js:249-272 | the three loops run in order against the frame-start lists give exactly Converted |
| Conversion.ConvertLoop | game.js:250-256 | one nested loop relabels exactly the listed prey that some listed hunter touches |
| Conversion.ConversionPass | game.js:249-272 | the in-place pass produces Converted of the roster it started from |
| Conversion.ChainedConversion | game.js:250-264 | X at 0, O at 20 and A at 40 end as X, X, O: the converted O still converts the A |
| Conversion.ThreeWayRotation | game.js:249-272 | three mutually touching entities all change kind in one pass |
| Conversion.ContactIsStrict | game.js:252 | at exactly `entitySize` apart there is no conversion; at 27.5 there is |
| Frame.NextFrame | game.js:175-273 | a frame keeps the number and order of entities, leaves all of them inside the arena, and changes a kind only to its predator |
| Frame.Run | game.js:274 | repeated `update` calls, each with its own steering, keep the roster size, and after at least one frame every entity is inside the arena |
| Frame.RunComposes | game.js:274 | running some frames and then more is the same as one run over all of them: each frame starts from the roster the previous one left |
| Frame.Update | game.js:175-275 | `update` in place: partition, movement loop, then conversion against the partition, giving NextFrame |
| Start.ClampCount | game.js:285-287 | the count lies in `[1, 50]`; in-range values are kept; NaN and values below 1 give 1; values above 50 give 50 |
| Start.ClampCountIdempotent | game.js:285-287 | clamping a clamped count changes nothing |
| Start.Spawn | game.js:68-75 | a freshly placed entity is inside the arena, has the requested kind and takes its heading from the draw |
| Start.CreateEntities | game.js:56-79 | `createEntities` returns `count` entities; the `i`-th is built from the `i`-th draw |
| Start.StartRoster | game.js:285-293 | the roster holds `3 * count` entities, all inside the arena: `count` X's, then `count` O's, then `count` A's |

## Left out

- DOM and rendering are not modelled: element creation, `style` writes, `emojiMap` text, `convertEntity`'s `textContent`, `createObstacles` and `clearEntities`.
- `requestAnimationFrame`, `cancelAnimationFrame` and the click listener are host scheduling. `Frame.Run` stands for repeated calls of `update`, one steering function per frame.
- `Math.random` is replaced by caller-supplied draws (`Start.Draw`). The random wander term is inside the steering parameter.
- The heading `cos(angle) * speed, sin(angle) * speed` of a new entity is given in the draw. Trigonometry is not modelled.
- The steering numerics are the parameter `Motion.Steering`: the weighted averages of avoidance and separation, the normalised chase vector, the force blend, smoothing, wander and renormalisation to `speed` (lines 198-222). `Forces` models only which neighbours contribute and which prey is chosen.
- Forces.Avoidance: when some threat contributes, the force is modelled as the list of its contributors, not as a vector, because its value needs `Math.sqrt` on floats. Such a `Blend` can still come out as `[0, 0]` when the contributions cancel (two threats at equal distance on opposite sides), which the model does not distinguish.
- Forces.Separation: the same; a `Blend` of neighbours may still normalise to `[0, 0]` when their contributions cancel.
- Forces.Chase: the result is the vector to the prey before `normalizeVector`, because normalising needs `Math.sqrt`.
- Entities.NormalizeVector: the square root is taken as a parameter `len` with `len * len == x*x + y*y`.
- Floating point is not modelled. Rounding in `Math.sqrt` could make `distance < 28` differ from `distSq < 784` for values just below 784.
- `parseInt` on the input text is not modelled. `Start.ClampCount` receives its result, with `None` for NaN.
- Obstacle collision, conversion cooldown, termination and winner reporting are not modelled because `game.js` has none of them.
