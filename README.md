# Katze und Vogel: a verified model of the flock and the beat

"Katze und Vogel" is a browser piece. Birds (boids) fly inside a pyramid-shaped
world, land on three power lines, shuffle along them and launch again. The
music's beats change the flock's mood. This project models the core of that
program in Dafny and proves properties of the model:

- **The beat detector** (`declareEvent`). It takes the maximum of the low
  frequency bins, keeps the last two amplitudes and declares a beat when a
  saturated amplitude (255) is followed by a lower one.
- **The bundled d3 helpers.** The program calls `max` and the event
  dispatcher (`dispatch`, `on`, `copy`, `call` and the entry-list helpers
  `get` and `set`). `mean` and the bisector's `left` and `right` are bundled
  with them; the bisector (`ascendingBisect`, dist/bundle.js:987) has no
  caller in the program and is modelled as a helper in its own right.
- **The vector helpers:** `padd`, `paddto`, `psub`, `psubfrom`, `pmul`,
  `pmulby`, `metric`, `magnitude`, `near` and `yz`.
- **The boid state machine.** A perched boid balances the gaps to its
  neighbours and may launch. A flying boid looks at the wires (landing,
  attraction, damping, mesmerizing) and at the flock (centre, velocity
  matching, collision avoidance). It also avoids the walls, and its speed is
  clamped.
- **The world.** It holds the flock's step over every boid in order, the
  power lines of the set-up, and the beat gate. That gate toggles the flock's
  mood between calm and agitated at most once per open interval.

### Modules

- `Wrappers`: `Option` and `Result`.
- `D3Array`: `max`, `mean`, the bisector, and the splits they reach.
- `D3Dispatch`: type-name parsing and the callback entry lists. The
  `Dispatch` class holds the registry that `on` updates in place.
- `BeatDetect` (`beat_detect.dfy`): the amplitude, the two-item window, the
  beat test, and the class `BeatDetector`, whose `queue` and `firstBeat`
  fields `DeclareEvent` updates.
- `Vectors`: points as values, plus the class `Vec` for the in-place helpers.
  `Math.sqrt` is a parameter `sqrt` constrained by `IsSqrt`: it returns a
  non-negative number whose square is its argument.
- `Settings`: the constants of `src/app.js`, the two moods and the beat gate.
- `PowerLines`: wires, `directionalVelocity`, and the construction of the
  set-up's wires.
- `BoidSpec`: one step of a boid as pure functions over a snapshot of the
  flock (`seq<BoidState>`, with the stepping boid at index `me`), and the
  lemmas about those functions.
- `Boids`: the class `Boid`. Its fields `p`, `v`, `powerLine` and `lastStep`
  are updated in place. Each method is proved against the functions of
  `BoidSpec`.
- `Flock`: the class `World` (flock, lines, mood, gate) and `Sweep`, the
  specification of one `step()` over the flock.

Three details of the code that the model keeps as written:

- A beat needs a strict drop after 255 (`queue[1] - queue[0] < 0`).
- A balanced perched boid launches when *either* gap is below the tolerable
  distance, not only when both are.
- The flying step divides by the number of other flying boids without a guard
  (see "Left out").

## Model

| member | source | states |
|---|---|---|
| D3Array.Max | dist/bundle.js:993-1010 | `max` finds nothing exactly when no value is a number; otherwise the result is one of the values and no number exceeds it |
| D3Array.Count | dist/bundle.js:1028-1040 | the number of numeric values, at most the number of values |
| D3Array.Mean | dist/bundle.js:1028-1050 | `mean` is undefined when no value is a number, and otherwise is the sum of the numbers over their count |
| D3Array.SumBounds | dist/bundle.js:1036-1039 | if every number lies in [lo, hi], the sum lies between count·lo and count·hi (as repeated sums) |
| D3Array.ScaledBounds | dist/bundle.js:1036-1039 | the same bounds written as products count·lo and count·hi |
| D3Array.MeanBounds | dist/bundle.js:1049 | the mean of numbers within [lo, hi] lies within [lo, hi] |
| D3Array.CountTimesIsProduct | dist/bundle.js:1036-1039 | adding k once per number gives count·k |
| D3Array.BisectLeft | dist/bundle.js:958-967 | on a sorted range it returns the split point: everything before it is below x and everything from it on is at least x; it stays within [lo, hi] and returns lo when hi <= lo |
| D3Array.BisectRight | dist/bundle.js:968-977 | on a sorted range it returns the split point: everything before it is at most x and everything from it on is above x; within [lo, hi], and lo when hi <= lo |
| D3Array.SplitsBracket | dist/bundle.js:958-977 | the left split is at most the right split; they are equal exactly when x does not occur; every element between them equals x |
| D3Array.LeftSplitUnique | dist/bundle.js:958-967 | the left split of a sorted range is unique, so any correct bisection returns the same index |
| D3Dispatch.FirstIllegal | dist/bundle.js:870-876 | the index of the first type that is empty or repeats an earlier one; all types before it are legal |
| D3Dispatch.IllegalIff | dist/bundle.js:872 | some type is illegal exactly when a type is empty or two types are equal |
| D3Dispatch.NewDispatch | dist/bundle.js:870-880 | `dispatch` fails with "illegal type" naming the first offending type exactly when one exists; otherwise the registry has exactly the given types, each with no callbacks |
| D3Dispatch.FirstIllegalPrefix | dist/bundle.js:871-874 | an offender found in a prefix is the offender of the whole list |
| D3Dispatch.FirstIllegalSnoc | dist/bundle.js:871-874 | extending a legal prefix by one type finds the offender at that type or none |
| D3Dispatch.IsSpace | dist/bundle.js:883 | the white space of `trim` and `\s`: tab, vertical tab, form feed, space, no-break space, the byte order mark, the Unicode space separators and the four line terminators |
| D3Dispatch.EmSpaceSeparates | dist/bundle.js:883 | an em space between two letters splits them into two type names |
| D3Dispatch.TwoLetters | dist/bundle.js:883 | two letters with white space between them are two words |
| D3Dispatch.SpaceSkipped | dist/bundle.js:883 | leading white space does not change the words |
| D3Dispatch.LetterThenSpace | dist/bundle.js:883 | a letter followed by white space is a word of its own |
| D3Dispatch.SingleLetter | dist/bundle.js:883 | a single letter is one word |
| D3Dispatch.SpaceIndex | dist/bundle.js:883 | the index of the first white-space character, with none before it |
| D3Dispatch.TrimStart | dist/bundle.js:883 | a suffix of the input that starts with a non-space; everything dropped is white space |
| D3Dispatch.WordsAreWords | dist/bundle.js:883 | splitting the trimmed input on white space yields non-empty words without spaces |
| D3Dispatch.FirstWord | dist/bundle.js:883 | the text up to the first space of a trimmed string is a word |
| D3Dispatch.AllWords | dist/bundle.js:883 | a word followed by words is a list of words |
| D3Dispatch.WordsEmpty | dist/bundle.js:883 | there are no words exactly when the input is all white space |
| D3Dispatch.IndexOf | dist/bundle.js:884 | `indexOf('.')`: the first dot or the length, with no dot before it |
| D3Dispatch.SplitName | dist/bundle.js:884-885 | a type name splits at its first dot into a dot-free type and a name that rejoin to the input; with no dot the name is empty |
| D3Dispatch.ParseAll | dist/bundle.js:882-889 | parsing succeeds exactly when every word names a registered type or none, and yields each word's split; a failure is "unknown type" for a non-empty, unregistered type |
| D3Dispatch.ParsedAllKnown | dist/bundle.js:882-889 | every parsed type name is known to the registry |
| D3Dispatch.FirstNamed | dist/bundle.js:941-946 | the loop of `set` stops at the first entry with the name, or at the end |
| D3Dispatch.Without | dist/bundle.js:940-949 | the entries without the given name keep none of that name and only entries of the input |
| D3Dispatch.Get | dist/bundle.js:932-938 | `get` returns the callback of the first entry with the name, or nothing |
| D3Dispatch.Set | dist/bundle.js:940-949 | `set` removes the first entry with the name and appends the new callback when it is not null |
| D3Dispatch.UniqueTail | dist/bundle.js:940-949 | the tail of a list with unique names has unique names, none equal to the head's |
| D3Dispatch.RemoveFirstCons | dist/bundle.js:941-946 | removing a name not at the head keeps the head |
| D3Dispatch.RemoveFirstIsWithout | dist/bundle.js:941-946 | with unique names, removing the first entry with a name removes every entry with it |
| D3Dispatch.WithoutAbsent | dist/bundle.js:941-946 | removing an absent name changes nothing |
| D3Dispatch.WithoutUnique | dist/bundle.js:941-946 | removal keeps names unique |
| D3Dispatch.WithoutLookup | dist/bundle.js:932-946 | removing one name leaves the lookup of every other name unchanged |
| D3Dispatch.LookupAbsent | dist/bundle.js:932-938 | looking up an absent name finds nothing |
| D3Dispatch.LookupAppend | dist/bundle.js:932-948 | a lookup after appending finds the earlier entry if there is one, otherwise the appended one if its name matches |
| D3Dispatch.UpdatedSpec | dist/bundle.js:940-949 | `set` keeps names unique; afterwards `get` of that name returns the new callback (nothing for null), and `get` of every other name is unchanged |
| D3Dispatch.RemovedEverywhereSpec | dist/bundle.js:911 | removing a name from every type keeps the types and the registry well formed, and no type has that name any more |
| D3Dispatch.OnAll | dist/bundle.js:908-913 | applying the parsed type names in order keeps the set of types |
| D3Dispatch.OnAllSnoc | dist/bundle.js:909-912 | handling one more type name is one more step of the loop |
| D3Dispatch.OnAllValid | dist/bundle.js:908-913 | every `on` keeps the registry well formed (unique names per type) |
| D3Dispatch.Values | dist/bundle.js:924 | the callbacks `call` invokes: the values of the entries, in order |
| D3Dispatch.OnThenGet | dist/bundle.js:893-915 | after `on("type.name", cb)` the getter returns `cb`, and a non-null `cb` is the last callback that `call` invokes |
| D3Dispatch.ClearEverywhere | dist/bundle.js:911 | `on(".name", null)` removes that name from every type |
| D3Dispatch.Dispatch.constructor | dist/bundle.js:878-880 | a dispatcher wraps the registry it is given |
| D3Dispatch.Dispatch.On | dist/bundle.js:893-915 | a parse error is returned and changes nothing; otherwise each parsed type name is set in order, and the registry stays well formed |
| D3Dispatch.Dispatch.OnEach | dist/bundle.js:909-912 | the setter loop applies every parsed type name |
| D3Dispatch.Dispatch.OnOneStep | dist/bundle.js:910-911 | one iteration: set on the named type, or clear the name everywhere |
| D3Dispatch.Dispatch.RemoveEverywhere | dist/bundle.js:911 | the inner loop over all types removes the name from each |
| D3Dispatch.Dispatch.Callback | dist/bundle.js:893-904 | the getter form of `on`: a parse error, or the first callback found for the parsed names |
| D3Dispatch.Dispatch.FindCallback | dist/bundle.js:902-903 | the getter loop returns the first registered callback among the type names |
| D3Dispatch.Dispatch.Call | dist/bundle.js:921-925 | an unregistered type is the "unknown type" error; otherwise the callbacks of that type, in order |
| D3Dispatch.Dispatch.Copy | dist/bundle.js:916-920 | a fresh dispatcher with the same registry |
| BeatDetect.Largest | dist/bundle.js:1274 | the largest byte of a non-empty slice: one of them, and no smaller than any |
| BeatDetect.LowBins | dist/bundle.js:1274 | `data.slice(1, 6)`: bins 1 to 5 of the input, in order, as many of them as exist |
| BeatDetect.Amplitude | dist/bundle.js:1274 | the amplitude is undefined exactly when fewer than two bins exist; otherwise it is the loudest of bins 1 to 5: one of them, and no smaller than any, so within 0..255 |
| BeatDetect.LoudestLowBin | dist/bundle.js:1274 | the largest of the low bins is one of bins 1 to 5 and no smaller than any of them |
| BeatDetect.Measure | dist/bundle.js:1274 | computing `Math.round(max(data.slice(1, 6)))` through `max` gives the amplitude |
| BeatDetect.LargestIsMax | dist/bundle.js:1274 | what `max` returns for the bins is their largest byte |
| BeatDetect.RoundWhole | dist/bundle.js:1274 | `Math.round` leaves whole numbers unchanged |
| BeatDetect.Push | dist/bundle.js:1277-1280 | pushing keeps at most two items and puts the new amplitude last |
| BeatDetect.Window | dist/bundle.js:1277-1280 | the queue after any history holds at most two items |
| BeatDetect.PushWindow | dist/bundle.js:1277-1280 | pushing onto the queue of a history gives the queue of the extended history |
| BeatDetect.FiresIff | dist/bundle.js:1283 | a beat fires exactly when the previous amplitude was 255 and the new one is a number below 255 |
| BeatDetect.NoConsecutiveBeats | dist/bundle.js:1283 | two frames in a row never both fire |
| BeatDetect.DropAfterPeak | dist/bundle.js:1283 | 255 alone or 255 twice is no beat; 255, 255, 100 is the first beat |
| BeatDetect.BeatDetector.constructor | dist/bundle.js:1268-1270 | starts with an empty queue and `firstBeat` set |
| BeatDetect.BeatDetector.DeclareEvent | dist/bundle.js:1272-1298 | the queue takes the new amplitude; on a beat the event has the message and `beat`, `firstBeat` is true only for the first beat ever, the flag clears, and the dispatcher's `beat` callbacks are called; without a beat nothing is sent and the flag stays |
| Vectors.Norm2NonNegative | dist/bundle.js:1220-1225 | the squared length is non-negative and zero at the origin |
| Vectors.Metric | dist/bundle.js:1220-1225 | a distance is non-negative and zero from a point to itself |
| Vectors.MetricSquared | dist/bundle.js:1220-1225 | the distance squared is the sum of squared differences |
| Vectors.Magnitude | dist/bundle.js:1226-1228 | a length is non-negative and zero at the origin |
| Vectors.MagnitudeSquared | dist/bundle.js:1226-1228 | the length squared is the sum of squared components |
| Vectors.SubAddCancels | dist/bundle.js:1196-1206 | `psub(padd(a, b), b)` is `a` |
| Vectors.MetricSymmetric | dist/bundle.js:1220-1231 | distance and `near` are symmetric |
| Vectors.NormOfMul | dist/bundle.js:1212-1214 | scaling by c scales the squared length by c² |
| Vectors.MagnitudeOfMul | dist/bundle.js:1212-1228 | scaling by c >= 0 scales the length by c |
| Vectors.MagnitudeOfUnit | dist/bundle.js:1226-1228 | a point of squared length one has length one |
| Vectors.MagnitudeBound | dist/bundle.js:1226-1228 | a length is at most m exactly when the squared length is at most m² |
| Vectors.YzProjects | dist/bundle.js:1232-1234 | `yz` zeroes x, keeps y and z, is idempotent, and depends only on y and z |
| Vectors.Vec.constructor | dist/bundle.js:1196-1198 | a mutable point with the given coordinates |
| Vectors.Vec.AddTo | dist/bundle.js:1199-1203 | `paddto` makes p1 the sum and leaves a distinct p2 unchanged |
| Vectors.Vec.SubFrom | dist/bundle.js:1207-1211 | `psubfrom` makes p1 the difference and leaves a distinct p2 unchanged |
| Vectors.Vec.MulBy | dist/bundle.js:1215-1219 | `pmulby` scales the point in place |
| Settings.WallsThroughOrigin | src/app.js:62-68 | the walls' slope is one, and the half width at depth zero is zero |
| Settings.HalfWidth | src/app.js:65-68 | the half width of the pyramid at depth z is z |
| Settings.Toggled | src/app.js:382-385 | from either mood, `changeFlockMovement` goes to the other mood: calm becomes agitated and agitated becomes calm |
| Settings.ToggleSwaps | src/app.js:77-78 | from either mood, toggling gives the other mood, always changes the mood, and twice is the identity; calm toggles to agitated and nothing else does |
| Settings.ReachableBounds | src/app.js:77-78 | in either mood the maximum velocity is in (0, 1.5] and the collision distance is positive |
| Settings.OnBeat | src/app.js:392-395 | a beat always leaves the gate closed; from either mood it changes the mood exactly when the gate was open, and to the other mood |
| Settings.TickOpens | src/app.js:388-395 | after the one-second timer fires, the next beat toggles the mood whatever the gate was; the timer opens the gate and keeps the mood |
| Settings.BeatsBetweenTicks | src/app.js:388-395 | any number of beats (`OnBeat`) without a timer tick (`Tick`) changes the mood at most once |
| Settings.RunToggles | src/app.js:382-395 | over any sequence of beats (`OnBeat`) and timer ticks (`Tick`) the mood stays one of the two, and returns to the start exactly when the number of beats through an open gate is even |
| PowerLines.Distance | src/app.js:281 | a bird's distance to a wire is non-negative and zero when its y and z are the wire's |
| PowerLines.OnTheWire | src/app.js:280-285 | on the wire the closing rate is minus the (y, z) speed, so it is never positive |
| PowerLines.AtZeroDistance | src/app.js:282-284 | at distance zero the second branch applies |
| PowerLines.OnTheWireDistance | src/app.js:281 | a bird at the wire's height and depth is at distance zero |
| PowerLines.IgnoresX | src/app.js:280-285 | the closing rate ignores the x of both the position and the velocity |
| PowerLines.ThroughYz | src/app.js:280-285 | the closing rate equals that of the projections onto x = 0 |
| PowerLines.ClosingSign | src/app.js:282-283 | away from the wire the rate is positive, negative or zero exactly as the velocity's component towards the wire is |
| PowerLines.HeadingForTheWire | src/app.js:282-283 | flying straight at the wire with velocity c·(wire − p) closes at c times the distance |
| PowerLines.InitLines | src/app.js:367-371 | wire i of the set-up is at height 5 + 3i and depth 20 |
| PowerLines.WiresOfTheSetUp | src/app.js:46-50 | the set-up has wires at heights 5, 8 and 11, at depth 20, at least the spacing apart |
| BoidSpec.Launched | src/app.js:257-268 | a launch keeps the position, leaves the wire, resets the counter and flies at launch velocity times the direction |
| BoidSpec.ScanLines | src/app.js:171-195 | a landing is on one of the wires looked at |
| BoidSpec.ScanLinesSpec | src/app.js:171-195 | the scan lands on the first wire, in order, that the boid can sit on; otherwise no wire allows landing, the attraction has no x part, and the damping factor is 1 or some wire's distance over the attraction distance, within [0, 1] |
| BoidSpec.LandPersists | src/app.js:181-191 | after a landing, further wires change nothing (the `return`) |
| BoidSpec.LandsOnFirst | src/app.js:171-195 | the scan lands on wire i exactly when i is the first wire that allows landing |
| BoidSpec.ScanFlockSpec | src/app.js:198-209 | no other boid is counted as flying exactly when all others are perched; the count is at most the flock size; when mesmerized, the centre and velocity sums stay zero |
| BoidSpec.WallAvoidance | src/app.js:215-229 | the wall push is zero inside the zone a collision distance from every wall, and each component points back into the zone |
| BoidSpec.DampedClamp | src/app.js:247-252 | damped and clamped, the speed is the damping factor times the maximum |
| BoidSpec.UndampedClamp | src/app.js:247-252 | clamped only, the speed is the maximum |
| BoidSpec.DampedOnly | src/app.js:247-249 | damped only, the speed is the factor times the old speed |
| BoidSpec.ClampOfDamped | src/app.js:252 | the clamp divides by the speed before damping |
| BoidSpec.DampSpec | src/app.js:247-252 | a slow velocity far from the wires is unchanged; otherwise the speed is the damped speed, the maximum, or the damped maximum, per case |
| BoidSpec.DampBounded | src/app.js:247-252 | after damping and clamping the speed never exceeds the maximum |
| BoidSpec.FlyingByScans | src/app.js:157-255 | the flying step lands when the wire scan lands, is undefined when the flock forces are, and otherwise flies |
| BoidSpec.FlyingUndefined | src/app.js:198-212 | the step divides by zero exactly when it does not land, no wire mesmerizes, and every other boid is perched |
| BoidSpec.FlyingSpec | src/app.js:232-254 | a defined flight keeps the wire index and counter, moves by the new velocity, and ends at most at the maximum speed |
| BoidSpec.LandingSpec | src/app.js:181-191 | a landing on wire i means wire i allows it; the boid keeps x, takes the wire's y and z, stops, records the wire and keeps its counter |
| BoidSpec.NeighboursNearest | src/app.js:102-113 | the left and right neighbours are the walls or the nearest boids on the same wire on each side, with none strictly between |
| BoidSpec.SittingSpec | src/app.js:93-155 | a sitting step keeps y and z; x moves by 0 or one step, towards the wider gap, only when the counter has reached the step timing, and then restarts the counter and keeps the wire and velocity; it launches exactly under the launch conditions, from where it sits; otherwise it stays on the wire with the counter advanced |
| BoidSpec.SittingLaunch | src/app.js:116-128 | a launch pulled by the flock flies along the flyers' summed velocity scaled to unit length, times the launch velocity; every other launch flies along the random heading times the launch velocity |
| BoidSpec.SittingLaunchSpeed | src/app.js:122-145 | with a unit random heading, every launch from a wire flies at exactly the launch velocity |
| BoidSpec.NormalisedInfluence | src/app.js:126-128 | a launch along the flyers' summed velocity has unit speed |
| BoidSpec.LaunchWellFormed | src/app.js:257-268 | a unit-direction launch gives a well-formed flying boid |
| BoidSpec.BalanceWellFormed | src/app.js:130-154 | balancing keeps a perched boid well formed |
| BoidSpec.SittingWellFormed | src/app.js:93-155 | a sitting step keeps a boid well formed |
| BoidSpec.LandedWellFormed | src/app.js:186-189 | a flying boid snapped onto a wire is well formed |
| BoidSpec.AtRest | src/app.js:188 | a stopped boid is within the speed limit |
| BoidSpec.FlownWellFormed | src/app.js:232-254 | a flight that keeps the wire index and counter and ends at most at speed 1.5 is well formed |
| BoidSpec.FlyingWellFormed | src/app.js:157-255 | a defined flying step, in either mood, keeps a boid well formed: on a wire, or flying at most at speed 1.5 with counter zero |
| BoidSpec.StepWellFormed | src/app.js:269-273 | every step keeps a boid well formed |
| Boids.Snapshot | src/app.js:290-293 | the value view of the flock, boid by boid |
| Boids.Boid.constructor | src/app.js:86-92 | a new boid sits at its position, at rest, flying, with counter zero |
| Boids.Boid.Launch | src/app.js:257-268 | the boid's new state is the launch of its old one |
| Boids.Boid.StepSitting | src/app.js:93-155 | the boid's new state is the sitting step of the flock before the step |
| Boids.Boid.StepFlying | src/app.js:157-255 | the boid takes the flying step and reports it defined; when undefined, its state is unchanged |
| Boids.Boid.Fly | src/app.js:211-254 | the boid takes the non-landing flight for the given scans |
| Boids.Boid.Step | src/app.js:269-273 | perched boids sit and flying boids fly, as that step defines |
| Boids.ScanWires | src/app.js:171-195 | the wire loop computes the wire scan |
| Boids.SumFlock | src/app.js:198-209 | the flock loop computes the flock sums |
| Boids.Steer | src/app.js:232-252 | the new velocity is the old one plus the weighted steering, then damped and clamped |
| Boids.WallsAdded | src/app.js:215-229 | the wall push is added to the collision avoidance |
| Flock.Sweep | src/app.js:290-295 | one step of the world keeps the flock size, and stops, if at all, at a boid not yet stepped |
| Flock.SweepUnreached | src/app.js:291-293 | boids before the sweep's start are untouched, and boids after a stop keep their old state |
| Flock.SweepStuckAlone | src/app.js:198-212 | the sweep stops only at a flying boid that no wire mesmerizes while every other boid is perched |
| Flock.SweepWellFormed | src/app.js:290-295 | a step of the world keeps every boid well formed |
| Flock.World.constructor | src/app.js:348-374 | the flock starts at the given positions, motionless and flying; the wires are those of the set-up; calm mood, gate open |
| Flock.World.Step | src/app.js:290-295 | the flock becomes the sweep of the old one, the stop is reported, and the world stays valid |
| Flock.World.StepAll | src/app.js:291-293 | the `each` loop performs the sweep |
| Flock.World.Turn | src/app.js:292 | one boid's step advances the sweep by one boid or stops it there |
| Flock.World.StepBoid | src/app.js:292 | boid i takes its step and no other boid changes |
| Flock.World.ChangeFlockMovement | src/app.js:382-385 | the mood toggles and nothing else changes |
| Flock.World.OnBeat | src/app.js:392-395 | the beat handler acts on the gate and mood as a beat does, and keeps the world valid |
| Flock.World.Tick | src/app.js:388-389 | the gate timer opens the gate and keeps the world valid |

## Left out

- Audio, canvas and DOM: the analyser, `requestAnimationFrame` polling, `fog`, `circle`, `line`, the cat drawing and `drawEye`/`drawEyes`. They are I/O, and the model only starts from the byte array `declareEvent` receives.
- The d3-timer `interval` timers (dist/bundle.js:1163; `interval(step, 50)` at src/app.js:373 and the one-second gate timer at src/app.js:389). They are clocks; the model exposes their effect as `Flock.World.Step` and `Flock.World.Tick`.
- Randomness: the random launch angle is a parameter (`heading`, constrained by `IsHeading`). The random placement of the boids in `initBirds` (src/app.js:350-365) is a parameter of `Flock.World.constructor` (`positions`).
- The depth sort in `draw` (src/app.js:329-331), which reorders the flock in place between steps. The model steps the boids in the order given.
- Floating point: numbers are reals, and `Math.sqrt` is a parameter constrained by `IsSqrt`. A division by zero, which leaves `NaN` in the source, is modelled as an undefined step.
- Boids.Boid.StepFlying: when no other boid flies and no wire mesmerizes, the source divides by zero and the boid's state becomes `NaN`. The model reports `defined == false`, leaves the state unchanged, and `Flock.World.Step` stops the sweep at that boid and returns its index.
- BeatDetect.Amplitude: `Math.round(undefined)` (fewer than two bins) is `NaN` in the source and `None` in the model. `NaN` compares unequal to 255, so no beat follows, as in the source.
- D3Array.BisectLeft: requires `hi <= 2^31`, so the `>>> 1` midpoint (modelled on 32 bits) never wraps. The defaults `lo = 0` and `hi = a.length` for absent bounds (dist/bundle.js:959-960) and the accessor form `bisector(f)` (dist/bundle.js:956) are not modelled; the bounds are always given and the comparator is `ascending`. D3Array.BisectRight has the same precondition and the same omissions.
- D3Array.Max and D3Array.Mean: only the form without a `valueof` accessor is modelled. Values are numbers or an absent/non-number marker, without JavaScript's coercions (`number`, `>=` on strings).
- D3Dispatch.Dispatch.On: the "invalid callback" error for a non-function callback is not modelled; callbacks are typed.
- D3Dispatch.Dispatch.Call: the model returns the callbacks in the order they are invoked, not their effects; `apply` (dist/bundle.js:926-929) differs only in how arguments are passed. `set` also overwrites the removed entry in place with `type[i] = noop` (dist/bundle.js:943) before replacing the list, so a callback removed while `call` is running over the old list is silenced there; the model's entry lists are values and do not capture this.
- D3Dispatch.NewDispatch: the registry is an object, so a name inherited from `Object.prototype` (`constructor`, `toString`) already counts as present and `dispatch("constructor")` throws "illegal type" in the source; the model's registry is a map and accepts such names.
- BeatDetect.BeatDetector.DeclareEvent: the `beat` callbacks' own effects (the handler's mood change) are modelled separately as `Flock.World.OnBeat`.
- Points are values plus the `Vec` class. Each boid of the source builds its own `p` and `v` objects (src/app.js:86-90) and `launch` copies the direction's components (src/app.js:264-266), so nothing is shared; what the `Boid` fields do not capture is that `p` and `v` are updated component by component in place, which the model writes as whole-value assignments.
- `each` (dist/bundle.js:1191-1195) appears only as the loop of `Flock.World.StepAll`.
- The copy of the boid code bundled into dist/bundle.js is not modelled separately; src/app.js is modelled.
- Flock.Sweep: in the source the NaN boid keeps its NaN state and the sweep goes on; later perched boids still step normally, since `near` with NaN is false, and from the next step on the NaN position poisons the centre sums of every flyer. The model stops the sweep at the undefined boid, and `Flock.SweepUnreached` keeps every boid after it unchanged.
- BoidSpec.FlyingSpec and BoidSpec.DampBounded: these require a positive maximum velocity, which holds in both moods (`Settings.ReachableBounds`).
