/**
 * The settings of the flock: the fixed constants of the world, and the pair
 * (collision distance, maximum velocity) that the beats switch between two
 * moods, behind a gate that a beat closes and a timer reopens.
 */
module Settings {

  const FlockSize: nat := 100
  const NumPowerLines: nat := 3
  const PowerLinesZ: real := 20.0
  const PowerLinesY: real := 5.0
  const PowerLinesSpacing: real := 3.0
  const WallCollisionDistance: real := 4.0
  const PowerLineAttractionWeight: real := 0.2
  const PowerLineAttractDistance: real := 3.0
  const PowerLineSitDistance: real := 0.4
  const MinimumSitVelocity: real := 0.5
  const SittingInfluenceDistance: real := 3.5
  const StepDistance: real := 0.2
  const StepTiming: int := 10
  const IdealLineDistance: real := 1.0
  const TolerableLineDistance: real := 0.5
  const MinimumLineDistance: real := 0.4
  const PyramidBase: real := 5.0
  const PyramidTop: real := 50.0
  const PyramidHalfwidthAtBase: real := PyramidBase
  const PyramidHalfwidthAtTop: real := PyramidTop
  const WallSlope: real :=
    (PyramidHalfwidthAtTop - PyramidHalfwidthAtBase) / (PyramidTop - PyramidBase)
  const WidthAtBase: real := PyramidHalfwidthAtBase - PyramidBase * WallSlope
  const CenterAttractionWeight: real := 0.01
  const VelocityAttractionWeight: real := 0.125
  const CollisionAvoidanceWeight: real := 0.2
  const MesmarizeDistance: real := 2.0
  const LaunchInfluence: real := 3.0
  const LaunchVelocity: real := 1.0

  /** The pyramid's walls rise at slope one from a point at the origin. */
  lemma WallsThroughOrigin()
    ensures WallSlope == 1.0 && WidthAtBase == 0.0
  {
  }

  /** The half-width of the pyramid at height `z`: `z * WALL_SLOPE + WIDTH_AT_BASE`. */
  function HalfWidth(z: real): (w: real)
    ensures w == z
  {
    z * WallSlope + WidthAtBase
  }

  /** The two settings the beats change: `COLLISION_DISTANCE` and `MAXIMUM_VELOCITY`. */
  datatype Motion = Motion(collisionDistance: real, maxVelocity: real)

  /** The starting mood. */
  const Calm: Motion := Motion(1.0, 1.0)

  /** The mood after an odd number of changes. */
  const Agitated: Motion := Motion(2.0, 1.5)

  /** Each setting flips between its two values; anything else goes to the calm value. */
  function Toggled(m: Motion): (r: Motion)
    ensures Reachable(m) ==> Reachable(r) && r != m && (m == Calm <==> r == Agitated)
  {
    Motion(if m.collisionDistance == 1.0 then 2.0 else 1.0,
           if m.maxVelocity == 1.0 then 1.5 else 1.0)
  }

  /** The two moods the settings can be in. */
  predicate Reachable(m: Motion)
  {
    m == Calm || m == Agitated
  }

  /**
   * `changeFlockMovement` swaps the two moods, so it keeps the settings in one
   * of them, always changes them, and two changes restore them.
   */
  lemma ToggleSwaps(m: Motion)
    requires Reachable(m)
    ensures Reachable(Toggled(m)) && Toggled(m) != m
    ensures Toggled(Toggled(m)) == m
    ensures m == Calm <==> Toggled(m) == Agitated
  {
  }

  /** Both moods keep the maximum velocity positive and at most 1.5. */
  lemma ReachableBounds(m: Motion)
    requires Reachable(m)
    ensures 0.0 < m.maxVelocity <= 1.5 && 0.0 < m.collisionDistance
  {
  }

  /** The beat gate and the settings it guards. */
  datatype Gate = Gate(open: bool, motion: Motion)

  /** The "beat" handler: change the mood when the gate is open, then close it. */
  function OnBeat(g: Gate): (r: Gate)
    ensures !r.open
    ensures Reachable(g.motion) ==> Reachable(r.motion) && (r.motion != g.motion <==> g.open)
  {
    Gate(false, if g.open then Toggled(g.motion) else g.motion)
  }

  /** The one-second interval: it reopens the gate. */
  function Tick(g: Gate): Gate
  {
    Gate(true, g.motion)
  }

  /** After the timer has fired, the next beat changes the mood, whatever the gate was before. */
  lemma TickOpens(g: Gate)
    ensures OnBeat(Tick(g)).motion == Toggled(g.motion)
    ensures Tick(OnBeat(g)).open && Tick(g).motion == g.motion
  {
  }

  /** A run of beats and ticks, in order (`true` for a beat). */
  function Run(g: Gate, events: seq<bool>): Gate
    decreases |events|
  {
    if events == [] then g
    else Run(if events[0] then OnBeat(g) else Tick(g), events[1..])
  }

  /** How many beats of a run find the gate open. */
  function OpenBeats(g: Gate, events: seq<bool>): nat
    decreases |events|
  {
    if events == [] then 0
    else
      var here := if events[0] && g.open then 1 else 0;
      here + OpenBeats(if events[0] then OnBeat(g) else Tick(g), events[1..])
  }

  /** A burst of beats with no tick in between changes the mood at most once. */
  lemma {:induction false} BeatsBetweenTicks(g: Gate, n: nat)
    ensures Run(g, seq(n, _ => true)).motion == if g.open && n > 0 then Toggled(g.motion) else g.motion
    ensures OpenBeats(g, seq(n, _ => true)) == if g.open && n > 0 then 1 else 0
    decreases n
  {
    if n > 0 {
      var beats := seq(n, _ => true);
      assert beats[1..] == seq(n - 1, _ => true);
      BeatsBetweenTicks(OnBeat(g), n - 1);
    }
  }

  /**
   * Over any run the mood has been toggled once per beat that found the gate
   * open, so from a reachable mood it stays reachable and is the calm one exactly
   * when that number is even.
   */
  lemma {:induction false} RunToggles(g: Gate, events: seq<bool>)
    requires Reachable(g.motion)
    ensures Reachable(Run(g, events).motion)
    ensures Run(g, events).motion == g.motion <==> OpenBeats(g, events) % 2 == 0
    decreases |events|
  {
    if events != [] {
      var next := if events[0] then OnBeat(g) else Tick(g);
      ToggleSwaps(g.motion);
      RunToggles(next, events[1..]);
      if events[0] && g.open {
        ToggleSwaps(next.motion);
      }
    }
  }
}
