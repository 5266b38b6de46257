/**
 * The world of the flock: the boids, the wires, the two settings the beats
 * change, and the beat gate. The flock `step` lets every boid step in flock
 * order, each on the flock as the earlier steps left it; `Sweep` states that
 * sequence of steps on values. The beat handler and the one-second interval
 * become `OnBeat` and `Tick`.
 */
module Flock {
  import opened Wrappers
  import opened Vectors
  import opened PowerLines
  import opened Settings
  import opened BoidSpec
  import opened Boids

  /** The outcome of the flock step: every boid stepped, or it stopped at boid `at`, whose step is undefined. */
  datatype SweepResult = Swept(flock: seq<BoidState>) | Stuck(at: nat, flock: seq<BoidState>)

  /**
   * The boids from `i` onwards step in flock order, each on the flock as the
   * steps before it left it; the sweep stops at the first undefined step.
   */
  function Sweep(sqrt: real -> real, flock: seq<BoidState>, lines: seq<Line>, motion: Motion, headings: seq<Point>, i: nat): (r: SweepResult)
    requires IsSqrt(sqrt) && i <= |flock| == |headings| && 0.0 <= motion.maxVelocity
    ensures |r.flock| == |flock|
    ensures r.Stuck? ==> i <= r.at < |flock|
    decreases |flock| - i
  {
    if i == |flock| then Swept(flock)
    else
      match BoidStep(sqrt, flock, i, lines, motion, headings[i])
      case None => Stuck(i, flock)
      case Some(b) => Sweep(sqrt, flock[i := b], lines, motion, headings, i + 1)
  }

  /** Boids `from` onwards are as they were. */
  predicate Unreached(flock: seq<BoidState>, original: seq<BoidState>, from: nat)
  {
    |flock| == |original| && forall j :: from <= j < |flock| ==> flock[j] == original[j]
  }

  /**
   * The boids before `i` are not touched; and when the sweep stops, the boids
   * from the stopping one onwards have not moved either.
   */
  lemma {:induction false} SweepUnreached(sqrt: real -> real, flock: seq<BoidState>, lines: seq<Line>, motion: Motion,
                                          headings: seq<Point>, i: nat)
    requires IsSqrt(sqrt) && i <= |flock| == |headings| && 0.0 <= motion.maxVelocity
    ensures forall j :: 0 <= j < i ==> Sweep(sqrt, flock, lines, motion, headings, i).flock[j] == flock[j]
    ensures Sweep(sqrt, flock, lines, motion, headings, i).Stuck? ==>
      Unreached(Sweep(sqrt, flock, lines, motion, headings, i).flock, flock, Sweep(sqrt, flock, lines, motion, headings, i).at)
    decreases |flock| - i
  {
    if i < |flock| {
      var s := BoidStep(sqrt, flock, i, lines, motion, headings[i]);
      if s.Some? {
        SweepUnreached(sqrt, flock[i := s.value], lines, motion, headings, i + 1);
      }
    }
  }

  /**
   * Boid `at` is flying and no wire mesmerizes it, while every other boid is
   * perched: the case in which its flying step divides by zero.
   */
  predicate AloneInTheAir(sqrt: real -> real, flock: seq<BoidState>, lines: seq<Line>, at: nat)
    requires IsSqrt(sqrt)
  {
    && at < |flock|
    && flock[at].powerLine < 0
    && (forall j :: 0 <= j < |flock| && j != at ==> flock[j].powerLine >= 0)
    && ScanLines(sqrt, lines, flock[at].p, flock[at].v, |lines|).Pull?
    && !ScanLines(sqrt, lines, flock[at].p, flock[at].v, |lines|).mesmerized
  }

  /**
   * The sweep stops only at a flying boid that no wire mesmerizes while every
   * other boid is perched.
   */
  lemma {:induction false} SweepStuckAlone(sqrt: real -> real, flock: seq<BoidState>, lines: seq<Line>, motion: Motion,
                                           headings: seq<Point>, i: nat)
    requires IsSqrt(sqrt) && i <= |flock| == |headings| && 0.0 <= motion.maxVelocity
    ensures Sweep(sqrt, flock, lines, motion, headings, i).Stuck? ==>
      AloneInTheAir(sqrt, Sweep(sqrt, flock, lines, motion, headings, i).flock, lines, Sweep(sqrt, flock, lines, motion, headings, i).at)
    decreases |flock| - i
  {
    if i < |flock| {
      var s := BoidStep(sqrt, flock, i, lines, motion, headings[i]);
      if s.Some? {
        SweepStuckAlone(sqrt, flock[i := s.value], lines, motion, headings, i + 1);
      } else {
        FlyingUndefined(sqrt, flock, i, lines, motion);
      }
    }
  }

  /** Every boid of a well-formed flock stays well formed through the sweep, in either mood. */
  lemma {:induction false} SweepWellFormed(sqrt: real -> real, flock: seq<BoidState>, lines: seq<Line>, motion: Motion,
                                           headings: seq<Point>, i: nat)
    requires IsSqrt(sqrt) && i <= |flock| == |headings| && Reachable(motion)
    requires forall j :: 0 <= j < |flock| ==> WellFormed(flock[j], lines)
    requires forall j :: 0 <= j < |headings| ==> IsHeading(headings[j])
    ensures forall j :: 0 <= j < |flock| ==> WellFormed(Sweep(sqrt, flock, lines, motion, headings, i).flock[j], lines)
    decreases |flock| - i
  {
    ReachableBounds(motion);
    if i < |flock| {
      var s := BoidStep(sqrt, flock, i, lines, motion, headings[i]);
      if s.Some? {
        StepWellFormed(sqrt, flock, i, lines, motion, headings[i]);
        SweepWellFormed(sqrt, flock[i := s.value], lines, motion, headings, i + 1);
      }
    }
  }

  /** No boid appears twice in the flock. */
  predicate Distinct(boids: seq<Boid>)
  {
    forall i, j :: 0 <= i < j < |boids| ==> boids[i] != boids[j]
  }

  /** The wires `initBirds` builds. */
  predicate SetUpLines(lines: seq<Line>)
  {
    |lines| == NumPowerLines && forall i :: 0 <= i < |lines| ==> lines[i] == LineAt(i)
  }

  class World {
    var boids: seq<Boid>
    var lines: seq<Line>
    var motion: Motion
    var beatGate: bool

    /**
     * Distinct boids, the set-up wires, one of the two moods, and every boid
     * well formed.
     */
    predicate Valid()
      reads this, boids
    {
      && Distinct(boids)
      && SetUpLines(lines)
      && Reachable(motion)
      && forall i :: 0 <= i < |boids| ==> WellFormed(boids[i].State(), lines)
    }

    /** The beat gate and the settings it guards. */
    function GateState(): Gate
      reads this
    {
      Gate(beatGate, motion)
    }

    /**
     * initBirds: one flying boid at rest per given position (the placement is
     * random in the source), the wires, the calm mood and an open gate.
     */
    constructor (positions: seq<Point>)
      requires |positions| == FlockSize
      ensures Valid() && fresh(boids)
      ensures Snapshot(boids) == seq(|positions|, k requires 0 <= k < |positions| => BoidState(positions[k], Origin, -1, 0))
      ensures lines == [Line(5.0, 20.0), Line(8.0, 20.0), Line(11.0, 20.0)]
      ensures motion == Calm && beatGate
    {
      var flock: seq<Boid> := [];
      var i := 0;
      while i < |positions|
        invariant 0 <= i <= |positions| && |flock| == i
        invariant Distinct(flock) && fresh(flock)
        invariant forall k :: 0 <= k < i ==> flock[k].State() == BoidState(positions[k], Origin, -1, 0)
      {
        var b := new Boid(positions[i].x, positions[i].y, positions[i].z);
        flock := flock + [b];
        i := i + 1;
      }
      var wires := InitLines(NumPowerLines);
      WiresOfTheSetUp(wires);
      boids, lines, motion, beatGate := flock, wires, Calm, true;
    }

    /**
     * The flock `step`: each boid steps in turn on the flock as it stands.
     * `headings` holds the random launch direction of each boid. It stops at
     * the first boid whose step is undefined and returns its index.
     */
    method Step(sqrt: real -> real, headings: seq<Point>) returns (stuck: Option<nat>)
      requires IsSqrt(sqrt) && Valid() && |headings| == |boids|
      requires forall j :: 0 <= j < |headings| ==> IsHeading(headings[j])
      modifies boids
      ensures Valid()
      ensures var r := Sweep(sqrt, old(Snapshot(boids)), lines, motion, headings, 0);
        && Snapshot(boids) == r.flock
        && stuck == (if r.Stuck? then Some(r.at) else None)
    {
      ReachableBounds(motion);
      ghost var flock0 := Snapshot(boids);
      SweepWellFormed(sqrt, flock0, lines, motion, headings, 0);
      stuck := StepAll(sqrt, headings, flock0);
    }

    /** The loop of the flock step, boid by boid in flock order. */
    method StepAll(sqrt: real -> real, headings: seq<Point>, ghost flock0: seq<BoidState>) returns (stuck: Option<nat>)
      requires IsSqrt(sqrt) && Distinct(boids) && |headings| == |boids| && 0.0 <= motion.maxVelocity
      requires flock0 == Snapshot(boids)
      modifies boids
      ensures var r := Sweep(sqrt, flock0, lines, motion, headings, 0);
        && Snapshot(boids) == r.flock
        && stuck == (if r.Stuck? then Some(r.at) else None)
    {
      var i := 0;
      ghost var current := flock0;
      while i < |boids|
        invariant 0 <= i <= |boids|
        invariant Snapshot(boids) == current
        invariant Sweep(sqrt, current, lines, motion, headings, i) == Sweep(sqrt, flock0, lines, motion, headings, 0)
      {
        var defined := Turn(sqrt, headings, i, current);
        current := Snapshot(boids);
        if !defined {
          return Some(i);
        }
        i := i + 1;
      }
      return None;
    }

    /** Boid `i`'s turn in the flock step: the rest of the sweep goes on from the flock it leaves, or stops at it. */
    method Turn(sqrt: real -> real, headings: seq<Point>, i: nat, ghost current: seq<BoidState>) returns (defined: bool)
      requires IsSqrt(sqrt) && Distinct(boids) && i < |boids| == |headings| && 0.0 <= motion.maxVelocity
      requires current == Snapshot(boids)
      modifies boids
      ensures defined ==> Sweep(sqrt, current, lines, motion, headings, i) == Sweep(sqrt, Snapshot(boids), lines, motion, headings, i + 1)
      ensures !defined ==> Sweep(sqrt, current, lines, motion, headings, i) == Stuck(i, Snapshot(boids))
    {
      defined := StepBoid(sqrt, headings, i);
      ghost var s := BoidStep(sqrt, current, i, lines, motion, headings[i]);
      ghost var after := if defined then current[i := s.value] else current;
      assert forall j :: 0 <= j < |boids| ==> boids[j].State() == after[j];
      assert Snapshot(boids) == after;
    }

    /** The turn of boid `i` in the flock step: only boid `i` changes, as its step says. */
    method StepBoid(sqrt: real -> real, headings: seq<Point>, i: nat) returns (defined: bool)
      requires IsSqrt(sqrt) && Distinct(boids) && i < |boids| == |headings|
      requires 0.0 <= motion.maxVelocity
      modifies boids
      ensures var s := BoidStep(sqrt, old(Snapshot(boids)), i, lines, motion, headings[i]);
        && defined == s.Some?
        && boids[i].State() == if defined then s.value else old(boids[i].State())
      ensures forall j :: 0 <= j < |boids| && j != i ==> boids[j].State() == old(boids[j].State())
    {
      defined := boids[i].Step(sqrt, boids, i, lines, motion, headings[i]);
    }

    /** changeFlockMovement: swap the collision distance and the maximum velocity to the other mood. */
    method ChangeFlockMovement()
      modifies this
      ensures motion == Toggled(old(motion))
      ensures boids == old(boids) && lines == old(lines) && beatGate == old(beatGate)
    {
      motion := Motion(if motion.collisionDistance == 1.0 then 2.0 else 1.0,
                       if motion.maxVelocity == 1.0 then 1.5 else 1.0);
    }

    /** The "beat" handler: change the mood when the gate is open, and close the gate. */
    method OnBeat()
      requires Valid()
      modifies this
      ensures Valid()
      ensures GateState() == Settings.OnBeat(old(GateState()))
      ensures boids == old(boids) && lines == old(lines)
    {
      if beatGate {
        ChangeFlockMovement();
        ToggleSwaps(old(motion));
      }
      beatGate := false;
    }

    /** The interval of one second: reopen the gate. */
    method Tick()
      requires Valid()
      modifies this
      ensures Valid()
      ensures GateState() == Settings.Tick(old(GateState()))
      ensures boids == old(boids) && lines == old(lines)
    {
      beatGate := true;
    }
  }
}
