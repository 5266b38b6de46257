/**
 * A boid as the object the source builds: its position, velocity and wire
 * index are fields that its steps update in place, and `lastStep` (a closure
 * variable in the source) is a field too. Each step is proved to leave the
 * boid in the state that the matching function of `BoidSpec` computes from a
 * snapshot of the flock taken before the step.
 *
 * Positions and velocities are point values here; the source's in-place
 * point updates become reassignments of the fields.
 */
module Boids {
  import opened Wrappers
  import opened Vectors
  import opened PowerLines
  import opened Settings
  import opened BoidSpec

  /** The flock as values, one state per boid, in flock order. */
  function Snapshot(flock: seq<Boid>): (s: seq<BoidState>)
    reads flock
    ensures |s| == |flock|
    ensures forall j :: 0 <= j < |flock| ==> s[j] == flock[j].State()
    decreases |flock|
  {
    if flock == [] then [] else Snapshot(flock[..|flock| - 1]) + [flock[|flock| - 1].State()]
  }

  /** `b` stands at index `me` of the flock and nowhere else: `b === boid` exactly at `me`. */
  predicate OnlyAt(flock: seq<Boid>, me: nat, b: Boid)
  {
    me < |flock| && flock[me] == b && forall j :: 0 <= j < |flock| && j != me ==> flock[j] != b
  }

  class Boid {
    var p: Point
    var v: Point
    var powerLine: int
    var lastStep: int

    function State(): BoidState
      reads this
    {
      BoidState(p, v, powerLine, lastStep)
    }

    /** Boid(x, y, z): flying, at rest, at the given point. */
    constructor (x: real, y: real, z: real)
      ensures State() == BoidState(Point(x, y, z), Origin, -1, 0)
    {
      p := Point(x, y, z);
      powerLine := -1;
      v := Origin;
      lastStep := 0;
    }

    /** launch(direction): fly off along `direction`; a launch without one is given the random heading. */
    method Launch(direction: Point)
      modifies this
      ensures State() == Launched(old(State()), direction)
    {
      lastStep := 0;
      powerLine := -1;
      v := Point(LaunchVelocity * direction.x, LaunchVelocity * direction.y, LaunchVelocity * direction.z);
    }

    /**
     * stepSitting: find the nearest neighbours on the wire and the pull of the
     * nearby flyers, then launch or balance the gaps; `heading` is the
     * direction of a launch that is not along the flyers.
     */
    method StepSitting(sqrt: real -> real, flock: seq<Boid>, me: nat, heading: Point)
      requires IsSqrt(sqrt) && OnlyAt(flock, me, this)
      modifies this
      ensures State() == SittingStep(sqrt, old(Snapshot(flock)), me, heading)
    {
      ghost var flock0 := Snapshot(flock);
      ghost var self := State();
      var right := HalfWidth(p.z);
      var left := -right;
      var influence := Origin;
      var j := 0;
      while j < |flock|
        invariant 0 <= j <= |flock|
        invariant ScanNeighbours(sqrt, flock0, me, self, j) == Neighbours(left, right, influence)
      {
        var b := flock[j];
        if b != this {
          if b.powerLine == powerLine {
            if b.p.x < p.x && b.p.x > left {
              left := b.p.x;
            }
            if b.p.x > p.x && b.p.x < right {
              right := b.p.x;
            }
          } else if b.powerLine < 0 && Near(sqrt, p, b.p, SittingInfluenceDistance) {
            influence := Add(influence, b.v);
          }
        }
        j := j + 1;
      }
      left := p.x - left;
      right := right - p.x;
      if left < MinimumLineDistance || right < MinimumLineDistance {
        Launch(heading);
        return;
      }
      var m := Magnitude(sqrt, influence);
      if m > LaunchInfluence {
        Launch(Mul(influence, 1.0 / m));
        return;
      }
      lastStep := lastStep + 1;
      if lastStep >= StepTiming {
        if left < IdealLineDistance {
          if right < IdealLineDistance {
            var difference := right - left;
            if difference < -StepDistance {
              p := p.(x := p.x - StepDistance);
              lastStep := 0;
            } else if difference > StepDistance {
              p := p.(x := p.x + StepDistance);
              lastStep := 0;
            } else if right < TolerableLineDistance || left < TolerableLineDistance {
              Launch(heading);
              return;
            }
          } else if left < IdealLineDistance - StepDistance {
            p := p.(x := p.x + StepDistance);
            lastStep := 0;
          }
        } else if right < IdealLineDistance - StepDistance {
          p := p.(x := p.x - StepDistance);
          lastStep := 0;
        }
      }
    }

    /**
     * stepFlying: land on the first wire that allows it, or steer by the
     * wires, the flock and the walls, damp and clamp, and move. It reports
     * `false`, and changes nothing, exactly when the source divides by a zero
     * count of flying boids.
     */
    method StepFlying(sqrt: real -> real, flock: seq<Boid>, me: nat, lines: seq<Line>, motion: Motion) returns (defined: bool)
      requires IsSqrt(sqrt) && OnlyAt(flock, me, this) && 0.0 <= motion.maxVelocity
      modifies this
      ensures var r := FlyingStep(sqrt, old(Snapshot(flock)), me, lines, motion);
        && defined == r.Some?
        && (defined ==> State() == r.value)
        && (!defined ==> State() == old(State()))
    {
      ghost var flock0 := Snapshot(flock);
      var p0, v0 := p, v;
      var scan := ScanWires(sqrt, lines, p0, v0);
      if scan.Land? {
        FlyingByScans(sqrt, flock0, me, lines, motion, scan, ScanFlock(sqrt, flock0, me, p0, motion.collisionDistance, false, |flock|));
        var line := lines[scan.line];
        v := Origin;
        p := Point(p0.x, line.y, line.z);
        powerLine := scan.line;
        defined := true;
      } else {
        var f := SumFlock(sqrt, flock, me, this, p0, motion.collisionDistance, scan.mesmerized);
        ScanFlockSpec(sqrt, flock0, me, p0, motion.collisionDistance, scan.mesmerized, |flock|);
        FlyingByScans(sqrt, flock0, me, lines, motion, scan, f);
        defined := scan.mesmerized || f.flying > 0;
        if defined {
          ghost var next := Flown(sqrt, State(), scan, f, motion.maxVelocity);
          assert FlyingStep(sqrt, flock0, me, lines, motion) == Some(next);
          Fly(sqrt, scan, f, motion.maxVelocity);
          assert State() == next;
        }
      }
    }

    /**
     * The end of `stepFlying` for a boid that does not land: the new velocity
     * from the two scans, and the move by it.
     */
    method Fly(sqrt: real -> real, scan: LineScan, f: Forces, maxVelocity: real)
      requires IsSqrt(sqrt) && Defined(scan, f) && 0.0 <= maxVelocity
      requires scan.mesmerized ==> f.centre == Origin && f.velocity == Origin
      modifies this
      ensures State() == Flown(sqrt, old(State()), scan, f, maxVelocity)
    {
      var v1 := Steer(sqrt, scan, f, p, v, maxVelocity);
      v := v1;
      p := Add(p, v1);
    }

    /** boid.step: sit when perched, fly otherwise. */
    method Step(sqrt: real -> real, flock: seq<Boid>, me: nat, lines: seq<Line>, motion: Motion, heading: Point)
      returns (defined: bool)
      requires IsSqrt(sqrt) && OnlyAt(flock, me, this) && 0.0 <= motion.maxVelocity
      modifies this
      ensures var r := BoidStep(sqrt, old(Snapshot(flock)), me, lines, motion, heading);
        && defined == r.Some?
        && (defined ==> State() == r.value)
        && (!defined ==> State() == old(State()))
    {
      if powerLine >= 0 {
        StepSitting(sqrt, flock, me, heading);
        defined := true;
      } else {
        defined := StepFlying(sqrt, flock, me, lines, motion);
      }
    }
  }

  /**
   * The wire loop of `stepFlying`: it collects the pull of every wire within
   * attraction distance that the boid is not leaving, and stops at the first
   * wire the boid can sit on.
   */
  method ScanWires(sqrt: real -> real, lines: seq<Line>, p: Point, v: Point) returns (scan: LineScan)
    requires IsSqrt(sqrt)
    ensures scan == ScanLines(sqrt, lines, p, v, |lines|)
  {
    var attraction, adjustment, mesmerized := Origin, 1.0, false;
    var i := 0;
    while i < |lines|
      invariant 0 <= i <= |lines|
      invariant ScanLines(sqrt, lines, p, v, i) == Pull(attraction, adjustment, mesmerized)
    {
      var line := lines[i];
      var distance := Distance(sqrt, line, p);
      if distance <= PowerLineAttractDistance {
        var vBar := DirectionalVelocity(sqrt, line, p, v);
        if vBar >= 0.0 {
          attraction := Point(attraction.x, attraction.y + (line.y - p.y), attraction.z + (line.z - p.z));
          var tmp := distance / PowerLineAttractDistance;
          if tmp < adjustment {
            adjustment := tmp;
          }
          if distance < PowerLineSitDistance && vBar < MinimumSitVelocity {
            LandPersists(sqrt, lines, p, v, i + 1, |lines|);
            return Land(i);
          }
          if distance < MesmarizeDistance {
            mesmerized := true;
          }
        }
      }
      i := i + 1;
    }
    return Pull(attraction, adjustment, mesmerized);
  }

  /**
   * The flock loop of `stepFlying` for the boid `boid` at `self`: it sums the
   * positions and velocities of the other flying boids (unless the wires
   * mesmerize), pushes away from those within `collisionDistance`, and counts
   * them.
   */
  method SumFlock(sqrt: real -> real, flock: seq<Boid>, me: nat, boid: Boid, self: Point,
                  collisionDistance: real, mesmerized: bool) returns (f: Forces)
    requires IsSqrt(sqrt) && OnlyAt(flock, me, boid)
    ensures f == ScanFlock(sqrt, Snapshot(flock), me, self, collisionDistance, mesmerized, |flock|)
  {
    ghost var flock0 := Snapshot(flock);
    var centre, velocity, avoidance, flying := Origin, Origin, Origin, 0;
    var j := 0;
    while j < |flock|
      invariant 0 <= j <= |flock|
      invariant Forces(centre, velocity, avoidance, flying) ==
        ScanFlock(sqrt, flock0, me, self, collisionDistance, mesmerized, j)
    {
      var b := flock[j];
      if b != boid && b.powerLine < 0 {
        if !mesmerized {
          centre := Add(centre, b.p);
          velocity := Add(velocity, b.v);
        }
        if Near(sqrt, b.p, self, collisionDistance) {
          avoidance := Sub(avoidance, Sub(b.p, self));
        }
        flying := flying + 1;
      }
      j := j + 1;
    }
    return Forces(centre, velocity, avoidance, flying);
  }

  /**
   * The new velocity of a flying boid that does not land: average the flock,
   * add the wall pushes, weight the four terms, add them to the velocity, then
   * damp and clamp by the speed before damping.
   */
  method Steer(sqrt: real -> real, scan: LineScan, f: Forces, p: Point, v: Point, maxVelocity: real)
    returns (r: Point)
    requires IsSqrt(sqrt) && Defined(scan, f) && 0.0 <= maxVelocity
    requires scan.mesmerized ==> f.centre == Origin && f.velocity == Origin
    ensures r == Damp(sqrt, Add(v, Steering(scan, f, p)), scan.adjustment, maxVelocity)
  {
    var centre, velocity := f.centre, f.velocity;
    if !scan.mesmerized {
      centre := Sub(Mul(centre, 1.0 / (f.flying as real)), p);
    }
    var avoidance := WallsAdded(f.avoidance, p);
    if !scan.mesmerized {
      centre := Mul(centre, CenterAttractionWeight);
      velocity := Mul(velocity, VelocityAttractionWeight / (f.flying as real));
    }
    avoidance := Mul(avoidance, CollisionAvoidanceWeight);
    var attraction := Mul(scan.attraction, PowerLineAttractionWeight);
    r := Add(v, Add(Add(centre, velocity), Add(avoidance, attraction)));
    var vBar := Magnitude(sqrt, r);
    if scan.adjustment < 1.0 && vBar > 0.2 {
      r := Mul(r, scan.adjustment);
    }
    if vBar > maxVelocity {
      r := Mul(r, maxVelocity / vBar);
    }
  }

  /**
   * The wall pushes of `stepFlying`, each added to the collision avoidance
   * when the boid is within the wall-collision distance of that wall.
   */
  method WallsAdded(avoidance: Point, p: Point) returns (r: Point)
    ensures r == Add(avoidance, WallAvoidance(p))
  {
    r := avoidance;
    if p.z > PyramidTop - WallCollisionDistance {
      r := r.(z := r.z + (PyramidTop - WallCollisionDistance - p.z));
    }
    if p.z < PyramidBase + WallCollisionDistance {
      r := r.(z := r.z + (PyramidBase + WallCollisionDistance - p.z));
    }
    var widthAtZ := HalfWidth(p.z);
    if p.x > widthAtZ - WallCollisionDistance {
      r := r.(x := r.x + (widthAtZ - WallCollisionDistance - p.x));
    }
    if p.x < -widthAtZ + WallCollisionDistance {
      r := r.(x := r.x + (-widthAtZ + WallCollisionDistance - p.x));
    }
    if p.y > widthAtZ - WallCollisionDistance {
      r := r.(y := r.y + (widthAtZ - WallCollisionDistance - p.y));
    }
    if p.y < -widthAtZ + WallCollisionDistance {
      r := r.(y := r.y + (-widthAtZ + WallCollisionDistance - p.y));
    }
  }
}
