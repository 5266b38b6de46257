/**
 * What one step of a boid computes, as functions of the flock it sees: the
 * state of every boid as a value, with the stepping boid at index `me` (the
 * source's `b === boid`). A boid is flying while its `powerLine` is negative
 * and perched on wire `powerLine` otherwise.
 *
 * The random launch angle is the parameter `heading`; `Math.sqrt` is `sqrt`.
 */
module BoidSpec {
  import opened Wrappers
  import opened Vectors
  import opened PowerLines
  import opened Settings

  /** The fields of a boid: position, velocity, wire index, and the closure counter `lastStep`. */
  datatype BoidState = BoidState(p: Point, v: Point, powerLine: int, lastStep: int)

  /** A direction `launch` draws: `(0, sin θ, cos θ)`. */
  predicate IsHeading(d: Point)
  {
    d.x == 0.0 && Norm2(d) == 1.0
  }

  /**
   * launch(direction): leave the wire, reset the step counter, and fly off at
   * `LAUNCH_VELOCITY` times the direction; the position does not change.
   */
  function Launched(b: BoidState, direction: Point): (r: BoidState)
    ensures r.p == b.p && r.powerLine == -1 && r.lastStep == 0
    ensures r.v == direction
  {
    BoidState(b.p, Mul(direction, LaunchVelocity), -1, 0)
  }

  // ---------------------------------------------------------------------------
  // Flying: the scan over the wires

  /** What the scan over the wires yields: a landing on wire `line`, or the pull of the wires. */
  datatype LineScan = Land(line: nat) | Pull(attraction: Point, adjustment: real, mesmerized: bool)

  /**
   * A flying boid can sit on wire `l`: the wire is within attraction distance,
   * the boid is not moving away from it, and it is close and slow enough.
   */
  predicate CanLand(sqrt: real -> real, l: Line, p: Point, v: Point)
    requires IsSqrt(sqrt)
  {
    var d := Distance(sqrt, l, p);
    var rate := DirectionalVelocity(sqrt, l, p, v);
    d <= PowerLineAttractDistance && rate >= 0.0 && d < PowerLineSitDistance && rate < MinimumSitVelocity
  }

  /** One iteration of the wire loop of `stepFlying`, for wire `l` at index `i`. */
  function LineStep(sqrt: real -> real, l: Line, i: nat, p: Point, v: Point,
                    attraction: Point, adjustment: real, mesmerized: bool): LineScan
    requires IsSqrt(sqrt)
  {
    var d := Distance(sqrt, l, p);
    if d <= PowerLineAttractDistance then
      var rate := DirectionalVelocity(sqrt, l, p, v);
      if rate >= 0.0 then
        var adjustment' := if d / PowerLineAttractDistance < adjustment then d / PowerLineAttractDistance else adjustment;
        if d < PowerLineSitDistance && rate < MinimumSitVelocity then Land(i)
        else Pull(Point(attraction.x, attraction.y + (l.y - p.y), attraction.z + (l.z - p.z)),
                  adjustment', mesmerized || d < MesmarizeDistance)
      else Pull(attraction, adjustment, mesmerized)
    else Pull(attraction, adjustment, mesmerized)
  }

  /** The wire loop over the first `n` wires; it stops at the first landing. */
  function ScanLines(sqrt: real -> real, lines: seq<Line>, p: Point, v: Point, n: nat): (r: LineScan)
    requires IsSqrt(sqrt) && n <= |lines|
    ensures r.Land? ==> r.line < n
  {
    if n == 0 then Pull(Origin, 1.0, false)
    else
      var acc := ScanLines(sqrt, lines, p, v, n - 1);
      if acc.Land? then acc
      else LineStep(sqrt, lines[n - 1], n - 1, p, v, acc.attraction, acc.adjustment, acc.mesmerized)
  }

  /**
   * The scan lands on the first wire, in list order, that the boid can sit on;
   * when it does not land, no wire allows it, the attraction has no x part, and
   * the damping factor lies in [0, 1]: it is one, or the distance to a wire
   * within attraction distance divided by that distance.
   */
  lemma {:induction false} ScanLinesSpec(sqrt: real -> real, lines: seq<Line>, p: Point, v: Point, n: nat)
    requires IsSqrt(sqrt) && n <= |lines|
    ensures var r := ScanLines(sqrt, lines, p, v, n);
      r.Land? ==> CanLand(sqrt, lines[r.line], p, v) && forall j :: 0 <= j < r.line ==> !CanLand(sqrt, lines[j], p, v)
    ensures var r := ScanLines(sqrt, lines, p, v, n);
      r.Pull? ==>
        && (forall j :: 0 <= j < n ==> !CanLand(sqrt, lines[j], p, v))
        && r.attraction.x == 0.0
        && 0.0 <= r.adjustment <= 1.0
        && (r.adjustment == 1.0 || exists j :: 0 <= j < n && r.adjustment == Distance(sqrt, lines[j], p) / PowerLineAttractDistance)
  {
    if n > 0 {
      ScanLinesSpec(sqrt, lines, p, v, n - 1);
      var acc := ScanLines(sqrt, lines, p, v, n - 1);
      if acc.Pull? {
        var l := lines[n - 1];
        var d := Distance(sqrt, l, p);
        var r := ScanLines(sqrt, lines, p, v, n);
        if r.Pull? && r.adjustment != acc.adjustment {
          assert r.adjustment == d / PowerLineAttractDistance;
        } else if r.Pull? && acc.adjustment != 1.0 {
          var j :| 0 <= j < n - 1 && acc.adjustment == Distance(sqrt, lines[j], p) / PowerLineAttractDistance;
          assert 0 <= j < n;
        }
      }
    }
  }

  /** Once the scan has landed, looking at further wires does not change it. */
  lemma {:induction false} LandPersists(sqrt: real -> real, lines: seq<Line>, p: Point, v: Point, i: nat, n: nat)
    requires IsSqrt(sqrt) && i <= n <= |lines| && ScanLines(sqrt, lines, p, v, i).Land?
    ensures ScanLines(sqrt, lines, p, v, n) == ScanLines(sqrt, lines, p, v, i)
    decreases n
  {
    if n > i {
      LandPersists(sqrt, lines, p, v, i, n - 1);
    }
  }

  /** The scan lands on wire `i` exactly when `i` is the first wire the boid can sit on. */
  lemma LandsOnFirst(sqrt: real -> real, lines: seq<Line>, p: Point, v: Point, i: nat)
    requires IsSqrt(sqrt)
    ensures ScanLines(sqrt, lines, p, v, |lines|) == Land(i) <==>
      i < |lines| && CanLand(sqrt, lines[i], p, v) && forall j :: 0 <= j < i ==> !CanLand(sqrt, lines[j], p, v)
  {
    ScanLinesSpec(sqrt, lines, p, v, |lines|);
  }

  // ---------------------------------------------------------------------------
  // Flying: the scan over the flock

  /** The sums of the flock loop and the number of other flying boids it counted. */
  datatype Forces = Forces(centre: Point, velocity: Point, avoidance: Point, flying: nat)

  /**
   * One iteration of the flock loop: a perched boid is skipped; a flying one
   * adds its position and velocity (unless the wires mesmerize), pushes away
   * when within the collision distance, and is counted.
   */
  function FlockStep(sqrt: real -> real, b: BoidState, self: Point, collisionDistance: real, mesmerized: bool, f: Forces): Forces
    requires IsSqrt(sqrt)
  {
    if b.powerLine >= 0 then f
    else
      Forces(if mesmerized then f.centre else Add(f.centre, b.p),
             if mesmerized then f.velocity else Add(f.velocity, b.v),
             if Near(sqrt, b.p, self, collisionDistance) then Sub(f.avoidance, Sub(b.p, self)) else f.avoidance,
             f.flying + 1)
  }

  /** The flock loop over the first `n` boids, leaving out the stepping boid `me`. */
  function ScanFlock(sqrt: real -> real, flock: seq<BoidState>, me: nat, self: Point,
                     collisionDistance: real, mesmerized: bool, n: nat): Forces
    requires IsSqrt(sqrt) && n <= |flock|
  {
    if n == 0 then Forces(Origin, Origin, Origin, 0)
    else
      var f := ScanFlock(sqrt, flock, me, self, collisionDistance, mesmerized, n - 1);
      if n - 1 == me then f else FlockStep(sqrt, flock[n - 1], self, collisionDistance, mesmerized, f)
  }

  /**
   * The count of flying boids is zero exactly when every other boid is
   * perched, and is at most the number of boids looked at; while the wires
   * mesmerize, neither the centre nor the velocity sum collects anything.
   */
  lemma {:induction false} ScanFlockSpec(sqrt: real -> real, flock: seq<BoidState>, me: nat, self: Point,
                                         collisionDistance: real, mesmerized: bool, n: nat)
    requires IsSqrt(sqrt) && n <= |flock|
    ensures var f := ScanFlock(sqrt, flock, me, self, collisionDistance, mesmerized, n);
      && f.flying <= n
      && (f.flying == 0 <==> forall j :: 0 <= j < n && j != me ==> flock[j].powerLine >= 0)
      && (mesmerized ==> f.centre == Origin && f.velocity == Origin)
  {
    if n > 0 {
      ScanFlockSpec(sqrt, flock, me, self, collisionDistance, mesmerized, n - 1);
    }
  }

  // ---------------------------------------------------------------------------
  // Flying: walls, steering, damping

  /**
   * The push back from the walls of the pyramid, before weighting: it is zero
   * inside the zone a wall-collision distance away from every wall, and each
   * component points back into that zone.
   */
  function WallAvoidance(p: Point): (w: Point)
    ensures PyramidBase + WallCollisionDistance <= p.z <= PyramidTop - WallCollisionDistance ==> w.z == 0.0
    ensures w.z < 0.0 ==> p.z > PyramidTop - WallCollisionDistance
    ensures w.z > 0.0 ==> p.z < PyramidBase + WallCollisionDistance
    ensures -(HalfWidth(p.z) - WallCollisionDistance) <= p.x <= HalfWidth(p.z) - WallCollisionDistance ==> w.x == 0.0
    ensures -(HalfWidth(p.z) - WallCollisionDistance) <= p.y <= HalfWidth(p.z) - WallCollisionDistance ==> w.y == 0.0
    ensures HalfWidth(p.z) >= WallCollisionDistance ==>
      (w.x < 0.0 ==> p.x > HalfWidth(p.z) - WallCollisionDistance) && (w.x > 0.0 ==> p.x < -HalfWidth(p.z) + WallCollisionDistance)
  {
    var width := HalfWidth(p.z);
    var top := PyramidTop - WallCollisionDistance;
    var bottom := PyramidBase + WallCollisionDistance;
    var high := width - WallCollisionDistance;
    var low := -width + WallCollisionDistance;
    Point((if p.x > high then high - p.x else 0.0) + (if p.x < low then low - p.x else 0.0),
          (if p.y > high then high - p.y else 0.0) + (if p.y < low then low - p.y else 0.0),
          (if p.z > top then top - p.z else 0.0) + (if p.z < bottom then bottom - p.z else 0.0))
  }

  /** The flock forces are defined: the wires mesmerize, or some other boid is flying. */
  predicate Defined(scan: LineScan, f: Forces)
  {
    scan.Pull? && (scan.mesmerized || f.flying > 0)
  }

  /** The weighted sum of the four steering terms that `stepFlying` adds to the velocity. */
  function Steering(scan: LineScan, f: Forces, p: Point): Point
    requires Defined(scan, f)
  {
    var centre := if scan.mesmerized then Origin
      else Mul(Sub(Mul(f.centre, 1.0 / (f.flying as real)), p), CenterAttractionWeight);
    var velocity := if scan.mesmerized then Origin
      else Mul(f.velocity, VelocityAttractionWeight / (f.flying as real));
    var avoidance := Mul(Add(f.avoidance, WallAvoidance(p)), CollisionAvoidanceWeight);
    var attraction := Mul(scan.attraction, PowerLineAttractionWeight);
    Add(Add(centre, velocity), Add(avoidance, attraction))
  }

  /**
   * Damping near a wire and the speed clamp: both use the speed before
   * damping.
   */
  function Damp(sqrt: real -> real, v: Point, adjustment: real, maxVelocity: real): Point
    requires IsSqrt(sqrt) && 0.0 <= maxVelocity
  {
    var speed := Magnitude(sqrt, v);
    var damped := if adjustment < 1.0 && speed > 0.2 then Mul(v, adjustment) else v;
    if speed > maxVelocity then Mul(damped, maxVelocity / speed) else damped
  }

  /** `(m / s) * (a * s) == a * m` for a positive speed `s`. */
  lemma ClampOfDamped(a: real, s: real, m: real)
    requires 0.0 < s
    ensures (m / s) * (a * s) == a * m
  {
    var q := m / s;
    assert q * s == m;
    assert q * (a * s) == a * (q * s);
  }

  /** Damped and clamped: the speed is `a * m`. */
  lemma DampedClamp(sqrt: real -> real, v: Point, a: real, m: real)
    requires IsSqrt(sqrt) && 0.0 <= a < 1.0 && 0.0 < m
    requires Magnitude(sqrt, v) > 0.2 && Magnitude(sqrt, v) > m
    ensures Magnitude(sqrt, Damp(sqrt, v, a, m)) == a * m
  {
    var s := Magnitude(sqrt, v);
    var damped := Mul(v, a);
    assert Damp(sqrt, v, a, m) == Mul(damped, m / s);
    MagnitudeOfMul(sqrt, v, a);
    MagnitudeOfMul(sqrt, damped, m / s);
    ClampOfDamped(a, s, m);
  }

  /** Clamped only: the speed is `m`. */
  lemma UndampedClamp(sqrt: real -> real, v: Point, a: real, m: real)
    requires IsSqrt(sqrt) && 0.0 < m
    requires !(a < 1.0 && Magnitude(sqrt, v) > 0.2) && Magnitude(sqrt, v) > m
    ensures Magnitude(sqrt, Damp(sqrt, v, a, m)) == m
  {
    var s := Magnitude(sqrt, v);
    assert Damp(sqrt, v, a, m) == Mul(v, m / s);
    MagnitudeOfMul(sqrt, v, m / s);
    assert (m / s) * s == m;
  }

  /** Damped only: the speed is `a` times the old speed. */
  lemma DampedOnly(sqrt: real -> real, v: Point, a: real, m: real)
    requires IsSqrt(sqrt) && 0.0 <= a < 1.0 && 0.0 < m
    requires Magnitude(sqrt, v) > 0.2 && Magnitude(sqrt, v) <= m
    ensures Magnitude(sqrt, Damp(sqrt, v, a, m)) == a * Magnitude(sqrt, v)
  {
    assert Damp(sqrt, v, a, m) == Mul(v, a);
    MagnitudeOfMul(sqrt, v, a);
  }

  /** Scaling a non-negative number by at most one does not increase it. */
  lemma ScaledDown(a: real, x: real)
    requires a <= 1.0 && 0.0 <= x
    ensures a * x <= x
  {
    assert (1.0 - a) * x >= 0.0;
  }

  /**
   * The velocity after damping and clamping: unchanged when slow and far from
   * the wires; otherwise its speed is the damped speed, the clamp `m`, or the
   * damped clamp (the clamp divides by the speed before damping).
   */
  lemma DampSpec(sqrt: real -> real, v: Point, a: real, m: real)
    requires IsSqrt(sqrt) && 0.0 <= a <= 1.0 && 0.0 < m
    ensures var s := Magnitude(sqrt, v);
      var damps := a < 1.0 && s > 0.2;
      var rs := Magnitude(sqrt, Damp(sqrt, v, a, m));
      && (s <= m && !damps ==> Damp(sqrt, v, a, m) == v)
      && (s <= m && damps ==> rs == a * s)
      && (s > m && !damps ==> rs == m)
      && (s > m && damps ==> rs == a * m)
  {
    var s := Magnitude(sqrt, v);
    if a < 1.0 && s > 0.2 {
      if s > m {
        DampedClamp(sqrt, v, a, m);
      } else {
        DampedOnly(sqrt, v, a, m);
      }
    } else if s > m {
      UndampedClamp(sqrt, v, a, m);
    }
  }

  /** Damping and clamping never leave a speed above the maximum. */
  lemma DampBounded(sqrt: real -> real, v: Point, a: real, m: real)
    requires IsSqrt(sqrt) && 0.0 <= a <= 1.0 && 0.0 < m
    ensures Magnitude(sqrt, Damp(sqrt, v, a, m)) <= m
  {
    var s := Magnitude(sqrt, v);
    DampSpec(sqrt, v, a, m);
    if a < 1.0 && s > 0.2 {
      if s > m {
        ScaledDown(a, m);
      } else {
        ScaledDown(a, s);
      }
    }
  }

  /** Landing on wire `i`: snap to its height and depth, stop, and record the wire. */
  function Landed(b: BoidState, l: Line, i: nat): BoidState
  {
    BoidState(Point(b.p.x, l.y, l.z), Point(0.0, 0.0, 0.0), i, b.lastStep)
  }

  /** A flying step that does not land: steer, damp and clamp, then move by the new velocity. */
  function Flown(sqrt: real -> real, b: BoidState, scan: LineScan, f: Forces, maxVelocity: real): BoidState
    requires IsSqrt(sqrt) && Defined(scan, f) && 0.0 <= maxVelocity
  {
    var v := Damp(sqrt, Add(b.v, Steering(scan, f, b.p)), scan.adjustment, maxVelocity);
    BoidState(Add(b.p, v), v, b.powerLine, b.lastStep)
  }

  /**
   * stepFlying: land on the first wire that allows it, or fly. `None` stands
   * for the division by a zero count of flying boids, which leaves `NaN` in
   * the source.
   */
  function FlyingStep(sqrt: real -> real, flock: seq<BoidState>, me: nat, lines: seq<Line>, motion: Motion): Option<BoidState>
    requires IsSqrt(sqrt) && me < |flock| && 0.0 <= motion.maxVelocity
  {
    var b := flock[me];
    var scan := ScanLines(sqrt, lines, b.p, b.v, |lines|);
    if scan.Land? then Some(Landed(b, lines[scan.line], scan.line))
    else
      var f := ScanFlock(sqrt, flock, me, b.p, motion.collisionDistance, scan.mesmerized, |flock|);
      if !Defined(scan, f) then None
      else Some(Flown(sqrt, b, scan, f, motion.maxVelocity))
  }

  /** The flying step by the outcome of its two scans. */
  lemma FlyingByScans(sqrt: real -> real, flock: seq<BoidState>, me: nat, lines: seq<Line>, motion: Motion,
                      scan: LineScan, f: Forces)
    requires IsSqrt(sqrt) && me < |flock| && 0.0 <= motion.maxVelocity
    requires scan == ScanLines(sqrt, lines, flock[me].p, flock[me].v, |lines|)
    requires f == ScanFlock(sqrt, flock, me, flock[me].p, motion.collisionDistance, scan.Pull? && scan.mesmerized, |flock|)
    ensures scan.Land? ==> FlyingStep(sqrt, flock, me, lines, motion) == Some(Landed(flock[me], lines[scan.line], scan.line))
    ensures scan.Pull? && !Defined(scan, f) ==> FlyingStep(sqrt, flock, me, lines, motion) == None
    ensures Defined(scan, f) ==> FlyingStep(sqrt, flock, me, lines, motion) == Some(Flown(sqrt, flock[me], scan, f, motion.maxVelocity))
  {
  }

  /**
   * A flying step is undefined exactly when it does not land, the wires do not
   * mesmerize, and every other boid is perched.
   */
  lemma FlyingUndefined(sqrt: real -> real, flock: seq<BoidState>, me: nat, lines: seq<Line>, motion: Motion)
    requires IsSqrt(sqrt) && me < |flock| && 0.0 <= motion.maxVelocity
    ensures var b := flock[me];
      var scan := ScanLines(sqrt, lines, b.p, b.v, |lines|);
      FlyingStep(sqrt, flock, me, lines, motion).None? <==>
        scan.Pull? && !scan.mesmerized && forall j :: 0 <= j < |flock| && j != me ==> flock[j].powerLine >= 0
  {
    var b := flock[me];
    var scan := ScanLines(sqrt, lines, b.p, b.v, |lines|);
    if scan.Pull? {
      ScanFlockSpec(sqrt, flock, me, b.p, motion.collisionDistance, scan.mesmerized, |flock|);
    }
  }

  /**
   * A flying step that does not land keeps the wire index and the counter,
   * adds the new velocity to the position, and leaves a speed of at most the
   * maximum velocity.
   */
  lemma FlyingSpec(sqrt: real -> real, flock: seq<BoidState>, me: nat, lines: seq<Line>, motion: Motion)
    requires IsSqrt(sqrt) && me < |flock| && 0.0 < motion.maxVelocity
    requires ScanLines(sqrt, lines, flock[me].p, flock[me].v, |lines|).Pull?
    requires FlyingStep(sqrt, flock, me, lines, motion).Some?
    ensures var r := FlyingStep(sqrt, flock, me, lines, motion).value;
      && r.powerLine == flock[me].powerLine
      && r.p == Add(flock[me].p, r.v)
      && r.lastStep == flock[me].lastStep
      && Magnitude(sqrt, r.v) <= motion.maxVelocity
  {
    var b := flock[me];
    var scan := ScanLines(sqrt, lines, b.p, b.v, |lines|);
    ScanLinesSpec(sqrt, lines, b.p, b.v, |lines|);
    var f := ScanFlock(sqrt, flock, me, b.p, motion.collisionDistance, scan.mesmerized, |flock|);
    DampBounded(sqrt, Add(b.v, Steering(scan, f, b.p)), scan.adjustment, motion.maxVelocity);
  }

  /**
   * A flying step lands exactly when the wire scan does, and landing snaps the
   * boid onto that wire: the wire's y and z, the old x, no velocity, and the
   * wire's index.
   */
  lemma LandingSpec(sqrt: real -> real, flock: seq<BoidState>, me: nat, lines: seq<Line>, motion: Motion, i: nat)
    requires IsSqrt(sqrt) && me < |flock| && flock[me].powerLine < 0 && 0.0 <= motion.maxVelocity
    requires ScanLines(sqrt, lines, flock[me].p, flock[me].v, |lines|) == Land(i)
    ensures i < |lines| && CanLand(sqrt, lines[i], flock[me].p, flock[me].v)
    ensures FlyingStep(sqrt, flock, me, lines, motion) ==
      Some(BoidState(Point(flock[me].p.x, lines[i].y, lines[i].z), Origin, i, flock[me].lastStep))
  {
    ScanLinesSpec(sqrt, lines, flock[me].p, flock[me].v, |lines|);
  }

  // ---------------------------------------------------------------------------
  // Sitting

  /** The nearest same-wire neighbour on each side, and the summed velocity of nearby flyers. */
  datatype Neighbours = Neighbours(left: real, right: real, influence: Point)

  /** One iteration of the flock loop of `stepSitting`. */
  function NeighbourStep(sqrt: real -> real, b: BoidState, self: BoidState, nb: Neighbours): Neighbours
    requires IsSqrt(sqrt)
  {
    if b.powerLine == self.powerLine then
      Neighbours(if b.p.x < self.p.x && b.p.x > nb.left then b.p.x else nb.left,
                 if b.p.x > self.p.x && b.p.x < nb.right then b.p.x else nb.right,
                 nb.influence)
    else if b.powerLine < 0 && Near(sqrt, self.p, b.p, SittingInfluenceDistance) then
      Neighbours(nb.left, nb.right, Add(nb.influence, b.v))
    else nb
  }

  /** The flock loop of `stepSitting` over the first `n` boids; it starts from the walls at the boid's depth. */
  function ScanNeighbours(sqrt: real -> real, flock: seq<BoidState>, me: nat, self: BoidState, n: nat): Neighbours
    requires IsSqrt(sqrt) && n <= |flock|
  {
    if n == 0 then Neighbours(-HalfWidth(self.p.z), HalfWidth(self.p.z), Origin)
    else
      var nb := ScanNeighbours(sqrt, flock, me, self, n - 1);
      if n - 1 == me then nb else NeighbourStep(sqrt, flock[n - 1], self, nb)
  }

  /** Boid `j` is another boid on the stepping boid's wire. */
  predicate SameWire(flock: seq<BoidState>, me: nat, self: BoidState, j: int)
  {
    0 <= j < |flock| && j != me && flock[j].powerLine == self.powerLine
  }

  /**
   * The left neighbour is the wall, or the nearest boid on the same wire to
   * the left: no such boid lies strictly between it and the stepping boid.
   * The same holds on the right.
   */
  lemma {:induction false} NeighboursNearest(sqrt: real -> real, flock: seq<BoidState>, me: nat, self: BoidState, n: nat)
    requires IsSqrt(sqrt) && n <= |flock|
    ensures var nb := ScanNeighbours(sqrt, flock, me, self, n);
      && -HalfWidth(self.p.z) <= nb.left && nb.right <= HalfWidth(self.p.z)
      && (nb.left == -HalfWidth(self.p.z) || exists j :: 0 <= j < n && SameWire(flock, me, self, j) && flock[j].p.x == nb.left < self.p.x)
      && (nb.right == HalfWidth(self.p.z) || exists j :: 0 <= j < n && SameWire(flock, me, self, j) && self.p.x < flock[j].p.x == nb.right)
      && (forall j :: 0 <= j < n && SameWire(flock, me, self, j) && flock[j].p.x < self.p.x ==> flock[j].p.x <= nb.left)
      && (forall j :: 0 <= j < n && SameWire(flock, me, self, j) && flock[j].p.x > self.p.x ==> nb.right <= flock[j].p.x)
  {
    if n > 0 {
      NeighboursNearest(sqrt, flock, me, self, n - 1);
      var nb := ScanNeighbours(sqrt, flock, me, self, n - 1);
      var nb' := ScanNeighbours(sqrt, flock, me, self, n);
      if nb'.left != nb.left {
        assert SameWire(flock, me, self, n - 1) && flock[n - 1].p.x == nb'.left;
      } else if nb.left != -HalfWidth(self.p.z) {
        var j :| 0 <= j < n - 1 && SameWire(flock, me, self, j) && flock[j].p.x == nb.left < self.p.x;
        assert 0 <= j < n;
      }
      if nb'.right != nb.right {
        assert SameWire(flock, me, self, n - 1) && flock[n - 1].p.x == nb'.right;
      } else if nb.right != HalfWidth(self.p.z) {
        var j :| 0 <= j < n - 1 && SameWire(flock, me, self, j) && self.p.x < flock[j].p.x == nb.right;
        assert 0 <= j < n;
      }
    }
  }

  /** Moving along the wire by `dx`, which restarts the step counter. */
  function Moved(b: BoidState, dx: real): BoidState
  {
    b.(p := b.p.(x := b.p.x + dx), lastStep := 0)
  }

  /** The gap balancing of `stepSitting` once the gaps are known and no launch was forced. */
  function Balance(b: BoidState, left: real, right: real, heading: Point): BoidState
  {
    var counter := b.lastStep + 1;
    var waited := b.(lastStep := counter);
    if counter >= StepTiming then
      if left < IdealLineDistance then
        if right < IdealLineDistance then
          var difference := right - left;
          if difference < -StepDistance then Moved(b, -StepDistance)
          else if difference > StepDistance then Moved(b, StepDistance)
          else if right < TolerableLineDistance || left < TolerableLineDistance then Launched(b, heading)
          else waited
        else if left < IdealLineDistance - StepDistance then Moved(b, StepDistance)
        else waited
      else if right < IdealLineDistance - StepDistance then Moved(b, -StepDistance)
      else waited
    else waited
  }

  /** The gaps to the nearest neighbours on the left and on the right. */
  function Gaps(sqrt: real -> real, flock: seq<BoidState>, me: nat): (real, real)
    requires IsSqrt(sqrt) && me < |flock|
  {
    var nb := ScanNeighbours(sqrt, flock, me, flock[me], |flock|);
    (flock[me].p.x - nb.left, nb.right - flock[me].p.x)
  }

  /** The length of the summed velocity of the flyers near a perched boid. */
  function Influence(sqrt: real -> real, flock: seq<BoidState>, me: nat): real
    requires IsSqrt(sqrt) && me < |flock|
  {
    Magnitude(sqrt, ScanNeighbours(sqrt, flock, me, flock[me], |flock|).influence)
  }

  /**
   * stepSitting: launch when a neighbour is too close, launch along the
   * nearby flyers' heading when their pull is strong enough, and otherwise
   * balance the gaps.
   */
  function SittingStep(sqrt: real -> real, flock: seq<BoidState>, me: nat, heading: Point): BoidState
    requires IsSqrt(sqrt) && me < |flock|
  {
    var b := flock[me];
    var nb := ScanNeighbours(sqrt, flock, me, b, |flock|);
    var left, right := b.p.x - nb.left, nb.right - b.p.x;
    if left < MinimumLineDistance || right < MinimumLineDistance then Launched(b, heading)
    else
      var influence := Magnitude(sqrt, nb.influence);
      if influence > LaunchInfluence then Launched(b, Mul(nb.influence, 1.0 / influence))
      else Balance(b, left, right, heading)
  }

  /** When a perched boid launches. */
  predicate LaunchesFrom(left: real, right: real, influence: real, lastStep: int)
  {
    || left < MinimumLineDistance || right < MinimumLineDistance
    || influence > LaunchInfluence
    || (&& lastStep + 1 >= StepTiming && left < IdealLineDistance && right < IdealLineDistance
        && -StepDistance <= right - left <= StepDistance
        && (right < TolerableLineDistance || left < TolerableLineDistance))
  }

  /**
   * A sitting step keeps y and z; it moves x by zero or one step distance
   * either way, towards the wider gap, only once the incremented counter has
   * reached the step timing, and then restarts the counter; it launches
   * exactly under `LaunchesFrom`, from where it sits; otherwise it stays on its
   * wire with its velocity and the counter incremented.
   */
  lemma SittingSpec(sqrt: real -> real, flock: seq<BoidState>, me: nat, heading: Point)
    requires IsSqrt(sqrt) && me < |flock| && flock[me].powerLine >= 0
    ensures var b, r := flock[me], SittingStep(sqrt, flock, me, heading);
      var (left, right) := Gaps(sqrt, flock, me);
      && r.p.y == b.p.y && r.p.z == b.p.z
      && (r.p.x == b.p.x || r.p.x == b.p.x + StepDistance || r.p.x == b.p.x - StepDistance)
      && (r.p.x > b.p.x ==> right > left)
      && (r.p.x < b.p.x ==> left > right)
      && (r.p.x != b.p.x ==> b.lastStep + 1 >= StepTiming && r.lastStep == 0 && r.powerLine == b.powerLine && r.v == b.v)
      && (r.powerLine < 0 <==> LaunchesFrom(left, right, Influence(sqrt, flock, me), b.lastStep))
      && (r.powerLine < 0 ==> r.p == b.p && r.powerLine == -1 && r.lastStep == 0)
      && (r.powerLine >= 0 ==> r.powerLine == b.powerLine && r.v == b.v && (r.p.x == b.p.x ==> r.lastStep == b.lastStep + 1))
  {
  }

  /**
   * The velocity of a launch from the wire: along the normalised sum of the
   * nearby flyers' velocities when their pull forced it, along the drawn
   * heading when a neighbour was too close or the gaps could not be
   * balanced; times `LAUNCH_VELOCITY` either way.
   */
  lemma SittingLaunch(sqrt: real -> real, flock: seq<BoidState>, me: nat, heading: Point)
    requires IsSqrt(sqrt) && me < |flock| && flock[me].powerLine >= 0
    ensures var r := SittingStep(sqrt, flock, me, heading);
      var (left, right) := Gaps(sqrt, flock, me);
      var pulled := left >= MinimumLineDistance && right >= MinimumLineDistance && Influence(sqrt, flock, me) > LaunchInfluence;
      var inf := ScanNeighbours(sqrt, flock, me, flock[me], |flock|).influence;
      && (r.powerLine < 0 && pulled ==> r.v == Mul(Mul(inf, 1.0 / Influence(sqrt, flock, me)), LaunchVelocity))
      && (r.powerLine < 0 && !pulled ==> r.v == Mul(heading, LaunchVelocity))
  {
  }

  /** Every launch from the wire along a drawn heading leaves at the launch velocity. */
  lemma SittingLaunchSpeed(sqrt: real -> real, flock: seq<BoidState>, me: nat, heading: Point)
    requires IsSqrt(sqrt) && me < |flock| && flock[me].powerLine >= 0 && IsHeading(heading)
    ensures var r := SittingStep(sqrt, flock, me, heading);
      r.powerLine < 0 ==> Magnitude(sqrt, r.v) == LaunchVelocity
  {
    var r := SittingStep(sqrt, flock, me, heading);
    SittingLaunch(sqrt, flock, me, heading);
    var inf := ScanNeighbours(sqrt, flock, me, flock[me], |flock|).influence;
    MagnitudeOfUnit(sqrt, heading);
    if r.powerLine < 0 {
      if r.v != heading {
        NormalisedInfluence(sqrt, inf);
      }
    }
  }

  /** A launch along the flyers' summed velocity leaves at unit speed. */
  lemma NormalisedInfluence(sqrt: real -> real, influence: Point)
    requires IsSqrt(sqrt) && Magnitude(sqrt, influence) > LaunchInfluence
    ensures Magnitude(sqrt, Mul(influence, 1.0 / Magnitude(sqrt, influence))) == 1.0
  {
    var m := Magnitude(sqrt, influence);
    MagnitudeOfMul(sqrt, influence, 1.0 / m);
  }

  // ---------------------------------------------------------------------------
  // One step of a boid, and the state every boid keeps

  /** boid.step: a perched boid sits, a flying one flies. */
  function BoidStep(sqrt: real -> real, flock: seq<BoidState>, me: nat, lines: seq<Line>, motion: Motion, heading: Point): Option<BoidState>
    requires IsSqrt(sqrt) && me < |flock| && 0.0 <= motion.maxVelocity
  {
    if flock[me].powerLine >= 0 then Some(SittingStep(sqrt, flock, me, heading))
    else FlyingStep(sqrt, flock, me, lines, motion)
  }

  /** The speed limit of the faster mood, squared. */
  const SpeedLimitSquared: real := 2.25

  /**
   * What every boid keeps: a wire index of -1 or a wire; a flying boid's
   * counter at zero; a perched boid motionless on its wire's height and depth;
   * and a speed of at most 1.5.
   */
  predicate WellFormed(b: BoidState, lines: seq<Line>)
  {
    && -1 <= b.powerLine < |lines|
    && (b.powerLine < 0 ==> b.lastStep == 0)
    && (b.powerLine >= 0 ==>
          b.v == Origin && b.p.y == lines[b.powerLine].y && b.p.z == lines[b.powerLine].z && 0 <= b.lastStep)
    && Norm2(b.v) <= SpeedLimitSquared
  }

  /** A launch keeps a boid well formed when its direction has length one. */
  lemma LaunchWellFormed(sqrt: real -> real, b: BoidState, d: Point, lines: seq<Line>)
    requires IsSqrt(sqrt) && Magnitude(sqrt, d) == 1.0
    ensures WellFormed(Launched(b, d), lines)
  {
    MagnitudeBound(sqrt, d, 1.5);
  }

  /** Balancing the gaps keeps a well-formed perched boid well formed. */
  lemma BalanceWellFormed(sqrt: real -> real, b: BoidState, left: real, right: real, heading: Point, lines: seq<Line>)
    requires IsSqrt(sqrt) && WellFormed(b, lines) && b.powerLine >= 0 && Magnitude(sqrt, heading) == 1.0
    ensures WellFormed(Balance(b, left, right, heading), lines)
  {
    LaunchWellFormed(sqrt, b, heading, lines);
  }

  /** A sitting step of a well-formed perched boid leaves it well formed. */
  lemma SittingWellFormed(sqrt: real -> real, flock: seq<BoidState>, me: nat, lines: seq<Line>, heading: Point)
    requires IsSqrt(sqrt) && me < |flock| && WellFormed(flock[me], lines) && flock[me].powerLine >= 0
    requires IsHeading(heading)
    ensures WellFormed(SittingStep(sqrt, flock, me, heading), lines)
  {
    var b := flock[me];
    var nb := ScanNeighbours(sqrt, flock, me, b, |flock|);
    var left, right := b.p.x - nb.left, nb.right - b.p.x;
    MagnitudeOfUnit(sqrt, heading);
    if left < MinimumLineDistance || right < MinimumLineDistance {
      LaunchWellFormed(sqrt, b, heading, lines);
    } else {
      var influence := Magnitude(sqrt, nb.influence);
      if influence > LaunchInfluence {
        NormalisedInfluence(sqrt, nb.influence);
        LaunchWellFormed(sqrt, b, Mul(nb.influence, 1.0 / influence), lines);
      } else {
        BalanceWellFormed(sqrt, b, left, right, heading, lines);
      }
    }
  }

  /** Landing on wire `i` leaves a well-formed flying boid well formed: motionless on that wire. */
  lemma LandedWellFormed(b: BoidState, lines: seq<Line>, i: nat)
    requires WellFormed(b, lines) && b.powerLine < 0 && i < |lines|
    ensures WellFormed(BoidState(Point(b.p.x, lines[i].y, lines[i].z), Origin, i, b.lastStep), lines)
  {
    AtRest();
  }

  /** A boid at rest is within the speed limit. */
  lemma AtRest()
    ensures Norm2(Origin) <= SpeedLimitSquared
  {
    assert Norm2(Origin) == 0.0;
  }

  /**
   * A flight that keeps the wire index and counter and ends at a speed of at
   * most 1.5 leaves a well-formed flying boid well formed.
   */
  lemma FlownWellFormed(sqrt: real -> real, b: BoidState, r: BoidState, lines: seq<Line>)
    requires IsSqrt(sqrt) && WellFormed(b, lines) && b.powerLine < 0
    requires r.powerLine == b.powerLine && r.lastStep == b.lastStep && Magnitude(sqrt, r.v) <= 1.5
    ensures WellFormed(r, lines)
  {
    MagnitudeBound(sqrt, r.v, 1.5);
  }

  /** A flying step of a well-formed flying boid, in either mood, leaves it well formed. */
  lemma FlyingWellFormed(sqrt: real -> real, flock: seq<BoidState>, me: nat, lines: seq<Line>, motion: Motion)
    requires IsSqrt(sqrt) && me < |flock| && WellFormed(flock[me], lines) && flock[me].powerLine < 0
    requires Reachable(motion)
    ensures var r := FlyingStep(sqrt, flock, me, lines, motion);
      r.Some? ==> WellFormed(r.value, lines)
  {
    ReachableBounds(motion);
    var b := flock[me];
    var scan := ScanLines(sqrt, lines, b.p, b.v, |lines|);
    if scan.Land? {
      LandingSpec(sqrt, flock, me, lines, motion, scan.line);
      LandedWellFormed(b, lines, scan.line);
    } else if FlyingStep(sqrt, flock, me, lines, motion).Some? {
      FlyingSpec(sqrt, flock, me, lines, motion);
      FlownWellFormed(sqrt, b, FlyingStep(sqrt, flock, me, lines, motion).value, lines);
    }
  }

  /** Every step of a well-formed boid, in either mood, leaves it well formed. */
  lemma StepWellFormed(sqrt: real -> real, flock: seq<BoidState>, me: nat, lines: seq<Line>, motion: Motion, heading: Point)
    requires IsSqrt(sqrt) && me < |flock| && WellFormed(flock[me], lines)
    requires Reachable(motion) && IsHeading(heading)
    ensures var r := BoidStep(sqrt, flock, me, lines, motion, heading);
      r.Some? ==> WellFormed(r.value, lines)
  {
    ReachableBounds(motion);
    if flock[me].powerLine >= 0 {
      SittingWellFormed(sqrt, flock, me, lines, heading);
    } else {
      FlyingWellFormed(sqrt, flock, me, lines, motion);
    }
  }
}
