/**
 * The power lines: horizontal wires along the x axis at a height `y` and a
 * depth `z`, the closing rate of a bird towards one, and their construction
 * during the set-up of the world.
 */
module PowerLines {
  import opened Vectors
  import Settings

  /** A wire: the point (0, y, z) of `PowerLine(y, z)`; its x is always zero. */
  datatype Line = Line(y: real, z: real)

  /** The wire as the point `metric` measures against. */
  function Position(l: Line): (q: Point)
    ensures q.x == 0.0 && q.y == l.y && q.z == l.z
  {
    Point(0.0, l.y, l.z)
  }

  /** The distance from a bird at `p` to the wire, ignoring the bird's x. */
  function Distance(sqrt: real -> real, l: Line, p: Point): (d: real)
    requires IsSqrt(sqrt)
    ensures 0.0 <= d
    ensures Yz(p) == Position(l) ==> d == 0.0
  {
    Metric(sqrt, Yz(p), Position(l))
  }

  /**
   * directionalVelocity(p, v): the rate at which velocity `v` closes the
   * distance from `p` to the wire, or minus the (y, z) speed when the bird is
   * on the wire.
   */
  function DirectionalVelocity(sqrt: real -> real, l: Line, p: Point, v: Point): (r: real)
    requires IsSqrt(sqrt)
  {
    var distance := Distance(sqrt, l, p);
    if distance > 0.0 then ((l.y - p.y) * v.y + (l.z - p.z) * v.z) / distance
    else -Magnitude(sqrt, Yz(v))
  }

  /** A bird sitting on the wire with a (y, z) velocity closes at minus its speed. */
  lemma OnTheWire(sqrt: real -> real, l: Line, p: Point, v: Point)
    requires IsSqrt(sqrt) && p.y == l.y && p.z == l.z
    ensures DirectionalVelocity(sqrt, l, p, v) == -Magnitude(sqrt, Yz(v))
    ensures DirectionalVelocity(sqrt, l, p, v) <= 0.0
  {
    assert Yz(p) == Position(l);
    OnTheWireDistance(sqrt, l, p);
    AtZeroDistance(sqrt, l, p, v);
  }

  /** At zero distance the closing rate is minus the (y, z) speed. */
  lemma AtZeroDistance(sqrt: real -> real, l: Line, p: Point, v: Point)
    requires IsSqrt(sqrt) && Distance(sqrt, l, p) == 0.0
    ensures DirectionalVelocity(sqrt, l, p, v) == -Magnitude(sqrt, Yz(v))
  {
  }

  /** A bird at the wire's height and depth is at distance zero from it. */
  lemma OnTheWireDistance(sqrt: real -> real, l: Line, p: Point)
    requires IsSqrt(sqrt) && p.y == l.y && p.z == l.z
    ensures Distance(sqrt, l, p) == 0.0
  {
    assert Yz(p) == Position(l);
  }

  /** The closing rate depends on neither the bird's x nor its velocity's x. */
  lemma IgnoresX(sqrt: real -> real, l: Line, p: Point, v: Point, p': Point, v': Point)
    requires IsSqrt(sqrt)
    requires p.y == p'.y && p.z == p'.z && v.y == v'.y && v.z == v'.z
    ensures DirectionalVelocity(sqrt, l, p, v) == DirectionalVelocity(sqrt, l, p', v')
  {
    assert Yz(p) == Yz(p') && Yz(v) == Yz(v');
    ThroughYz(sqrt, l, p, v);
    ThroughYz(sqrt, l, p', v');
  }

  /** The closing rate is that of the projections onto the plane x = 0. */
  lemma ThroughYz(sqrt: real -> real, l: Line, p: Point, v: Point)
    requires IsSqrt(sqrt)
    ensures DirectionalVelocity(sqrt, l, p, v) == DirectionalVelocity(sqrt, l, Yz(p), Yz(v))
  {
    assert Yz(Yz(p)) == Yz(p) && Yz(Yz(v)) == Yz(v);
  }

  /**
   * Away from the wire the closing rate has the sign of the (y, z) velocity's
   * component towards the wire: positive when approaching, negative when
   * leaving, zero when moving parallel.
   */
  lemma ClosingSign(sqrt: real -> real, l: Line, p: Point, v: Point)
    requires IsSqrt(sqrt) && Distance(sqrt, l, p) > 0.0
    ensures var toward := (l.y - p.y) * v.y + (l.z - p.z) * v.z;
      var r := DirectionalVelocity(sqrt, l, p, v);
      && (r > 0.0 <==> toward > 0.0)
      && (r < 0.0 <==> toward < 0.0)
      && (r == 0.0 <==> toward == 0.0)
  {
    var toward := (l.y - p.y) * v.y + (l.z - p.z) * v.z;
    QuotientSign(toward, Distance(sqrt, l, p));
  }

  /** Dividing by a positive number keeps the sign. */
  lemma QuotientSign(a: real, d: real)
    requires 0.0 < d
    ensures (a / d > 0.0 <==> a > 0.0) && (a / d < 0.0 <==> a < 0.0) && (a / d == 0.0 <==> a == 0.0)
  {
    var q := a / d;
    assert q * d == a;
    if q > 0.0 {
      assert q * d > 0.0 * d;
    } else if q < 0.0 {
      assert q * d < 0.0 * d;
    }
  }

  /** A bird flying straight at the wire closes at its speed times the cosine, here one. */
  lemma HeadingForTheWire(sqrt: real -> real, l: Line, p: Point, c: real)
    requires IsSqrt(sqrt) && 0.0 < c && p.x == 0.0
    requires Distance(sqrt, l, p) > 0.0
    ensures DirectionalVelocity(sqrt, l, p, Mul(Sub(Position(l), p), c)) == c * Distance(sqrt, l, p)
  {
    var d := Distance(sqrt, l, p);
    var v := Mul(Sub(Position(l), p), c);
    var r := DirectionalVelocity(sqrt, l, p, v);
    var dy, dz := l.y - p.y, l.z - p.z;
    assert Sub(Yz(p), Position(l)) == Point(0.0, -dy, -dz);
    MetricSquared(sqrt, Yz(p), Position(l));
    assert d * d == dy * dy + dz * dz;
    assert dy * v.y + dz * v.z == c * (dy * dy + dz * dz);
    assert r == (dy * v.y + dz * v.z) / d;
    assert r * d == (c * d) * d;
    Cancel(r, c * d, d);
  }

  /** Cancelling a positive factor. */
  lemma Cancel(a: real, b: real, d: real)
    requires 0.0 < d && a * d == b * d
    ensures a == b
  {
    assert (a - b) * d == 0.0;
  }

  /** Wire `i` of the set-up: `PowerLine(POWER_LINES_Y + i * POWER_LINES_SPACING, POWER_LINES_Z)`. */
  function LineAt(i: nat): Line
  {
    Line(Settings.PowerLinesY + (i as real) * Settings.PowerLinesSpacing, Settings.PowerLinesZ)
  }

  /** The wire-building loop of `initBirds`. */
  method InitLines(count: nat) returns (lines: seq<Line>)
    ensures |lines| == count
    ensures forall i :: 0 <= i < count ==> lines[i] == Line(5.0 + 3.0 * (i as real), 20.0)
  {
    lines := [];
    var i := 0;
    while i < count
      invariant 0 <= i <= count && |lines| == i
      invariant forall k :: 0 <= k < i ==> lines[k] == Line(5.0 + 3.0 * (k as real), 20.0)
    {
      lines := lines + [LineAt(i)];
      i := i + 1;
    }
  }

  /** The set-up's wires are three degrees of height apart at one depth, from y = 5 to y = 11. */
  lemma WiresOfTheSetUp(lines: seq<Line>)
    requires |lines| == Settings.NumPowerLines
    requires forall i :: 0 <= i < |lines| ==> lines[i] == Line(5.0 + 3.0 * (i as real), 20.0)
    ensures lines == [Line(5.0, 20.0), Line(8.0, 20.0), Line(11.0, 20.0)]
    ensures forall i, j :: 0 <= i < j < |lines| ==> lines[j].y - lines[i].y >= Settings.PowerLinesSpacing
  {
  }
}
