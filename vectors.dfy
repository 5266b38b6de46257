/**
 * The point helpers of the flock: three-component points over the reals, the
 * pure arithmetic (`padd`, `psub`, `pmul`), the in-place variants (`paddto`,
 * `psubfrom`, `pmulby`) on a mutable point, and the distance helpers
 * (`metric`, `magnitude`, `near`, `yz`).
 *
 * `Math.sqrt` is a host function: it is passed in as `sqrt`, and all that is
 * known of it is `IsSqrt`, its defining property on the non-negative reals.
 */
module Vectors {

  datatype Point = Point(x: real, y: real, z: real)

  const Origin: Point := Point(0.0, 0.0, 0.0)

  /**
   * `sqrt` returns the non-negative square root of every non-negative real;
   * in particular the root of zero is zero.
   */
  ghost predicate IsSqrt(sqrt: real -> real)
  {
    && sqrt(0.0) == 0.0
    && forall a :: 0.0 <= a ==> 0.0 <= sqrt(a) && sqrt(a) * sqrt(a) == a
  }

  /** padd */
  function Add(p1: Point, p2: Point): Point
  {
    Point(p1.x + p2.x, p1.y + p2.y, p1.z + p2.z)
  }

  /** psub */
  function Sub(p1: Point, p2: Point): Point
  {
    Point(p1.x - p2.x, p1.y - p2.y, p1.z - p2.z)
  }

  /** pmul */
  function Mul(p: Point, c: real): Point
  {
    Point(p.x * c, p.y * c, p.z * c)
  }

  /** The squared Euclidean norm: the argument `metric` hands to `Math.sqrt`. */
  function Norm2(p: Point): real
  {
    p.x * p.x + p.y * p.y + p.z * p.z
  }

  /** A squared norm is non-negative, and zero at the origin. */
  lemma Norm2NonNegative(p: Point)
    ensures 0.0 <= Norm2(p)
    ensures p == Origin ==> Norm2(p) == 0.0
  {
    Square(p.x);
    Square(p.y);
    Square(p.z);
  }

  /** A square is non-negative. */
  lemma Square(a: real)
    ensures 0.0 <= a * a
  {
    if a < 0.0 {
      assert a * a == (-a) * (-a);
    }
  }

  /**
   * metric: the Euclidean distance of two points. The distance of a point to
   * itself is the root of zero, which is written out as zero.
   */
  function Metric(sqrt: real -> real, p1: Point, p2: Point): (r: real)
    requires IsSqrt(sqrt)
    ensures 0.0 <= r
    ensures p1 == p2 ==> r == 0.0
  {
    Norm2NonNegative(Sub(p1, p2));
    sqrt(Norm2(Sub(p1, p2)))
  }

  /** The square of the distance is the squared norm of the difference. */
  lemma MetricSquared(sqrt: real -> real, p1: Point, p2: Point)
    requires IsSqrt(sqrt)
    ensures Metric(sqrt, p1, p2) * Metric(sqrt, p1, p2) == Norm2(Sub(p1, p2))
  {
    var n := Norm2(Sub(p1, p2));
    Norm2NonNegative(Sub(p1, p2));
    assert sqrt(n) * sqrt(n) == n;
  }

  /** magnitude: the distance to the origin. */
  function Magnitude(sqrt: real -> real, p: Point): (r: real)
    requires IsSqrt(sqrt)
    ensures 0.0 <= r
    ensures p == Origin ==> r == 0.0
  {
    Metric(sqrt, p, Origin)
  }

  /** The square of the magnitude is the squared norm. */
  lemma MagnitudeSquared(sqrt: real -> real, p: Point)
    requires IsSqrt(sqrt)
    ensures Magnitude(sqrt, p) * Magnitude(sqrt, p) == Norm2(p)
  {
    MetricSquared(sqrt, p, Origin);
    assert Sub(p, Origin) == p;
  }

  /** near: within distance `r` (inclusive). */
  predicate Near(sqrt: real -> real, p1: Point, p2: Point, r: real)
    requires IsSqrt(sqrt)
  {
    Metric(sqrt, p1, p2) <= r
  }

  /** yz: the projection onto the plane x = 0. */
  function Yz(p: Point): Point
  {
    Point(0.0, p.y, p.z)
  }

  /** Two non-negative reals with the same square are equal. */
  lemma SquareRootUnique(a: real, b: real)
    requires 0.0 <= a && 0.0 <= b && a * a == b * b
    ensures a == b
  {
    assert (a - b) * (a + b) == 0.0;
    if a + b == 0.0 {
    } else {
      assert a - b == 0.0;
    }
  }

  /** Subtracting what was added gives back the original point. */
  lemma SubAddCancels(a: Point, b: Point)
    ensures Sub(Add(a, b), b) == a
  {
  }

  /** Distance, and so nearness, does not depend on the order of the points. */
  lemma {:induction false} MetricSymmetric(sqrt: real -> real, a: Point, b: Point, r: real)
    requires IsSqrt(sqrt)
    ensures Metric(sqrt, a, b) == Metric(sqrt, b, a)
    ensures Near(sqrt, a, b, r) <==> Near(sqrt, b, a, r)
  {
    var dab, dba := Sub(a, b), Sub(b, a);
    assert dab.x * dab.x == dba.x * dba.x;
    assert dab.y * dab.y == dba.y * dba.y;
    assert dab.z * dab.z == dba.z * dba.z;
    assert Norm2(dab) == Norm2(dba);
  }

  /** Scaling a point scales its squared norm by the square of the factor. */
  lemma NormOfMul(p: Point, c: real)
    ensures Norm2(Mul(p, c)) == c * c * Norm2(p)
  {
    var q := Mul(p, c);
    assert q.x * q.x == c * c * (p.x * p.x);
    assert q.y * q.y == c * c * (p.y * p.y);
    assert q.z * q.z == c * c * (p.z * p.z);
  }

  /** If `b` is the root of `n`, the root of `c * c * n` is `c * b`. */
  lemma RootOfScaled(a: real, b: real, c: real, n: real)
    requires 0.0 <= a && 0.0 <= b && 0.0 <= c && b * b == n && a * a == c * c * n
    ensures a == c * b
  {
    assert (c * b) * (c * b) == c * c * (b * b);
    assert 0.0 <= c * b;
    SquareRootUnique(a, c * b);
  }

  /** Scaling by a non-negative factor scales the magnitude by that factor. */
  lemma MagnitudeOfMul(sqrt: real -> real, p: Point, c: real)
    requires IsSqrt(sqrt) && 0.0 <= c
    ensures Magnitude(sqrt, Mul(p, c)) == c * Magnitude(sqrt, p)
  {
    var a, b, n := Magnitude(sqrt, Mul(p, c)), Magnitude(sqrt, p), Norm2(p);
    assert b * b == n by {
      MagnitudeSquared(sqrt, p);
    }
    assert a * a == c * c * n by {
      MagnitudeSquared(sqrt, Mul(p, c));
      NormOfMul(p, c);
    }
    RootOfScaled(a, b, c, n);
  }

  /** A point of squared norm one has magnitude one. */
  lemma MagnitudeOfUnit(sqrt: real -> real, p: Point)
    requires IsSqrt(sqrt) && Norm2(p) == 1.0
    ensures Magnitude(sqrt, p) == 1.0
  {
    MagnitudeSquared(sqrt, p);
    SquareRootUnique(Magnitude(sqrt, p), 1.0);
  }

  /** Squaring is strictly increasing on the non-negative reals. */
  lemma SquareIncreasing(a: real, b: real)
    requires 0.0 <= a < b
    ensures a * a < b * b
  {
    var d := b - a;
    calc {
      b * b;
      (a + d) * (a + d);
      a * a + 2.0 * a * d + d * d;
    }
    assert 0.0 < d * d;
    assert 0.0 <= a * d;
  }

  /** A non-negative root of `n` is within a non-negative bound exactly when `n` is within its square. */
  lemma RootBound(r: real, n: real, m: real)
    requires 0.0 <= r && 0.0 <= m && r * r == n
    ensures r <= m <==> n <= m * m
  {
    if r < m {
      SquareIncreasing(r, m);
    } else if m < r {
      SquareIncreasing(m, r);
    }
  }

  /** A magnitude is within a non-negative bound exactly when the squared norm is within its square. */
  lemma MagnitudeBound(sqrt: real -> real, p: Point, m: real)
    requires IsSqrt(sqrt) && 0.0 <= m
    ensures Magnitude(sqrt, p) <= m <==> Norm2(p) <= m * m
  {
    MagnitudeSquared(sqrt, p);
    RootBound(Magnitude(sqrt, p), Norm2(p), m);
  }

  /** The projection keeps y and z, zeroes x, and forgets the x it was given. */
  lemma YzProjects(p: Point, q: Point)
    ensures Yz(p).x == 0.0 && Yz(p).y == p.y && Yz(p).z == p.z
    ensures Yz(Yz(p)) == Yz(p)
    ensures p.y == q.y && p.z == q.z ==> Yz(p) == Yz(q)
  {
  }

  /** A point whose coordinates the in-place helpers update. */
  class Vec {
    var x: real
    var y: real
    var z: real

    function Value(): Point
      reads this
    {
      Point(x, y, z)
    }

    constructor (p: Point)
      ensures Value() == p
    {
      x, y, z := p.x, p.y, p.z;
    }

    /** paddto: adds `q` into this point; `q` itself is unchanged unless it is this point. */
    method AddTo(q: Vec)
      modifies this
      ensures Value() == Add(old(Value()), old(q.Value()))
      ensures q != this ==> q.Value() == old(q.Value())
    {
      x := x + q.x;
      y := y + q.y;
      z := z + q.z;
    }

    /** psubfrom: subtracts `q` from this point. */
    method SubFrom(q: Vec)
      modifies this
      ensures Value() == Sub(old(Value()), old(q.Value()))
      ensures q != this ==> q.Value() == old(q.Value())
    {
      x := x - q.x;
      y := y - q.y;
      z := z - q.z;
    }

    /** pmulby: scales this point by `c`. */
    method MulBy(c: real)
      modifies this
      ensures Value() == Mul(old(Value()), c)
    {
      x := x * c;
      y := y * c;
      z := z * c;
    }
  }
}
