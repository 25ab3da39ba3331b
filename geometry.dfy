// Points, segments and the segment-segment intersection used by the ray engine.
// Coordinates are exact reals; the source's IEEE doubles are not modelled.

module Geometry {

  datatype Option<T> = None | Some(value: T)

  /** A 2D coordinate, `[x, y]` in the source. */
  datatype Point = Point(x: real, y: real)

  /** A directed segment from `p1` to `p2` (a ray or an obstacle edge). */
  datatype Line = Line(p1: Point, p2: Point)

  /** Radius of a drawn point; also the snapping offset and half the dedup radius. */
  const PointRadius: real := 4.0

  lemma SquareNonNegative(v: real)
    ensures v * v >= 0.0
  {
  }

  lemma ZeroFactor(d: real, v: real)
    requires d != 0.0 && d * v == 0.0
    ensures v == 0.0
  {
  }

  /** Squared Euclidean distance, `(a0 - b0)**2 + (a1 - b1)**2`. */
  function Dist2(a: Point, b: Point): (d: real)
    ensures d >= 0.0
    ensures a == b ==> d == 0.0
  {
    SquareNonNegative(a.x - b.x);
    SquareNonNegative(a.y - b.y);
    (a.x - b.x) * (a.x - b.x) + (a.y - b.y) * (a.y - b.y)
  }

  /** `Math.min(max, Math.max(min, value))`. */
  function Clamp(value: real, min: real, max: real): (r: real)
    ensures min <= max ==> min <= r <= max
    ensures min <= max ==> (r == value <==> min <= value <= max)
    ensures min <= max && value < min ==> r == min
    ensures value > max ==> r == max
  {
    var lo := if min > value then min else value;
    if max < lo then max else lo
  }

  /** The point at parameter `t` along `l`: `p1 + t * (p2 - p1)`. */
  function PointAt(l: Line, t: real): Point
  {
    Point(l.p1.x + t * (l.p2.x - l.p1.x), l.p1.y + t * (l.p2.y - l.p1.y))
  }

  /** `p` lies on the closed segment `l`, at parameter `t`. */
  predicate OnSegmentAt(l: Line, t: real, p: Point)
  {
    0.0 <= t <= 1.0 && p == PointAt(l, t)
  }

  /** The denominator of the parametric formula; zero exactly when the lines are parallel. */
  function Denominator(a: Line, b: Line): real
  {
    (a.p1.x - a.p2.x) * (b.p1.y - b.p2.y) - (a.p1.y - a.p2.y) * (b.p1.x - b.p2.x)
  }

  function NumeratorT(a: Line, b: Line): real
  {
    (a.p1.x - b.p1.x) * (b.p1.y - b.p2.y) - (a.p1.y - b.p1.y) * (b.p1.x - b.p2.x)
  }

  function NumeratorU(a: Line, b: Line): real
  {
    (a.p1.x - b.p1.x) * (a.p1.y - a.p2.y) - (a.p1.y - b.p1.y) * (a.p1.x - a.p2.x)
  }

  /** Parameter of the crossing along `a`. */
  function ParamT(a: Line, b: Line): real
    requires Denominator(a, b) != 0.0
  {
    NumeratorT(a, b) / Denominator(a, b)
  }

  /** Parameter of the crossing along `b`. */
  function ParamU(a: Line, b: Line): real
    requires Denominator(a, b) != 0.0
  {
    NumeratorU(a, b) / Denominator(a, b)
  }

  /**
   * `lineToLineCollisionPoint`: the crossing of the finite segments `a` and `b`,
   * or `None` for parallel lines or a crossing outside either segment.
   */
  function Collision(a: Line, b: Line): (r: Option<Point>)
    ensures Denominator(a, b) == 0.0 ==> r == None
    ensures r.Some? <==>
      Denominator(a, b) != 0.0 && 0.0 <= ParamT(a, b) <= 1.0 && 0.0 <= ParamU(a, b) <= 1.0
    ensures r.Some? ==> OnSegmentAt(a, ParamT(a, b), r.value)
  {
    var d := Denominator(a, b);
    if d == 0.0 then None
    else
      var t := NumeratorT(a, b) / d;
      var u := NumeratorU(a, b) / d;
      if 0.0 <= t <= 1.0 && 0.0 <= u <= 1.0 then Some(PointAt(a, t)) else None
  }

  /** The point reported on `a` is also the point at parameter `u` on `b`. */
  lemma CrossingOnBoth(a: Line, b: Line)
    requires Denominator(a, b) != 0.0
    ensures PointAt(a, ParamT(a, b)) == PointAt(b, ParamU(a, b))
  {
    var d := Denominator(a, b);
    var nt, nu := NumeratorT(a, b), NumeratorU(a, b);
    var t, u := ParamT(a, b), ParamU(a, b);
    assert t * d == nt;
    assert u * d == nu;
    // Multiplied through by d, both coordinates reduce to polynomial identities.
    assert d * (a.p1.x - b.p1.x) + nt * (a.p2.x - a.p1.x) - nu * (b.p2.x - b.p1.x) == 0.0;
    assert d * (a.p1.y - b.p1.y) + nt * (a.p2.y - a.p1.y) - nu * (b.p2.y - b.p1.y) == 0.0;
    assert d * ((a.p1.x + t * (a.p2.x - a.p1.x)) - (b.p1.x + u * (b.p2.x - b.p1.x))) == 0.0;
    assert d * ((a.p1.y + t * (a.p2.y - a.p1.y)) - (b.p1.y + u * (b.p2.y - b.p1.y))) == 0.0;
    ZeroFactor(d, (a.p1.x + t * (a.p2.x - a.p1.x)) - (b.p1.x + u * (b.p2.x - b.p1.x)));
    ZeroFactor(d, (a.p1.y + t * (a.p2.y - a.p1.y)) - (b.p1.y + u * (b.p2.y - b.p1.y)));
    assert PointAt(a, t).x == PointAt(b, u).x;
    assert PointAt(a, t).y == PointAt(b, u).y;
  }

  /** A reported collision lies on both closed segments. */
  lemma CollisionSound(a: Line, b: Line)
    requires Collision(a, b).Some?
    ensures OnSegmentAt(a, ParamT(a, b), Collision(a, b).value)
    ensures OnSegmentAt(b, ParamU(a, b), Collision(a, b).value)
  {
    CrossingOnBoth(a, b);
  }

  /**
   * Conversely, when the lines are not parallel, any common point of the two
   * closed segments is exactly the one `Collision` reports.
   */
  lemma CollisionComplete(a: Line, b: Line, t: real, u: real, p: Point)
    requires Denominator(a, b) != 0.0
    requires OnSegmentAt(a, t, p) && OnSegmentAt(b, u, p)
    ensures Collision(a, b) == Some(p)
  {
    var d := Denominator(a, b);
    // From p == PointAt(a, t) == PointAt(b, u):
    assert a.p1.x - b.p1.x == t * (a.p1.x - a.p2.x) - u * (b.p1.x - b.p2.x);
    assert a.p1.y - b.p1.y == t * (a.p1.y - a.p2.y) - u * (b.p1.y - b.p2.y);
    assert NumeratorT(a, b) == t * d;
    assert NumeratorU(a, b) == u * d;
    assert ParamT(a, b) == t;
    assert ParamU(a, b) == u;
  }
}
