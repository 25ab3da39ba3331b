// One star (`getStarFromPoint`): a fan of rays from a centre, each stopped at
// the nearest obstacle crossing and snapped back by PointRadius.

module Stars {
  import opened Geometry

  /** `[centre, rayEnds]`: a centre and one endpoint per ray, in ray order. */
  datatype Star = Star(center: Point, rays: seq<Point>)

  /**
   * The unobstructed far end of ray `i` of a star with `segments` rays around a
   * centre. The source computes it with cos/sin over the viewport diagonal,
   * biased by the slope towards the target point; here it is a parameter.
   */
  type RayEnds = (Point, nat, int) -> Point

  /** `~~v`: truncation toward zero (the 32-bit wrap-around is not modelled). */
  function Trunc(v: real): (r: int)
    ensures 0.0 <= v ==> r as real <= v < r as real + 1.0
    ensures v < 0.0 ==> r as real - 1.0 < v <= r as real
  {
    if v >= 0.0 then v.Floor else -((-v).Floor)
  }

  /** The obstacle crossing of ray `center -> far` with obstacle `k`, if any. */
  function Hit(center: Point, far: Point, obstacles: seq<Line>, k: int): Option<Point>
    requires 0 <= k < |obstacles|
  {
    Collision(Line(center, far), obstacles[k])
  }

  /** One step of the accumulator of line 76: replace only when strictly nearer. */
  function Nearer(center: Point, best: Option<Point>, hit: Option<Point>): Option<Point>
  {
    match hit
    case None => best
    case Some(h) =>
      if best.None? then hit
      else if Dist2(best.value, center) > Dist2(h, center) then hit
      else best
  }

  /** The accumulated closest crossing after visiting `obstacles` in order. */
  function ClosestOf(center: Point, far: Point, obstacles: seq<Line>): Option<Point>
  {
    if obstacles == [] then None
    else
      var n := |obstacles| - 1;
      Nearer(center, ClosestOf(center, far, obstacles[..n]), Hit(center, far, obstacles, n))
  }

  /**
   * Obstacle `k` is crossed, no crossing is nearer to the centre, and every
   * earlier obstacle's crossing is strictly farther: the first nearest hit.
   */
  ghost predicate FirstNearest(center: Point, far: Point, obstacles: seq<Line>, k: int)
  {
    && 0 <= k < |obstacles|
    && Hit(center, far, obstacles, k).Some?
    && (forall j :: 0 <= j < |obstacles| && Hit(center, far, obstacles, j).Some? ==>
          Dist2(Hit(center, far, obstacles, k).value, center) <= Dist2(Hit(center, far, obstacles, j).value, center))
    && (forall j :: 0 <= j < k && Hit(center, far, obstacles, j).Some? ==>
          Dist2(Hit(center, far, obstacles, k).value, center) < Dist2(Hit(center, far, obstacles, j).value, center))
  }

  lemma HitOfPrefix(center: Point, far: Point, obstacles: seq<Line>, n: int, j: int)
    requires 0 <= j < n <= |obstacles|
    ensures Hit(center, far, obstacles[..n], j) == Hit(center, far, obstacles, j)
  {
  }

  /** An earlier first-nearest obstacle stays first nearest when the last obstacle is no nearer. */
  lemma FirstNearestKept(center: Point, far: Point, obstacles: seq<Line>, k: int)
    requires obstacles != [] && FirstNearest(center, far, obstacles[..|obstacles| - 1], k)
    requires var h := Hit(center, far, obstacles, |obstacles| - 1);
      h.Some? ==> Dist2(Hit(center, far, obstacles, k).value, center) <= Dist2(h.value, center)
    ensures FirstNearest(center, far, obstacles, k)
  {
    var n := |obstacles| - 1;
    forall j | 0 <= j < n
      ensures Hit(center, far, obstacles[..n], j) == Hit(center, far, obstacles, j)
    {
      HitOfPrefix(center, far, obstacles, n, j);
    }
  }

  /** The last obstacle is first nearest when it is crossed strictly nearer than every earlier crossing. */
  lemma FirstNearestLast(center: Point, far: Point, obstacles: seq<Line>)
    requires obstacles != []
    requires var n := |obstacles| - 1; var h := Hit(center, far, obstacles, n);
      h.Some? &&
      forall j :: 0 <= j < n && Hit(center, far, obstacles[..n], j).Some? ==>
        Dist2(h.value, center) < Dist2(Hit(center, far, obstacles[..n], j).value, center)
    ensures FirstNearest(center, far, obstacles, |obstacles| - 1)
  {
    var n := |obstacles| - 1;
    forall j | 0 <= j < n
      ensures Hit(center, far, obstacles[..n], j) == Hit(center, far, obstacles, j)
    {
      HitOfPrefix(center, far, obstacles, n, j);
    }
  }

  /**
   * The fold selects nothing exactly when no obstacle is crossed, and otherwise
   * the crossing of the first nearest obstacle.
   */
  lemma {:induction false} ClosestIsFirstNearest(center: Point, far: Point, obstacles: seq<Line>)
    ensures ClosestOf(center, far, obstacles).None? <==>
      forall k :: 0 <= k < |obstacles| ==> Hit(center, far, obstacles, k).None?
    ensures ClosestOf(center, far, obstacles).Some? ==>
      exists k :: FirstNearest(center, far, obstacles, k) &&
                  Hit(center, far, obstacles, k) == ClosestOf(center, far, obstacles)
  {
    if obstacles != [] {
      var n := |obstacles| - 1;
      var prefix := obstacles[..n];
      ClosestIsFirstNearest(center, far, prefix);
      forall j | 0 <= j < n
        ensures Hit(center, far, prefix, j) == Hit(center, far, obstacles, j)
      {
        HitOfPrefix(center, far, obstacles, n, j);
      }
      var best := ClosestOf(center, far, prefix);
      var h := Hit(center, far, obstacles, n);
      if h.Some? && (best.None? || Dist2(best.value, center) > Dist2(h.value, center)) {
        if best.Some? {
          var k :| FirstNearest(center, far, prefix, k) && Hit(center, far, prefix, k) == best;
        }
        FirstNearestLast(center, far, obstacles);
      } else if best.Some? {
        var k :| FirstNearest(center, far, prefix, k) && Hit(center, far, prefix, k) == best;
        FirstNearestKept(center, far, obstacles, k);
      }
    }
  }

  /** Conversely, the first nearest obstacle's crossing is what the fold selects. */
  lemma ClosestCharacterised(center: Point, far: Point, obstacles: seq<Line>, k: int)
    requires FirstNearest(center, far, obstacles, k)
    ensures ClosestOf(center, far, obstacles) == Hit(center, far, obstacles, k)
  {
    ClosestIsFirstNearest(center, far, obstacles);
    var k' :| FirstNearest(center, far, obstacles, k') &&
              Hit(center, far, obstacles, k') == ClosestOf(center, far, obstacles);
    // Two distinct first-nearest indices would each be strictly nearer than the other.
    assert k' == k;
  }

  /** The inner obstacle loop of `getStarFromPoint` (lines 66-77). */
  method ClosestIntersection(center: Point, far: Point, obstaclesLines: seq<Line>)
    returns (closest: Option<Point>)
    ensures closest == ClosestOf(center, far, obstaclesLines)
  {
    closest := None;
    for idx := 0 to |obstaclesLines|
      invariant closest == ClosestOf(center, far, obstaclesLines[..idx])
    {
      assert obstaclesLines[..idx + 1][..idx] == obstaclesLines[..idx];
      var intersectionPoint := Collision(Line(center, far), obstaclesLines[idx]);
      if intersectionPoint.None? {
        continue;
      }
      if closest.None? {
        closest := intersectionPoint;
        continue;
      }
      var d1 := Dist2(closest.value, center);
      var d2 := Dist2(intersectionPoint.value, center);
      closest := if d1 > d2 then intersectionPoint else closest;
    }
    assert obstaclesLines[..|obstaclesLines|] == obstaclesLines;
  }

  /** `v` is within one unit (the truncation) of `hit` moved PointRadius away from `far`. */
  predicate PulledBack(hit: real, far: real, v: real)
  {
    && (hit == far ==> hit - 1.0 < v < hit + 1.0)
    && (hit < far ==> hit - PointRadius - 1.0 < v < hit - PointRadius + 1.0)
    && (hit > far ==> hit + PointRadius - 1.0 < v < hit + PointRadius + 1.0)
  }

  /** Lines 80-81 for one coordinate: snap a crossing back, away from the far end. */
  function SnapCoord(hit: real, far: real): (r: int)
    ensures PulledBack(hit, far, r as real)
  {
    Trunc(if hit == far then hit else if hit < far then hit - PointRadius else hit + PointRadius)
  }

  /** The endpoint of one ray: the far point, or the snapped nearest crossing. */
  function RayEndpoint(center: Point, far: Point, obstacles: seq<Line>): Point
  {
    match ClosestOf(center, far, obstacles)
    case None => far
    case Some(h) => Point(SnapCoord(h.x, far.x) as real, SnapCoord(h.y, far.y) as real)
  }

  /**
   * A ray that crosses no obstacle keeps its far point exactly; otherwise its
   * endpoint is the first nearest crossing snapped on each axis, which puts it
   * within one unit of that crossing pulled back by PointRadius.
   */
  lemma RayEndpointStops(center: Point, far: Point, obstacles: seq<Line>)
    ensures (forall k :: 0 <= k < |obstacles| ==> Hit(center, far, obstacles, k).None?) ==>
      RayEndpoint(center, far, obstacles) == far
    ensures forall k :: FirstNearest(center, far, obstacles, k) ==>
      var h := Hit(center, far, obstacles, k).value;
      RayEndpoint(center, far, obstacles) == Point(SnapCoord(h.x, far.x) as real, SnapCoord(h.y, far.y) as real)
    ensures forall k :: FirstNearest(center, far, obstacles, k) ==>
      var h := Hit(center, far, obstacles, k).value;
      var e := RayEndpoint(center, far, obstacles);
      PulledBack(h.x, far.x, e.x) && PulledBack(h.y, far.y, e.y)
  {
    ClosestIsFirstNearest(center, far, obstacles);
    forall k | FirstNearest(center, far, obstacles, k)
      ensures ClosestOf(center, far, obstacles) == Hit(center, far, obstacles, k)
    {
      ClosestCharacterised(center, far, obstacles, k);
    }
  }

  /** The star `getStarFromPoint` builds: one endpoint per ray, in ray order. */
  function StarOf(center: Point, segments: nat, obstacles: seq<Line>, rayEnd: RayEnds): (s: Star)
    ensures s.center == center && |s.rays| == segments
  {
    Star(center, seq(segments, i => RayEndpoint(center, rayEnd(center, segments, i), obstacles)))
  }

  /** `getStarFromPoint` (lines 50-89), with the far points supplied by `rayEnd`. */
  method StarFromPoint(point: Point, segments: nat, obstaclesLines: seq<Line>, rayEnd: RayEnds)
    returns (star: Star)
    ensures star == StarOf(point, segments, obstaclesLines, rayEnd)
    ensures forall i :: 0 <= i < segments ==>
      star.rays[i] == RayEndpoint(point, rayEnd(point, segments, i), obstaclesLines)
  {
    var points: seq<Point> := [];
    for i := 0 to segments
      invariant |points| == i
      invariant forall j :: 0 <= j < i ==> points[j] == RayEndpoint(point, rayEnd(point, segments, j), obstaclesLines)
    {
      var far := rayEnd(point, segments, i);
      var closestIntersectionPoint := ClosestIntersection(point, far, obstaclesLines);
      var end := far;
      if closestIntersectionPoint.Some? {
        var intersection := closestIntersectionPoint.value;
        end := Point(SnapCoord(intersection.x, far.x) as real, SnapCoord(intersection.y, far.y) as real);
      }
      points := points + [end];
    }
    star := Star(point, points);
  }
}
