// The module-level state the event handlers update: the ray count (wheel) and
// the source point (mousemove), and the per-frame call into the engine.

module App {
  import opened Geometry
  import opened Stars
  import opened Expansion

  /** `depth`: rounds of expansion per frame (line 18). */
  const Depth: int := 1

  function Pow2(k: nat): nat
  {
    if k == 0 then 1 else 2 * Pow2(k - 1)
  }

  /** A power of two between 4 and 128. */
  ghost predicate ValidRayCount(r: real)
  {
    exists k :: 2 <= k <= 7 && r == Pow2(k) as real
  }

  /** `Math.sign` of a finite number. */
  function Sign(v: real): (s: int)
    ensures s < 0 <==> v < 0.0
    ensures s == 0 <==> v == 0.0
    ensures s > 0 <==> v > 0.0
  {
    if v < 0.0 then -1 else if v > 0.0 then 1 else 0
  }

  /** The value the wheel handler assigns to `rayCount` (lines 251-255). */
  function NextRayCount(rayCount: real, deltaY: real): real
  {
    Clamp(if Sign(deltaY) < 0 then rayCount * 2.0 else rayCount * 0.5, 4.0, 128.0)
  }

  /**
   * From a power of two in [4, 128], scrolling up doubles it (stopping at 128)
   * and scrolling down halves it (stopping at 4); either way the result is
   * again a power of two in [4, 128].
   */
  lemma NextRayCountStep(rayCount: real, deltaY: real)
    requires ValidRayCount(rayCount)
    ensures ValidRayCount(NextRayCount(rayCount, deltaY))
    ensures deltaY < 0.0 ==>
      NextRayCount(rayCount, deltaY) == if rayCount == 128.0 then 128.0 else 2.0 * rayCount
    ensures deltaY >= 0.0 ==>
      NextRayCount(rayCount, deltaY) == if rayCount == 4.0 then 4.0 else rayCount / 2.0
  {
    var k :| 2 <= k <= 7 && rayCount == Pow2(k) as real;
    assert Pow2(2) == 4 && Pow2(7) == 128;
    var next := NextRayCount(rayCount, deltaY);
    if deltaY < 0.0 {
      var k' := if k == 7 then 7 else k + 1;
      assert Pow2(k') as real == next;
    } else {
      var k' := if k == 2 then 2 else k - 1;
      assert Pow2(k') as real == next;
    }
  }

  /** `rayCount` after the wheel events `deltas`, in order, starting from `rayCount`. */
  function RayCountAfter(rayCount: real, deltas: seq<real>): real
    decreases deltas
  {
    if deltas == [] then rayCount
    else RayCountAfter(NextRayCount(rayCount, deltas[0]), deltas[1..])
  }

  /** Starting from 8 (line 19), every sequence of wheel events leaves a power of two in [4, 128]. */
  lemma {:induction false} RayCountAlwaysValid(rayCount: real, deltas: seq<real>)
    requires ValidRayCount(rayCount)
    ensures ValidRayCount(RayCountAfter(rayCount, deltas))
    ensures 4.0 <= RayCountAfter(rayCount, deltas) <= 128.0
    decreases deltas
  {
    if deltas != [] {
      NextRayCountStep(rayCount, deltas[0]);
      RayCountAlwaysValid(NextRayCount(rayCount, deltas[0]), deltas[1..]);
    } else {
      var k :| 2 <= k <= 7 && rayCount == Pow2(k) as real;
      PowerBounds(k);
    }
  }

  lemma {:induction false} PowerBounds(k: nat)
    requires 2 <= k <= 7
    ensures 4 <= Pow2(k) <= 128
  {
    if k > 2 {
      PowerBounds(k - 1);
    }
  }

  lemma InitialRayCountValid()
    ensures ValidRayCount(8.0)
  {
    assert Pow2(3) == 8;
  }

  /** The ray count as the whole number of rays a star is built with. */
  function Segments(rayCount: real): (n: nat)
    requires ValidRayCount(rayCount)
    ensures n as real == rayCount && 4 <= n <= 128
  {
    var k :| 2 <= k <= 7 && rayCount == Pow2(k) as real;
    PowerBounds(k);
    rayCount.Floor
  }

  /** The source point lies in [1, width - 1] x [1, height - 1]. */
  predicate InViewport(x: real, y: real, widthPx: int, heightPx: int)
  {
    1.0 <= x <= widthPx as real - 1.0 && 1.0 <= y <= heightPx as real - 1.0
  }

  /** The module-level state of the page that the handlers update. */
  class Scene {
    var widthPx: int
    var heightPx: int
    var rayCount: real
    /** `startPoint`: a two-element array the mousemove handler writes in place. */
    const startPoint: array<real>

    ghost predicate Valid()
      reads this
    {
      startPoint.Length == 2 && ValidRayCount(rayCount)
    }

    /** Page start-up (lines 4-5, 19, 211), with the window size as input. */
    constructor (innerWidth: int, innerHeight: int)
      ensures Valid() && fresh(startPoint)
      ensures widthPx == innerWidth && heightPx == innerHeight && rayCount == 8.0
      ensures startPoint[..] ==
        [Trunc(innerWidth as real * 0.75) as real, Trunc(innerHeight as real * 0.25) as real]
    {
      widthPx := innerWidth;
      heightPx := innerHeight;
      rayCount := 8.0;
      startPoint := new real[2] [Trunc(innerWidth as real * 0.75) as real, Trunc(innerHeight as real * 0.25) as real];
      InitialRayCountValid();
    }

    /** The `mousemove` handler (lines 246-249). */
    method MouseMove(clientX: real, clientY: real)
      requires Valid()
      modifies startPoint
      ensures Valid()
      ensures startPoint[..] ==
        [Clamp(clientX, 1.0, widthPx as real - 1.0), Clamp(clientY, 1.0, heightPx as real - 1.0)]
      ensures widthPx >= 2 && heightPx >= 2 ==> InViewport(startPoint[0], startPoint[1], widthPx, heightPx)
    {
      startPoint[0] := Clamp(clientX, 1.0, widthPx as real - 1.0);
      startPoint[1] := Clamp(clientY, 1.0, heightPx as real - 1.0);
    }

    /** The `mousewheel` handler (lines 250-256). */
    method Wheel(deltaY: real)
      requires Valid()
      modifies this`rayCount
      ensures Valid()
      ensures rayCount == NextRayCount(old(rayCount), deltaY)
      ensures deltaY < 0.0 ==> rayCount == if old(rayCount) == 128.0 then 128.0 else 2.0 * old(rayCount)
      ensures deltaY >= 0.0 ==> rayCount == if old(rayCount) == 4.0 then 4.0 else old(rayCount) / 2.0
    {
      NextRayCountStep(rayCount, deltaY);
      rayCount := Clamp(if Sign(deltaY) < 0 then rayCount * 2.0 else rayCount * 0.5, 4.0, 128.0);
    }

    /**
     * The engine calls of one frame (lines 226-227): a star from the source
     * point with the current ray count, expanded `Depth` rounds.
     */
    method Propagate(obstacleLines: seq<Line>, rayEnd: RayEnds) returns (stars: seq<Star>)
      requires Valid()
      ensures var start := Point(startPoint[0], startPoint[1]);
        var n := Segments(rayCount);
        stars == ExpandOf([StarOf(start, n, obstacleLines, rayEnd)], Depth, n, obstacleLines, rayEnd)
      ensures |stars| >= 1 && stars[0].center == Point(startPoint[0], startPoint[1])
      ensures forall i :: 0 <= i < |stars| ==> |stars[i].rays| == Segments(rayCount)
    {
      var n := Segments(rayCount);
      var startStar := StarFromPoint(Point(startPoint[0], startPoint[1]), n, obstacleLines, rayEnd);
      stars := ExpandStars([startStar], Depth, obstacleLines, rayEnd, n);
      ExpandKeepsPrefix([startStar], Depth, n, obstacleLines, rayEnd);
      ExpandAddedStars([startStar], Depth, n, obstacleLines, rayEnd);
    }
  }
}
