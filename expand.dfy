// `expandStars`: bounded rounds that spawn a new star at every ray endpoint of
// the current list that is not near an existing centre.

module Expansion {
  import opened Geometry
  import opened Stars

  /** Line 100: `p` lies strictly within squared distance (2 * pointRadius)^2 of `c`. */
  predicate Near(c: Point, p: Point)
  {
    Dist2(c, p) < (PointRadius * 2.0) * (PointRadius * 2.0)
  }

  /** `endStars.some(...)` of lines 99-101. */
  function StarExists(stars: seq<Star>, p: Point): (r: bool)
    ensures r <==> exists k :: 0 <= k < |stars| && Near(stars[k].center, p)
  {
    if stars == [] then false
    else
      var rest := StarExists(stars[1..], p);
      assert forall k :: 1 <= k < |stars| ==> stars[k] == stars[1..][k - 1];
      Near(stars[0].center, p) || rest
  }

  /** All ray endpoints of `stars`, star by star, each star's rays in order. */
  function Endpoints(stars: seq<Star>): seq<Point>
  {
    if stars == [] then []
    else Endpoints(stars[..|stars| - 1]) + stars[|stars| - 1].rays
  }

  function Centers(stars: seq<Star>): seq<Point>
  {
    if stars == [] then []
    else Centers(stars[..|stars| - 1]) + [stars[|stars| - 1].center]
  }

  /**
   * Walk the endpoints `es` in order against the round's starting list
   * `frontier`, staging a new star for each one that is not near a centre.
   */
  function Spawn(frontier: seq<Star>, es: seq<Point>, rayCount: nat, obstacles: seq<Line>, rayEnd: RayEnds): seq<Star>
  {
    if es == [] then []
    else
      var e := es[|es| - 1];
      Spawn(frontier, es[..|es| - 1], rayCount, obstacles, rayEnd) +
      (if StarExists(frontier, e) then [] else [StarOf(e, rayCount, obstacles, rayEnd)])
  }

  /** The stars staged by one round over `stars` (lines 95-106). */
  function Round(stars: seq<Star>, rayCount: nat, obstacles: seq<Line>, rayEnd: RayEnds): seq<Star>
  {
    Spawn(stars, Endpoints(stars), rayCount, obstacles, rayEnd)
  }

  /** `depth` rounds, each appending what it staged (line 107). */
  function ExpandOf(stars: seq<Star>, depth: int, rayCount: nat, obstacles: seq<Line>, rayEnd: RayEnds): seq<Star>
    decreases depth
  {
    if depth <= 0 then stars
    else ExpandOf(stars + Round(stars, rayCount, obstacles, rayEnd), depth - 1, rayCount, obstacles, rayEnd)
  }

  /**
   * `expandStars` (lines 91-111). `rayCount` is the module-level ray count the
   * source reads, not the parent star's ray count.
   */
  method ExpandStars(starsToExpand: seq<Star>, depth: int, obstaclesLines: seq<Line>, rayEnd: RayEnds, rayCount: nat)
    returns (endStars: seq<Star>)
    ensures endStars == ExpandOf(starsToExpand, depth, rayCount, obstaclesLines, rayEnd)
  {
    endStars := starsToExpand;
    var remaining := depth;
    while remaining > 0
      invariant ExpandOf(endStars, remaining, rayCount, obstaclesLines, rayEnd) ==
                ExpandOf(starsToExpand, depth, rayCount, obstaclesLines, rayEnd)
      decreases remaining
    {
      var expandedStars: seq<Star> := [];
      remaining := remaining - 1;
      for j := 0 to |endStars|
        invariant expandedStars == Spawn(endStars, Endpoints(endStars[..j]), rayCount, obstaclesLines, rayEnd)
      {
        var star := endStars[j];
        ghost var walked := Endpoints(endStars[..j]);
        EndpointsStep(endStars, j);
        assert walked + star.rays[..0] == walked;
        for r := 0 to |star.rays|
          invariant expandedStars == Spawn(endStars, walked + star.rays[..r], rayCount, obstaclesLines, rayEnd)
        {
          var rayEndCoords := star.rays[r];
          SpawnStep(endStars, walked, star.rays, r, rayCount, obstaclesLines, rayEnd);
          var starExists := StarExists(endStars, rayEndCoords);
          if starExists {
            continue;
          }
          var newStar := StarFromPoint(rayEndCoords, rayCount, obstaclesLines, rayEnd);
          expandedStars := expandedStars + [newStar];
        }
      }
      assert endStars[..|endStars|] == endStars;
      endStars := endStars + expandedStars;
    }
  }

  /** The input is never removed or reordered; with `depth <= 0` it is returned as is. */
  lemma {:induction false} ExpandKeepsPrefix(stars: seq<Star>, depth: int, rayCount: nat, obstacles: seq<Line>, rayEnd: RayEnds)
    ensures var r := ExpandOf(stars, depth, rayCount, obstacles, rayEnd);
      |stars| <= |r| && r[..|stars|] == stars
    ensures depth <= 0 ==> ExpandOf(stars, depth, rayCount, obstacles, rayEnd) == stars
    decreases depth
  {
    if depth > 0 {
      var next := stars + Round(stars, rayCount, obstacles, rayEnd);
      ExpandKeepsPrefix(next, depth - 1, rayCount, obstacles, rayEnd);
      assert next[..|stars|] == stars;
    }
  }

  /** The endpoints of the first `j + 1` stars extend those of the first `j` by star `j`'s rays. */
  lemma EndpointsStep(stars: seq<Star>, j: int)
    requires 0 <= j < |stars|
    ensures Endpoints(stars[..j + 1]) == Endpoints(stars[..j]) + stars[j].rays[..|stars[j].rays|]
  {
    assert stars[..j + 1][..j] == stars[..j];
    assert stars[j].rays[..|stars[j].rays|] == stars[j].rays;
  }

  /** Walking one more ray endpoint stages at most that endpoint's star. */
  lemma SpawnStep(frontier: seq<Star>, walked: seq<Point>, rays: seq<Point>, r: int, rayCount: nat, obstacles: seq<Line>, rayEnd: RayEnds)
    requires 0 <= r < |rays|
    ensures Spawn(frontier, walked + rays[..r + 1], rayCount, obstacles, rayEnd) ==
      Spawn(frontier, walked + rays[..r], rayCount, obstacles, rayEnd) +
      (if StarExists(frontier, rays[r]) then [] else [StarOf(rays[r], rayCount, obstacles, rayEnd)])
  {
    assert walked + rays[..r + 1] == (walked + rays[..r]) + [rays[r]];
    SpawnSnoc(frontier, walked + rays[..r], rays[r], rayCount, obstacles, rayEnd);
  }

  lemma SpawnSnoc(frontier: seq<Star>, es: seq<Point>, e: Point, rayCount: nat, obstacles: seq<Line>, rayEnd: RayEnds)
    ensures Spawn(frontier, es + [e], rayCount, obstacles, rayEnd) ==
      Spawn(frontier, es, rayCount, obstacles, rayEnd) +
      (if StarExists(frontier, e) then [] else [StarOf(e, rayCount, obstacles, rayEnd)])
  {
  }

  /**
   * Each star `Spawn` stages is a full star of `rayCount` rays centred at one
   * of the endpoints walked, with no centre of `frontier` near it.
   */
  lemma {:induction false} SpawnSound(frontier: seq<Star>, es: seq<Point>, rayCount: nat, obstacles: seq<Line>, rayEnd: RayEnds)
    ensures var s := Spawn(frontier, es, rayCount, obstacles, rayEnd);
      forall i :: 0 <= i < |s| ==>
        && s[i] == StarOf(s[i].center, rayCount, obstacles, rayEnd)
        && s[i].center in es
        && !StarExists(frontier, s[i].center)
  {
    if es != [] {
      var init, e := es[..|es| - 1], es[|es| - 1];
      SpawnSound(frontier, init, rayCount, obstacles, rayEnd);
      assert es == init + [e];
      SpawnSnoc(frontier, init, e, rayCount, obstacles, rayEnd);
    }
  }

  /** Every walked endpoint with no centre of `frontier` near it gets a staged star. */
  lemma {:induction false} SpawnComplete(frontier: seq<Star>, es: seq<Point>, rayCount: nat, obstacles: seq<Line>, rayEnd: RayEnds, p: Point)
    requires p in es && !StarExists(frontier, p)
    ensures StarOf(p, rayCount, obstacles, rayEnd) in Spawn(frontier, es, rayCount, obstacles, rayEnd)
  {
    var init, e := es[..|es| - 1], es[|es| - 1];
    assert es == init + [e];
    SpawnSnoc(frontier, init, e, rayCount, obstacles, rayEnd);
    if p != e {
      SpawnComplete(frontier, init, rayCount, obstacles, rayEnd, p);
    }
  }

  lemma CentersSnoc(stars: seq<Star>, star: Star)
    ensures Centers(stars + [star]) == Centers(stars) + [star.center]
  {
  }

  lemma MultisetGrow(a: seq<Point>, b: seq<Point>, e: Point, keep: bool)
    requires multiset(a) <= multiset(b)
    ensures multiset(if keep then a + [e] else a) <= multiset(b + [e])
  {
  }

  /** At most one star per walked endpoint: the staged centres are a sub-multiset of `es`. */
  lemma {:induction false} SpawnCenters(frontier: seq<Star>, es: seq<Point>, rayCount: nat, obstacles: seq<Line>, rayEnd: RayEnds)
    ensures multiset(Centers(Spawn(frontier, es, rayCount, obstacles, rayEnd))) <= multiset(es)
  {
    if es != [] {
      var init, e := es[..|es| - 1], es[|es| - 1];
      SpawnCenters(frontier, init, rayCount, obstacles, rayEnd);
      assert es == init + [e];
      SpawnSnoc(frontier, init, e, rayCount, obstacles, rayEnd);
      var prev := Spawn(frontier, init, rayCount, obstacles, rayEnd);
      var keep := !StarExists(frontier, e);
      var star := StarOf(e, rayCount, obstacles, rayEnd);
      assert prev + [] == prev;
      assert Spawn(frontier, es, rayCount, obstacles, rayEnd) == if keep then prev + [star] else prev;
      CentersSnoc(prev, star);
      MultisetGrow(Centers(prev), init, e, keep);
    }
  }

  lemma {:induction false} EndpointOwner(stars: seq<Star>, p: Point)
    requires p in Endpoints(stars)
    ensures exists k :: 0 <= k < |stars| && p in stars[k].rays
  {
    var n := |stars| - 1;
    if p !in stars[n].rays {
      EndpointOwner(stars[..n], p);
      var k :| 0 <= k < n && p in stars[..n][k].rays;
      assert stars[..n][k] == stars[k];
    }
  }

  lemma {:induction false} EndpointsContain(stars: seq<Star>, k: int, i: int)
    requires 0 <= k < |stars| && 0 <= i < |stars[k].rays|
    ensures stars[k].rays[i] in Endpoints(stars)
  {
    var n := |stars| - 1;
    if k < n {
      EndpointsContain(stars[..n], k, i);
      assert stars[..n][k] == stars[k];
    }
  }

  /**
   * Every star staged in a round is centred at a ray endpoint of a star present
   * at the start of the round, has no start-of-round centre near it, and is
   * built with `rayCount` rays.
   */
  lemma RoundSound(stars: seq<Star>, rayCount: nat, obstacles: seq<Line>, rayEnd: RayEnds)
    ensures var s := Round(stars, rayCount, obstacles, rayEnd);
      forall i :: 0 <= i < |s| ==>
        && s[i] == StarOf(s[i].center, rayCount, obstacles, rayEnd)
        && |s[i].rays| == rayCount
        && (exists k :: 0 <= k < |stars| && s[i].center in stars[k].rays)
        && (forall k :: 0 <= k < |stars| ==> !Near(stars[k].center, s[i].center))
  {
    var s := Round(stars, rayCount, obstacles, rayEnd);
    assert s == Spawn(stars, Endpoints(stars), rayCount, obstacles, rayEnd);
    SpawnSound(stars, Endpoints(stars), rayCount, obstacles, rayEnd);
    forall i | 0 <= i < |s|
      ensures exists k :: 0 <= k < |stars| && s[i].center in stars[k].rays
    {
      EndpointOwner(stars, s[i].center);
    }
  }

  /** A round stages at most one star per ray endpoint of its starting stars. */
  lemma RoundAtMostOnePerEndpoint(stars: seq<Star>, rayCount: nat, obstacles: seq<Line>, rayEnd: RayEnds)
    ensures multiset(Centers(Round(stars, rayCount, obstacles, rayEnd))) <= multiset(Endpoints(stars))
  {
    SpawnCenters(stars, Endpoints(stars), rayCount, obstacles, rayEnd);
  }

  /**
   * Every ray endpoint of the round's starting stars that is not near any of
   * their centres becomes the centre of a staged star.
   */
  lemma RoundSpawnsFreeEndpoints(stars: seq<Star>, rayCount: nat, obstacles: seq<Line>, rayEnd: RayEnds, k: int, i: int)
    requires 0 <= k < |stars| && 0 <= i < |stars[k].rays|
    requires forall m :: 0 <= m < |stars| ==> !Near(stars[m].center, stars[k].rays[i])
    ensures StarOf(stars[k].rays[i], rayCount, obstacles, rayEnd) in Round(stars, rayCount, obstacles, rayEnd)
  {
    EndpointsContain(stars, k, i);
    SpawnComplete(stars, Endpoints(stars), rayCount, obstacles, rayEnd, stars[k].rays[i]);
  }

  /**
   * Across all rounds, every star after the input has `rayCount` rays and is
   * centred at a ray endpoint of a star before it.
   */
  lemma {:induction false} ExpandAddedStars(stars: seq<Star>, depth: int, rayCount: nat, obstacles: seq<Line>, rayEnd: RayEnds)
    ensures var r := ExpandOf(stars, depth, rayCount, obstacles, rayEnd);
      forall i :: |stars| <= i < |r| ==>
        |r[i].rays| == rayCount && exists k :: 0 <= k < i && r[i].center in r[k].rays
    decreases depth
  {
    if depth > 0 {
      var round := Round(stars, rayCount, obstacles, rayEnd);
      var next := stars + round;
      ExpandAddedStars(next, depth - 1, rayCount, obstacles, rayEnd);
      ExpandKeepsPrefix(next, depth - 1, rayCount, obstacles, rayEnd);
      var r := ExpandOf(stars, depth, rayCount, obstacles, rayEnd);
      assert r == ExpandOf(next, depth - 1, rayCount, obstacles, rayEnd);
      forall i | |stars| <= i < |next|
        ensures |r[i].rays| == rayCount && exists k :: 0 <= k < i && r[i].center in r[k].rays
      {
        RoundAddedStar(stars, round, r, i, rayCount, obstacles, rayEnd);
      }
    }
  }

  lemma RoundAddedStar(stars: seq<Star>, round: seq<Star>, r: seq<Star>, i: int, rayCount: nat, obstacles: seq<Line>, rayEnd: RayEnds)
    requires round == Round(stars, rayCount, obstacles, rayEnd)
    requires |stars| <= i < |stars| + |round| <= |r| && r[..|stars| + |round|] == stars + round
    ensures |r[i].rays| == rayCount && exists k :: 0 <= k < i && r[i].center in r[k].rays
  {
    RoundSound(stars, rayCount, obstacles, rayEnd);
    assert r[i] == r[..|stars| + |round|][i] == round[i - |stars|];
    var k :| 0 <= k < |stars| && round[i - |stars|].center in stars[k].rays;
    assert r[k] == r[..|stars| + |round|][k] == stars[k];
  }

  /**
   * Far points for a four-ray star: rays 0 and 1 diverge slightly towards +x,
   * rays 2 and 3 point towards -x and -y.
   */
  function FanEnd(c: Point, n: nat, i: int): Point
  {
    if i == 0 then Point(c.x + 1000.0, c.y)
    else if i == 1 then Point(c.x + 1000.0, c.y + 5.0)
    else if i == 2 then Point(c.x - 1000.0, c.y)
    else Point(c.x, c.y - 1000.0)
  }

  /**
   * Deduplication only looks at the stars present when a round starts: two
   * nearby endpoints of one star both spawn in the same round, so the stars
   * returned are not pairwise `2 * pointRadius` apart.
   */
  lemma SameRoundSpawnsMayBeNear()
    ensures var seed := StarOf(Point(0.0, 0.0), 4, [], FanEnd);
      var r := ExpandOf([seed], 1, 4, [], FanEnd);
      |r| == 5 && r[1].center == Point(1000.0, 0.0) && r[2].center == Point(1000.0, 5.0) &&
      Near(r[1].center, r[2].center)
  {
    var seed := StarOf(Point(0.0, 0.0), 4, [], FanEnd);
    var round := Round([seed], 4, [], FanEnd);
    SeedRound(seed, round);
    var r := ExpandOf([seed], 1, 4, [], FanEnd);
    assert r == [seed] + round;
    assert Dist2(Point(1000.0, 0.0), Point(1000.0, 5.0)) == 25.0;
  }

  /** When no walked endpoint is near a centre of `frontier`, each spawns, in walk order. */
  lemma {:induction false} SpawnAllFree(frontier: seq<Star>, es: seq<Point>, rayCount: nat, obstacles: seq<Line>, rayEnd: RayEnds)
    requires forall i :: 0 <= i < |es| ==> !StarExists(frontier, es[i])
    ensures var s := Spawn(frontier, es, rayCount, obstacles, rayEnd);
      |s| == |es| && forall i :: 0 <= i < |es| ==> s[i] == StarOf(es[i], rayCount, obstacles, rayEnd)
  {
    if es != [] {
      var init, e := es[..|es| - 1], es[|es| - 1];
      SpawnAllFree(frontier, init, rayCount, obstacles, rayEnd);
      assert es == init + [e];
      SpawnSnoc(frontier, init, e, rayCount, obstacles, rayEnd);
    }
  }

  lemma SeedRays(seed: Star)
    requires seed == StarOf(Point(0.0, 0.0), 4, [], FanEnd)
    ensures seed.rays == [Point(1000.0, 0.0), Point(1000.0, 5.0), Point(-1000.0, 0.0), Point(0.0, -1000.0)]
  {
    // With no obstacles every ray keeps its far point.
    forall i | 0 <= i < 4
      ensures seed.rays[i] == FanEnd(seed.center, 4, i)
    {
      RayEndpointStops(seed.center, FanEnd(seed.center, 4, i), []);
    }
  }

  lemma SeedRound(seed: Star, round: seq<Star>)
    requires seed == StarOf(Point(0.0, 0.0), 4, [], FanEnd)
    requires round == Round([seed], 4, [], FanEnd)
    ensures |round| == 4 && round[0].center == Point(1000.0, 0.0) && round[1].center == Point(1000.0, 5.0)
  {
    var o := Point(0.0, 0.0);
    SeedRays(seed);
    var es := seed.rays;
    assert [seed][..0] == [];
    assert Endpoints([seed]) == es;
    assert !Near(o, es[0]) by { assert Dist2(o, es[0]) == 1000000.0; }
    assert !Near(o, es[1]) by { assert Dist2(o, es[1]) == 1000025.0; }
    assert !Near(o, es[2]) by { assert Dist2(o, es[2]) == 1000000.0; }
    assert !Near(o, es[3]) by { assert Dist2(o, es[3]) == 1000000.0; }
    SpawnAllFree([seed], es, 4, [], FanEnd);
  }
}
