# Rays: a verified model of the ray-propagation engine

This project models the geometric core of the "rays" animation (`src/script/index.ts`).
A star is a fan of rays cast from a centre point. Each ray stops at the nearest obstacle
segment it crosses and is snapped back by `pointRadius`. Stars are then expanded in
bounded rounds: a new star is spawned at every ray endpoint that is not near an existing
star centre. The page's event handlers keep the ray count and the source point in range.

Modules, one per part of the engine:

- `geometry.dfy` (`Geometry`): points, segments, `clamp`, squared distance and
  `lineToLineCollisionPoint` over exact reals.
- `star.dfy` (`Stars`): the closest-hit loop, truncation `~~`, endpoint snapping and
  `getStarFromPoint`. The far end of each ray is an input function `RayEnds`.
- `expand.dfy` (`Expansion`): `expandStars` as a method. It is proved equal to the
  round-by-round function `ExpandOf`, and the lemmas about each round are stated on `ExpandOf`.
- `polygon.dfy` (`Polygon`): the edge chaining of `getPolygonLines`.
- `scene.dfy` (`App`): the module-level state (`rayCount`, `startPoint`, viewport size)
  as a class whose methods are the `mousewheel` and `mousemove` handlers, plus the
  engine calls made for each frame.

The imperative parts of the source stay imperative:
- `getStarFromPoint` and its inner obstacle loop are methods with loops.
- `expandStars` is a `while` loop over `for` loops that fills a staging list.
- `startPoint` is an array that the mousemove handler writes in place.
- `rayCount` is a field that the wheel handler reassigns.

`expandStars` checks each endpoint only against the stars present when the round
starts; staged stars are appended after the round (line 107). Two nearby endpoints in
one round therefore both spawn, and returned centres need not be `2 * pointRadius`
apart: `Expansion.SameRoundSpawnsMayBeNear`.

## Model

| member | source | states |
|---|---|---|
| `Geometry.Clamp` | src/script/index.ts:21-23 | for min <= max the result lies in [min, max], equals the value exactly when it is in range, and is min below and max above the range |
| `Geometry.Dist2` | src/script/index.ts:74-75 | the squared distance is non-negative and zero for equal points |
| `Geometry.Collision` | src/script/index.ts:25-48 | no point when the denominator is 0 (no division by zero); a point exactly when both t and u lie in [0,1]; the point is start + t*(end - start) on the first segment |
| `Geometry.CrossingOnBoth` | src/script/index.ts:37-44 | for non-parallel lines the point at parameter t on the first segment is the point at parameter u on the second |
| `Geometry.CollisionSound` | src/script/index.ts:37-47 | a reported point lies on both closed segments, at t and at u |
| `Geometry.CollisionComplete` | src/script/index.ts:34-47 | for non-parallel segments, any point common to both closed segments is exactly the one reported |
| `Stars.Trunc` | src/script/index.ts:80-81 | `~~` truncates toward zero: r <= v < r + 1 for v >= 0 and r - 1 < v <= r for v < 0 |
| `Stars.ClosestIntersection` | src/script/index.ts:66-77 | the obstacle loop returns the fold `ClosestOf` of the crossings in list order |
| `Stars.ClosestIsFirstNearest` | src/script/index.ts:66-77 | no hit is selected iff no obstacle is crossed; otherwise the selected hit is the crossing of an obstacle whose distance to the centre is <= every crossing's, and strictly < every earlier obstacle's (earliest wins ties) |
| `Stars.ClosestCharacterised` | src/script/index.ts:66-77 | conversely, the first nearest obstacle's crossing is the one selected |
| `Stars.SnapCoord` | src/script/index.ts:80-81 | the snapped coordinate is within one unit of the hit moved pointRadius away from the far coordinate, or of the hit itself when they are equal |
| `Stars.RayEndpointStops` | src/script/index.ts:64-84 | a ray that crosses no obstacle keeps its far point exactly; otherwise its endpoint is the first nearest obstacle's crossing with each coordinate snapped by `SnapCoord`, hence within one unit of that crossing pulled back by pointRadius |
| `Stars.StarOf` | src/script/index.ts:50-89 | the star keeps the given centre and has exactly `segments` endpoints |
| `Stars.StarFromPoint` | src/script/index.ts:50-89 | the loop builds `StarOf`: same centre and endpoint i is ray i's endpoint, for i in ascending order |
| `Expansion.StarExists` | src/script/index.ts:99-101 | true iff some star's centre is strictly within squared distance (2*pointRadius)^2 of the point |
| `Expansion.ExpandStars` | src/script/index.ts:91-111 | the nested loops compute `ExpandOf`: depth rounds, each appending the stars staged against the start-of-round list |
| `Expansion.ExpandKeepsPrefix` | src/script/index.ts:92-110 | the input is a prefix of the result (nothing is removed or reordered), and depth <= 0 returns the input unchanged |
| `Expansion.SpawnSound` | src/script/index.ts:98-104 | each staged star is `StarOf` its centre, which is one of the walked endpoints and has no start-of-round centre near it |
| `Expansion.SpawnComplete` | src/script/index.ts:98-104 | every walked endpoint with no centre near it gets a staged star |
| `Expansion.SpawnCenters` | src/script/index.ts:98-104 | the staged centres form a sub-multiset of the walked endpoints |
| `Expansion.RoundSound` | src/script/index.ts:95-107 | every star added in a round is centred at a ray endpoint of a star present at the start of the round, has no start-of-round centre near it, and has `rayCount` rays |
| `Expansion.RoundAtMostOnePerEndpoint` | src/script/index.ts:95-107 | a round adds at most one star per ray endpoint occurrence |
| `Expansion.RoundSpawnsFreeEndpoints` | src/script/index.ts:97-106 | every ray endpoint far from all start-of-round centres spawns a star built with the global `rayCount` |
| `Expansion.ExpandAddedStars` | src/script/index.ts:94-108 | every star after the input has `rayCount` rays and is centred at a ray endpoint of an earlier star |
| `Expansion.SpawnAllFree` | src/script/index.ts:97-106 | when no walked endpoint is near a start-of-round centre, every endpoint spawns its star, in walk order |
| `Expansion.SameRoundSpawnsMayBeNear` | src/script/index.ts:97-107 | a four-ray star with no obstacles, whose first two rays end 5 units apart, spawns at both endpoints in the same round, so returned centres can be within 2*pointRadius |
| `Polygon.PolygonLines` | src/script/index.ts:113-129 | `segments` edges, edge i runs from vertex i to vertex i+1, and each edge starts where the previous one ends |
| `App.Sign` | src/script/index.ts:252 | the sign is negative, zero or positive exactly as the number is |
| `App.NextRayCountStep` | src/script/index.ts:250-256 | from a power of two in [4,128], a negative deltaY doubles (capped at 128), otherwise halves (floored at 4), giving a power of two in [4,128] |
| `App.RayCountAlwaysValid` | src/script/index.ts:250-256 | any sequence of wheel events from a valid count (8 at start) leaves a power of two in [4,128] |
| `App.InitialRayCountValid` | src/script/index.ts:19 | the starting ray count 8 is a power of two in [4,128] |
| `App.Segments` | src/script/index.ts:62 | a valid ray count is a whole number of rays between 4 and 128 |
| `App.Scene.constructor` | src/script/index.ts:211 | the ray count starts at 8 and the source point at (~~(0.75w), ~~(0.25h)) |
| `App.Scene.MouseMove` | src/script/index.ts:246-249 | the source point is overwritten in place with the clamped pointer position and lies in [1,w-1]x[1,h-1] when w, h >= 2 |
| `App.Scene.Wheel` | src/script/index.ts:250-256 | the ray count becomes the clamped double or half and stays a power of two in [4,128] |
| `App.Scene.Propagate` | src/script/index.ts:226-227 | one frame's stars are `ExpandOf` the star from the source point; the first star is centred there and every star has `rayCount` rays |

## Left out

- Canvas drawing (`renderDebug`, `renderPoint`, `renderStar`, `renderPolygonLines`), the DOM and canvas setup, the `render` frame loop with `requestAnimationFrame`, the fps counter and the `resize` listener are browser I/O and scheduling.
- The far ray endpoints (`Math.cos`, `Math.sin`, `Math.hypot` and the slope-based `starAngle` towards the target point) are trigonometry over doubles. They are the input function `RayEnds`, and `starAngle`'s division by `centerX - endPointX` is not modelled.
- The polygon vertices of `getPolygonLines` come from cos/sin. They are the input function `vertex`, so the triangle's rotation over time is not modelled.
- The viewport boundary lines and the moving triangle built in `render` are not modelled: obstacles are an input list.
- Coordinates are exact reals rather than IEEE doubles, so NaN, Infinity and rounding are not modelled. `~~`'s 32-bit wrap-around is not modelled either (`Stars.Trunc` truncates unbounded reals).
- `App.Sign` models `Math.sign` on finite numbers only, without NaN.
- Stars.SnapCoord: its contract bounds the snapped coordinate to within the one unit lost to truncation, rather than naming the exact integer; the exact value is `Stars.Trunc` of the shifted hit.
- Stars.StarFromPoint: `segments` is a natural number. In the source a fractional count would run the loop a rounded-up number of times. `App.RayCountAlwaysValid` shows the count the page passes is always a whole power of two.
- Expansion.ExpandStars: `depth` is an integer. A fractional depth would run a rounded-up number of rounds in the source.
- Geometry.Dist2: its contract does not state that a zero distance implies equal points.
- The initial `startPoint` (line 211) need not lie in [1, w-1] x [1, h-1] for tiny viewports. Only `MouseMove` establishes that range.
- `rspack.config.js` and `vite.config.js` are build configuration, with no behaviour to verify.
