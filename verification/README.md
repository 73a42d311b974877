# Water-front border closing, modelled in Dafny

The city generator draws a body of water that touches the edge of a square map. The square is
axis-aligned, centred at the origin, with half-width `radius` (`r` below). The modelled part is in
`city-generator/src/utils/shapes/bezier-curve.ts` and does the following:

- **Start and end points.** `generateStartPoint` picks a side index and a position along that
  side, giving a point on the border.
- **Water area.** `getWaterFrontArea` classifies a start/end pair: same side, opposite sides or
  adjacent sides. Unless the pair is on one side, it closes the pair into a point list. The list
  is the start point, the end point, a fixed table of square corners, and the start point again.
  The function returns the list's unsigned polygon area.
- **Acceptance.** `verifyInitialPoints` accepts a pair whose area lies between 15% and 75% of
  `r * r`. `getRandomBounds` keeps drawing pairs until one is accepted.
- **Curve control points.** `getNextNode` and `getMidPoint` place the control points of the
  curves that run towards a node.

Coordinates are exact reals. `===` on numbers becomes `==` on `real`. The platform's random number
`Math.random()` is passed in as a parameter `u` with `0 <= u < 1`. The library's polygon area
(`THREE.ShapeUtils.area`) is replaced by the shoelace formula. Like the library's loop, the formula
includes the edge from the last point back to the first.

Modules:

- `Geometry`: points, the four sides, listed clockwise in the source's order (0 right, 1 bottom,
  2 left, 3 top), and their corners.
- `Shoelace`: signed and unsigned polygon area.
- `RandomDraw`: `getRandomNumber`.
- `WaterFront`: the classification and the corner table, as written.
- `ClockwiseWalk`: an independent reference. It walks the border clockwise from the end point's
  side to the start point's side. It also holds the area theorems.
- `Bounds`: start points, the acceptance window and the retry loop.
- `Curves`: control points.
- `Arith` and `Wrappers`: helpers.

Two results about the corner table:

- For points strictly inside two sides, the table is exactly the clockwise walk.
- Swapping start and end gives the complementary region. The two areas add up to the square's
  area `(2r)^2`, and each is strictly between 0 and `(2r)^2`.

It follows that, for points strictly inside two sides, an accepted pair never has an accepted
reverse. The window is relative to `r * r`, a quarter of the square's area, so an accepted
order leaves at least `3.25 * r * r` to the swapped order.

The code's same-side test is `xDiff === 0 || yDiff === 0`: any shared coordinate counts, not
only a shared border line. The model follows the code. So a pair on the left and right sides at
equal height, or on the top and bottom sides at equal abscissa, is also given area 0
(`ClockwiseWalk.ClassifyBySides`).

## Model

| member | source | states |
|---|---|---|
| RandomDraw.RandomNumber | city-generator/src/utils/math.ts:19-21 | a draw lies in [min, max) when min < max, equals min when the bounds agree, and lies in (max, min] when they are reversed |
| RandomDraw.RandomNumberReaches | city-generator/src/utils/math.ts:19-21 | every value of [min, max) is produced by exactly one unit draw |
| Shoelace.Area | city-generator/src/utils/shapes/bezier-curve.ts:200-202 | the measured area is never negative and is the signed shoelace area up to sign |
| Shoelace.ReverseKeepsArea | city-generator/src/utils/shapes/bezier-curve.ts:200-202 | reversing the point order negates the signed area and keeps the measured area, so the result does not depend on winding |
| Shoelace.ShiftKeepsSignedArea | city-generator/src/utils/shapes/bezier-curve.ts:200-202 | starting the same loop one vertex later gives the same signed area |
| Shoelace.RotateKeepsSignedArea | city-generator/src/utils/shapes/bezier-curve.ts:200-202 | turning every point a quarter turn about the origin keeps the signed area |
| Shoelace.SquareArea | city-generator/src/utils/shapes/bezier-curve.ts:80 | the whole square, walked clockwise, has signed area -(2r)^2 and area (2r)^2, four times the `r * r` used as total area |
| WaterFront.OppositeCorners | city-generator/src/utils/shapes/bezier-curve.ts:93-128 | the opposite-sides branch appends exactly two points, both corners of the square |
| WaterFront.AdjacentCorners | city-generator/src/utils/shapes/bezier-curve.ts:131-168 | every point the four adjacent-side checks append is a corner of the square |
| WaterFront.WaterFrontPoints | city-generator/src/utils/shapes/bezier-curve.ts:84-171 | no list is built exactly when the pair shares a coordinate; otherwise the list starts with start and end, ends with start, and has only corners in between, five points in all for opposite sides |
| WaterFront.WaterFrontArea | city-generator/src/utils/shapes/bezier-curve.ts:84-90 | the area is non-negative, 0 for a pair sharing a coordinate, and otherwise the area of the built list |
| WaterFront.AdjacentBranchCornerCount | city-generator/src/utils/shapes/bezier-curve.ts:131-168 | for border points reaching the adjacent branch, neither point is a corner, and the branch appends 1 corner, or 3 exactly when the pair is end bottom/start right, end left/start bottom, end top/start left or end right/start top |
| ClockwiseWalk.ClassifyBySides | city-generator/src/utils/shapes/bezier-curve.ts:85-93 | for points strictly inside sides: treated as one side iff on the same side or on opposite sides at the same position along them; opposite iff on opposite sides otherwise; adjacent iff on neighbouring sides |
| ClockwiseWalk.CornerTableIsClockwiseWalk | city-generator/src/utils/shapes/bezier-curve.ts:91-170 | the corner table, with the vertical rule taken before the horizontal one and the four sequential adjacent checks, equals start, end, the corners met walking clockwise from the end point's side to the start point's side, then start |
| ClockwiseWalk.ClockwiseLoopsSplitSquare | city-generator/src/utils/shapes/bezier-curve.ts:98-171 | the clockwise closing loop winds clockwise with signed area strictly between -(2r)^2 and 0, and the swapped pair's loop has the rest of -(2r)^2 |
| ClockwiseWalk.OrientationsSplitSquare | city-generator/src/utils/shapes/bezier-curve.ts:84-171 | for points strictly inside sides not treated as one, the water area is strictly between 0 and (2r)^2, and the areas of the two orders sum to (2r)^2 |
| ClockwiseWalk.DiagonalCornersHalveSquare | city-generator/src/utils/shapes/bezier-curve.ts:93-112 | a pair of opposite corners is classified as opposite sides and encloses exactly half the square, 2r^2 |
| Bounds.GenerateStartPoint | city-generator/src/utils/shapes/bezier-curve.ts:174-198 | an index outside 0..3 is an error naming it; otherwise the point lies on the indexed side (0 right, 1 bottom, 2 left, 3 top) at a position in [-r, r), hence on the border |
| Bounds.GenerateStartPointReaches | city-generator/src/utils/shapes/bezier-curve.ts:174-198 | every point of a side at a position in [-r, r) is produced by some draw |
| Bounds.VerifyInitialPoints | city-generator/src/utils/shapes/bezier-curve.ts:76-90 | acceptance is exactly a water area within [0.15 r^2, 0.75 r^2]; for r != 0 an accepted pair therefore encloses positive water and is never a pair the area function treats as lying on one side |
| Bounds.AtMostOneOrderAccepted | city-generator/src/utils/shapes/bezier-curve.ts:76-82 | for points strictly inside sides, if one order is accepted the swapped order has area at least 3.25 r^2 and is rejected |
| Bounds.DrawPair | city-generator/src/utils/shapes/bezier-curve.ts:62-63 | an attempt yields a pair iff both side indices are valid; otherwise the error names the start index if that is bad, else the end index |
| Bounds.GetRandomBounds | city-generator/src/utils/shapes/bezier-curve.ts:61-72 | every attempt before the result drew a valid pair that was rejected; the result is the next attempt's outcome, and a returned pair passes verification; running out of draws is reported only after every draw was rejected |
| Curves.Advance | city-generator/src/utils/shapes/bezier-curve.ts:37-41 | when the distance exceeds the maximum curve length, the undisplaced next node lies strictly between start and end on every axis where they differ |
| Curves.AdvanceStepsCurveLength | city-generator/src/utils/shapes/bezier-curve.ts:38-41 | when the distance is the true distance and exceeds the maximum curve length, the undisplaced node lies exactly the maximum curve length from start and the remaining distance from end |
| Curves.GetNextNode | city-generator/src/utils/shapes/bezier-curve.ts:37-49 | when the distance exceeds the maximum curve length, each coordinate of the next node lies within the span of start and end widened by 2, a fifth of the maximum curve length, on both sides |
| Curves.NextNodeDisplacement | city-generator/src/utils/shapes/bezier-curve.ts:44-48 | each coordinate of the next node is the undisplaced node's coordinate moved by a value in [-2, 2) |
| Curves.GetMidPoint | city-generator/src/utils/shapes/bezier-curve.ts:51-59 | each coordinate of the control point lies in [lower, upper) of the start's and the node's coordinates, and stays at the start where the two agree |
| Curves.MidPointReaches | city-generator/src/utils/shapes/bezier-curve.ts:51-59 | every point of that span is produced by some pair of draws |

## Left out

- `getCurvesToPoint`: left out. It builds `THREE.QuadraticBezierCurve` objects, and whether its
  loop ends depends on `Math.sqrt` and the random displacement. Its two helpers are modelled.
- `getWaterFrontShape`: left out. It is an empty stub. It also destructures `startNode`/`endNode`
  from `getRandomBounds`, whose result has the fields `startPoint`/`endPoint`.
- `console.log` and `vectorToString`: left out, they are logging only.
- `THREE.ShapeUtils.area`: replaced by the shoelace definition `Shoelace.SignedArea`. The library
  is not part of this model.
- `getRandomInt`: not part of this model, since its definition is not among the modelled sources.
  The side index is an arbitrary integer parameter, and any value outside 0..3 takes the error
  path.
- `getSlope`, `pythagoreanTheorem`, `degreeToRadians`, `radiansToX`, `radiansToY`: left out. They
  are floating-point square roots and trigonometry. Distances enter `Curves` as parameters.
- `city-generator/src/utils/node.ts`: left out. It is an earlier revision of the curve code, with
  angle-based bounds.
- `city-generator/src/main.ts`: left out. It is scene, camera and renderer setup.
- `city-generator/src/classes/node.ts`: replaced by the `Point` datatype.
- Floating point: coordinates are exact reals. Rounding, and equality tests that rounding would
  break, are not modelled.
- `Bounds.GetRandomBounds`: the source loops until a pair is accepted and may never return.
  The model consumes a finite sequence of draws and reports `DrawsExhausted` when they run out.
- `Curves.GetNextNode`: requires a non-zero distance. In the source a zero distance makes the
  ratio infinite, which reals cannot express. The only caller passes a distance above 10.
- `Bounds.GenerateStartPoint`: its placement facts are stated for a positive radius only. For
  other radii the position range is reversed and the point is still computed.
- `ClockwiseWalk.OrientationsSplitSquare`: stated for points strictly inside sides.
  `generateStartPoint` can also land on a corner, when the draw is exactly 0. For corners only the
  diagonal pair is covered, by `ClockwiseWalk.DiagonalCornersHalveSquare`.
