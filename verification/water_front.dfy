/** The closing of a start/end pair along the square's border and the area it encloses, as
    `getWaterFrontArea` computes them. */
module WaterFront {
  import opened Wrappers
  import opened Geometry
  import opened Shoelace

  /** How a start/end pair is classified before it is closed along the border. */
  datatype PairKind = SameLine | OppositeSides | AdjacentSides

  /** The source first treats a pair sharing either coordinate as lying on one side, then a pair
      whose coordinates differ by the full width `2r` as lying on opposite sides; every other
      pair is taken to lie on adjacent sides. */
  function Classify(s: Point, e: Point, r: real): PairKind
  {
    var xDiff := e.x - s.x;
    var yDiff := e.y - s.y;
    if yDiff == 0.0 || xDiff == 0.0 then SameLine
    else if Abs(yDiff) == 2.0 * r || Abs(xDiff) == 2.0 * r then OppositeSides
    else AdjacentSides
  }

  /** The two corners appended for a pair on opposite sides. A vertical difference of `2r` is
      looked at before a horizontal one. */
  function OppositeCorners(s: Point, e: Point, r: real): (cs: seq<Point>)
    ensures |cs| == 2 && IsCorner(cs[0], r) && IsCorner(cs[1], r)
  {
    var xDiff := e.x - s.x;
    var yDiff := e.y - s.y;
    if Abs(yDiff) == 2.0 * r then
      if yDiff < 0.0 then [Point(-r, -r), Point(-r, r)] else [Point(r, r), Point(r, -r)]
    else if xDiff < 0.0 then [Point(-r, r), Point(r, r)]
    else [Point(r, -r), Point(-r, -r)]
  }

  /** One of the four independent checks on the end point's border line: when it `fires` it
      appends `first`, followed by `second` and `third` when the start point lies on the line
      that `wraps` the walk three quarters of the way round. */
  function CornerBlock(fires: bool, wraps: bool, first: Point, second: Point, third: Point): seq<Point>
  {
    if !fires then [] else if wraps then [first, second, third] else [first]
  }

  /** The corners appended for a pair on adjacent sides: the four checks, in the order the source
      makes them, each appending to the same list. */
  function AdjacentCorners(s: Point, e: Point, r: real): (cs: seq<Point>)
    ensures forall i :: 0 <= i < |cs| ==> IsCorner(cs[i], r)
  {
    CornerBlock(e.y == -r, s.x == r, Point(-r, -r), Point(-r, r), Point(r, r))
    + CornerBlock(e.x == -r, s.y == -r, Point(-r, r), Point(r, r), Point(r, -r))
    + CornerBlock(e.y == r, s.x == -r, Point(r, r), Point(r, -r), Point(-r, -r))
    + CornerBlock(e.x == r, s.y == r, Point(r, -r), Point(-r, -r), Point(-r, r))
  }

  /** A closed point list of the shape the source builds: the start point, the end point, some
      corners of the square, and the start point again. */
  predicate ClosedThroughCorners(ps: seq<Point>, s: Point, e: Point, r: real)
  {
    && |ps| >= 3
    && ps[0] == s && ps[1] == e && ps[|ps| - 1] == s
    && forall i :: 2 <= i < |ps| - 1 ==> IsCorner(ps[i], r)
  }

  /** The point list whose area is measured, or `None` when the source returns 0 without
      building one. */
  function WaterFrontPoints(s: Point, e: Point, r: real): (res: Option<seq<Point>>)
    ensures res.None? <==> Classify(s, e, r) == SameLine
    ensures res.Some? ==> ClosedThroughCorners(res.value, s, e, r)
    ensures Classify(s, e, r) == OppositeSides ==> |res.value| == 5
  {
    match Classify(s, e, r)
    case SameLine => None
    case OppositeSides => Some([s, e] + OppositeCorners(s, e, r) + [s])
    case AdjacentSides => Some([s, e] + AdjacentCorners(s, e, r) + [s])
  }

  /** The area the source attributes to the water bounded by the pair. */
  function WaterFrontArea(s: Point, e: Point, r: real): (a: real)
    ensures a >= 0.0
    ensures Classify(s, e, r) == SameLine ==> a == 0.0
    ensures WaterFrontPoints(s, e, r).Some? ==> a == Area(WaterFrontPoints(s, e, r).value)
  {
    match WaterFrontPoints(s, e, r)
    case None => 0.0
    case Some(ps) => Area(ps)
  }

  /** For two border points that reach the adjacent-sides branch, neither point is a corner, and
      the four line checks together append one corner, or three when the end point's line and
      the start point's line are the wrapping pair of one of them. */
  lemma AdjacentBranchCornerCount(s: Point, e: Point, r: real)
    requires r > 0.0 && OnBorder(s, r) && OnBorder(e, r)
    requires Classify(s, e, r) == AdjacentSides
    ensures !IsCorner(s, r) && !IsCorner(e, r)
    ensures |AdjacentCorners(s, e, r)| == 1 || |AdjacentCorners(s, e, r)| == 3
    ensures |AdjacentCorners(s, e, r)| == 3 <==>
      || (e.y == -r && s.x == r)
      || (e.x == -r && s.y == -r)
      || (e.y == r && s.x == -r)
      || (e.x == r && s.y == r)
  {
  }
}
