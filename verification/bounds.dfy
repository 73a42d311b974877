/** Drawing the two end points of the water line on the border, and the area window a pair must
    meet before it is used (`generateStartPoint`, `verifyInitialPoints`, `getRandomBounds`). */
module Bounds {
  import opened Wrappers
  import opened Geometry
  import opened RandomDraw
  import opened WaterFront
  import opened ClockwiseWalk
  import opened Arith

  datatype BoundsError =
    | UnknownSide(side: int)   // the side index was not 0, 1, 2 or 3
    | DrawsExhausted           // the supplied draws ran out before a pair was accepted

  /** The two points a water line runs between. */
  datatype Bounds = Bounds(startPoint: Point, endPoint: Point)

  /** The side an index names when a start point is drawn. */
  function SideOfIndex(i: int): (s: Side)
    requires 0 <= i < 4
    ensures Index(s) == i
  {
    if i == 0 then Right else if i == 1 then Bottom else if i == 2 then Left else Top
  }

  /** `p` lies on the border line of side `s`, from the side's first corner up to but not
      including the last, which is where the draw along a side can land. */
  predicate OnSideFrom(p: Point, s: Side, r: real)
  {
    match s
    case Right => p.x == r && -r <= p.y < r
    case Bottom => p.y == -r && -r <= p.x < r
    case Left => p.x == -r && -r <= p.y < r
    case Top => p.y == r && -r <= p.x < r
  }

  /** A point on the side with index `side`, at the position along it that the draw `u` picks
      from [-r, r); any other index is an error. */
  function GenerateStartPoint(r: real, side: int, u: real): (res: Result<Point, BoundsError>)
    requires IsUnit(u)
    ensures res.Failure? <==> !(0 <= side < 4)
    ensures res.Failure? ==> res.error == UnknownSide(side)
    ensures res.Success? && r > 0.0 ==> OnSideFrom(res.value, SideOfIndex(side), r)
    ensures res.Success? && r > 0.0 ==> OnBorder(res.value, r)
  {
    if side == 0 then Success(Point(r, RandomNumber(u, -r, r)))
    else if side == 1 then Success(Point(RandomNumber(u, -r, r), -r))
    else if side == 2 then Success(Point(-r, RandomNumber(u, -r, r)))
    else if side == 3 then Success(Point(RandomNumber(u, -r, r), r))
    else Failure(UnknownSide(side))
  }

  /** Every point a side can be drawn at is the outcome of one draw. */
  lemma GenerateStartPointReaches(r: real, side: int, p: Point) returns (u: real)
    requires r > 0.0 && 0 <= side < 4 && OnSideFrom(p, SideOfIndex(side), r)
    ensures IsUnit(u) && GenerateStartPoint(r, side, u) == Success(p)
  {
    var t := if side == 0 || side == 2 then p.y else p.x;
    u := RandomNumberReaches(t, -r, r);
  }

  /** The source accepts a pair when its water area lies between 15% and 75% of `r * r`. An
      accepted pair therefore encloses some water, so it is never one the source treats as
      lying on one side (those are given no area). */
  function VerifyInitialPoints(s: Point, e: Point, r: real): (ok: bool)
    ensures ok <==> 0.15 * (r * r) <= WaterFrontArea(s, e, r) <= 0.75 * (r * r)
    ensures ok && r != 0.0 ==> WaterFrontArea(s, e, r) > 0.0 && Classify(s, e, r) != SameLine
  {
    var waterArea := WaterFrontArea(s, e, r);
    var totalArea := r * r;
    assert r != 0.0 ==> totalArea > 0.0 by {
      if r != 0.0 {
        SquarePositive(r);
        assert Mul(r, r) == r * r;
      }
    }
    !(waterArea < totalArea * 0.15 || waterArea > totalArea * 0.75)
  }

  /** Of the two orders of a pair strictly inside two sides, at most one is accepted: an
      accepted order keeps at most 75% of `r * r` as water, which leaves the swapped order at
      least 3.25 times `r * r`, above the window. */
  lemma AtMostOneOrderAccepted(s: Point, e: Point, ss: Side, se: Side, r: real)
    requires r > 0.0 && InsideSide(s, ss, r) && InsideSide(e, se, r)
    requires VerifyInitialPoints(s, e, r)
    ensures WaterFrontArea(e, s, r) >= 3.25 * (r * r)
    ensures !VerifyInitialPoints(e, s, r)
  {
    OrientationsSplitSquare(s, e, ss, se, r);
  }

  /** The side index and unit draw consumed by one call of the start-point generator. */
  datatype StartDraw = StartDraw(side: int, u: real)

  /** The draws consumed by one attempt: the start point's, then the end point's. */
  datatype PairDraw = PairDraw(start: StartDraw, end: StartDraw)

  predicate ValidDraw(d: PairDraw)
  {
    IsUnit(d.start.u) && IsUnit(d.end.u)
  }

  /** One attempt: the start point is generated first, so its error, if any, is the one raised. */
  function DrawPair(r: real, d: PairDraw): (res: Result<Bounds, BoundsError>)
    requires ValidDraw(d)
    ensures res.Success? <==> 0 <= d.start.side < 4 && 0 <= d.end.side < 4
    ensures res.Failure? ==> res.error == UnknownSide(if 0 <= d.start.side < 4 then d.end.side else d.start.side)
  {
    match GenerateStartPoint(r, d.start.side, d.start.u)
    case Failure(err) => Failure(err)
    case Success(startPoint) =>
      match GenerateStartPoint(r, d.end.side, d.end.u)
      case Failure(err) => Failure(err)
      case Success(endPoint) => Success(Bounds(startPoint, endPoint))
  }

  /** The attempt produced a pair and the pair passed verification. */
  predicate Accepted(r: real, d: PairDraw)
    requires ValidDraw(d)
  {
    var res := DrawPair(r, d);
    res.Success? && VerifyInitialPoints(res.value.startPoint, res.value.endPoint, r)
  }

  /** Draws pairs until one passes verification. The source keeps drawing forever; here the
      draws are a finite supply, and running out is reported as `DrawsExhausted`. `attempts`
      counts the rejected pairs before the result. */
  method GetRandomBounds(r: real, draws: seq<PairDraw>) returns (res: Result<Bounds, BoundsError>, attempts: nat)
    requires forall i :: 0 <= i < |draws| ==> ValidDraw(draws[i])
    ensures attempts <= |draws|
    ensures forall j :: 0 <= j < attempts ==> DrawPair(r, draws[j]).Success? && !Accepted(r, draws[j])
    ensures res == Failure(DrawsExhausted) <==> attempts == |draws|
    ensures attempts < |draws| ==> res == DrawPair(r, draws[attempts])
    ensures res.Success? ==> VerifyInitialPoints(res.value.startPoint, res.value.endPoint, r)
  {
    attempts := 0;
    while attempts < |draws|
      invariant attempts <= |draws|
      invariant forall j :: 0 <= j < attempts ==> DrawPair(r, draws[j]).Success? && !Accepted(r, draws[j])
    {
      var pair := DrawPair(r, draws[attempts]);
      if pair.Failure? || Accepted(r, draws[attempts]) {
        assert pair != Failure(DrawsExhausted);
        return pair, attempts;
      }
      assert pair.Success? && !Accepted(r, draws[attempts]);
      attempts := attempts + 1;
    }
    return Failure(DrawsExhausted), attempts;
  }
}
