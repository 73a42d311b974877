/** An independent description of the border closing: walk the border clockwise from the end
    point's side to the start point's side, collecting the corners passed. The lemmas here show
    that the source's corner table is this walk, and that the two orders of a pair split the
    square between them. */
module ClockwiseWalk {
  import opened Wrappers
  import opened Geometry
  import opened Shoelace
  import opened WaterFront
  import opened Arith

  /** The corners passed when walking `n` sides clockwise from the end of side `a`. */
  function Walk(a: Side, n: nat, r: real): (cs: seq<Point>)
    ensures |cs| == n
    ensures forall i :: 0 <= i < n ==> IsCorner(cs[i], r)
    decreases n
  {
    if n == 0 then [] else [CornerAfter(a, r)] + Walk(Next(a), n - 1, r)
  }

  /** The corners met walking the border clockwise from side `from` round to side `to`. */
  function ClockwiseCorners(from: Side, to: Side, r: real): seq<Point>
  {
    Walk(from, Steps(from, to), r)
  }

  /** For points strictly inside two sides of the square, the source's classification follows
      the sides: a pair on one side, or on opposite sides at the same height (or abscissa), is
      taken as one side; a pair on opposite sides otherwise as opposite; and a pair on
      neighbouring sides as adjacent. */
  lemma ClassifyBySides(s: Point, e: Point, ss: Side, se: Side, r: real)
    requires r > 0.0 && InsideSide(s, ss, r) && InsideSide(e, se, r)
    ensures Classify(s, e, r) == SameLine <==>
      ss == se || (se == Facing(ss) && Along(s, ss) == Along(e, se))
    ensures Classify(s, e, r) == OppositeSides <==>
      se == Facing(ss) && Along(s, ss) != Along(e, se)
    ensures Classify(s, e, r) == AdjacentSides <==> se == Next(ss) || ss == Next(se)
  {
  }

  /** The corner table is the clockwise walk: for points strictly inside two sides that the
      source does not treat as one, the list is the start point, the end point, the corners
      met going clockwise from the end point's side to the start point's side, and the start
      point again. */
  lemma CornerTableIsClockwiseWalk(s: Point, e: Point, ss: Side, se: Side, r: real)
    requires r > 0.0 && InsideSide(s, ss, r) && InsideSide(e, se, r)
    requires Classify(s, e, r) != SameLine
    ensures WaterFrontPoints(s, e, r) == Some([s, e] + ClockwiseCorners(se, ss, r) + [s])
  {
    ClassifyBySides(s, e, ss, se, r);
    if ss == Next(se) {
      OneCornerTable(s, e, ss, se, r);
    } else if ss == Next(Next(se)) {
      TwoCornerTable(s, e, ss, se, r);
    } else {
      assert se == Next(ss) by { assert Steps(se, ss) == 3; }
      ThreeCornerTable(s, e, ss, se, r);
    }
  }

  /** The start point's side follows the end point's: one corner between them. */
  lemma OneCornerTable(s: Point, e: Point, ss: Side, se: Side, r: real)
    requires r > 0.0 && InsideSide(s, ss, r) && InsideSide(e, se, r) && ss == Next(se)
    ensures WaterFrontPoints(s, e, r) == Some([s, e] + ClockwiseCorners(se, ss, r) + [s])
  {
    ClassifyBySides(s, e, ss, se, r);
    var c1 := CornerAfter(se, r);
    assert ClockwiseCorners(se, ss, r) == [c1];
    assert AdjacentCorners(s, e, r) == [c1];
  }

  /** Opposite sides: two corners between them. */
  lemma TwoCornerTable(s: Point, e: Point, ss: Side, se: Side, r: real)
    requires r > 0.0 && InsideSide(s, ss, r) && InsideSide(e, se, r) && ss == Next(Next(se))
    requires Classify(s, e, r) != SameLine
    ensures WaterFrontPoints(s, e, r) == Some([s, e] + ClockwiseCorners(se, ss, r) + [s])
  {
    ClassifyBySides(s, e, ss, se, r);
    var c1, c2 := CornerAfter(se, r), CornerAfter(Next(se), r);
    assert ClockwiseCorners(se, ss, r) == [c1, c2];
    assert OppositeCorners(s, e, r) == [c1, c2];
  }

  /** The end point's side follows the start point's: three corners the long way round. */
  lemma ThreeCornerTable(s: Point, e: Point, ss: Side, se: Side, r: real)
    requires r > 0.0 && InsideSide(s, ss, r) && InsideSide(e, se, r) && se == Next(ss)
    ensures WaterFrontPoints(s, e, r) == Some([s, e] + ClockwiseCorners(se, ss, r) + [s])
  {
    ClassifyBySides(s, e, ss, se, r);
    var c1, c2, c3 := CornerAfter(se, r), CornerAfter(Next(se), r), CornerAfter(Next(Next(se)), r);
    assert ClockwiseCorners(se, ss, r) == [c1, c2, c3];
    assert AdjacentCorners(s, e, r) == [c1, c2, c3];
  }

  /** The closed list built from the clockwise walk. */
  function Loop(s: Point, e: Point, ss: Side, se: Side, r: real): seq<Point>
  {
    [s, e] + ClockwiseCorners(se, ss, r) + [s]
  }

  /** Turning the whole picture a quarter clockwise turns the walk with it. */
  lemma {:induction false} WalkRotates(a: Side, n: nat, r: real)
    ensures Walk(Next(a), n, r) == RotateAll(Walk(a, n, r))
    decreases n
  {
    if n > 0 {
      WalkRotates(Next(a), n - 1, r);
      CornerRotates(a, r);
      RotateAllCons(CornerAfter(a, r), Walk(Next(a), n - 1, r));
    }
  }

  /** Turning the whole picture a quarter clockwise turns the closed list with it. */
  lemma LoopRotates(s: Point, e: Point, ss: Side, se: Side, r: real)
    ensures Loop(RotateCw(s), RotateCw(e), Next(ss), Next(se), r) == RotateAll(Loop(s, e, ss, se, r))
  {
    StepsNext(se, ss);
    WalkRotates(se, Steps(se, ss), r);
    var cs := ClockwiseCorners(se, ss, r);
    RotateAllAppend([s, e], cs);
    RotateAllAppend([s, e] + cs, [s]);
  }

  /** End point on the bottom, start point on the left. */
  lemma BottomLeftLoops(ex: real, sy: real, r: real)
    requires r > 0.0 && -r < ex < r && -r < sy < r
    ensures var s, e := Point(-r, sy), Point(ex, -r);
      && 2.0 * SignedArea([s, e, Point(-r, -r), s]) == -Mul(ex + r, sy + r)
      && 2.0 * SignedArea([e, s, Point(-r, r), Point(r, r), Point(r, -r), e]) == Mul(ex + r, sy + r) - 8.0 * r * r
      && 0.0 < Mul(ex + r, sy + r) < 4.0 * r * r
  {
    var s, e := Point(-r, sy), Point(ex, -r);
    TriangleLoop(s, e, Point(-r, -r));
    PentagonLoop(e, s, Point(-r, r), Point(r, r), Point(r, -r));
    MulPositive(ex + r, sy + r);
    MulBelowSquare(ex + r, sy + r, 2.0 * r);
    assert Mul(ex + r, sy + r) == (ex + r) * (sy + r);
    assert Mul(2.0 * r, 2.0 * r) == 4.0 * r * r;
  }

  /** End point on the bottom, start point on the top. */
  lemma BottomTopLoops(ex: real, sx: real, r: real)
    requires r > 0.0 && -r < ex < r && -r < sx < r
    ensures var s, e := Point(sx, r), Point(ex, -r);
      && 2.0 * SignedArea([s, e, Point(-r, -r), Point(-r, r), s]) == -2.0 * Mul(r, ex + sx + 2.0 * r)
      && 2.0 * SignedArea([e, s, Point(r, r), Point(r, -r), e]) == 2.0 * Mul(r, ex + sx + 2.0 * r) - 8.0 * r * r
      && 0.0 < Mul(r, ex + sx + 2.0 * r) < 4.0 * r * r
  {
    var s, e := Point(sx, r), Point(ex, -r);
    QuadrilateralLoop(s, e, Point(-r, -r), Point(-r, r));
    QuadrilateralLoop(e, s, Point(r, r), Point(r, -r));
    MulPositive(r, ex + sx + 2.0 * r);
    MulStrictlyIncreasing(r, ex + sx + 2.0 * r, 4.0 * r);
    assert Mul(r, ex + sx + 2.0 * r) == r * (ex + sx + 2.0 * r);
    assert Mul(r, 4.0 * r) == 4.0 * r * r;
  }

  /** End point on the bottom, start point on the right. */
  lemma BottomRightLoops(ex: real, sy: real, r: real)
    requires r > 0.0 && -r < ex < r && -r < sy < r
    ensures var s, e := Point(r, sy), Point(ex, -r);
      && 2.0 * SignedArea([s, e, Point(-r, -r), Point(-r, r), Point(r, r), s]) == Mul(r - ex, sy + r) - 8.0 * r * r
      && 2.0 * SignedArea([e, s, Point(r, -r), e]) == -Mul(r - ex, sy + r)
      && 0.0 < Mul(r - ex, sy + r) < 4.0 * r * r
  {
    var s, e := Point(r, sy), Point(ex, -r);
    PentagonLoop(s, e, Point(-r, -r), Point(-r, r), Point(r, r));
    TriangleLoop(e, s, Point(r, -r));
    MulPositive(r - ex, sy + r);
    MulBelowSquare(r - ex, sy + r, 2.0 * r);
    assert Mul(r - ex, sy + r) == (r - ex) * (sy + r);
    assert Mul(2.0 * r, 2.0 * r) == 4.0 * r * r;
  }

  /** With the end point on the bottom side, the clockwise loop winds clockwise around a part
      of the square, and the loop of the swapped pair covers the rest. */
  lemma LoopsFromBottom(s: Point, e: Point, ss: Side, r: real)
    requires r > 0.0 && InsideSide(s, ss, r) && InsideSide(e, Bottom, r) && ss != Bottom
    ensures -4.0 * r * r < SignedArea(Loop(s, e, ss, Bottom, r)) < 0.0
    ensures SignedArea(Loop(s, e, ss, Bottom, r)) + SignedArea(Loop(e, s, Bottom, ss, r)) == -4.0 * r * r
  {
    InsideSideAt(s, ss, r);
    InsideSideAt(e, Bottom, r);
    if ss == Left {
      LoopsBottomLeft(s, e, r);
    } else if ss == Top {
      LoopsBottomTop(s, e, r);
    } else {
      LoopsBottomRight(s, e, r);
    }
  }

  lemma LoopsBottomLeft(s: Point, e: Point, r: real)
    requires r > 0.0 && InsideSide(s, Left, r) && InsideSide(e, Bottom, r)
    ensures -4.0 * r * r < SignedArea(Loop(s, e, Left, Bottom, r)) < 0.0
    ensures SignedArea(Loop(s, e, Left, Bottom, r)) + SignedArea(Loop(e, s, Bottom, Left, r)) == -4.0 * r * r
  {
    var bl, tl, tr, br := Point(-r, -r), Point(-r, r), Point(r, r), Point(r, -r);
    assert ClockwiseCorners(Bottom, Left, r) == [bl];
    assert ClockwiseCorners(Left, Bottom, r) == [tl, tr, br];
    var s', e' := Point(-r, s.y), Point(e.x, -r);
    assert Loop(s, e, Left, Bottom, r) == [s', e', bl, s'];
    assert Loop(e, s, Bottom, Left, r) == [e', s', tl, tr, br, e'];
    BottomLeftLoops(e.x, s.y, r);
  }

  lemma LoopsBottomTop(s: Point, e: Point, r: real)
    requires r > 0.0 && InsideSide(s, Top, r) && InsideSide(e, Bottom, r)
    ensures -4.0 * r * r < SignedArea(Loop(s, e, Top, Bottom, r)) < 0.0
    ensures SignedArea(Loop(s, e, Top, Bottom, r)) + SignedArea(Loop(e, s, Bottom, Top, r)) == -4.0 * r * r
  {
    var bl, tl, tr, br := Point(-r, -r), Point(-r, r), Point(r, r), Point(r, -r);
    assert ClockwiseCorners(Bottom, Top, r) == [bl, tl];
    assert ClockwiseCorners(Top, Bottom, r) == [tr, br];
    var s', e' := Point(s.x, r), Point(e.x, -r);
    assert Loop(s, e, Top, Bottom, r) == [s', e', bl, tl, s'];
    assert Loop(e, s, Bottom, Top, r) == [e', s', tr, br, e'];
    BottomTopLoops(e.x, s.x, r);
  }

  lemma LoopsBottomRight(s: Point, e: Point, r: real)
    requires r > 0.0 && InsideSide(s, Right, r) && InsideSide(e, Bottom, r)
    ensures -4.0 * r * r < SignedArea(Loop(s, e, Right, Bottom, r)) < 0.0
    ensures SignedArea(Loop(s, e, Right, Bottom, r)) + SignedArea(Loop(e, s, Bottom, Right, r)) == -4.0 * r * r
  {
    var bl, tl, tr, br := Point(-r, -r), Point(-r, r), Point(r, r), Point(r, -r);
    assert ClockwiseCorners(Bottom, Right, r) == [bl, tl, tr];
    assert ClockwiseCorners(Right, Bottom, r) == [br];
    var s', e' := Point(r, s.y), Point(e.x, -r);
    assert Loop(s, e, Right, Bottom, r) == [s', e', bl, tl, tr, s'];
    assert Loop(e, s, Bottom, Right, r) == [e', s', br, e'];
    BottomRightLoops(e.x, s.y, r);
  }

  /** The quarter turns anticlockwise that take side `s` to the bottom side. */
  function TurnsToBottom(s: Side): nat
  {
    match s
    case Bottom => 0
    case Left => 1
    case Top => 2
    case Right => 3
  }

  /** For points strictly inside two different sides, the clockwise loop winds clockwise around
      a part of the square with area strictly between 0 and the square's, and the loop of the
      swapped pair covers exactly the rest. The general case turns the picture until the end
      point lies on the bottom side. */
  lemma {:induction false} ClockwiseLoopsSplitSquare(s: Point, e: Point, ss: Side, se: Side, r: real)
    requires r > 0.0 && InsideSide(s, ss, r) && InsideSide(e, se, r) && ss != se
    ensures -4.0 * r * r < SignedArea(Loop(s, e, ss, se, r)) < 0.0
    ensures SignedArea(Loop(s, e, ss, se, r)) + SignedArea(Loop(e, s, se, ss, r)) == -4.0 * r * r
    decreases TurnsToBottom(se)
  {
    if se == Bottom {
      LoopsFromBottom(s, e, ss, r);
    } else {
      var s0, e0 := RotateCcw(s), RotateCcw(e);
      RotateSides(s, ss, r);
      RotateSides(e, se, r);
      ClockwiseLoopsSplitSquare(s0, e0, Prev(ss), Prev(se), r);
      RotatedLoopArea(s0, e0, Prev(ss), Prev(se), r);
      RotatedLoopArea(e0, s0, Prev(se), Prev(ss), r);
    }
  }

  /** A loop turned a quarter clockwise keeps its signed area. */
  lemma RotatedLoopArea(s: Point, e: Point, ss: Side, se: Side, r: real)
    ensures SignedArea(Loop(RotateCw(s), RotateCw(e), Next(ss), Next(se), r)) == SignedArea(Loop(s, e, ss, se, r))
  {
    LoopRotates(s, e, ss, se, r);
    RotateKeepsSignedArea(Loop(s, e, ss, se, r));
  }

  /** The water area of a pair of points strictly inside two sides that the source does not
      treat as one is the part of the square clockwise from the end point to the start point:
      strictly between 0 and the square's area (2r)^2, and together with the area of the
      swapped pair it makes up the whole square. */
  lemma OrientationsSplitSquare(s: Point, e: Point, ss: Side, se: Side, r: real)
    requires r > 0.0 && InsideSide(s, ss, r) && InsideSide(e, se, r)
    requires Classify(s, e, r) != SameLine
    ensures 0.0 < WaterFrontArea(s, e, r) < 4.0 * r * r
    ensures WaterFrontArea(s, e, r) + WaterFrontArea(e, s, r) == 4.0 * r * r
  {
    ClassifyBySides(s, e, ss, se, r);
    ClassifyBySides(e, s, se, ss, r);
    CornerTableIsClockwiseWalk(s, e, ss, se, r);
    CornerTableIsClockwiseWalk(e, s, se, ss, r);
    ClockwiseLoopsSplitSquare(s, e, ss, se, r);
    ClockwiseLoopsSplitSquare(e, s, se, ss, r);
  }

  /** A pair of opposite corners differs by `2r` in both coordinates, where the source applies
      its vertical rule; the list is then a right triangle on the diagonal, whose area is half
      the square's, `2r^2`, whichever rule had been applied. */
  lemma DiagonalCornersHalveSquare(s: Point, e: Point, r: real)
    requires r > 0.0 && IsCorner(s, r) && e == Point(-s.x, -s.y)
    ensures Classify(s, e, r) == OppositeSides
    ensures WaterFrontArea(s, e, r) == 2.0 * r * r
  {
    var tr, br, bl, tl := Point(r, r), Point(r, -r), Point(-r, -r), Point(-r, r);
    if s == tr {
      DiagonalHalves(tr, bl, bl, tl, r);
    } else if s == br {
      DiagonalHalves(br, tl, tr, br, r);
    } else if s == tl {
      DiagonalHalves(tl, br, bl, tl, r);
    } else {
      DiagonalHalves(bl, tr, tr, br, r);
    }
  }

  /** The closing list of one diagonal pair, with the two corners the table appends for it. */
  lemma DiagonalHalves(s: Point, e: Point, c0: Point, c1: Point, r: real)
    requires r > 0.0 && IsCorner(s, r) && e == Point(-s.x, -s.y)
    requires OppositeCorners(s, e, r) == [c0, c1]
    requires Cross(s, e) + Cross(e, c0) + Cross(c0, c1) + Cross(c1, s) == -4.0 * r * r
    ensures Classify(s, e, r) == OppositeSides
    ensures WaterFrontArea(s, e, r) == 2.0 * r * r
  {
    assert WaterFrontPoints(s, e, r).value == [s, e, c0, c1, s];
    QuadrilateralLoop(s, e, c0, c1);
  }
}
