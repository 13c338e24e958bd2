/** Points, boxes and the segment-intersection helpers of the layout utilities.
    Coordinates are reals; a box's corners are taken after the one-decimal rounding of the
    layout utilities, and every box the layout library hands over is normalised. */
module Geometry {
  import opened Outcomes

  datatype Point = Point(x: real, y: real)

  /** A bounding box: lower-left corner (x0, y0), upper-right corner (x1, y1). */
  datatype Box = Box(x0: real, y0: real, x1: real, y1: real) {
    predicate Normal() {
      x0 <= x1 && y0 <= y1
    }

    function Width(): real {
      x1 - x0
    }

    function Height(): real {
      y1 - y0
    }

    function Area(): real {
      Width() * Height()
    }

    /** `center`: the point half-way across and half-way up. */
    function Center(): (c: Point)
      ensures Normal() ==> Contains(c)
      ensures c.x - x0 == x1 - c.x && c.y - y0 == y1 - c.y
    {
      Point(x0 + Width() / 2.0, y0 + Height() / 2.0)
    }

    /** `point_in_bbox`, taken as closed containment. */
    predicate Contains(p: Point) {
      x0 <= p.x <= x1 && y0 <= p.y <= y1
    }
  }

  /** The square of the Euclidean distance `math.dist(p, q)`. */
  function DistSq(p: Point, q: Point): (d: real)
    ensures d >= 0.0
  {
    (p.x - q.x) * (p.x - q.x) + (p.y - q.y) * (p.y - q.y)
  }

  lemma DistSqSymmetric(p: Point, q: Point)
    ensures DistSq(p, q) == DistSq(q, p)
  {
  }

  /** `math.dist(..) <= tol` for a squared distance `dsq`: since the square root is monotone,
      the distance is at most `tol` exactly when `tol` is not negative and `dsq <= tol * tol`. */
  predicate Near(dsq: real, tol: real) {
    tol >= 0.0 && dsq <= tol * tol
  }

  lemma NearSelf(p: Point, tol: real)
    requires tol >= 0.0
    ensures Near(DistSq(p, p), tol)
  {
  }

  /** `bbox_overlaps(b1, b2)`: the nested test on b1's upper-right corner only chooses a log
      message, so both of its branches return true. */
  function BBoxOverlaps(b1: Box, b2: Box): (r: bool)
  {
    if b1.x0 >= b2.x0 && b1.y0 >= b2.y0 && b1.x0 <= b2.x1 && b1.y0 <= b2.y1 then
      if b1.x1 <= b2.x1 && b1.y1 <= b2.y1 then true else true
    else false
  }

  /** The test is exactly "b1's lower-left corner lies in b2". */
  lemma BBoxOverlapsCorner(b1: Box, b2: Box)
    ensures BBoxOverlaps(b1, b2) <==> b2.Contains(Point(b1.x0, b1.y0))
  {
  }

  /** b1's upper-right corner never changes the answer. */
  lemma BBoxOverlapsIgnoresTopRight(b1: Box, b2: Box, x1: real, y1: real)
    ensures BBoxOverlaps(b1, b2) == BBoxOverlaps(Box(b1.x0, b1.y0, x1, y1), b2)
  {
  }

  function Denominator(p1: Point, p2: Point, p3: Point, p4: Point): real {
    (p4.y - p3.y) * (p2.x - p1.x) - (p4.x - p3.x) * (p2.y - p1.y)
  }

  /** The parameter of the crossing point along p1p2. */
  function ParamA(p1: Point, p2: Point, p3: Point, p4: Point): real
    requires Denominator(p1, p2, p3, p4) != 0.0
  {
    ((p4.x - p3.x) * (p1.y - p3.y) - (p4.y - p3.y) * (p1.x - p3.x)) / Denominator(p1, p2, p3, p4)
  }

  /** The parameter of the crossing point along p3p4. */
  function ParamB(p1: Point, p2: Point, p3: Point, p4: Point): real
    requires Denominator(p1, p2, p3, p4) != 0.0
  {
    ((p2.x - p1.x) * (p1.y - p3.y) - (p2.y - p1.y) * (p1.x - p3.x)) / Denominator(p1, p2, p3, p4)
  }

  /** The point at parameter t along p1p2. */
  function OnSegmentAt(p1: Point, p2: Point, t: real): Point {
    Point(p1.x + t * (p2.x - p1.x), p1.y + t * (p2.y - p1.y))
  }

  /** `_intersect(p1, p2, p3, p4)`: the crossing point of segments p1p2 and p3p4, if any.
      It is None for a zero denominator and for ua or ub outside [0, 1]; otherwise the point
      is p1 + ua (p2 - p1) with ua in [0, 1], so it lies on p1p2. */
  function Intersect(p1: Point, p2: Point, p3: Point, p4: Point): (r: Option<Point>)
    ensures Denominator(p1, p2, p3, p4) == 0.0 ==> r.None?
    ensures r.Some? ==> exists ua: real {:trigger OnSegmentAt(p1, p2, ua)} ::
      0.0 <= ua <= 1.0 && r.value == OnSegmentAt(p1, p2, ua)
  {
    if Denominator(p1, p2, p3, p4) == 0.0 then None
    else
      var ua := ParamA(p1, p2, p3, p4);
      if ua < 0.0 || ua > 1.0 then None
      else
        var ub := ParamB(p1, p2, p3, p4);
        if ub < 0.0 || ub > 1.0 then None
        else Some(OnSegmentAt(p1, p2, ua))
  }

  /** With a non-zero denominator, `_intersect` is the point at ua exactly when both ua and
      ub lie in [0, 1], and None otherwise. */
  lemma IntersectInRange(p1: Point, p2: Point, p3: Point, p4: Point)
    requires Denominator(p1, p2, p3, p4) != 0.0
    ensures var ua, ub := ParamA(p1, p2, p3, p4), ParamB(p1, p2, p3, p4);
      Intersect(p1, p2, p3, p4) == if 0.0 <= ua <= 1.0 && 0.0 <= ub <= 1.0 then Some(OnSegmentAt(p1, p2, ua)) else None
  {
  }

  /** A horizontal segment from (a, y) to (b, y) and a vertical one from (x, c) to (x, d) that
      cross meet at (x, y). */
  lemma {:induction false} IntersectHorizontalVertical(a: real, b: real, y: real, x: real, c: real, d: real)
    requires a != b && c != d
    requires (a <= x <= b || b <= x <= a) && (c <= y <= d || d <= y <= c)
    ensures Intersect(Point(a, y), Point(b, y), Point(x, c), Point(x, d)) == Some(Point(x, y))
  {
    var p1, p2, p3, p4 := Point(a, y), Point(b, y), Point(x, c), Point(x, d);
    DenominatorHV(a, b, y, x, c, d);
    var ua := ParamA(p1, p2, p3, p4);
    ParamAHV(a, b, y, x, c, d);
    FractionInUnit(x - a, b - a);
    ParamBHV(a, b, y, x, c, d);
    FractionInUnit(y - c, d - c);
    Cancel(1.0, x - a, b - a);
    assert ua * (b - a) == x - a;
    assert OnSegmentAt(p1, p2, ua) == Point(x, y);
  }

  lemma DenominatorHV(a: real, b: real, y: real, x: real, c: real, d: real)
    requires a != b && c != d
    ensures Denominator(Point(a, y), Point(b, y), Point(x, c), Point(x, d)) == (d - c) * (b - a) != 0.0
  {
  }

  lemma ParamAHV(a: real, b: real, y: real, x: real, c: real, d: real)
    requires a != b && c != d
    ensures Denominator(Point(a, y), Point(b, y), Point(x, c), Point(x, d)) != 0.0
    ensures ParamA(Point(a, y), Point(b, y), Point(x, c), Point(x, d)) == (x - a) / (b - a)
  {
    DenominatorHV(a, b, y, x, c, d);
    var n := (x - x) * (y - c) - (d - c) * (a - x);
    assert n == (d - c) * (x - a);
    Cancel(d - c, x - a, b - a);
  }

  lemma ParamBHV(a: real, b: real, y: real, x: real, c: real, d: real)
    requires a != b && c != d
    ensures Denominator(Point(a, y), Point(b, y), Point(x, c), Point(x, d)) != 0.0
    ensures ParamB(Point(a, y), Point(b, y), Point(x, c), Point(x, d)) == (y - c) / (d - c)
  {
    DenominatorHV(a, b, y, x, c, d);
    var n := (b - a) * (y - c) - (y - y) * (a - x);
    assert n == (b - a) * (y - c);
    assert (d - c) * (b - a) == (b - a) * (d - c);
    Cancel(b - a, y - c, d - c);
  }

  /** (k n) / (k m) == n / m and (n / m) m == n. */
  lemma Cancel(k: real, n: real, m: real)
    requires k != 0.0 && m != 0.0
    ensures (k * n) / (k * m) == n / m
    ensures (n / m) * m == n
  {
  }

  /** n / m lies in [0, 1] when n lies between 0 and m. */
  lemma FractionInUnit(n: real, m: real)
    requires m != 0.0 && (0.0 <= n <= m || m <= n <= 0.0)
    ensures 0.0 <= n / m <= 1.0
  {
  }

  datatype Segment = Segment(p0: Point, p1: Point)

  /** `intersection(l1, l2)`: `_intersect` on the four end points, in order. Parallel segments
      give None, and a point found lies on `l1`. */
  function Intersection(l1: Segment, l2: Segment): (r: Option<Point>)
    ensures Denominator(l1.p0, l1.p1, l2.p0, l2.p1) == 0.0 ==> r.None?
    ensures r.Some? ==> exists ua: real {:trigger OnSegmentAt(l1.p0, l1.p1, ua)} ::
      0.0 <= ua <= 1.0 && r.value == OnSegmentAt(l1.p0, l1.p1, ua)
  {
    Intersect(l1.p0, l1.p1, l2.p0, l2.p1)
  }
}
