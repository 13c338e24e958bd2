/** Drawing styles, colours and the segment model `PDFLTLine`. */
module Lines {
  import opened Outcomes
  import opened Geometry

  /** A pdfminer colour: a tuple, a list, a single grey level, or absent. */
  datatype Color =
    | TupleColor(components: seq<real>)
    | ListColor(components: seq<real>)
    | GrayColor(level: real)
    | NoColor

  /** `PDFLTComponentStyle`, without the path and dash pattern, which are only carried along. */
  datatype Style = Style(linewidth: real, stroke: bool, fill: bool, evenodd: bool,
                         strokingColor: Color, nonStrokingColor: Color)

  /** The style pdfminer gives an `LTRect` or `LTLine` built from a line width alone: not
      stroked, not filled, no colours. */
  function PlainStyle(linewidth: real): Style {
    Style(linewidth, false, false, false, NoColor, NoColor)
  }

  datatype Orientation = Horizontal | Vertical

  /** A `PDFLTLine`: its bounding box and style. Its segment runs between the box's lower-left
      and upper-right corners. */
  datatype Line = Line(box: Box, style: Style) {
    function Start(): Point {
      Point(box.x0, box.y0)
    }

    function End(): Point {
      Point(box.x1, box.y1)
    }

    /** Horizontal exactly when the box is strictly wider than tall. */
    function Orient(): Orientation {
      if box.Width() > box.Height() then Horizontal else Vertical
    }

    function Length(): real {
      if Orient() == Horizontal then box.Width() else box.Height()
    }
  }

  function Max(a: real, b: real): real {
    if a >= b then a else b
  }

  function Clamp01(t: real): (r: real)
    ensures 0.0 <= r <= 1.0
    ensures 0.0 <= t <= 1.0 ==> r == t
  {
    if t < 0.0 then 0.0 else if t > 1.0 then 1.0 else t
  }

  /** `orientation` and `length`: a line is horizontal iff its width exceeds its height, and its
      length is the larger of the two. */
  lemma LengthIsLargerSide(l: Line)
    ensures l.Orient() == Horizontal <==> l.box.Width() > l.box.Height()
    ensures l.Length() == Max(l.box.Width(), l.box.Height())
  {
  }

  /** The projection parameter of `p` onto the carrier of the segment, before clamping. */
  function Projection(l: Line, p: Point): real
    requires DistSq(l.Start(), l.End()) != 0.0
  {
    Dot(l.Start(), p, l.End()) / DistSq(l.Start(), l.End())
  }

  /** The dot product of p - a and b - a. */
  function Dot(a: Point, p: Point, b: Point): real {
    (p.x - a.x) * (b.x - a.x) + (p.y - a.y) * (b.y - a.y)
  }

  /** The square of `min_distance(p)`: the distance from `p` to the closest point of the segment;
      a segment of length zero measures to its start. */
  function MinDistanceSq(l: Line, p: Point): (d: real)
    ensures d >= 0.0
    ensures exists t {:trigger OnSegmentAt(l.Start(), l.End(), t)} ::
      0.0 <= t <= 1.0 && d == DistSq(p, OnSegmentAt(l.Start(), l.End(), t))
  {
    if DistSq(l.Start(), l.End()) == 0.0 then
      assert OnSegmentAt(l.Start(), l.End(), 0.0) == l.Start();
      DistSq(p, l.Start())
    else
      DistSq(p, OnSegmentAt(l.Start(), l.End(), Clamp01(Projection(l, p))))
  }

  lemma ScaledLength(ax: real, ay: real, ex: real, ey: real, s: real)
    ensures ((ax + s * (ex - ax)) - ax) * ((ax + s * (ex - ax)) - ax) + ((ay + s * (ey - ay)) - ay) * ((ay + s * (ey - ay)) - ay)
      == s * s * ((ax - ex) * (ax - ex) + (ay - ey) * (ay - ey))
  {
  }

  lemma MulZero(a: real, b: real)
    requires b == 0.0
    ensures a * b == 0.0
  {
  }

  lemma DivMul(n: real, m: real)
    requires m != 0.0
    ensures (n / m) * m == n
  {
  }

  /** A point of the segment is at distance zero from it. */
  lemma {:induction false} MinDistanceOnSegment(l: Line, s: real)
    requires 0.0 <= s <= 1.0
    ensures MinDistanceSq(l, OnSegmentAt(l.Start(), l.End(), s)) == 0.0
  {
    var a, b := l.Start(), l.End();
    var p := OnSegmentAt(a, b, s);
    var dx, dy := b.x - a.x, b.y - a.y;
    var len := DistSq(a, b);
    if len == 0.0 {
      ScaledLength(a.x, a.y, b.x, b.y, s);
      MulZero(s * s, (a.x - b.x) * (a.x - b.x) + (a.y - b.y) * (a.y - b.y));
    } else {
      var g := (p.x - a.x) * dx + (p.y - a.y) * dy;
      assert g == s * len;
      assert Projection(l, p) == s by {
        DivMul(s, len);
        assert (s * len) / len == s;
      }
      assert OnSegmentAt(a, b, Clamp01(s)) == p;
    }
  }

  /** The result of `intersect_param`: the point, both parameters and their spread. */
  datatype LineIntersect = LineIntersect(point: Point, t1: real, t2: real, spread: real)

  function Cross(l0: Line, l1: Line): real {
    var dx1, dy1 := l0.End().x - l0.Start().x, l0.End().y - l0.Start().y;
    var dx2, dy2 := l1.End().x - l1.Start().x, l1.End().y - l1.Start().y;
    dx1 * dy2 - dy1 * dx2
  }

  function Abs(x: real): real {
    if x < 0.0 then -x else x
  }

  function ParamT1(l0: Line, l1: Line): real
    requires Cross(l0, l1) != 0.0
  {
    var wx, wy := l1.Start().x - l0.Start().x, l1.Start().y - l0.Start().y;
    var dx2, dy2 := l1.End().x - l1.Start().x, l1.End().y - l1.Start().y;
    (wx * dy2 - wy * dx2) / Cross(l0, l1)
  }

  function ParamT2(l0: Line, l1: Line): real
    requires Cross(l0, l1) != 0.0
  {
    var wx, wy := l1.Start().x - l0.Start().x, l1.Start().y - l0.Start().y;
    var dx1, dy1 := l0.End().x - l0.Start().x, l0.End().y - l0.Start().y;
    (wx * dy1 - wy * dx1) / Cross(l0, l1)
  }

  /** `l0.intersect_param(l1, position_tol, parallel_tol)`.
      None when |cross| < parallel_tol; a division by a zero cross product (possible only when
      parallel_tol <= 0) raises. Otherwise the carriers' crossing point, kept when it lies inside
      both segments or within position_tol of both. */
  function IntersectParam(l0: Line, l1: Line, positionTol: real, parallelTol: real): (r: Result<Option<LineIntersect>>)
    ensures Abs(Cross(l0, l1)) < parallelTol ==> r == Ok(None)
    ensures r.Err? <==> Cross(l0, l1) == 0.0 && !(0.0 < parallelTol)
    ensures r.Ok? && r.value.Some? ==>
      var li := r.value.value;
      li.point == OnSegmentAt(l0.Start(), l0.End(), li.t1) &&
      li.spread == Abs(li.t1 - li.t2) &&
      ((0.0 <= li.t1 <= 1.0 && 0.0 <= li.t2 <= 1.0) ||
       (Near(MinDistanceSq(l0, li.point), positionTol) && Near(MinDistanceSq(l1, li.point), positionTol)))
  {
    var cross := Cross(l0, l1);
    if Abs(cross) < parallelTol then Ok(None)
    else if cross == 0.0 then Err(ZeroDivisionError)
    else
      var t1, t2 := ParamT1(l0, l1), ParamT2(l0, l1);
      var pt := OnSegmentAt(l0.Start(), l0.End(), t1);
      if (0.0 <= t1 <= 1.0 && 0.0 <= t2 <= 1.0) ||
         (Near(MinDistanceSq(l0, pt), positionTol) && Near(MinDistanceSq(l1, pt), positionTol))
      then Ok(Some(LineIntersect(pt, t1, t2, Abs(Max(t1, t2) - (if t1 <= t2 then t1 else t2)))))
      else Ok(None)
  }

  /** Two segments whose carriers cross inside both are always reported. */
  lemma IntersectParamInside(l0: Line, l1: Line, positionTol: real, parallelTol: real)
    requires Abs(Cross(l0, l1)) >= parallelTol && Cross(l0, l1) != 0.0
    requires 0.0 <= ParamT1(l0, l1) <= 1.0 && 0.0 <= ParamT2(l0, l1) <= 1.0
    ensures IntersectParam(l0, l1, positionTol, parallelTol).Ok?
    ensures IntersectParam(l0, l1, positionTol, parallelTol).value.Some?
  {
  }

  /** The reported point is also the point at t2 along the second segment. */
  lemma {:induction false} IntersectParamOnSecond(l0: Line, l1: Line, positionTol: real, parallelTol: real)
    requires IntersectParam(l0, l1, positionTol, parallelTol).Ok?
    requires IntersectParam(l0, l1, positionTol, parallelTol).value.Some?
    ensures var li := IntersectParam(l0, l1, positionTol, parallelTol).value.value;
      li.point == OnSegmentAt(l1.Start(), l1.End(), li.t2)
  {
    var cross := Cross(l0, l1);
    assert cross != 0.0;
    var li := IntersectParam(l0, l1, positionTol, parallelTol).value.value;
    assert li.t1 == ParamT1(l0, l1) && li.t2 == ParamT2(l0, l1);
    ParamsMeet(l0, l1);
  }

  /** Where the carriers cross, the point at t1 along the first is the point at t2 along the
      second. */
  lemma ParamsMeet(l0: Line, l1: Line)
    requires Cross(l0, l1) != 0.0
    ensures OnSegmentAt(l0.Start(), l0.End(), ParamT1(l0, l1)) == OnSegmentAt(l1.Start(), l1.End(), ParamT2(l0, l1))
  {
    var cross := Cross(l0, l1);
    var dx1, dy1 := l0.End().x - l0.Start().x, l0.End().y - l0.Start().y;
    var dx2, dy2 := l1.End().x - l1.Start().x, l1.End().y - l1.Start().y;
    var wx, wy := l1.Start().x - l0.Start().x, l1.Start().y - l0.Start().y;
    var t1, t2 := ParamT1(l0, l1), ParamT2(l0, l1);
    DivMul(wx * dy2 - wy * dx2, cross);
    DivMul(wx * dy1 - wy * dx1, cross);
    CramerX(dx1, dy1, dx2, dy2, wx, wy, t1, t2, cross);
    CramerY(dx1, dy1, dx2, dy2, wx, wy, t1, t2, cross);
  }

  lemma CramerX(dx1: real, dy1: real, dx2: real, dy2: real, wx: real, wy: real, t1: real, t2: real, cross: real)
    requires cross == dx1 * dy2 - dy1 * dx2 && cross != 0.0
    requires t1 * cross == wx * dy2 - wy * dx2 && t2 * cross == wx * dy1 - wy * dx1
    ensures t1 * dx1 == wx + t2 * dx2
  {
    assert (t1 * dx1 - t2 * dx2) * cross == wx * cross;
    MulCancel(t1 * dx1 - t2 * dx2, wx, cross);
  }

  lemma CramerY(dx1: real, dy1: real, dx2: real, dy2: real, wx: real, wy: real, t1: real, t2: real, cross: real)
    requires cross == dx1 * dy2 - dy1 * dx2 && cross != 0.0
    requires t1 * cross == wx * dy2 - wy * dx2 && t2 * cross == wx * dy1 - wy * dx1
    ensures t1 * dy1 == wy + t2 * dy2
  {
    assert (t1 * dy1 - t2 * dy2) * cross == wy * cross;
    MulCancel(t1 * dy1 - t2 * dy2, wy, cross);
  }

  lemma MulCancel(a: real, b: real, c: real)
    requires c != 0.0 && a * c == b * c
    ensures a == b
  {
    assert (a - b) * c == 0.0;
  }

  /** `is_close`: both start points and both end points within `tol`. */
  predicate IsClose(l0: Line, l1: Line, tol: real) {
    Near(DistSq(l0.Start(), l1.Start()), tol) && Near(DistSq(l0.End(), l1.End()), tol)
  }

  lemma IsCloseSymmetric(l0: Line, l1: Line, tol: real)
    ensures IsClose(l0, l1, tol) == IsClose(l1, l0, tol)
  {
    DistSqSymmetric(l0.Start(), l1.Start());
    DistSqSymmetric(l0.End(), l1.End());
  }
}
