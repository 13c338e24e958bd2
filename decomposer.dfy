/** `PDFLTDecomposer`: turns the page's rects and lines into the segments the intersection finder
    works on. */
module Decomposer {
  import opened Geometry
  import opened Lines
  import opened Sorting
  import opened Seqs
  import opened Primitives

  /** The `fit` sort key `(y1, x0)`. */
  function FitKey(p: Primitive): Key {
    Key(p.box.y1, p.box.x0)
  }

  /** `_decompose_rect`: the left, right, bottom and top sides, each carrying the rect's style. */
  function RectSides(b: Box, st: Style): seq<Line> {
    [Line(Box(b.x0, b.y0, b.x0, b.y1), st),
     Line(Box(b.x1, b.y0, b.x1, b.y1), st),
     Line(Box(b.x0, b.y0, b.x1, b.y0), st),
     Line(Box(b.x0, b.y1, b.x1, b.y1), st)]
  }

  /** The sides of every rect, rect by rect in page order. */
  function RectSegments(comps: seq<Primitive>): seq<Line>
    decreases |comps|
  {
    if |comps| == 0 then []
    else
      var last := comps[|comps| - 1];
      RectSegments(comps[..|comps| - 1]) + (if last.PRect? then RectSides(last.box, last.style) else [])
  }

  /** One segment per standalone line, in page order. */
  function LineSegments(comps: seq<Primitive>): seq<Line>
    decreases |comps|
  {
    if |comps| == 0 then []
    else
      var last := comps[|comps| - 1];
      LineSegments(comps[..|comps| - 1]) + (if last.PLine? then [Line(last.box, last.style)] else [])
  }

  function Segments(comps: seq<Primitive>): seq<Line> {
    RectSegments(comps) + LineSegments(comps)
  }

  predicate IsRect(p: Primitive) {
    p.PRect?
  }

  predicate IsLine(p: Primitive) {
    p.PLine?
  }

  /** Each side of a rect lies on the rect's boundary and carries its style. The vertical sides
      are as long as the rect is tall and the horizontal ones as long as it is wide. */
  lemma RectSidesOnBoundary(b: Box, st: Style)
    requires b.Normal()
    ensures |RectSides(b, st)| == 4
    ensures forall l :: l in RectSides(b, st) ==> l.style == st && l.box.Normal()
    ensures forall l :: l in RectSides(b, st) ==> b.Contains(l.Start()) && b.Contains(l.End())
    ensures RectSides(b, st)[0].Orient() == Vertical && RectSides(b, st)[0].Length() == b.Height()
    ensures RectSides(b, st)[1].Orient() == Vertical && RectSides(b, st)[1].Length() == b.Height()
    ensures RectSides(b, st)[2].Length() == b.Width() && RectSides(b, st)[3].Length() == b.Width()
    ensures RectSides(b, st)[2].Orient() == Horizontal <==> b.Width() > 0.0
    ensures RectSides(b, st)[3].Orient() == Horizontal <==> b.Width() > 0.0
  {
  }

  /** Four segments per rect and one per line, before the length filter. */
  lemma {:induction false} SegmentsCount(comps: seq<Primitive>)
    ensures |Segments(comps)| == 4 * Count(comps, IsRect) + Count(comps, IsLine)
    decreases |comps|
  {
    if |comps| > 0 {
      SegmentsCount(comps[..|comps| - 1]);
    }
  }

  /** `l` is a side of the rect `p`, or `p` is the line `l`. */
  predicate FromPrimitive(p: Primitive, l: Line) {
    (p.PRect? && l in RectSides(p.box, p.style)) || (p.PLine? && l == Line(p.box, p.style))
  }

  /** Every segment is a side of some rect of the page or one of its lines. */
  lemma {:induction false} SegmentOrigin(comps: seq<Primitive>, l: Line)
    requires l in Segments(comps)
    ensures exists k :: 0 <= k < |comps| && FromPrimitive(comps[k], l)
    decreases |comps|
  {
    var n := |comps|;
    var init := comps[..n - 1];
    var last := comps[n - 1];
    if l in RectSegments(comps) {
      if l in RectSegments(init) {
        SegmentOrigin(init, l);
        var k :| 0 <= k < |init| && FromPrimitive(init[k], l);
        assert comps[k] == init[k];
      } else {
        assert FromPrimitive(comps[n - 1], l);
      }
    } else {
      assert l in LineSegments(comps);
      if l in LineSegments(init) {
        assert l in Segments(init);
        SegmentOrigin(init, l);
        var k :| 0 <= k < |init| && FromPrimitive(init[k], l);
        assert comps[k] == init[k];
      } else {
        assert FromPrimitive(comps[n - 1], l);
      }
    }
  }

  /** The length filter of `predict`. */
  function LongerThan(min: real): Line -> bool {
    (l: Line) => l.Length() > min
  }

  /** The loop over the page's objects collecting the sides of every rect. */
  method CollectRectSides(comps: seq<Primitive>) returns (all: seq<Line>)
    ensures all == RectSegments(comps)
  {
    all := [];
    var i := 0;
    while i < |comps|
      invariant 0 <= i <= |comps|
      invariant all == RectSegments(comps[..i])
    {
      assert comps[..i + 1][..i] == comps[..i];
      var c := comps[i];
      if c.PRect? {
        all := all + RectSides(c.box, c.style);
      }
      i := i + 1;
    }
    assert comps[..i] == comps;
  }

  /** The loop over the page's objects collecting every standalone line. */
  method CollectLines(comps: seq<Primitive>) returns (singles: seq<Line>)
    ensures singles == LineSegments(comps)
  {
    singles := [];
    var i := 0;
    while i < |comps|
      invariant 0 <= i <= |comps|
      invariant singles == LineSegments(comps[..i])
    {
      assert comps[..i + 1][..i] == comps[..i];
      var c := comps[i];
      if c.PLine? {
        singles := singles + [Line(c.box, c.style)];
      }
      i := i + 1;
    }
    assert comps[..i] == comps;
  }

  /** The loop keeping the segments longer than `min`, in order. */
  method KeepLonger(all: seq<Line>, min: real) returns (lines: seq<Line>)
    ensures lines == Filter(all, LongerThan(min))
    ensures forall i :: 0 <= i < |lines| ==> lines[i].Length() > min
  {
    lines := [];
    var i := 0;
    while i < |all|
      invariant 0 <= i <= |all|
      invariant lines == Filter(all[..i], LongerThan(min))
    {
      assert all[..i + 1][..i] == all[..i];
      if all[i].Length() > min {
        lines := lines + [all[i]];
      }
      i := i + 1;
    }
    assert all[..i] == all;
  }

  class PDFDecomposer {
    const minLineLength: real
    var components: seq<Primitive>

    constructor (minLineLength: real)
      ensures this.minLineLength == minLineLength && components == []
    {
      this.minLineLength := minLineLength;
      components := [];
    }

    /** `fit`: keeps the page's objects sorted by `(y1, x0)`. */
    method Fit(page: seq<Primitive>)
      modifies this
      ensures components == SortBy(page, FitKey)
    {
      components := SortBy(page, FitKey);
    }

    /** `predict`: the sides of every rect, then every standalone line, keeping those longer than
        the minimum line length, in that order. */
    method Predict() returns (lines: seq<Line>)
      ensures lines == Filter(Segments(components), LongerThan(minLineLength))
      ensures forall i :: 0 <= i < |lines| ==> lines[i].Length() > minLineLength
    {
      var all := CollectRectSides(components);
      var singles := CollectLines(components);
      lines := KeepLonger(all + singles, minLineLength);
    }
  }
}
