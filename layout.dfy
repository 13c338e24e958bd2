/** `PDFLayoutComposer`: rebuilds a grid of cells from the ruling lines of a page. Lines are split
    into horizontal and vertical ones, clustered (outside this model), each cluster merged into
    one coordinate, and the cells laid between consecutive coordinates. */
module Layout {
  import opened Outcomes
  import opened Geometry
  import opened Lines
  import opened Sorting
  import opened Seqs
  import opened Primitives

  const VJoinTolerance: real := 3.0
  const HJoinTolerance: real := 3.0
  const MinLineLength: real := 3.0

  /** `LTLine(linewidth, p0, p1)`: its bounding box spans the two points. */
  function LineBetween(linewidth: real, p0: Point, p1: Point): (r: Primitive)
    ensures r.PLine? && r.style == PlainStyle(linewidth) && r.box.Normal()
  {
    PLine(Box(Min(p0.x, p1.x), Min(p0.y, p1.y), Max(p0.x, p1.x), Max(p0.y, p1.y)), PlainStyle(linewidth))
  }

  function Min(a: real, b: real): real {
    if a <= b then a else b
  }

  /** `_decompose_rectangle`: the bottom, left, right and top sides of a rect, in that order,
      each a line of the rect's width. */
  function DecomposeRectangle(b: Box, linewidth: real): (r: seq<Primitive>)
    requires b.Normal()
    ensures |r| == 4
    ensures forall k :: 0 <= k < 4 ==> r[k].PLine? && r[k].style == PlainStyle(linewidth)
    ensures r[0].box == Box(b.x0, b.y0, b.x1, b.y0)
    ensures r[1].box == Box(b.x0, b.y0, b.x0, b.y1)
    ensures r[2].box == Box(b.x1, b.y0, b.x1, b.y1)
    ensures r[3].box == Box(b.x0, b.y1, b.x1, b.y1)
  {
    [LineBetween(linewidth, Point(b.x0, b.y0), Point(b.x1, b.y0)),
     LineBetween(linewidth, Point(b.x0, b.y0), Point(b.x0, b.y1)),
     LineBetween(linewidth, Point(b.x1, b.y0), Point(b.x1, b.y1)),
     LineBetween(linewidth, Point(b.x0, b.y1), Point(b.x1, b.y1))]
  }

  /** A thin, long enough line lying flat. */
  predicate IsHorizontalLine(l: Primitive) {
    l.box.Height() < VJoinTolerance && l.box.Width() >= MinLineLength
  }

  /** A thin, long enough line standing up, tested only on lines that are not horizontal. */
  predicate IsVerticalLine(l: Primitive) {
    !IsHorizontalLine(l) && l.box.Width() < HJoinTolerance && l.box.Height() >= MinLineLength
  }

  predicate IsDropped(l: Primitive) {
    !IsHorizontalLine(l) && !IsVerticalLine(l)
  }

  /** `_group_lines`: the horizontal lines and the vertical lines, each in input order. */
  method GroupLines(lines: seq<Primitive>) returns (h: seq<Primitive>, v: seq<Primitive>)
    ensures h == Filter(lines, IsHorizontalLine)
    ensures v == Filter(lines, IsVerticalLine)
  {
    h, v := [], [];
    var i := 0;
    while i < |lines|
      invariant i <= |lines|
      invariant h == Filter(lines[..i], IsHorizontalLine)
      invariant v == Filter(lines[..i], IsVerticalLine)
    {
      var line := lines[i];
      assert lines[..i + 1][..i] == lines[..i];
      if line.box.Height() < VJoinTolerance && line.box.Width() >= MinLineLength {
        h := h + [line];
      } else if line.box.Width() < HJoinTolerance && line.box.Height() >= MinLineLength {
        v := v + [line];
      }
      i := i + 1;
    }
    assert lines[..i] == lines;
  }

  /** No line is both horizontal and vertical, even without the `elif`: a horizontal line is at
      least `MinLineLength` wide and a vertical one narrower than `HJoinTolerance`. */
  lemma GroupsDisjoint(l: Primitive)
    ensures !(l.box.Height() < VJoinTolerance && l.box.Width() >= MinLineLength &&
              l.box.Width() < HJoinTolerance && l.box.Height() >= MinLineLength)
  {
  }

  /** Every line is horizontal, vertical or dropped, and exactly one of them. */
  lemma {:induction false} GroupsPartition(lines: seq<Primitive>)
    ensures |Filter(lines, IsHorizontalLine)| + |Filter(lines, IsVerticalLine)| + |Filter(lines, IsDropped)| == |lines|
    decreases |lines|
  {
    if |lines| > 0 {
      GroupsPartition(lines[..|lines| - 1]);
    }
  }

  /** The coordinate axis `_merge_cluster` reads: `axis=0` takes `x0` and `x1`, `axis=1` takes
      `y0` and `y1`. */
  datatype Axis = XAxis | YAxis

  function Ends(l: Primitive, axis: Axis): seq<real> {
    if axis == XAxis then [l.box.x0, l.box.x1] else [l.box.y0, l.box.y1]
  }

  /** Both end coordinates of every line of the cluster, in order. */
  function Coords(cluster: seq<Primitive>, axis: Axis): (r: seq<real>)
    ensures |r| == 2 * |cluster|
    decreases |cluster|
  {
    if |cluster| == 0 then [] else Coords(cluster[..|cluster| - 1], axis) + Ends(cluster[|cluster| - 1], axis)
  }

  /** `_merge_cluster`: the mean of all end coordinates; an empty cluster divides by zero. */
  method MergeCluster(cluster: seq<Primitive>, axis: Axis) returns (r: Result<real>)
    ensures |cluster| == 0 ==> r == Err(ZeroDivisionError)
    ensures |cluster| > 0 ==> r == Ok(Mean(Coords(cluster, axis)))
  {
    var coord: seq<real> := [];
    var i := 0;
    while i < |cluster|
      invariant i <= |cluster|
      invariant coord == Coords(cluster[..i], axis)
    {
      assert cluster[..i + 1][..i] == cluster[..i];
      coord := coord + Ends(cluster[i], axis);
      i := i + 1;
    }
    assert cluster[..i] == cluster;
    if |coord| == 0 {
      return Err(ZeroDivisionError);
    }
    r := Ok(SumReal(coord) / (|coord| as real));
  }

  lemma {:induction false} CoordsBounds(cluster: seq<Primitive>, axis: Axis, lo: real, hi: real)
    requires forall k :: 0 <= k < |cluster| ==> forall e :: e in Ends(cluster[k], axis) ==> lo <= e <= hi
    ensures forall t :: 0 <= t < |Coords(cluster, axis)| ==> lo <= Coords(cluster, axis)[t] <= hi
    decreases |cluster|
  {
    if |cluster| > 0 {
      CoordsBounds(cluster[..|cluster| - 1], axis, lo, hi);
      var init := Coords(cluster[..|cluster| - 1], axis);
      var last := Ends(cluster[|cluster| - 1], axis);
      forall t | 0 <= t < |init + last|
        ensures lo <= (init + last)[t] <= hi
      {
        if t >= |init| {
          assert (init + last)[t] in last;
        }
      }
    }
  }

  /** The merged coordinate of a cluster lies between the smallest and the largest end
      coordinate of its lines. */
  lemma MergeBetween(cluster: seq<Primitive>, axis: Axis, lo: real, hi: real)
    requires |cluster| > 0
    requires forall k :: 0 <= k < |cluster| ==> forall e :: e in Ends(cluster[k], axis) ==> lo <= e <= hi
    ensures lo <= Mean(Coords(cluster, axis)) <= hi
  {
    CoordsBounds(cluster, axis, lo, hi);
    MeanBetween(Coords(cluster, axis), lo, hi);
  }

  /** The cells of `_compose_bbox`, as `LTRect(1, bbox)`. */
  function Cell(b: Box): Primitive {
    PRect(b, PlainStyle(1.0))
  }

  /** `len(range(n - 1))`: the number of gaps between `n` coordinates. */
  function Gaps(n: nat): nat {
    if n > 0 then n - 1 else 0
  }

  /** The cell between vertical coordinates `i`, `i + 1` and horizontal coordinates `j`, `j + 1`. */
  function CellAt(v: seq<real>, h: seq<real>, i: nat, j: nat): Primitive
    requires i + 1 < |v| && j + 1 < |h|
  {
    Cell(Box(v[i], h[j], v[i + 1], h[j + 1]))
  }

  function Column(v: seq<real>, h: seq<real>, i: nat): (r: seq<Primitive>)
    requires i + 1 < |v|
    ensures |r| == Gaps(|h|)
    ensures forall j :: 0 <= j < |r| ==> r[j] == CellAt(v, h, i, j)
  {
    seq(Gaps(|h|), j requires 0 <= j < Gaps(|h|) => CellAt(v, h, i, j))
  }

  /** The cells of the first `i` columns, column by column. */
  function GridUpTo(v: seq<real>, h: seq<real>, i: nat): seq<Primitive>
    requires i <= Gaps(|v|)
  {
    if i == 0 then [] else GridUpTo(v, h, i - 1) + Column(v, h, i - 1)
  }

  function Grid(v: seq<real>, h: seq<real>): seq<Primitive> {
    GridUpTo(v, h, Gaps(|v|))
  }

  /** `max(nv - 1, 0) * max(nh - 1, 0)` cells. */
  lemma {:induction false} GridSize(v: seq<real>, h: seq<real>, i: nat)
    requires i <= Gaps(|v|)
    ensures |GridUpTo(v, h, i)| == i * Gaps(|h|)
  {
    if i > 0 {
      GridSize(v, h, i - 1);
    }
  }

  /** Cell `(i, j)` sits at position `i * (nh - 1) + j`: vertical index first, then horizontal. */
  lemma {:induction false} GridAt(v: seq<real>, h: seq<real>, n: nat, i: nat, j: nat)
    requires n <= Gaps(|v|) && i < n && j < Gaps(|h|)
    ensures i * Gaps(|h|) + j < |GridUpTo(v, h, n)|
    ensures GridUpTo(v, h, n)[i * Gaps(|h|) + j] == CellAt(v, h, i, j)
  {
    GridSize(v, h, n - 1);
    var pre := GridUpTo(v, h, n - 1);
    if i == n - 1 {
      assert |pre| == i * Gaps(|h|);
    } else {
      GridAt(v, h, n - 1, i, j);
      assert (i + 1) * Gaps(|h|) <= (n - 1) * Gaps(|h|) by {
        MulMono(i + 1, n - 1, Gaps(|h|));
      }
    }
  }

  lemma MulMono(a: nat, b: nat, c: nat)
    requires a <= b
    ensures a * c <= b * c
  {
  }

  /** Sorted coordinates, `sorted(clusters.values())`. */
  function CoordKey(x: real): Key {
    Key(x, 0.0)
  }

  predicate Ascending(s: seq<real>) {
    forall i, j :: 0 <= i < j < |s| ==> s[i] <= s[j]
  }

  lemma SortedAscending(s: seq<real>)
    ensures Ascending(SortBy(s, CoordKey))
  {
    var r := SortBy(s, CoordKey);
    forall i, j | 0 <= i < j < |r|
      ensures r[i] <= r[j]
    {
      assert KeyLe(CoordKey(r[i]), CoordKey(r[j]));
    }
  }

  /** On sorted coordinates every cell is a proper box, and neighbouring cells share their
      edges: a cell's right side is the left side of the cell after it in the same row, and its
      top side the bottom side of the cell above it. */
  lemma CellsTile(v: seq<real>, h: seq<real>, i: nat, j: nat)
    requires Ascending(v) && Ascending(h) && i + 1 < |v| && j + 1 < |h|
    ensures CellAt(v, h, i, j).box.Normal()
    ensures i + 2 < |v| ==> CellAt(v, h, i, j).box.x1 == CellAt(v, h, i + 1, j).box.x0
    ensures j + 2 < |h| ==> CellAt(v, h, i, j).box.y1 == CellAt(v, h, i, j + 1).box.y0
  {
  }

  /** `_compose_bbox`: the merged vertical and horizontal coordinates sorted, then one cell per
      pair of consecutive vertical and consecutive horizontal coordinates. */
  method ComposeBBox(vMerged: seq<real>, hMerged: seq<real>) returns (cells: seq<Primitive>)
    ensures cells == Grid(SortBy(vMerged, CoordKey), SortBy(hMerged, CoordKey))
  {
    var h := SortBy(hMerged, CoordKey);
    var v := SortBy(vMerged, CoordKey);
    cells := [];
    var i := 0;
    while i < Gaps(|v|)
      invariant i <= Gaps(|v|)
      invariant cells == GridUpTo(v, h, i)
    {
      var col := ColumnCells(v, h, i);
      cells := cells + col;
      i := i + 1;
    }
  }

  /** The inner loop: the cells of column `i`, from the bottom gap up. */
  method ColumnCells(v: seq<real>, h: seq<real>, i: nat) returns (col: seq<Primitive>)
    requires i + 1 < |v|
    ensures col == Column(v, h, i)
  {
    col := [];
    var j := 0;
    while j < Gaps(|h|)
      invariant j <= Gaps(|h|)
      invariant col == Column(v, h, i)[..j]
    {
      assert Column(v, h, i)[..j + 1] == Column(v, h, i)[..j] + [CellAt(v, h, i, j)];
      col := col + [Cell(Box(v[i], h[j], v[i + 1], h[j + 1]))];
      j := j + 1;
    }
    assert Column(v, h, i)[..j] == Column(v, h, i);
  }
}
