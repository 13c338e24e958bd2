/** The page set-up of the preventive matcher: the per-page tolerances and the grouping of a
    page's cells into rows by vertical overlap, each row then ordered left to right. */
module PreventiveRows {
  import opened Outcomes
  import opened Seqs
  import opened Geometry
  import opened Lines
  import opened Sorting
  import opened Runs
  import opened Components

  // ----- Parameters -----

  /** `PDFLTParams`: the five tolerances its constructor takes. */
  datatype Params = Params(positionTol: real, directionTol: real, minRectWidth: real,
                           minRectHeight: real, minLineLength: real)

  /** The constructor's defaults. */
  const DefaultParams := Params(0.0, 0.000001, 6.0, 6.0, 6.0)

  /** The keyword arguments the constructor accepts. */
  const Accepted: seq<string> :=
    ["position_tol", "direction_tol", "min_rect_width", "min_rect_height", "min_line_length"]

  /** One keyword argument; any name the constructor does not declare raises `TypeError`. */
  function SetKeyword(p: Params, name: string, v: real): (r: Result<Params>)
    ensures r.Err? <==> name !in Accepted
    ensures r.Err? ==> r.error == TypeError
  {
    if name == "position_tol" then Ok(p.(positionTol := v))
    else if name == "direction_tol" then Ok(p.(directionTol := v))
    else if name == "min_rect_width" then Ok(p.(minRectWidth := v))
    else if name == "min_rect_height" then Ok(p.(minRectHeight := v))
    else if name == "min_line_length" then Ok(p.(minLineLength := v))
    else Err(TypeError)
  }

  /** `PDFLTParams(**kwargs)`: the defaults overridden by the given keywords. */
  function NewParams(kwargs: seq<(string, real)>): (r: Result<Params>)
    decreases |kwargs|
  {
    if |kwargs| == 0 then Ok(DefaultParams)
    else
      var p :- NewParams(kwargs[..|kwargs| - 1]);
      SetKeyword(p, kwargs[|kwargs| - 1].0, kwargs[|kwargs| - 1].1)
  }

  /** The constructor fails exactly when one of the keywords is not one it declares. */
  lemma {:induction false} NewParamsFails(kwargs: seq<(string, real)>)
    ensures NewParams(kwargs).Err? <==> exists i :: 0 <= i < |kwargs| && kwargs[i].0 !in Accepted
    ensures NewParams(kwargs).Err? ==> NewParams(kwargs).error == TypeError
    decreases |kwargs|
  {
    if |kwargs| > 0 {
      var init := kwargs[..|kwargs| - 1];
      NewParamsFails(init);
      if exists i :: 0 <= i < |init| && init[i].0 !in Accepted {
        var i :| 0 <= i < |init| && init[i].0 !in Accepted;
        assert kwargs[i] == init[i];
      }
      if exists i :: 0 <= i < |kwargs| && kwargs[i].0 !in Accepted {
        var i :| 0 <= i < |kwargs| && kwargs[i].0 !in Accepted;
        if i < |init| {
          assert init[i] == kwargs[i];
        }
      }
    }
  }

  /** The position tolerance of a page: 3.0 on page 1, 5.0 on later pages, and on page 11
      40.0 when an element of the page lies below or left of the origin. */
  function PositionTol(pageid: int, underflow: bool): real {
    if pageid > 1 && pageid != 11 then 5.0
    else if pageid != 11 then 3.0
    else if underflow then 40.0
    else 5.0
  }

  /** The minimum rect and line sizes: 6.0 after the first page, none on it. */
  function MinSize(pageid: int): real {
    if pageid > 1 then 6.0 else 0.0
  }

  /** The keyword arguments the page set-up passes, `vertical_overlap` among them. */
  function PageKwargs(pageid: int, underflow: bool): seq<(string, real)> {
    [("position_tol", PositionTol(pageid, underflow)), ("min_rect_height", MinSize(pageid)),
     ("min_rect_width", MinSize(pageid)), ("min_line_length", MinSize(pageid)),
     ("vertical_overlap", 0.55)]
  }

  /** The parameters as the page set-up constructs them; the constructor can only fail with
      `TypeError`. */
  function PageParamsAsWritten(pageid: int, underflow: bool): (r: Result<Params>)
    ensures r.Err? ==> r.error == TypeError
  {
    NewParamsFails(PageKwargs(pageid, underflow));
    NewParams(PageKwargs(pageid, underflow))
  }

  /** The constructor declares no `vertical_overlap`, so constructing the parameters raises
      `TypeError` on every page, whatever its number. */
  lemma AsWrittenRejectsOverlap(pageid: int, underflow: bool)
    ensures PageParamsAsWritten(pageid, underflow) == Err(TypeError)
  {
    var kw := PageKwargs(pageid, underflow);
    assert kw[4].0 == "vertical_overlap";
    assert "vertical_overlap" !in Accepted;
    NewParamsFails(kw);
  }

  /** The overlap a cell needs with a row to join it. */
  const VerticalOverlap: real := 0.55

  /** The tolerances of a page with the overlap threshold carried beside them. */
  datatype PageParams = PageParams(params: Params, verticalOverlap: real)

  /** The page set-up with the overlap threshold passed explicitly: the four declared keywords
      go to the constructor, the threshold is 0.55. */
  function PageParamsFor(pageid: int, underflow: bool): (r: PageParams)
    ensures NewParams(PageKwargs(pageid, underflow)[..4]) == Ok(r.params)
    ensures r.verticalOverlap == VerticalOverlap
    ensures pageid == 1 ==> r.params.positionTol == 3.0
    ensures pageid > 1 && pageid != 11 ==> r.params.positionTol == 5.0
    ensures pageid == 11 ==> r.params.positionTol == (if underflow then 40.0 else 5.0)
    ensures r.params.minRectWidth == r.params.minRectHeight == r.params.minLineLength ==
      (if pageid > 1 then 6.0 else 0.0)
    ensures r.params.directionTol == DefaultParams.directionTol
  {
    var t, m := PositionTol(pageid, underflow), MinSize(pageid);
    var kw := PageKwargs(pageid, underflow)[..4];
    assert kw[..1][..0] == [];
    assert NewParams(kw[..1]) == Ok(DefaultParams.(positionTol := t));
    assert kw[..2][..1] == kw[..1];
    assert NewParams(kw[..2]) == Ok(DefaultParams.(positionTol := t, minRectHeight := m));
    assert kw[..3][..2] == kw[..2];
    assert NewParams(kw[..3]) == Ok(DefaultParams.(positionTol := t, minRectHeight := m, minRectWidth := m));
    assert kw[..3] == kw[..|kw| - 1];
    PageParams(Params(t, DefaultParams.directionTol, m, m, m), VerticalOverlap)
  }

  /** A pdfminer element lying below or left of the origin. */
  predicate Underflows(b: Box) {
    b.x0 < 0.0 || b.y0 < 0.0
  }

  /** The scan over the page's elements, stopping at the first one that underflows. */
  method FindUnderflow(boxes: seq<Box>) returns (underflow: bool)
    ensures underflow <==> exists i :: 0 <= i < |boxes| && Underflows(boxes[i])
  {
    underflow := false;
    var i := 0;
    while i < |boxes|
      invariant i <= |boxes|
      invariant forall j :: 0 <= j < i ==> !Underflows(boxes[j])
    {
      if boxes[i].x0 < 0.0 || boxes[i].y0 < 0.0 {
        underflow := true;
        return;
      }
      i := i + 1;
    }
  }

  // ----- Rows by vertical overlap -----

  /** The bottom of a row widened by the tolerance: the least `y0 - t` over its cells. */
  function RowBottom(row: Cells, t: real): real
    requires |row| > 0
    decreases |row|
  {
    var x := row[|row| - 1].box.y0 - t;
    if |row| == 1 then x
    else
      var rest := RowBottom(row[..|row| - 1], t);
      if x < rest then x else rest
  }

  /** The top of a row widened by the tolerance: the greatest `y1 + t` over its cells. */
  function RowTop(row: Cells, t: real): real
    requires |row| > 0
    decreases |row|
  {
    var x := row[|row| - 1].box.y1 + t;
    if |row| == 1 then x
    else
      var rest := RowTop(row[..|row| - 1], t);
      if x > rest then x else rest
  }

  /** The bottom is the least widened `y0` of the row, and the top the greatest widened `y1`. */
  lemma RowBounds(row: Cells, t: real)
    requires |row| > 0
    ensures forall k :: 0 <= k < |row| ==> RowBottom(row, t) <= row[k].box.y0 - t
    ensures exists k :: 0 <= k < |row| && RowBottom(row, t) == row[k].box.y0 - t
    ensures forall k :: 0 <= k < |row| ==> row[k].box.y1 + t <= RowTop(row, t)
    ensures exists k :: 0 <= k < |row| && RowTop(row, t) == row[k].box.y1 + t
  {
    BottomBounds(row, t);
    TopBounds(row, t);
  }

  lemma {:induction false} BottomBounds(row: Cells, t: real)
    requires |row| > 0
    ensures forall k :: 0 <= k < |row| ==> RowBottom(row, t) <= row[k].box.y0 - t
    ensures exists k :: 0 <= k < |row| && RowBottom(row, t) == row[k].box.y0 - t
    decreases |row|
  {
    if |row| > 1 {
      var init := row[..|row| - 1];
      BottomBounds(init, t);
      assert forall k :: 0 <= k < |init| ==> init[k] == row[k];
      var i :| 0 <= i < |init| && RowBottom(init, t) == init[i].box.y0 - t;
      assert RowBottom(row, t) == row[i].box.y0 - t || RowBottom(row, t) == row[|row| - 1].box.y0 - t;
    }
  }

  lemma {:induction false} TopBounds(row: Cells, t: real)
    requires |row| > 0
    ensures forall k :: 0 <= k < |row| ==> row[k].box.y1 + t <= RowTop(row, t)
    ensures exists k :: 0 <= k < |row| && RowTop(row, t) == row[k].box.y1 + t
    decreases |row|
  {
    if |row| > 1 {
      var init := row[..|row| - 1];
      TopBounds(init, t);
      assert forall k :: 0 <= k < |init| ==> init[k] == row[k];
      var j :| 0 <= j < |init| && RowTop(init, t) == init[j].box.y1 + t;
      assert RowTop(row, t) == row[j].box.y1 + t || RowTop(row, t) == row[|row| - 1].box.y1 + t;
    }
  }

  function Min(a: real, b: real): real {
    if a <= b then a else b
  }

  /** The share of the row's widened height that the cell's widened span covers; 0 when the
      spans do not meet. A row of no height that the cell straddles divides by zero. */
  function Overlap(row: Cells, cell: Node, t: real): Result<real>
    requires |row| > 0
  {
    var lo, hi := RowBottom(row, t), RowTop(row, t);
    var y0, y1 := cell.box.y0 - t, cell.box.y1 + t;
    if y1 <= lo || y0 >= hi then Ok(0.0)
    else if hi - lo == 0.0 then Err(ZeroDivisionError)
    else Ok((Min(y1, hi) - Max(y0, lo)) / (hi - lo))
  }

  /** Boxes the right way up. */
  predicate Upright(cells: seq<Node>) {
    forall k :: 0 <= k < |cells| ==> cells[k].box.y0 <= cells[k].box.y1
  }

  /** With upright boxes and a positive tolerance the overlap is defined and is a fraction
      between 0 and 1. */
  lemma OverlapInUnit(row: Cells, cell: Node, t: real)
    requires |row| > 0 && Upright(row) && cell.box.y0 <= cell.box.y1 && t > 0.0
    ensures Overlap(row, cell, t).Ok?
    ensures 0.0 <= Overlap(row, cell, t).value <= 1.0
  {
    var lo, hi := RowBottom(row, t), RowTop(row, t);
    RowBounds(row, t);
    assert lo <= row[0].box.y0 - t && row[0].box.y1 + t <= hi;
    var y0, y1 := cell.box.y0 - t, cell.box.y1 + t;
    if !(y1 <= lo || y0 >= hi) {
      var num := Min(y1, hi) - Max(y0, lo);
      assert 0.0 <= num <= hi - lo;
      FractionInUnit(num, hi - lo);
    }
  }

  lemma FractionInUnit(n: real, d: real)
    requires 0.0 <= n <= d && d > 0.0
    ensures 0.0 <= n / d <= 1.0
  {
  }

  /** A cell joins a row when its overlap with it reaches the threshold. */
  predicate Joins(row: Cells, cell: Node, t: real, threshold: real)
    requires |row| > 0
  {
    Overlap(row, cell, t).Ok? && Overlap(row, cell, t).value >= threshold
  }

  /** One step of the grouping: the cell joins the last row when its overlap with that row
      reaches the threshold, and opens a new row otherwise. */
  function Place(rows: seq<Cells>, x: Node, t: real, threshold: real): (r: Result<seq<Cells>>)
    requires forall i :: 0 <= i < |rows| ==> |rows[i]| > 0
    ensures r.Ok? && |rows| > 0 && Joins(rows[|rows| - 1], x, t, threshold) ==>
      r.value == rows[..|rows| - 1] + [rows[|rows| - 1] + [x]]
    ensures r.Ok? && (|rows| == 0 || !Joins(rows[|rows| - 1], x, t, threshold)) ==>
      r.value == rows + [[x]]
    ensures r.Err? <==> |rows| > 0 && Overlap(rows[|rows| - 1], x, t).Err?
    ensures r.Err? ==> r.error == ZeroDivisionError
  {
    if |rows| == 0 then Ok([[x]])
    else
      var ov :- Overlap(rows[|rows| - 1], x, t);
      if ov >= threshold then Ok(rows[..|rows| - 1] + [rows[|rows| - 1] + [x]])
      else Ok(rows + [[x]])
  }

  /** The rows built from `cells` in order, one `Place` step per cell. */
  function GroupByOverlap(cells: seq<Node>, t: real, threshold: real): (r: Result<seq<Cells>>)
    ensures r.Ok? ==> (|cells| > 0 <==> |r.value| > 0)
    ensures r.Ok? ==> forall i :: 0 <= i < |r.value| ==> |r.value[i]| > 0
    ensures r.Err? ==> r.error == ZeroDivisionError
    decreases |cells|
  {
    if |cells| == 0 then Ok([])
    else
      var rows :- GroupByOverlap(cells[..|cells| - 1], t, threshold);
      Place(rows, cells[|cells| - 1], t, threshold)
  }

  /** Once a prefix fails, the whole grouping fails the same way. */
  lemma {:induction false} GroupErrSticks(cells: seq<Node>, i: nat, t: real, threshold: real)
    requires i <= |cells| && GroupByOverlap(cells[..i], t, threshold).Err?
    ensures GroupByOverlap(cells, t, threshold) == GroupByOverlap(cells[..i], t, threshold)
    decreases |cells|
  {
    if i < |cells| {
      var init := cells[..|cells| - 1];
      assert init[..i] == cells[..i];
      GroupErrSticks(init, i, t, threshold);
    } else {
      assert cells[..i] == cells;
    }
  }

  /** With upright boxes and a positive tolerance the grouping never divides by zero. */
  lemma {:induction false} GroupByOverlapOk(cells: seq<Node>, t: real, threshold: real)
    requires Upright(cells) && t > 0.0
    ensures GroupByOverlap(cells, t, threshold).Ok?
    decreases |cells|
  {
    if |cells| > 0 {
      var init := cells[..|cells| - 1];
      GroupByOverlapOk(init, t, threshold);
      var rows := GroupByOverlap(init, t, threshold).value;
      if |rows| > 0 {
        var last := rows[|rows| - 1];
        GroupedCells(init, t, threshold);
        assert Upright(last) by {
          forall k | 0 <= k < |last|
            ensures last[k].box.y0 <= last[k].box.y1
          {
            FlattenHas(rows, |rows| - 1, k);
          }
        }
        OverlapInUnit(last, cells[|cells| - 1], t);
      }
    }
  }

  /** Every cell of a row is a cell of the flattened rows. */
  lemma FlattenHas<T>(rows: seq<seq<T>>, i: nat, k: nat)
    requires i < |rows| && k < |rows[i]|
    ensures rows[i][k] in Flatten(rows)
  {
    FlattenAt(rows, i, k);
  }

  /** Nothing is lost, duplicated or reordered: the rows concatenate back to the cells. */
  lemma {:induction false} GroupedCells(cells: seq<Node>, t: real, threshold: real)
    requires GroupByOverlap(cells, t, threshold).Ok?
    ensures Flatten(GroupByOverlap(cells, t, threshold).value) == cells
    decreases |cells|
  {
    if |cells| > 0 {
      var init := cells[..|cells| - 1];
      GroupedCells(init, t, threshold);
      var rows := GroupByOverlap(init, t, threshold).value;
      var x := cells[|cells| - 1];
      assert cells == init + [x];
      assert GroupByOverlap(cells, t, threshold) == Place(rows, x, t, threshold);
      PlaceFlatten(rows, x, t, threshold);
    }
  }

  /** A grouping step appends the cell to the flattened rows. */
  lemma PlaceFlatten(rows: seq<Cells>, x: Node, t: real, threshold: real)
    requires forall i :: 0 <= i < |rows| ==> |rows[i]| > 0
    requires Place(rows, x, t, threshold).Ok?
    ensures Flatten(Place(rows, x, t, threshold).value) == Flatten(rows) + [x]
  {
    var r := Place(rows, x, t, threshold).value;
    if |rows| == 0 {
      assert r == [[x]];
      assert Flatten([[x]]) == Flatten([]) + [x];
    } else if r == rows + [[x]] {
      FlattenSnoc(rows, [x]);
    } else {
      var front := rows[..|rows| - 1];
      assert rows == front + [rows[|rows| - 1]];
      assert r == front + [rows[|rows| - 1] + [x]];
      FlattenSnoc(front, rows[|rows| - 1]);
      FlattenSnoc(front, rows[|rows| - 1] + [x]);
    }
  }

  /** Each cell after the first in a row joined the part of the row before it. */
  predicate RowsJoinedByOverlap(rows: seq<Cells>, t: real, threshold: real) {
    forall i, k :: 0 <= i < |rows| && 0 < k < |rows[i]| ==> Joins(rows[i][..k], rows[i][k], t, threshold)
  }

  /** The first cell of each row failed to join the whole row before it. */
  predicate RowsSplitByOverlap(rows: seq<Cells>, t: real, threshold: real)
    requires forall i :: 0 <= i < |rows| ==> |rows[i]| > 0
  {
    forall i :: 0 < i < |rows| ==> !Joins(rows[i - 1], rows[i][0], t, threshold)
  }

  /** Each row is exactly the run of cells whose overlap with the row so far reaches the
      threshold: every later cell of a row joined it, and every row's first cell did not join
      the completed row before it. */
  lemma {:induction false} GroupJoinsAndSplits(cells: seq<Node>, t: real, threshold: real)
    requires GroupByOverlap(cells, t, threshold).Ok?
    ensures RowsJoinedByOverlap(GroupByOverlap(cells, t, threshold).value, t, threshold)
    ensures RowsSplitByOverlap(GroupByOverlap(cells, t, threshold).value, t, threshold)
    decreases |cells|
  {
    if |cells| > 0 {
      var init := cells[..|cells| - 1];
      GroupJoinsAndSplits(init, t, threshold);
      var rows := GroupByOverlap(init, t, threshold).value;
      var x := cells[|cells| - 1];
      if |rows| > 0 && Joins(rows[|rows| - 1], x, t, threshold) {
        JoinKeeps(rows, x, t, threshold);
      } else {
        OpenKeeps(rows, x, t, threshold);
      }
    }
  }

  /** A cell that joins the last row keeps every row joined and split. */
  lemma JoinKeeps(rows: seq<Cells>, x: Node, t: real, threshold: real)
    requires |rows| > 0 && forall i :: 0 <= i < |rows| ==> |rows[i]| > 0
    requires RowsJoinedByOverlap(rows, t, threshold) && RowsSplitByOverlap(rows, t, threshold)
    requires Joins(rows[|rows| - 1], x, t, threshold)
    ensures var r := rows[..|rows| - 1] + [rows[|rows| - 1] + [x]];
      (forall i :: 0 <= i < |r| ==> |r[i]| > 0) &&
      RowsJoinedByOverlap(r, t, threshold) && RowsSplitByOverlap(r, t, threshold)
  {
    var n := |rows| - 1;
    var r := rows[..n] + [rows[n] + [x]];
    assert forall i :: 0 <= i < n ==> r[i] == rows[i];
    assert r[n] == rows[n] + [x];
    forall i, k | 0 <= i < |r| && 0 < k < |r[i]|
      ensures Joins(r[i][..k], r[i][k], t, threshold)
    {
      if i < n {
        assert r[i] == rows[i];
      } else if k < |rows[n]| {
        assert r[i][..k] == rows[n][..k] && r[i][k] == rows[n][k];
      } else {
        assert r[i][..k] == rows[n] && r[i][k] == x;
      }
    }
    forall i | 0 < i < |r|
      ensures !Joins(r[i - 1], r[i][0], t, threshold)
    {
      assert r[i - 1] == rows[i - 1] && r[i][0] == rows[i][0];
    }
  }

  /** A cell that opens a new row keeps every row joined and split. */
  lemma OpenKeeps(rows: seq<Cells>, x: Node, t: real, threshold: real)
    requires forall i :: 0 <= i < |rows| ==> |rows[i]| > 0
    requires RowsJoinedByOverlap(rows, t, threshold) && RowsSplitByOverlap(rows, t, threshold)
    requires |rows| == 0 || !Joins(rows[|rows| - 1], x, t, threshold)
    ensures var r := rows + [[x]];
      (forall i :: 0 <= i < |r| ==> |r[i]| > 0) &&
      RowsJoinedByOverlap(r, t, threshold) && RowsSplitByOverlap(r, t, threshold)
  {
    var r := rows + [[x]];
    forall i, k | 0 <= i < |r| && 0 < k < |r[i]|
      ensures Joins(r[i][..k], r[i][k], t, threshold)
    {
      assert r[i] == rows[i];
    }
    forall i | 0 < i < |r|
      ensures !Joins(r[i - 1], r[i][0], t, threshold)
    {
      if i < |rows| {
        assert r[i - 1] == rows[i - 1] && r[i] == rows[i];
      }
    }
  }

  /** Each row ordered by `x0`, stably. */
  function SortRows(rows: seq<Cells>): (r: seq<Cells>)
    ensures |r| == |rows|
    ensures forall i :: 0 <= i < |r| ==> SortedBy(r[i], X0Key) && multiset(r[i]) == multiset(rows[i])
  {
    Map(rows, (row: Cells) => SortBy(row, X0Key))
  }

  /** The rows of a page: its layout ordered top-down then left to right, grouped by
      vertical overlap, each row then ordered by `x0`. */
  function PageRows(layout: seq<Node>, t: real, threshold: real): Result<seq<Cells>> {
    var rows :- GroupByOverlap(SortBy(layout, ChildKey), t, threshold);
    Ok(SortRows(rows))
  }

  /** Every cell of the layout lands in exactly one row: the rows hold, between them, the
      layout's cells with their multiplicities, and each row is ordered by `x0`. */
  lemma PageRowsPartition(layout: seq<Node>, t: real, threshold: real)
    requires PageRows(layout, t, threshold).Ok?
    ensures var rows := PageRows(layout, t, threshold).value;
      multiset(Flatten(rows)) == multiset(layout) &&
      forall i :: 0 <= i < |rows| ==> SortedBy(rows[i], X0Key)
  {
    var sorted := SortBy(layout, ChildKey);
    var grouped := GroupByOverlap(sorted, t, threshold).value;
    GroupedCells(sorted, t, threshold);
    FlattenMultiset(grouped, SortRows(grouped));
  }

  /** Rows whose contents are permutations of each other's flatten to permutations. */
  lemma {:induction false} FlattenMultiset<T>(a: seq<seq<T>>, b: seq<seq<T>>)
    requires |a| == |b| && forall i :: 0 <= i < |a| ==> multiset(a[i]) == multiset(b[i])
    ensures multiset(Flatten(a)) == multiset(Flatten(b))
    decreases |a|
  {
    if |a| > 0 {
      var n := |a| - 1;
      FlattenMultiset(a[..n], b[..n]);
      assert a == a[..n] + [a[n]] && b == b[..n] + [b[n]];
      FlattenSnoc(a[..n], a[n]);
      FlattenSnoc(b[..n], b[n]);
    }
  }

  /** The grouping loop of the page set-up: the layout is sorted by `(-y0, x0)`, each cell
      joins the last row or opens a new one, and each row is then sorted by `x0`. */
  method GroupRows(layout: seq<Node>, t: real, threshold: real) returns (r: Result<seq<Cells>>)
    ensures r == PageRows(layout, t, threshold)
  {
    var cells := SortBy(layout, ChildKey);
    var rows: seq<Cells> := [];
    var i := 0;
    while i < |cells|
      invariant i <= |cells|
      invariant GroupByOverlap(cells[..i], t, threshold) == Ok(rows)
    {
      assert cells[..i + 1][..i] == cells[..i];
      var x := cells[i];
      assert GroupByOverlap(cells[..i + 1], t, threshold) == Place(rows, x, t, threshold);
      var next := PlaceCell(rows, x, t, threshold);
      if next.Err? {
        GroupErrSticks(cells, i + 1, t, threshold);
        return Err(next.error);
      }
      rows := next.value;
      i := i + 1;
    }
    assert cells[..i] == cells;
    var sorted := SortEachRow(rows);
    return Ok(sorted);
  }

  /** The body of the grouping loop for one cell: the widened span of the last row and of
      the cell, their overlap as a share of the row's height, and the join or the new row. */
  method PlaceCell(rows: seq<Cells>, x: Node, t: real, threshold: real) returns (r: Result<seq<Cells>>)
    requires forall i :: 0 <= i < |rows| ==> |rows[i]| > 0
    ensures r == Place(rows, x, t, threshold)
  {
    if |rows| == 0 {
      return Ok([[x]]);
    }
    var last := rows[|rows| - 1];
    var lineY0, lineY1 := RowBottom(last, t), RowTop(last, t);
    var y0, y1 := x.box.y0 - t, x.box.y1 + t;
    var overlap: real;
    if y1 <= lineY0 || y0 >= lineY1 {
      overlap := 0.0;
    } else {
      var height := lineY1 - lineY0;
      if height == 0.0 {
        return Err(ZeroDivisionError);
      }
      overlap := (Min(y1, lineY1) - Max(y0, lineY0)) / height;
    }
    if overlap >= threshold {
      r := Ok(rows[..|rows| - 1] + [last + [x]]);
    } else {
      r := Ok(rows + [[x]]);
    }
  }

  /** `for line in lines: line.sort(key=lambda el: el.x0)`. */
  method SortEachRow(rows: seq<Cells>) returns (sorted: seq<Cells>)
    ensures sorted == SortRows(rows)
  {
    sorted := [];
    var j := 0;
    while j < |rows|
      invariant j <= |rows|
      invariant sorted == SortRows(rows[..j])
    {
      SortRowsSnoc(rows, j);
      sorted := sorted + [SortBy(rows[j], X0Key)];
      j := j + 1;
    }
    assert rows[..j] == rows;
  }

  /** Sorting one more row appends that row, sorted by `x0`. */
  lemma SortRowsSnoc(rows: seq<Cells>, j: nat)
    requires j < |rows|
    ensures SortRows(rows[..j + 1]) == SortRows(rows[..j]) + [SortBy(rows[j], X0Key)]
  {
    assert rows[..j + 1][..j] == rows[..j];
  }
}
