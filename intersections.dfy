/** `PDFLTPointIntersect` and `PDFLTIntersections`: the intersection points of the page's
    segments, merged within the position tolerance, and the cells rebuilt from them.

    The value-level definitions (`PointVal`, `AddSpec`, `FitSpec`, `PredictSpec`) say what the
    classes compute; the classes are proved against them. */
module Intersections {
  import opened Outcomes
  import opened Geometry
  import opened Lines
  import opened Sorting
  import opened Seqs
  import opened Components

  /** The state of one `PDFLTPointIntersect`: its point and its vertical and horizontal lines. */
  datatype PointVal = PointVal(pt: Point, vLines: seq<Line>, hLines: seq<Line>)

  predicate IsVertical(l: Line) {
    l.Orient() == Vertical
  }

  predicate IsHorizontal(l: Line) {
    l.Orient() == Horizontal
  }

  /** The point built from `lines`: each line filed under its orientation, in order. */
  function NewPoint(pt: Point, lines: seq<Line>): PointVal {
    PointVal(pt, Filter(lines, IsVertical), Filter(lines, IsHorizontal))
  }

  predicate HasClose(s: seq<Line>, l: Line, tol: real) {
    exists k :: 0 <= k < |s| && IsClose(l, s[k], tol)
  }

  /** No two lines of the list are close. */
  predicate NoCloseDup(s: seq<Line>, tol: real) {
    forall i, j :: 0 <= i < j < |s| ==> !IsClose(s[j], s[i], tol)
  }

  /** The list after offering it `l`: unchanged when a close line is already there, otherwise
      `l` appended. It only ever grows at the end, and stays free of close duplicates. */
  function AddLineTo(s: seq<Line>, l: Line, tol: real): (r: seq<Line>)
    ensures |s| <= |r| <= |s| + 1 && r[..|s|] == s
    ensures l in r || HasClose(s, l, tol)
    ensures NoCloseDup(s, tol) ==> NoCloseDup(r, tol)
  {
    if HasClose(s, l, tol) then s else s + [l]
  }

  /** `add_line`: the line is offered to the list of its orientation. */
  function WithLine(p: PointVal, l: Line, tol: real): (r: PointVal)
    ensures r.pt == p.pt
  {
    if l.Orient() == Vertical then p.(vLines := AddLineTo(p.vLines, l, tol))
    else p.(hLines := AddLineTo(p.hLines, l, tol))
  }

  /** `add_lines`: the lines offered one after the other. */
  function WithLines(p: PointVal, ls: seq<Line>, tol: real): (r: PointVal)
    ensures r.pt == p.pt
    decreases |ls|
  {
    if |ls| == 0 then p else WithLine(WithLines(p, ls[..|ls| - 1], tol), ls[|ls| - 1], tol)
  }

  /** Every line is filed under its own orientation, and neither list holds two close lines. */
  predicate PointOk(p: PointVal, tol: real) {
    NoCloseDup(p.vLines, tol) && NoCloseDup(p.hLines, tol) &&
    (forall i :: 0 <= i < |p.vLines| ==> IsVertical(p.vLines[i])) &&
    (forall i :: 0 <= i < |p.hLines| ==> IsHorizontal(p.hLines[i]))
  }

  /** Each list of `q` extends the same list of `p`, and the point stays where it is. */
  predicate PointExtends(p: PointVal, q: PointVal) {
    q.pt == p.pt &&
    |p.vLines| <= |q.vLines| && q.vLines[..|p.vLines|] == p.vLines &&
    |p.hLines| <= |q.hLines| && q.hLines[..|p.hLines|] == p.hLines
  }

  lemma WithLineKeeps(p: PointVal, l: Line, tol: real)
    requires PointOk(p, tol)
    ensures PointOk(WithLine(p, l, tol), tol)
    ensures PointExtends(p, WithLine(p, l, tol))
  {
  }

  lemma {:induction false} WithLinesKeeps(p: PointVal, ls: seq<Line>, tol: real)
    requires PointOk(p, tol)
    ensures PointOk(WithLines(p, ls, tol), tol)
    ensures PointExtends(p, WithLines(p, ls, tol))
    decreases |ls|
  {
    if |ls| > 0 {
      var q := WithLines(p, ls[..|ls| - 1], tol);
      WithLinesKeeps(p, ls[..|ls| - 1], tol);
      WithLineKeeps(q, ls[|ls| - 1], tol);
    }
  }

  /** Stored points are pairwise more than `tol` apart. */
  predicate Separated(ps: seq<PointVal>, tol: real) {
    forall i, j :: 0 <= i < j < |ps| ==> !Near(DistSq(ps[i].pt, ps[j].pt), tol)
  }

  predicate WellFormed(ps: seq<PointVal>, tol: real) {
    Separated(ps, tol) && forall k :: 0 <= k < |ps| ==> PointOk(ps[k], tol)
  }

  /** No point is dropped or moved, and every point's lists only grow at the end. */
  predicate Extends(ps: seq<PointVal>, qs: seq<PointVal>) {
    |ps| <= |qs| && forall k :: 0 <= k < |ps| ==> PointExtends(ps[k], qs[k])
  }

  lemma ExtendsTrans(a: seq<PointVal>, b: seq<PointVal>, c: seq<PointVal>)
    requires Extends(a, b) && Extends(b, c)
    ensures Extends(a, c)
  {
    forall k | 0 <= k < |a|
      ensures PointExtends(a[k], c[k])
    {
      assert c[k].vLines[..|a[k].vLines|] == c[k].vLines[..|b[k].vLines|][..|a[k].vLines|];
      assert c[k].hLines[..|a[k].hLines|] == c[k].hLines[..|b[k].hLines|][..|a[k].hLines|];
    }
  }

  /** The first stored point within `tol` of `pt`, or `|ps|`. */
  function FindNear(ps: seq<PointVal>, pt: Point, tol: real): (k: nat)
    ensures k <= |ps|
    ensures k < |ps| ==> Near(DistSq(ps[k].pt, pt), tol)
    ensures forall j :: 0 <= j < k ==> !Near(DistSq(ps[j].pt, pt), tol)
    decreases |ps|
  {
    if |ps| == 0 then 0
    else if Near(DistSq(ps[0].pt, pt), tol) then 0
    else 1 + FindNear(ps[1..], pt, tol)
  }

  /** `_add(point, line0, line1)`: both lines go to the first stored point within `tol`,
      or a new point holding them is appended. */
  function AddSpec(ps: seq<PointVal>, pt: Point, l0: Line, l1: Line, tol: real): seq<PointVal> {
    var k := FindNear(ps, pt, tol);
    if k < |ps| then ps[k := WithLines(ps[k], [l0, l1], tol)]
    else ps + [NewPoint(pt, [l0, l1])]
  }

  /** Merging two lines that are not close keeps the points separated and free of close
      duplicates, moves no point and only appends lines. */
  lemma AddSpecKeeps(ps: seq<PointVal>, pt: Point, l0: Line, l1: Line, tol: real)
    requires WellFormed(ps, tol)
    requires !IsClose(l0, l1, tol)
    ensures WellFormed(AddSpec(ps, pt, l0, l1, tol), tol)
    ensures Extends(ps, AddSpec(ps, pt, l0, l1, tol))
    ensures |AddSpec(ps, pt, l0, l1, tol)| <= |ps| + 1
  {
    var k := FindNear(ps, pt, tol);
    if k < |ps| {
      MergeKeeps(ps, k, [l0, l1], tol);
    } else {
      AppendKeeps(ps, pt, l0, l1, tol);
    }
  }

  lemma MergeKeeps(ps: seq<PointVal>, k: nat, ls: seq<Line>, tol: real)
    requires WellFormed(ps, tol) && k < |ps|
    ensures WellFormed(ps[k := WithLines(ps[k], ls, tol)], tol)
    ensures Extends(ps, ps[k := WithLines(ps[k], ls, tol)])
  {
    var r := ps[k := WithLines(ps[k], ls, tol)];
    WithLinesKeeps(ps[k], ls, tol);
    assert forall j :: 0 <= j < |ps| ==> r[j].pt == ps[j].pt;
    forall j | 0 <= j < |ps|
      ensures PointExtends(ps[j], r[j]) && PointOk(r[j], tol)
    {
      if j != k {
        assert r[j] == ps[j];
      }
    }
  }

  lemma AppendKeeps(ps: seq<PointVal>, pt: Point, l0: Line, l1: Line, tol: real)
    requires WellFormed(ps, tol) && !IsClose(l0, l1, tol)
    requires forall j :: 0 <= j < |ps| ==> !Near(DistSq(ps[j].pt, pt), tol)
    ensures WellFormed(ps + [NewPoint(pt, [l0, l1])], tol)
    ensures Extends(ps, ps + [NewPoint(pt, [l0, l1])])
  {
    var np := NewPoint(pt, [l0, l1]);
    var r := ps + [np];
    IsCloseSymmetric(l0, l1, tol);
    assert [l0, l1][..1] == [l0];
    assert [l0][..0] == [];
    assert PointOk(np, tol);
    forall j | 0 <= j < |ps|
      ensures PointExtends(ps[j], r[j])
    {
      assert r[j] == ps[j];
    }
  }

  /** Some stored point lies within `tol` of `pt`. */
  predicate Covered(ps: seq<PointVal>, pt: Point, tol: real) {
    exists k :: 0 <= k < |ps| && Near(DistSq(ps[k].pt, pt), tol)
  }

  /** After `_add`, the intersection point is represented by a stored point. */
  lemma AddSpecCovers(ps: seq<PointVal>, pt: Point, l0: Line, l1: Line, tol: real)
    requires tol >= 0.0
    ensures Covered(AddSpec(ps, pt, l0, l1, tol), pt, tol)
  {
    var k := FindNear(ps, pt, tol);
    var r := AddSpec(ps, pt, l0, l1, tol);
    if k < |ps| {
      assert r[k].pt == ps[k].pt;
    } else {
      NearSelf(pt, tol);
      assert r[|ps|].pt == pt;
    }
  }

  lemma CoveredExtends(ps: seq<PointVal>, qs: seq<PointVal>, pt: Point, tol: real)
    requires Covered(ps, pt, tol) && Extends(ps, qs)
    ensures Covered(qs, pt, tol)
  {
    var k :| 0 <= k < |ps| && Near(DistSq(ps[k].pt, pt), tol);
    assert qs[k].pt == ps[k].pt;
  }

  /** The `fit` sort key `-y0`, as a key pair with a constant second part. */
  function FitKey(l: Line): Key {
    Key(-l.box.y0, 0.0)
  }

  /** One pair of `fit`'s double loop: close pairs are skipped; otherwise a crossing found by
      `intersect_param` (with the direction tolerance as its parallel tolerance) is merged in. */
  function PairStep(ps: seq<PointVal>, l0: Line, l1: Line, posTol: real, dirTol: real): Result<seq<PointVal>> {
    if IsClose(l0, l1, posTol) then Ok(ps)
    else
      var hit :- IntersectParam(l0, l1, posTol, dirTol);
      if hit.Some? then Ok(AddSpec(ps, hit.value.point, l0, l1, posTol)) else Ok(ps)
  }

  /** `line0` met with each line of `rest` in turn. */
  function InnerSpec(ps: seq<PointVal>, l0: Line, rest: seq<Line>, posTol: real, dirTol: real): Result<seq<PointVal>>
    decreases |rest|
  {
    if |rest| == 0 then Ok(ps)
    else
      var q :- InnerSpec(ps, l0, rest[..|rest| - 1], posTol, dirTol);
      PairStep(q, l0, rest[|rest| - 1], posTol, dirTol)
  }

  /** The first `n` lines popped from the deque, each met with the lines after it. */
  function OuterSpec(ps: seq<PointVal>, ls: seq<Line>, n: nat, posTol: real, dirTol: real): Result<seq<PointVal>>
    requires n <= |ls|
    decreases n
  {
    if n == 0 then Ok(ps)
    else
      var q :- OuterSpec(ps, ls, n - 1, posTol, dirTol);
      InnerSpec(q, ls[n - 1], ls[n..], posTol, dirTol)
  }

  /** `fit(lines)` on stored points `ps`. */
  function FitSpec(ps: seq<PointVal>, lines: seq<Line>, posTol: real, dirTol: real): Result<seq<PointVal>> {
    var ls := SortBy(lines, FitKey);
    OuterSpec(ps, ls, |ls|, posTol, dirTol)
  }

  lemma PairStepKeeps(ps: seq<PointVal>, l0: Line, l1: Line, posTol: real, dirTol: real)
    requires WellFormed(ps, posTol)
    ensures PairStep(ps, l0, l1, posTol, dirTol).Ok? ==>
      WellFormed(PairStep(ps, l0, l1, posTol, dirTol).value, posTol) &&
      Extends(ps, PairStep(ps, l0, l1, posTol, dirTol).value)
  {
    if !IsClose(l0, l1, posTol) {
      var hit := IntersectParam(l0, l1, posTol, dirTol);
      if hit.Ok? && hit.value.Some? {
        AddSpecKeeps(ps, hit.value.value.point, l0, l1, posTol);
      }
    }
  }

  lemma {:induction false} InnerSpecKeeps(ps: seq<PointVal>, l0: Line, rest: seq<Line>, posTol: real, dirTol: real)
    requires WellFormed(ps, posTol)
    ensures InnerSpec(ps, l0, rest, posTol, dirTol).Ok? ==>
      WellFormed(InnerSpec(ps, l0, rest, posTol, dirTol).value, posTol) &&
      Extends(ps, InnerSpec(ps, l0, rest, posTol, dirTol).value)
    decreases |rest|
  {
    if |rest| > 0 {
      var q := InnerSpec(ps, l0, rest[..|rest| - 1], posTol, dirTol);
      InnerSpecKeeps(ps, l0, rest[..|rest| - 1], posTol, dirTol);
      if q.Ok? {
        PairStepKeeps(q.value, l0, rest[|rest| - 1], posTol, dirTol);
        var r := PairStep(q.value, l0, rest[|rest| - 1], posTol, dirTol);
        if r.Ok? {
          ExtendsTrans(ps, q.value, r.value);
        }
      }
    } else {
      assert Extends(ps, ps);
    }
  }

  lemma {:induction false} OuterSpecKeeps(ps: seq<PointVal>, ls: seq<Line>, n: nat, posTol: real, dirTol: real)
    requires n <= |ls|
    requires WellFormed(ps, posTol)
    ensures OuterSpec(ps, ls, n, posTol, dirTol).Ok? ==>
      WellFormed(OuterSpec(ps, ls, n, posTol, dirTol).value, posTol) &&
      Extends(ps, OuterSpec(ps, ls, n, posTol, dirTol).value)
    decreases n
  {
    if n > 0 {
      var q := OuterSpec(ps, ls, n - 1, posTol, dirTol);
      OuterSpecKeeps(ps, ls, n - 1, posTol, dirTol);
      if q.Ok? {
        InnerSpecKeeps(q.value, ls[n - 1], ls[n..], posTol, dirTol);
        var r := InnerSpec(q.value, ls[n - 1], ls[n..], posTol, dirTol);
        if r.Ok? {
          ExtendsTrans(ps, q.value, r.value);
        }
      }
    } else {
      assert Extends(ps, ps);
    }
  }

  /** After `fit`, stored points are pairwise more than the position tolerance apart, no point
      has moved or been dropped, and within each point no two lines of one orientation are
      close; merging only appended lines. */
  lemma FitSpecKeeps(ps: seq<PointVal>, lines: seq<Line>, posTol: real, dirTol: real)
    requires WellFormed(ps, posTol)
    ensures FitSpec(ps, lines, posTol, dirTol).Ok? ==>
      WellFormed(FitSpec(ps, lines, posTol, dirTol).value, posTol) &&
      Extends(ps, FitSpec(ps, lines, posTol, dirTol).value)
  {
    var ls := SortBy(lines, FitKey);
    OuterSpecKeeps(ps, ls, |ls|, posTol, dirTol);
  }

  /** `fit` raises only when a zero cross product is divided by, which needs a parallel
      tolerance that is not positive. */
  lemma {:induction false} InnerSpecNoError(ps: seq<PointVal>, l0: Line, rest: seq<Line>, posTol: real, dirTol: real)
    requires dirTol > 0.0
    ensures InnerSpec(ps, l0, rest, posTol, dirTol).Ok?
    decreases |rest|
  {
    if |rest| > 0 {
      InnerSpecNoError(ps, l0, rest[..|rest| - 1], posTol, dirTol);
    }
  }

  lemma {:induction false} OuterSpecNoError(ps: seq<PointVal>, ls: seq<Line>, n: nat, posTol: real, dirTol: real)
    requires n <= |ls|
    requires dirTol > 0.0
    ensures OuterSpec(ps, ls, n, posTol, dirTol).Ok?
    decreases n
  {
    if n > 0 {
      OuterSpecNoError(ps, ls, n - 1, posTol, dirTol);
      InnerSpecNoError(OuterSpec(ps, ls, n - 1, posTol, dirTol).value, ls[n - 1], ls[n..], posTol, dirTol);
    }
  }

  lemma FitSpecNoError(ps: seq<PointVal>, lines: seq<Line>, posTol: real, dirTol: real)
    requires dirTol > 0.0
    ensures FitSpec(ps, lines, posTol, dirTol).Ok?
  {
    var ls := SortBy(lines, FitKey);
    OuterSpecNoError(ps, ls, |ls|, posTol, dirTol);
  }

  /** An error raised by an earlier pair ends `fit`: the rest of the loop never runs. */
  lemma {:induction false} InnerSpecErrSticks(ps: seq<PointVal>, l0: Line, rest: seq<Line>, m: nat, posTol: real, dirTol: real, e: PyError)
    requires m <= |rest| && InnerSpec(ps, l0, rest[..m], posTol, dirTol) == Err(e)
    ensures InnerSpec(ps, l0, rest, posTol, dirTol) == Err(e)
    decreases |rest|
  {
    if m < |rest| {
      var init := rest[..|rest| - 1];
      assert init[..m] == rest[..m];
      InnerSpecErrSticks(ps, l0, init, m, posTol, dirTol, e);
    } else {
      assert rest[..m] == rest;
    }
  }

  lemma {:induction false} OuterSpecErrSticks(ps: seq<PointVal>, ls: seq<Line>, m: nat, n: nat, posTol: real, dirTol: real, e: PyError)
    requires m <= n <= |ls| && OuterSpec(ps, ls, m, posTol, dirTol) == Err(e)
    ensures OuterSpec(ps, ls, n, posTol, dirTol) == Err(e)
    decreases n
  {
    if m < n {
      OuterSpecErrSticks(ps, ls, m, n - 1, posTol, dirTol, e);
    }
  }

  /** One more popped line: its inner loop runs on the points the earlier ones left. */
  lemma OuterSpecNext(ps: seq<PointVal>, ls: seq<Line>, i: nat, q: seq<PointVal>, posTol: real, dirTol: real)
    requires i < |ls| && OuterSpec(ps, ls, i, posTol, dirTol) == Ok(q)
    ensures OuterSpec(ps, ls, i + 1, posTol, dirTol) == InnerSpec(q, ls[i], ls[i + 1..], posTol, dirTol)
  {
  }

  /** The pair (l0, l1) is not close and `intersect_param` reports the crossing `pt`. */
  predicate PairHit(l0: Line, l1: Line, posTol: real, dirTol: real, pt: Point) {
    !IsClose(l0, l1, posTol) &&
    var hit := IntersectParam(l0, l1, posTol, dirTol);
    hit.Ok? && hit.value.Some? && hit.value.value.point == pt
  }

  lemma {:induction false} InnerSpecCovers(ps: seq<PointVal>, l0: Line, rest: seq<Line>, posTol: real, dirTol: real, m: nat, pt: Point)
    requires WellFormed(ps, posTol) && posTol >= 0.0
    requires m < |rest| && PairHit(l0, rest[m], posTol, dirTol, pt)
    requires InnerSpec(ps, l0, rest, posTol, dirTol).Ok?
    ensures Covered(InnerSpec(ps, l0, rest, posTol, dirTol).value, pt, posTol)
    decreases |rest|
  {
    var init := rest[..|rest| - 1];
    var q := InnerSpec(ps, l0, init, posTol, dirTol);
    InnerSpecKeeps(ps, l0, init, posTol, dirTol);
    var r := PairStep(q.value, l0, rest[|rest| - 1], posTol, dirTol);
    PairStepKeeps(q.value, l0, rest[|rest| - 1], posTol, dirTol);
    if m < |rest| - 1 {
      assert init[m] == rest[m];
      InnerSpecCovers(ps, l0, init, posTol, dirTol, m, pt);
      CoveredExtends(q.value, r.value, pt, posTol);
    } else {
      AddSpecCovers(q.value, pt, l0, rest[m], posTol);
    }
  }

  lemma {:induction false} OuterSpecCovers(ps: seq<PointVal>, ls: seq<Line>, n: nat, posTol: real, dirTol: real, i: nat, j: nat, pt: Point)
    requires n <= |ls| && i < n && i < j < |ls|
    requires WellFormed(ps, posTol) && posTol >= 0.0
    requires PairHit(ls[i], ls[j], posTol, dirTol, pt)
    requires OuterSpec(ps, ls, n, posTol, dirTol).Ok?
    ensures Covered(OuterSpec(ps, ls, n, posTol, dirTol).value, pt, posTol)
    decreases n
  {
    var q := OuterSpec(ps, ls, n - 1, posTol, dirTol);
    OuterSpecKeeps(ps, ls, n - 1, posTol, dirTol);
    if i == n - 1 {
      assert ls[n..][j - n] == ls[j];
      InnerSpecCovers(q.value, ls[n - 1], ls[n..], posTol, dirTol, j - n, pt);
    } else {
      OuterSpecCovers(ps, ls, n - 1, posTol, dirTol, i, j, pt);
      InnerSpecKeeps(q.value, ls[n - 1], ls[n..], posTol, dirTol);
      CoveredExtends(q.value, OuterSpec(ps, ls, n, posTol, dirTol).value, pt, posTol);
    }
  }

  /** Every crossing `fit` accepts, between a line and any line after it in `-y0` order, is
      represented by a stored point within the position tolerance. */
  lemma FitSpecCovers(ps: seq<PointVal>, lines: seq<Line>, posTol: real, dirTol: real, i: nat, j: nat, pt: Point)
    requires WellFormed(ps, posTol) && posTol >= 0.0
    requires i < j < |lines|
    requires PairHit(SortBy(lines, FitKey)[i], SortBy(lines, FitKey)[j], posTol, dirTol, pt)
    requires FitSpec(ps, lines, posTol, dirTol).Ok?
    ensures Covered(FitSpec(ps, lines, posTol, dirTol).value, pt, posTol)
  {
    var ls := SortBy(lines, FitKey);
    OuterSpecCovers(ps, ls, |ls|, posTol, dirTol, i, j, pt);
  }

  /** The lines of `p` of one orientation. */
  function LinesOf(p: PointVal, o: Orientation): seq<Line> {
    if o == Vertical then p.vLines else p.hLines
  }

  /** `edge_exists_between(q, o, tol)`: some line of orientation `o` at `p` passes within `tol`
      of `q`. */
  predicate EdgeExists(p: PointVal, q: Point, o: Orientation, tol: real) {
    exists k :: 0 <= k < |LinesOf(p, o)| && Near(MinDistanceSq(LinesOf(p, o)[k], q), tol)
  }

  /** `_point_exists(deque, q)`: some point of the deque lies within `tol` of `q`. */
  predicate PointExists(rest: seq<PointVal>, q: Point, tol: real) {
    exists k :: 0 <= k < |rest| && Near(DistSq(rest[k].pt, q), tol)
  }

  /** A bottom-left candidate for the top-left point `tl`: more than `tol` away, strictly
      lower, and within `tol` horizontally. */
  predicate BelowOf(tl: PointVal, q: PointVal, tol: real) {
    BelowPt(tl.pt, q.pt, tol)
  }

  predicate BelowPt(t: Point, q: Point, tol: real) {
    !Near(DistSq(q, t), tol) && q.y < t.y && Abs(q.x - t.x) <= tol
  }

  /** A top-right candidate for `tl`: more than `tol` away, strictly to the right, and within
      `tol` vertically. */
  predicate RightOf(tl: PointVal, q: PointVal, tol: real) {
    RightPt(tl.pt, q.pt, tol)
  }

  predicate RightPt(t: Point, q: Point, tol: real) {
    !Near(DistSq(q, t), tol) && q.x > t.x && Abs(q.y - t.y) <= tol
  }

  function XPoints(rest: seq<PointVal>, tl: PointVal, tol: real): seq<PointVal> {
    Filter(rest, q => BelowOf(tl, q, tol))
  }

  function YPoints(rest: seq<PointVal>, tl: PointVal, tol: real): seq<PointVal> {
    Filter(rest, q => RightOf(tl, q, tol))
  }

  function MinR(a: real, b: real): real {
    if a <= b then a else b
  }

  /** The box `LTRect` builds from two corners: their coordinate-wise minimum and maximum. */
  function Span(p: Point, q: Point): (b: Box)
    ensures b.Normal() && b.Contains(p) && b.Contains(q)
  {
    Box(MinR(p.x, q.x), MinR(p.y, q.y), Max(p.x, q.x), Max(p.y, q.y))
  }

  /** A rebuilt cell: the index of its top-left point in the deque order, its bottom-left and
      top-right points, its box and the style it takes from the bottom-left point's first
      vertical line. */
  datatype Found = Found(tl: nat, bl: Point, tr: Point, box: Box, style: Style)

  /** The bottom-right corner the cell (bl, tr) needs. */
  function BottomRight(bl: PointVal, tr: PointVal): Point {
    Point(tr.pt.x, bl.pt.y)
  }

  /** The checks `_compute_rect` makes on a top-right candidate `y` once the top edge exists. */
  predicate Closes(bl: PointVal, y: PointVal, rest: seq<PointVal>, tol: real) {
    PointExists(rest, BottomRight(bl, y), tol) &&
    EdgeExists(bl, BottomRight(bl, y), Horizontal, tol) &&
    EdgeExists(y, BottomRight(bl, y), Vertical, tol)
  }

  /** The `for y_point in y_points` loop of `_compute_rect`. Taking the style reads
      `btm_left.v_lines[0]`, which raises when that point has no vertical line. */
  function SearchTR(i: nat, tl: PointVal, bl: PointVal, ys: seq<PointVal>, rest: seq<PointVal>, tol: real): (r: Result<Option<Found>>)
    ensures r.Ok? && r.value.Some? ==> r.value.value.tl == i && r.value.value.bl == bl.pt
    decreases |ys|
  {
    if |ys| == 0 then Ok(None)
    else if EdgeExists(tl, ys[0].pt, Horizontal, tol) && Closes(bl, ys[0], rest, tol) then
      if |bl.vLines| == 0 then Err(IndexError)
      else Ok(Some(Found(i, bl.pt, ys[0].pt, Span(bl.pt, ys[0].pt), bl.vLines[0].style)))
    else SearchTR(i, tl, bl, ys[1..], rest, tol)
  }

  /** `_compute_rect(top_left, btm_left, deque)`. */
  function ComputeRect(i: nat, tl: PointVal, bl: PointVal, rest: seq<PointVal>, tol: real): Result<Option<Found>> {
    SearchTR(i, tl, bl, YPoints(rest, tl, tol), rest, tol)
  }

  /** The `for x_point in x_points` loop of `predict`, which stops at the first cell found. */
  function SearchBL(i: nat, tl: PointVal, xs: seq<PointVal>, rest: seq<PointVal>, tol: real): (r: Result<Option<Found>>)
    ensures r.Ok? && r.value.Some? ==> r.value.value.tl == i
    decreases |xs|
  {
    if |xs| == 0 then Ok(None)
    else if !EdgeExists(tl, xs[0].pt, Vertical, tol) then SearchBL(i, tl, xs[1..], rest, tol)
    else
      var r :- ComputeRect(i, tl, xs[0], rest, tol);
      if r.Some? then Ok(r) else SearchBL(i, tl, xs[1..], rest, tol)
  }

  /** What popping the top-left point at position `i` of the deque contributes. */
  function PopStep(vals: seq<PointVal>, i: nat, tol: real): (r: Result<Option<Found>>)
    requires i < |vals|
    ensures r.Ok? && r.value.Some? ==> r.value.value.tl == i
  {
    SearchBL(i, vals[i], XPoints(vals[i + 1..], vals[i], tol), vals[i + 1..], tol)
  }

  /** What popping each point of the deque contributes, in deque order. */
  function Pops(vals: seq<PointVal>, tol: real): (r: seq<Result<Option<Found>>>)
    ensures |r| == |vals|
  {
    PopsUpTo(vals, tol, |vals|)
  }

  /** What popping each of the first `n` points contributes. */
  function PopsUpTo(vals: seq<PointVal>, tol: real, n: nat): (r: seq<Result<Option<Found>>>)
    requires n <= |vals|
    ensures |r| == n
    decreases n
  {
    if n == 0 then [] else PopsUpTo(vals, tol, n - 1) + [PopStep(vals, n - 1, tol)]
  }

  /** Entry `i` of the pops is what popping the point at position `i` contributes. */
  lemma {:induction false} PopsAt(vals: seq<PointVal>, tol: real, n: nat, i: nat)
    requires i < n <= |vals|
    ensures PopsUpTo(vals, tol, n)[i] == PopStep(vals, i, tol)
    decreases n
  {
    if i < n - 1 {
      PopsAt(vals, tol, n - 1, i);
    }
  }

  /** The cells found after the first `n` pops: the first error ends the loop. */
  function Collect(pops: seq<Result<Option<Found>>>, n: nat): Result<seq<Found>>
    requires n <= |pops|
    decreases n
  {
    if n == 0 then Ok([])
    else
      var acc :- Collect(pops, n - 1);
      var f :- pops[n - 1];
      Ok(acc + (if f.Some? then [f.value] else []))
  }

  /** One more pop: an error ends the loop, a cell is appended, nothing else changes. */
  lemma CollectNext(pops: seq<Result<Option<Found>>>, i: nat, found: seq<Found>)
    requires i < |pops| && Collect(pops, i) == Ok(found)
    ensures pops[i].Err? ==> Collect(pops, i + 1) == Err(pops[i].error)
    ensures pops[i].Ok? && pops[i].value.Some? ==> Collect(pops, i + 1) == Ok(found + [pops[i].value.value])
    ensures pops[i].Ok? && pops[i].value.None? ==> Collect(pops, i + 1) == Ok(found)
  {
    if pops[i].Ok? && pops[i].value.None? {
      assert found + [] == found;
    }
  }

  /** The cells found after popping the first `n` points of the deque. */
  function PredictLoop(vals: seq<PointVal>, n: nat, tol: real): Result<seq<Found>>
    requires n <= |vals|
  {
    Collect(Pops(vals, tol), n)
  }

  function KeepBig(fs: seq<Found>, minW: real, minH: real): (r: seq<Found>)
    ensures forall k :: 0 <= k < |r| ==> r[k].box.Width() >= minW && r[k].box.Height() >= minH
  {
    Filter(fs, (f: Found) => f.box.Width() >= minW && f.box.Height() >= minH)
  }

  /** `predict()` on the points in deque order. */
  function PredictSpec(vals: seq<PointVal>, tol: real, minW: real, minH: real): Result<seq<Found>> {
    var fs :- PredictLoop(vals, |vals|, tol);
    Ok(KeepBig(fs, minW, minH))
  }

  /** An error raised while popping one point ends `predict`. */
  lemma {:induction false} PredictLoopErrSticks(pops: seq<Result<Option<Found>>>, m: nat, n: nat, e: PyError)
    requires m <= n <= |pops| && Collect(pops, m) == Err(e)
    ensures Collect(pops, n) == Err(e)
    decreases n
  {
    if m < n {
      PredictLoopErrSticks(pops, m, n - 1, e);
    }
  }

  /** `bl` and `tr` are the bottom-left and top-right points of the cell `f` for top-left point
      `tl`: both later in the deque, `bl` below `tl` and joined to it by a vertical edge, `tr` to
      its right and joined to it by a horizontal edge, with a point at the bottom-right corner
      that both reach by an edge; the style is that of `bl`'s first vertical line. */
  predicate Corners(tl: PointVal, bl: PointVal, tr: PointVal, rest: seq<PointVal>, f: Found, tol: real) {
    bl in rest && tr in rest && bl.pt == f.bl && tr.pt == f.tr &&
    BelowOf(tl, bl, tol) && EdgeExists(tl, bl.pt, Vertical, tol) &&
    RightOf(tl, tr, tol) && EdgeExists(tl, tr.pt, Horizontal, tol) &&
    Closes(bl, tr, rest, tol) && |bl.vLines| > 0 && f.style == bl.vLines[0].style
  }

  predicate Witnessed(tl: PointVal, rest: seq<PointVal>, f: Found, tol: real) {
    exists bl, tr :: bl in rest && tr in rest && Corners(tl, bl, tr, rest, f, tol)
  }

  /** The cell `f` was built from top-left point `vals[f.tl]` and corners found later in the
      deque, and its box spans its bottom-left and top-right points. */
  predicate Anchored(vals: seq<PointVal>, f: Found, tol: real) {
    f.tl < |vals| && Witnessed(vals[f.tl], vals[f.tl + 1..], f, tol) && f.box == Span(f.bl, f.tr)
  }

  lemma {:induction false} SearchTRAnchored(i: nat, tl: PointVal, bl: PointVal, ys: seq<PointVal>, rest: seq<PointVal>, tol: real)
    requires bl in rest && BelowOf(tl, bl, tol) && EdgeExists(tl, bl.pt, Vertical, tol)
    requires forall k :: 0 <= k < |ys| ==> ys[k] in rest && RightOf(tl, ys[k], tol)
    ensures var r := SearchTR(i, tl, bl, ys, rest, tol);
      r.Ok? && r.value.Some? ==> Witnessed(tl, rest, r.value.value, tol) && r.value.value.box == Span(r.value.value.bl, r.value.value.tr)
    decreases |ys|
  {
    if |ys| > 0 {
      if EdgeExists(tl, ys[0].pt, Horizontal, tol) && Closes(bl, ys[0], rest, tol) {
        if |bl.vLines| > 0 {
          var r := SearchTR(i, tl, bl, ys, rest, tol);
          assert Corners(tl, bl, ys[0], rest, r.value.value, tol);
        }
      } else {
        SearchTRAnchored(i, tl, bl, ys[1..], rest, tol);
      }
    }
  }

  lemma {:induction false} SearchBLAnchored(i: nat, tl: PointVal, xs: seq<PointVal>, rest: seq<PointVal>, tol: real)
    requires forall k :: 0 <= k < |xs| ==> xs[k] in rest && BelowOf(tl, xs[k], tol)
    ensures var r := SearchBL(i, tl, xs, rest, tol);
      r.Ok? && r.value.Some? ==> Witnessed(tl, rest, r.value.value, tol) && r.value.value.box == Span(r.value.value.bl, r.value.value.tr)
    decreases |xs|
  {
    if |xs| > 0 {
      if EdgeExists(tl, xs[0].pt, Vertical, tol) {
        SearchTRAnchored(i, tl, xs[0], YPoints(rest, tl, tol), rest, tol);
      }
      SearchBLAnchored(i, tl, xs[1..], rest, tol);
    }
  }

  lemma PopStepAnchored(vals: seq<PointVal>, i: nat, tol: real, f: Found)
    requires i < |vals| && PopStep(vals, i, tol) == Ok(Some(f))
    ensures f.tl == i && Anchored(vals, f, tol)
  {
    var rest := vals[i + 1..];
    SearchBLAnchored(i, vals[i], XPoints(rest, vals[i], tol), rest, tol);
  }

  /** Each pop that finds a cell tags it with the position of its top-left point. */
  predicate Tagged(pops: seq<Result<Option<Found>>>) {
    forall i :: 0 <= i < |pops| && pops[i].Ok? && pops[i].value.Some? ==> pops[i].value.value.tl == i
  }

  /** At most one cell per popped point, in the order their top-left points were popped. */
  lemma {:induction false} PredictLoopShape(pops: seq<Result<Option<Found>>>, n: nat)
    requires n <= |pops| && Tagged(pops)
    ensures var r := Collect(pops, n);
      r.Ok? ==>
        |r.value| <= n &&
        (forall k :: 0 <= k < |r.value| ==> r.value[k].tl < n) &&
        (forall a, b :: 0 <= a < b < |r.value| ==> r.value[a].tl < r.value[b].tl)
    decreases n
  {
    if n > 0 {
      PredictLoopShape(pops, n - 1);
    }
  }

  predicate AllAnchored(vals: seq<PointVal>, fs: seq<Found>, tol: real) {
    forall k :: 0 <= k < |fs| ==> Anchored(vals, fs[k], tol)
  }

  lemma AllAnchoredAppend(vals: seq<PointVal>, fs: seq<Found>, f: Found, tol: real)
    requires AllAnchored(vals, fs, tol) && Anchored(vals, f, tol)
    ensures AllAnchored(vals, fs + [f], tol)
  {
    var r := fs + [f];
    forall k | 0 <= k < |r|
      ensures Anchored(vals, r[k], tol)
    {
      if k < |fs| {
        assert r[k] == fs[k];
      } else {
        assert r[k] == f;
      }
    }
  }

  /** Every cell a pop finds is anchored. */
  predicate PopsAnchored(vals: seq<PointVal>, pops: seq<Result<Option<Found>>>, tol: real) {
    forall i :: 0 <= i < |pops| && pops[i].Ok? && pops[i].value.Some? ==> Anchored(vals, pops[i].value.value, tol)
  }

  /** The pops of the deque tag and anchor the cells they find. */
  lemma PopsFacts(vals: seq<PointVal>, tol: real)
    ensures Tagged(Pops(vals, tol)) && PopsAnchored(vals, Pops(vals, tol), tol)
  {
    var pops := Pops(vals, tol);
    forall i | 0 <= i < |pops| && pops[i].Ok? && pops[i].value.Some?
      ensures pops[i].value.value.tl == i && Anchored(vals, pops[i].value.value, tol)
    {
      PopsAt(vals, tol, |vals|, i);
      PopStepAnchored(vals, i, tol, pops[i].value.value);
    }
  }

  /** Every cell found after the first `n` pops is anchored. */
  lemma {:induction false} PredictLoopAnchored(vals: seq<PointVal>, pops: seq<Result<Option<Found>>>, n: nat, tol: real)
    requires n <= |pops| && PopsAnchored(vals, pops, tol)
    ensures Collect(pops, n).Ok? ==> AllAnchored(vals, Collect(pops, n).value, tol)
    decreases n
  {
    if n > 0 {
      PredictLoopAnchored(vals, pops, n - 1, tol);
      var acc := Collect(pops, n - 1);
      var f := pops[n - 1];
      if acc.Ok? && f.Ok? && f.value.Some? {
        AllAnchoredAppend(vals, acc.value, f.value.value, tol);
      } else if acc.Ok? && f.Ok? {
        assert acc.value + [] == acc.value;
      }
    }
  }

  /** `predict` builds at most one cell per point, each anchored as above and at least the
      minimum width and height. */
  lemma PredictSpecFacts(vals: seq<PointVal>, tol: real, minW: real, minH: real)
    ensures var r := PredictSpec(vals, tol, minW, minH);
      r.Ok? ==>
        |r.value| <= |vals| &&
        AllAnchored(vals, r.value, tol) &&
        forall k :: 0 <= k < |r.value| ==> r.value[k].box.Width() >= minW && r.value[k].box.Height() >= minH
  {
    PopsFacts(vals, tol);
    PredictLoopShape(Pops(vals, tol), |vals|);
    PredictLoopAnchored(vals, Pops(vals, tol), |vals|, tol);
  }

  /** Candidate `m` of `xs` is the one `SearchBL` settles on, and every earlier candidate lacks
      the vertical edge or closes no cell. */
  predicate WinsAt(i: nat, tl: PointVal, xs: seq<PointVal>, rest: seq<PointVal>, tol: real, m: nat, r: Result<Option<Found>>) {
    m < |xs| && r.Ok? && r.value.Some? && xs[m].pt == r.value.value.bl &&
    EdgeExists(tl, xs[m].pt, Vertical, tol) && ComputeRect(i, tl, xs[m], rest, tol) == r &&
    forall m' :: 0 <= m' < m ==>
      !EdgeExists(tl, xs[m'].pt, Vertical, tol) || ComputeRect(i, tl, xs[m'], rest, tol) == Ok(None)
  }

  /** The bottom-left candidates are tried in deque order and the first that closes a cell
      wins. */
  lemma {:induction false} SearchBLFirst(i: nat, tl: PointVal, xs: seq<PointVal>, rest: seq<PointVal>, tol: real)
    requires SearchBL(i, tl, xs, rest, tol).Ok? && SearchBL(i, tl, xs, rest, tol).value.Some?
    ensures exists m: nat :: WinsAt(i, tl, xs, rest, tol, m, SearchBL(i, tl, xs, rest, tol))
    decreases |xs|
  {
    var r := SearchBL(i, tl, xs, rest, tol);
    if EdgeExists(tl, xs[0].pt, Vertical, tol) && ComputeRect(i, tl, xs[0], rest, tol).value.Some? {
      assert WinsAt(i, tl, xs, rest, tol, 0, r);
    } else {
      SearchBLFirst(i, tl, xs[1..], rest, tol);
      var m: nat :| WinsAt(i, tl, xs[1..], rest, tol, m, r);
      assert xs[m + 1] == xs[1..][m];
      forall m' | 0 <= m' < m + 1
        ensures !EdgeExists(tl, xs[m'].pt, Vertical, tol) || ComputeRect(i, tl, xs[m'], rest, tol) == Ok(None)
      {
        if m' > 0 {
          assert xs[m'] == xs[1..][m' - 1];
        }
      }
      assert WinsAt(i, tl, xs, rest, tol, m + 1, r);
    }
  }

  /** The deque order `(-y, x)`. */
  function ValKey(p: PointVal): Key {
    Key(-p.pt.y, p.pt.x)
  }

  lemma {:induction false} FilterSorted(s: seq<PointVal>, p: PointVal -> bool)
    requires SortedBy(s, ValKey)
    ensures SortedBy(Filter(s, p), ValKey)
    decreases |s|
  {
    if |s| > 0 {
      var init := s[..|s| - 1];
      assert SortedBy(init, ValKey);
      FilterSorted(init, p);
      var fi := Filter(init, p);
      forall k | 0 <= k < |fi|
        ensures KeyLe(ValKey(fi[k]), ValKey(s[|s| - 1]))
      {
        var j :| 0 <= j < |init| && init[j] == fi[k];
      }
    }
  }

  /** With the deque in `(-y, x)` order, the bottom-left candidates come nearest first (highest
      first) and the top-right candidates, all at about the same height, leftmost first among
      equal heights. */
  lemma CandidatesOrdered(vals: seq<PointVal>, i: nat, tol: real)
    requires i < |vals| && SortedBy(vals, ValKey)
    ensures SortedBy(XPoints(vals[i + 1..], vals[i], tol), ValKey)
    ensures SortedBy(YPoints(vals[i + 1..], vals[i], tol), ValKey)
  {
    assert SortedBy(vals[i + 1..], ValKey);
    FilterSorted(vals[i + 1..], q => BelowOf(vals[i], q, tol));
    FilterSorted(vals[i + 1..], q => RightOf(vals[i], q, tol));
  }

  /** One turn of the top-right loop: candidate `m` either closes the cell or the search
      moves on to the next candidate. */
  lemma SearchTRStep(i: nat, tl: PointVal, bl: PointVal, ys: seq<PointVal>, m: nat, rest: seq<PointVal>, tol: real)
    requires m < |ys|
    ensures SearchTR(i, tl, bl, ys[m..], rest, tol) ==
      if EdgeExists(tl, ys[m].pt, Horizontal, tol) && Closes(bl, ys[m], rest, tol) then
        (if |bl.vLines| == 0 then Err(IndexError)
         else Ok(Some(Found(i, bl.pt, ys[m].pt, Span(bl.pt, ys[m].pt), bl.vLines[0].style))))
      else SearchTR(i, tl, bl, ys[m + 1..], rest, tol)
  {
    assert ys[m..][0] == ys[m] && ys[m..][1..] == ys[m + 1..];
  }

  /** One turn of the bottom-left loop. */
  lemma SearchBLStep(i: nat, tl: PointVal, xs: seq<PointVal>, m: nat, rest: seq<PointVal>, tol: real)
    requires m < |xs|
    ensures SearchBL(i, tl, xs[m..], rest, tol) ==
      if !EdgeExists(tl, xs[m].pt, Vertical, tol) then SearchBL(i, tl, xs[m + 1..], rest, tol)
      else match ComputeRect(i, tl, xs[m], rest, tol)
        case Err(e) => Err(e)
        case Ok(c) => if c.Some? then Ok(c) else SearchBL(i, tl, xs[m + 1..], rest, tol)
  {
    assert xs[m..][0] == xs[m] && xs[m..][1..] == xs[m + 1..];
  }

  /** `PDFLTPointIntersect`: a point and the lines that meet there, filed by orientation. */
  class PointIntersect {
    const pt: Point
    var vLines: seq<Line>
    var hLines: seq<Line>

    function Value(): PointVal
      reads this
    {
      PointVal(pt, vLines, hLines)
    }

    constructor (pt: Point, lines: seq<Line>)
      ensures Value() == NewPoint(pt, lines)
    {
      this.pt := pt;
      vLines := Filter(lines, IsVertical);
      hLines := Filter(lines, IsHorizontal);
    }

    /** `add_line`: scans the list of the line's orientation and returns at the first close
        line; otherwise appends. */
    method AddLine(l: Line, tol: real)
      modifies this
      ensures Value() == WithLine(old(Value()), l, tol)
    {
      if l.Orient() == Vertical {
        var i := 0;
        while i < |vLines|
          invariant 0 <= i <= |vLines|
          invariant forall k :: 0 <= k < i ==> !IsClose(l, vLines[k], tol)
        {
          if IsClose(l, vLines[i], tol) {
            return;
          }
          i := i + 1;
        }
        vLines := vLines + [l];
      } else {
        var i := 0;
        while i < |hLines|
          invariant 0 <= i <= |hLines|
          invariant forall k :: 0 <= k < i ==> !IsClose(l, hLines[k], tol)
        {
          if IsClose(l, hLines[i], tol) {
            return;
          }
          i := i + 1;
        }
        hLines := hLines + [l];
      }
    }

    /** `add_lines`: `add_line` on each line in turn. */
    method AddLines(ls: seq<Line>, tol: real)
      modifies this
      ensures Value() == WithLines(old(Value()), ls, tol)
    {
      var i := 0;
      while i < |ls|
        invariant 0 <= i <= |ls|
        invariant Value() == WithLines(old(Value()), ls[..i], tol)
      {
        assert ls[..i + 1][..i] == ls[..i];
        AddLine(ls[i], tol);
        i := i + 1;
      }
      assert ls[..i] == ls;
    }

    /** `edge_exists_between`: scans the lines of orientation `o` for one within `tol` of `q`. */
    method EdgeExistsBetween(q: Point, o: Orientation, tol: real) returns (b: bool)
      ensures b == EdgeExists(Value(), q, o, tol)
    {
      b := ScanEdges(Value(), q, o, tol);
    }
  }

  /** The states of a sequence of point objects, in order. */
  function ValuesOf(os: seq<PointIntersect>): (r: seq<PointVal>)
    reads set o | o in os
    ensures |r| == |os|
    ensures forall k :: 0 <= k < |os| ==> r[k] == os[k].Value()
    decreases |os|
  {
    if |os| == 0 then [] else ValuesOf(os[..|os| - 1]) + [os[|os| - 1].Value()]
  }

  /** The deque order `(-y, x)` on point objects. */
  function PointKey(o: PointIntersect): Key {
    Key(-o.pt.y, o.pt.x)
  }

  /** `PDFLTIntersections`: the stored intersection points and the parameters `fit` and
      `predict` use. */
  class PDFIntersections {
    const positionTol: real
    const directionTol: real
    const minRectWidth: real
    const minRectHeight: real
    var points: seq<PointIntersect>

    /** No point object is stored twice. */
    predicate Valid()
      reads this
    {
      forall i, j :: 0 <= i < j < |points| ==> points[i] != points[j]
    }

    function Values(): seq<PointVal>
      reads this, set o | o in points
    {
      ValuesOf(points)
    }

    constructor (positionTol: real, directionTol: real, minRectWidth: real, minRectHeight: real)
      ensures Valid() && points == []
      ensures this.positionTol == positionTol && this.directionTol == directionTol
      ensures this.minRectWidth == minRectWidth && this.minRectHeight == minRectHeight
    {
      this.positionTol := positionTol;
      this.directionTol := directionTol;
      this.minRectWidth := minRectWidth;
      this.minRectHeight := minRectHeight;
      points := [];
    }

    /** `_add(point, line0, line1)`. */
    method Add(p: Point, l0: Line, l1: Line)
      requires Valid()
      modifies this, set o | o in points
      ensures Valid()
      ensures Values() == AddSpec(old(Values()), p, l0, l1, positionTol)
      ensures forall o :: o in points ==> o in old(points) || fresh(o)
    {
      var i := FindPoint(p);
      if i < |points| {
        MergeAt(i, [l0, l1]);
      } else {
        AppendPoint(p, [l0, l1]);
      }
    }

    /** `intr.add_lines(...)` on the stored point at position `i`: that point alone changes. */
    method MergeAt(i: nat, ls: seq<Line>)
      requires Valid() && i < |points|
      modifies points[i]
      ensures Valid() && points == old(points)
      ensures Values() == old(Values())[i := WithLines(old(Values())[i], ls, positionTol)]
    {
      ghost var ps := Values();
      points[i].AddLines(ls, positionTol);
      forall k | 0 <= k < |points|
        ensures Values()[k] == ps[i := WithLines(ps[i], ls, positionTol)][k]
      {
        if k != i {
          assert points[k] != points[i];
        }
      }
    }

    /** `self._intersects.append(PDFLTPointIntersect(point, lines))`. */
    method AppendPoint(p: Point, ls: seq<Line>)
      requires Valid()
      modifies this
      ensures Valid()
      ensures Values() == old(Values()) + [NewPoint(p, ls)]
      ensures forall o :: o in points ==> o in old(points) || fresh(o)
    {
      ghost var ps := Values();
      var np := new PointIntersect(p, ls);
      points := points + [np];
      assert Values() == ps + [np.Value()];
    }

    /** The scan of `_add` for the first stored point within the position tolerance. */
    method FindPoint(p: Point) returns (i: nat)
      ensures i == FindNear(Values(), p, positionTol)
    {
      ghost var ps := Values();
      i := 0;
      while i < |points|
        invariant 0 <= i <= |points|
        invariant forall j :: 0 <= j < i ==> !Near(DistSq(ps[j].pt, p), positionTol)
      {
        if Near(DistSq(points[i].pt, p), positionTol) {
          return;
        }
        i := i + 1;
      }
    }

    /** One pair of `fit`'s double loop: skipped when the lines are close, otherwise the
        crossing `intersect_param` reports, if any, is merged in by `_add`. */
    method MeetPair(l0: Line, l1: Line) returns (r: Result<()>)
      requires Valid()
      modifies this, set o | o in points
      ensures Valid()
      ensures forall o :: o in points ==> o in old(points) || fresh(o)
      ensures var spec := PairStep(old(Values()), l0, l1, positionTol, directionTol);
        (r.Ok? <==> spec.Ok?) && (r.Ok? ==> Values() == spec.value) && (r.Err? ==> r.error == spec.error)
    {
      if IsClose(l0, l1, positionTol) {
        return Ok(());
      }
      var hit := IntersectParam(l0, l1, positionTol, directionTol);
      if hit.Err? {
        return Err(hit.error);
      }
      if hit.value.Some? {
        Add(hit.value.value.point, l0, l1);
      }
      return Ok(());
    }

    /** The inner loop of `fit`: the popped line `l0` met with each remaining line in turn. */
    method MeetAll(l0: Line, rest: seq<Line>) returns (r: Result<()>)
      requires Valid()
      modifies this, set o | o in points
      ensures Valid()
      ensures forall o :: o in points ==> o in old(points) || fresh(o)
      ensures var spec := InnerSpec(old(Values()), l0, rest, positionTol, directionTol);
        (r.Ok? <==> spec.Ok?) && (r.Ok? ==> Values() == spec.value) && (r.Err? ==> r.error == spec.error)
    {
      ghost var q0 := Values();
      var j := 0;
      while j < |rest|
        invariant 0 <= j <= |rest|
        invariant Valid()
        invariant forall o :: o in points ==> o in old(points) || fresh(o)
        invariant InnerSpec(q0, l0, rest[..j], positionTol, directionTol) == Ok(Values())
      {
        assert rest[..j + 1][..j] == rest[..j];
        var step := MeetPair(l0, rest[j]);
        if step.Err? {
          InnerSpecErrSticks(q0, l0, rest, j + 1, positionTol, directionTol, step.error);
          return step;
        }
        j := j + 1;
      }
      assert rest[..j] == rest;
      return Ok(());
    }

    /** `fit(lines)`: the lines sorted by `-y0`, then each popped line met with every line
        after it. An error raised by `intersect_param` ends the loop and is passed on. */
    method Fit(lines: seq<Line>) returns (r: Result<()>)
      requires Valid()
      modifies this, set o | o in points
      ensures Valid()
      ensures forall o :: o in points ==> o in old(points) || fresh(o)
      ensures var spec := FitSpec(old(Values()), lines, positionTol, directionTol);
        (r.Ok? <==> spec.Ok?) && (r.Ok? ==> Values() == spec.value) && (r.Err? ==> r.error == spec.error)
    {
      var ls := SortBy(lines, FitKey);
      r := MeetSorted(ls);
    }

    /** One turn of `fit`'s outer loop: line `i` popped and met with the lines after it. */
    method MeetLine(ls: seq<Line>, i: nat, ghost ps0: seq<PointVal>) returns (r: Result<()>)
      requires Valid() && i < |ls| && OuterSpec(ps0, ls, i, positionTol, directionTol) == Ok(Values())
      modifies this, set o | o in points
      ensures Valid()
      ensures forall o :: o in points ==> o in old(points) || fresh(o)
      ensures r.Ok? ==> OuterSpec(ps0, ls, i + 1, positionTol, directionTol) == Ok(Values())
      ensures r.Err? ==> OuterSpec(ps0, ls, |ls|, positionTol, directionTol) == Err(r.error)
    {
      OuterSpecNext(ps0, ls, i, Values(), positionTol, directionTol);
      r := MeetAll(ls[i], ls[i + 1..]);
      if r.Err? {
        OuterSpecErrSticks(ps0, ls, i + 1, |ls|, positionTol, directionTol, r.error);
      }
    }

    /** The double loop of `fit` on the sorted lines. */
    method MeetSorted(ls: seq<Line>) returns (r: Result<()>)
      requires Valid()
      modifies this, set o | o in points
      ensures Valid()
      ensures forall o :: o in points ==> o in old(points) || fresh(o)
      ensures r.Ok? ==> OuterSpec(old(Values()), ls, |ls|, positionTol, directionTol) == Ok(Values())
      ensures r.Err? ==> OuterSpec(old(Values()), ls, |ls|, positionTol, directionTol) == Err(r.error)
    {
      ghost var ps0 := Values();
      ghost var cur := ps0;
      var i := 0;
      while i < |ls|
        invariant 0 <= i <= |ls|
        invariant Valid()
        invariant forall o :: o in points ==> o in old(points) || fresh(o)
        invariant cur == Values()
        invariant OuterSpec(ps0, ls, i, positionTol, directionTol) == Ok(cur)
      {
        var step := MeetLine(ls, i, ps0);
        if step.Err? {
          return step;
        }
        cur := Values();
        i := i + 1;
      }
      return Ok(());
    }

    /** `as_deque()`: the stored points in `(-y, x)` order. */
    method AsDeque() returns (d: seq<PointIntersect>)
      ensures SortedBy(d, PointKey) && multiset(d) == multiset(points)
      ensures d == SortBy(points, PointKey)
    {
      d := SortBy(points, PointKey);
    }

    /** `predict()`: each point popped from the deque in turn as a top-left corner, and the
        cells too small dropped at the end. `predict` changes no point, so it runs on the
        states of the deque's points. */
    method Predict() returns (r: Result<seq<Node>>)
      ensures r == FoundCells(PredictSpec(ValuesOf(SortBy(points, PointKey)), positionTol, minRectWidth, minRectHeight))
    {
      var d := AsDeque();
      var found := PredictScan(ValuesOf(d), positionTol, minRectWidth, minRectHeight);
      r := FoundCells(found);
    }
  }

  /** The scan behind `edge_exists_between`: the lines of orientation `o` at `p`, in order,
      until one passes within `tol` of `q`. */
  method ScanEdges(p: PointVal, q: Point, o: Orientation, tol: real) returns (b: bool)
    ensures b == EdgeExists(p, q, o, tol)
  {
    var ls := if o == Vertical then p.vLines else p.hLines;
    assert ls == LinesOf(p, o);
    var i := 0;
    while i < |ls|
      invariant 0 <= i <= |ls|
      invariant forall k :: 0 <= k < i ==> !Near(MinDistanceSq(ls[k], q), tol)
    {
      if Near(MinDistanceSq(ls[i], q), tol) {
        return true;
      }
      i := i + 1;
    }
    return false;
  }

  /** `_point_exists(deque, q)`: the deque scanned for a point within `tol` of `q`. */
  method ScanPoints(rest: seq<PointVal>, q: Point, tol: real) returns (b: bool)
    ensures b == PointExists(rest, q, tol)
  {
    var i := 0;
    while i < |rest|
      invariant 0 <= i <= |rest|
      invariant forall k :: 0 <= k < i ==> !Near(DistSq(rest[k].pt, q), tol)
    {
      if Near(DistSq(rest[i].pt, q), tol) {
        return true;
      }
      i := i + 1;
    }
    return false;
  }

  /** The four edge and corner checks `_compute_rect` makes on the top-right candidate `y`. */
  method ClosesAt(tl: PointVal, bl: PointVal, y: PointVal, rest: seq<PointVal>, tol: real) returns (b: bool)
    ensures b == (EdgeExists(tl, y.pt, Horizontal, tol) && Closes(bl, y, rest, tol))
  {
    var top := ScanEdges(tl, y.pt, Horizontal, tol);
    if !top {
      return false;
    }
    var br := Point(y.pt.x, bl.pt.y);
    var corner := ScanPoints(rest, br, tol);
    if !corner {
      return false;
    }
    var bottom := ScanEdges(bl, br, Horizontal, tol);
    if !bottom {
      return false;
    }
    b := ScanEdges(y, br, Vertical, tol);
  }

  /** `_compute_rect(top_left, btm_left, deque)`, for the top-left point popped at position
      `i`: the top-right candidates in deque order, until one closes the cell. */
  method ComputeRectScan(i: nat, tl: PointVal, bl: PointVal, rest: seq<PointVal>, tol: real) returns (c: Result<Option<Found>>)
    ensures c == ComputeRect(i, tl, bl, rest, tol)
  {
    var ys := YPoints(rest, tl, tol);
    var m := 0;
    while m < |ys|
      invariant 0 <= m <= |ys|
      invariant ComputeRect(i, tl, bl, rest, tol) == SearchTR(i, tl, bl, ys[m..], rest, tol)
    {
      SearchTRStep(i, tl, bl, ys, m, rest, tol);
      var ok := ClosesAt(tl, bl, ys[m], rest, tol);
      if ok {
        if |bl.vLines| == 0 {
          return Err(IndexError);
        }
        return Ok(Some(Found(i, bl.pt, ys[m].pt, Span(bl.pt, ys[m].pt), bl.vLines[0].style)));
      }
      m := m + 1;
    }
    return Ok(None);
  }

  /** Popping the point at position `i` of the deque as a top-left corner: its bottom-left
      candidates are tried in order until one closes a cell. */
  method PopScan(vals: seq<PointVal>, i: nat, tol: real) returns (hit: Result<Option<Found>>)
    requires i < |vals|
    ensures hit == Pops(vals, tol)[i]
  {
    PopsAt(vals, tol, |vals|, i);
    var tl := vals[i];
    var rest := vals[i + 1..];
    var xs := XPoints(rest, tl, tol);
    var m := 0;
    while m < |xs|
      invariant 0 <= m <= |xs|
      invariant PopStep(vals, i, tol) == SearchBL(i, tl, xs[m..], rest, tol)
    {
      SearchBLStep(i, tl, xs, m, rest, tol);
      var left := ScanEdges(tl, xs[m].pt, Vertical, tol);
      if left {
        var c := ComputeRectScan(i, tl, xs[m], rest, tol);
        if c.Err? || c.value.Some? {
          return c;
        }
      }
      m := m + 1;
    }
    return Ok(None);
  }

  /** One iteration of `predict`: pop the point at position `i` and keep the cell it closes. */
  method PredictStep(vals: seq<PointVal>, i: nat, tol: real, found: seq<Found>) returns (r: Result<seq<Found>>)
    requires i < |vals| && Collect(Pops(vals, tol), i) == Ok(found)
    ensures r == Collect(Pops(vals, tol), i + 1)
  {
    var hit := PopScan(vals, i, tol);
    CollectNext(Pops(vals, tol), i, found);
    if hit.Err? {
      return Err(hit.error);
    }
    if hit.value.Some? {
      return Ok(found + [hit.value.value]);
    }
    return Ok(found);
  }

  /** The loop of `predict` over the deque's point states. */
  method PredictAll(vals: seq<PointVal>, tol: real) returns (r: Result<seq<Found>>)
    ensures r == Collect(Pops(vals, tol), |vals|)
  {
    var found: seq<Found> := [];
    ghost var pops := Pops(vals, tol);
    var i := 0;
    while i < |vals|
      invariant 0 <= i <= |vals|
      invariant Collect(pops, i) == Ok(found)
    {
      var next := PredictStep(vals, i, tol, found);
      if next.Err? {
        PredictLoopErrSticks(pops, i + 1, |vals|, next.error);
        return Err(next.error);
      }
      found := next.value;
      i := i + 1;
    }
    return Ok(found);
  }

  /** `predict`: the loop over the deque's point states, then the size filter. */
  method PredictScan(vals: seq<PointVal>, tol: real, minW: real, minH: real) returns (r: Result<seq<Found>>)
    ensures r == PredictSpec(vals, tol, minW, minH)
  {
    var found :- PredictAll(vals, tol);
    return Ok(KeepBig(found, minW, minH));
  }

  /** The `PDFLTRect` built for a cell; it has no children yet. */
  function ToRect(f: Found): (n: Node)
    ensures n.RectNode? && n.box == f.box && n.style == f.style && n.kids == []
  {
    RectNode(f.box, f.style, [])
  }

  function FoundCells(r: Result<seq<Found>>): Result<seq<Node>> {
    match r
    case Err(e) => Err(e)
    case Ok(fs) => Ok(Map(fs, ToRect))
  }
}
