/** The MV composer's own passes over the cells the generic composer built: red cross marks are
    deduplicated, and inside each cell the children that make up one measure line (a Yes/No
    checkbox line, or a label with its numbered values and yellow boxes) are regrouped under a
    new rect. */
module MvComposer {
  import opened Outcomes
  import opened PyStr
  import opened Sorting
  import opened Geometry
  import opened Lines
  import opened Primitives
  import opened Components

  // ----- Cross marks -----

  /** `stroking_color == [1, 0, 0]`: only a list colour compares equal to a list. */
  predicate IsRed(c: Color) {
    c.ListColor? && c.components == [1.0, 0.0, 0.0]
  }

  predicate IsRedLine(p: Primitive) {
    p.PLine? && IsRed(p.style.strokingColor)
  }

  /** The red lines of the page, in page order, as segments. */
  function RedLines(page: seq<Primitive>): (r: seq<Line>)
    ensures forall k :: 0 <= k < |r| ==> IsRed(r[k].style.strokingColor)
    ensures forall j :: 0 <= j < |page| && IsRedLine(page[j]) ==> Line(page[j].box, page[j].style) in r
    decreases |page|
  {
    if |page| == 0 then []
    else
      var r := RedLines(page[..|page| - 1]);
      var p := page[|page| - 1];
      if IsRedLine(p) then r + [Line(p.box, p.style)] else r
  }

  /** Some kept cross's box holds the point. */
  predicate Covered(kept: seq<Line>, p: Point) {
    exists k :: 0 <= k < |kept| && kept[k].box.Contains(p)
  }

  /** The crosses kept from the red lines: each line in turn is kept unless its centre lies in
      the box of a cross kept before it. */
  function KeptCrosses(lines: seq<Line>): (kept: seq<Line>)
    ensures forall k :: 0 <= k < |kept| ==> kept[k] in lines
    decreases |lines|
  {
    if |lines| == 0 then []
    else
      var kept := KeptCrosses(lines[..|lines| - 1]);
      var l := lines[|lines| - 1];
      if Covered(kept, l.box.Center()) then kept else kept + [l]
  }

  /** No cross has its centre in the box of a cross before it. */
  predicate Separated(kept: seq<Line>) {
    forall i, j :: 0 <= i < j < |kept| ==> !kept[i].box.Contains(kept[j].box.Center())
  }

  /** The kept crosses are separated. */
  lemma {:induction false} KeptSeparated(lines: seq<Line>)
    ensures Separated(KeptCrosses(lines))
    decreases |lines|
  {
    if |lines| > 0 {
      var init := lines[..|lines| - 1];
      KeptSeparated(init);
      var kept := KeptCrosses(init);
      var l := lines[|lines| - 1];
      if !Covered(kept, l.box.Center()) {
        var r := kept + [l];
        assert KeptCrosses(lines) == r;
        forall i, j | 0 <= i < j < |r|
          ensures !r[i].box.Contains(r[j].box.Center())
        {
          if j == |kept| {
            assert r[i] == kept[i] && r[j] == l;
            assert !(0 <= i < |kept| && kept[i].box.Contains(l.box.Center()));
          } else {
            assert r[i] == kept[i] && r[j] == kept[j];
            assert !kept[i].box.Contains(kept[j].box.Center());
          }
        }
      } else {
        assert KeptCrosses(lines) == kept;
      }
    }
  }

  /** Every red line, kept or not, has its centre in the box of some kept cross, when the boxes
      are normalised. */
  lemma {:induction false} KeptCover(lines: seq<Line>)
    requires forall k :: 0 <= k < |lines| ==> lines[k].box.Normal()
    ensures forall k :: 0 <= k < |lines| ==> Covered(KeptCrosses(lines), lines[k].box.Center())
    decreases |lines|
  {
    if |lines| > 0 {
      var init := lines[..|lines| - 1];
      KeptCover(init);
      var kept := KeptCrosses(init);
      var l := lines[|lines| - 1];
      forall k | 0 <= k < |lines|
        ensures Covered(KeptCrosses(lines), lines[k].box.Center())
      {
        if k < |lines| - 1 {
          assert lines[k] == init[k];
          var q :| 0 <= q < |kept| && kept[q].box.Contains(lines[k].box.Center());
          assert KeptCrosses(lines)[q] == kept[q];
        } else if !Covered(kept, l.box.Center()) {
          assert KeptCrosses(lines)[|kept|] == l;
        }
      }
    }
  }

  /** A cross is a curve drawn over the segment, in the segment's style. */
  function CurvesOf(lines: seq<Line>): (r: seq<Node>)
    ensures |r| == |lines|
    ensures forall k :: 0 <= k < |lines| ==> r[k] == CurveNode(lines[k].box, lines[k].style)
  {
    seq(|lines|, k requires 0 <= k < |lines| => CurveNode(lines[k].box, lines[k].style))
  }

  /** `_compute_crosses` up to the assignment of the crosses to the cells: the deque of red
      lines drained into the deque of crosses. */
  method ComputeCrosses(page: seq<Primitive>) returns (crosses: seq<Node>)
    ensures crosses == CurvesOf(KeptCrosses(RedLines(page)))
  {
    var partial := RedLines(page);
    var kept: seq<Line> := [];
    var i := 0;
    while i < |partial|
      invariant i <= |partial|
      invariant kept == KeptCrosses(partial[..i])
    {
      assert partial[..i + 1][..i] == partial[..i];
      var cross0 := partial[i];
      var c := cross0.box.Center();
      var skip := false;
      var k := 0;
      while k < |kept| && !skip
        invariant k <= |kept|
        invariant !skip ==> forall q :: 0 <= q < k ==> !kept[q].box.Contains(c)
        invariant skip ==> Covered(kept, c)
      {
        if kept[k].box.Contains(c) {
          skip := true;
        }
        k := k + 1;
      }
      if !skip {
        kept := kept + [cross0];
      }
      i := i + 1;
    }
    assert partial[..i] == partial;
    crosses := CurvesOf(kept);
  }

  // ----- Regrouping the children of a cell -----

  /** `.element.linewidth`: rects and curves carry a line width; text and figures do not. */
  function LineWidth(n: Node): (r: Result<real>)
    ensures r.Ok? <==> n.RectNode? || n.CurveNode?
    ensures r.Err? ==> r.error == AttributeError
  {
    match n
    case RectNode(_, st, _) => Ok(st.linewidth)
    case CurveNode(_, st) => Ok(st.linewidth)
    case TextBoxNode(_, _) => Err(AttributeError)
    case TextLineNode(_, _) => Err(AttributeError)
    case FigureNode(_) => Err(AttributeError)
  }

  function Min(a: real, b: real): real {
    if a <= b then a else b
  }

  /** The smallest box holding both boxes. */
  function Span(a: Box, b: Box): (r: Box)
    ensures r.x0 <= a.x0 && r.x0 <= b.x0 && r.y0 <= a.y0 && r.y0 <= b.y0
    ensures r.x1 >= a.x1 && r.x1 >= b.x1 && r.y1 >= a.y1 && r.y1 >= b.y1
  {
    Box(Min(a.x0, b.x0), Min(a.y0, b.y0), Max(a.x1, b.x1), Max(a.y1, b.y1))
  }

  /** The smallest box holding the boxes of all the nodes. */
  function Hull(ns: seq<Node>): (r: Box)
    requires |ns| > 0
    ensures forall k :: 0 <= k < |ns| ==>
      r.x0 <= ns[k].box.x0 && r.y0 <= ns[k].box.y0 && r.x1 >= ns[k].box.x1 && r.y1 >= ns[k].box.y1
    decreases |ns|
  {
    if |ns| == 1 then ns[0].box else Span(Hull(ns[..|ns| - 1]), ns[|ns| - 1].box)
  }

  /** `[line_rect.add(c) for c in cs]`: the container grows by exactly the nodes added. */
  function AddAll(n: Node, cs: seq<Node>): (r: Node)
    requires n.IsContainer()
    ensures r.IsContainer() && r.box == n.box && (r.RectNode? <==> n.RectNode?)
    ensures Size(r) == Size(n) + KidsSize(cs)
    decreases |cs|
  {
    if |cs| == 0 then n else Add(AddAll(n, cs[..|cs| - 1]), cs[|cs| - 1])
  }

  /** A new rect of the given box and line width holding `cs`, its children then re-sorted by
      `key`. It holds exactly the nodes of `cs` and itself. */
  function LineRect(box: Box, lw: real, cs: seq<Node>, key: Node -> Key): (r: Node)
    ensures r.RectNode? && r.box == box && Size(r) == 1 + KidsSize(cs)
  {
    var filled := AddAll(RectNode(box, PlainStyle(lw), []), cs);
    KidsSizeIsSum(filled.kids);
    KidsSizeIsSum(SortBy(filled.kids, key));
    SumBySort(filled.kids, key, Size);
    filled.(kids := SortBy(filled.kids, key))
  }

  lemma KidsSizeAppend(a: seq<Node>, b: seq<Node>)
    ensures KidsSize(a + b) == KidsSize(a) + KidsSize(b)
  {
    KidsSizeIsSum(a + b);
    KidsSizeIsSum(a);
    KidsSizeIsSum(b);
    SumByAppend(a, b, Size);
  }

  /** `rect.children[:i] + [line] + rect.children[e + 1:]`. */
  function Splice(kids: seq<Node>, i: nat, e: nat, line: Node): (r: seq<Node>)
    requires i <= e < |kids|
    ensures |r| == |kids| - (e - i)
    ensures KidsSize(r) + KidsSize(kids[i..e + 1]) == KidsSize(kids) + Size(line)
  {
    var r := kids[..i] + [line] + kids[e + 1..];
    assert kids == kids[..i] + kids[i..e + 1] + kids[e + 1..];
    KidsSizeAppend(kids[..i] + kids[i..e + 1], kids[e + 1..]);
    KidsSizeAppend(kids[..i], kids[i..e + 1]);
    KidsSizeAppend(kids[..i] + [line], kids[e + 1..]);
    KidsSizeAppend(kids[..i], [line]);
    assert KidsSize([line]) == Size(line) by {
      assert [line][..0] == [];
    }
    r
  }

  /** One pass of the loop over a cell's children: the children afterwards, where the index
      stands, and whether a line rect was made. */
  datatype Step = Step(kids: seq<Node>, next: nat, grouped: bool)

  /** What a step promises: the loop measure falls, and the children are either unchanged or
      grow by exactly the one new rect, nothing being lost. */
  predicate Progress(kids: seq<Node>, i: nat, s: Step) {
    |s.kids| - s.next < |kids| - i &&
    (s.grouped ==> KidsSize(s.kids) == KidsSize(kids) + 1) &&
    (!s.grouped ==> s.kids == kids)
  }

  /** Replacing a run of children by a rect that holds exactly that run is progress. */
  lemma SpliceProgress(kids: seq<Node>, i: nat, e: nat, line: Node)
    requires i <= e < |kids| && Size(line) == 1 + KidsSize(kids[i..e + 1])
    ensures Progress(kids, i, Step(Splice(kids, i, e, line), i + 1, true))
  {
  }

  /** The first rect at or after position `j`, or the end. */
  function FirstRect(kids: seq<Node>, j: nat): (k: nat)
    requires j <= |kids|
    ensures j <= k <= |kids|
    ensures k < |kids| ==> kids[k].RectNode?
    ensures forall q :: j <= q < k ==> !kids[q].RectNode?
    decreases |kids| - j
  {
    if j == |kids| then |kids|
    else if kids[j].RectNode? then j
    else FirstRect(kids, j + 1)
  }

  /** A "Yes" text box opens a checkbox line that runs to the first rect and the child after it,
      whose line width the new rect takes; the line's children are sorted by `x0`. Without a
      rect the scan runs off the end and the loop over the children ends; a rect in last place
      has no child after it and raises `IndexError`. */
  function YesStep(kids: seq<Node>, i: nat): (r: Result<Step>)
    requires i < |kids|
    ensures r.Ok? ==> Progress(kids, i, r.value)
    ensures FirstRect(kids, i) == |kids| - 1 ==> r == Err(IndexError)
  {
    YesUpTo(kids, i, FirstRect(kids, i))
  }

  /** The "Yes" branch once the scan for the rect stopped at `j`. */
  function YesUpTo(kids: seq<Node>, i: nat, j: nat): (r: Result<Step>)
    requires i <= j <= |kids|
    ensures r.Ok? ==> Progress(kids, i, r.value)
    ensures j == |kids| - 1 ==> r == Err(IndexError)
  {
    if j == |kids| then Ok(Step(kids, |kids| + 1, false))
    else if j + 1 == |kids| then Err(IndexError)
    else
      var lw :- LineWidth(kids[j + 1]);
      Ok(RunStep(kids, i, j + 1, lw, X0Key))
  }

  /** What the scan after a text box gathered: the children taken for the line, the position
      `end_idx` it stopped at, the position of the last child taken, the box over every child it
      looked at, and where the loop index `i` was left. */
  datatype Gathered = Gathered(taken: seq<Node>, last: nat, lastTaken: nat, span: Box, at: nat)

  /** Where the scan stands: what it gathered, whether values are numbered, and whether the last
      numbered value still waits for its rect. */
  datatype Scan = Scan(g: Gathered, multi: bool, pending: bool)

  /** What holds while the scan runs at position `j`: the text box at `start` was taken first,
      the children taken after it lie before `j`, and numbered values come with a value taken. */
  predicate Scanning(kids: seq<Node>, start: nat, j: nat, st: Scan) {
    start < j <= |kids| && start <= st.g.lastTaken < j && |st.g.taken| >= 1 &&
    (|st.g.taken| > 1 <==> st.g.lastTaken > start) && (st.multi ==> |st.g.taken| > 1)
  }

  /** What holds once the scan is over: it stopped inside the children, it took the text box
      and, if anything more, up to `lastTaken`; when it took nothing more, the index was left at
      the text box or at the end. */
  predicate Finished(kids: seq<Node>, start: nat, g: Gathered) {
    start <= g.lastTaken <= g.last < |kids| && |g.taken| >= 1 &&
    (|g.taken| > 1 <==> g.lastTaken > start) &&
    (|g.taken| == 1 ==> g.at == start || g.at == |kids|)
  }

  /** The scan goes on to the next child, or stops with what it gathered. */
  datatype Next = Go(st: Scan) | Stop(g: Gathered)

  /** `int(child.text.strip())` succeeds. */
  function IntText(c: Node): Result<bool> {
    var t :- Text(c);
    Ok(IsIntLiteral(Strip(t)))
  }

  /** The child at `j` during the scan after the text box at `start`: an integer text is taken as
      a numbered value; a rect is taken and ends the scan unless values are numbered, in which
      case each value takes one rect and a second rect in a row ends the scan; a non-integer text
      ends the scan and puts the index back to `start`; anything else is passed over. Every child
      looked at widens the box and moves `end_idx`. */
  function ScanChild(kids: seq<Node>, start: nat, j: nat, st: Scan): (r: Result<Next>)
    requires Scanning(kids, start, j, st) && j < |kids|
    ensures r.Ok? && r.value.Go? ==> Scanning(kids, start, j + 1, r.value.st)
    ensures r.Ok? && r.value.Stop? ==> Finished(kids, start, r.value.g)
    ensures r.Err? ==> kids[j].TextBoxNode?
  {
    var g := st.g;
    var c := kids[j];
    var span := Span(g.span, c.box);
    if c.TextBoxNode? then
      var isInt :- IntText(c);
      if isInt then Ok(Go(Scan(Gathered(g.taken + [c], j, j, span, j), true, true)))
      else Ok(Stop(Gathered(g.taken, j, g.lastTaken, span, start)))
    else if c.RectNode? then
      if st.multi && !st.pending then Ok(Stop(Gathered(g.taken, j, g.lastTaken, span, j)))
      else if st.multi then Ok(Go(Scan(Gathered(g.taken + [c], j, j, span, j), true, false)))
      else Ok(Stop(Gathered(g.taken + [c], j, j, span, j)))
    else
      Ok(Go(st.(g := g.(last := j, span := span))))
  }

  /** The scan from position `j` to where it stops or runs off the end. */
  function TextScan(kids: seq<Node>, start: nat, j: nat, st: Scan): (r: Result<Gathered>)
    requires Scanning(kids, start, j, st)
    ensures r.Ok? ==> Finished(kids, start, r.value)
    decreases |kids| - j
  {
    if j == |kids| then Ok(st.g.(last := j - 1, at := j))
    else
      var next :- ScanChild(kids, start, j, st);
      match next
      case Go(st') => TextScan(kids, start, j + 1, st')
      case Stop(g) => Ok(g)
  }

  /** The scan as it starts after the text box at `i`. */
  function ScanFrom(kids: seq<Node>, i: nat): (r: Result<Gathered>)
    requires i < |kids|
    ensures r.Ok? ==> Finished(kids, i, r.value)
  {
    TextScan(kids, i, i + 1, Scan(Gathered([kids[i]], i, i, kids[i].box, i), false, false))
  }

  /** The text-box step as written: the children taken go into a new rect over the box the scan
      spanned, with the line width of the last child taken, and `children[i:end_idx + 1]` is
      replaced by it, so the child that stopped the scan leaves the cell without entering the
      rect. */
  function TextStepAsWritten(kids: seq<Node>, i: nat): (r: Result<Step>)
    requires i < |kids|
    ensures r.Ok? && r.value.grouped ==>
      ScanFrom(kids, i).Ok? &&
      var g := ScanFrom(kids, i).value;
      |r.value.kids| == |kids| - (g.last - i) && r.value.kids[..i] == kids[..i] &&
      r.value.kids[i + 1..] == kids[g.last + 1..] && Size(r.value.kids[i]) == 1 + KidsSize(g.taken)
  {
    var g :- ScanFrom(kids, i);
    LineAsWritten(kids, i, g)
  }

  /** The line the as-written step makes of what the scan gathered: the children from the text
      box up to `last`, where the scan stopped, give way to one rect, and that rect holds only
      the children taken. */
  function LineAsWritten(kids: seq<Node>, i: nat, g: Gathered): (r: Result<Step>)
    requires Finished(kids, i, g)
    ensures r.Ok? && |g.taken| > 1 ==>
      r.value.grouped && |r.value.kids| == |kids| - (g.last - i) && r.value.kids[..i] == kids[..i] &&
      r.value.kids[i + 1..] == kids[g.last + 1..] && Size(r.value.kids[i]) == 1 + KidsSize(g.taken)
    ensures |g.taken| <= 1 ==> r == Ok(Step(kids, g.at + 1, false))
  {
    if |g.taken| > 1 then
      var lw :- LineWidth(g.taken[|g.taken| - 1]);
      var line := LineRect(g.span, lw, g.taken, ChildKey);
      Ok(Step(Splice(kids, i, g.last, line), i + 1, true))
    else
      Ok(Step(kids, g.at + 1, false))
  }

  /** The text-box step with the line made of the contiguous children from the text box to the
      last child taken: those, and only those, leave the cell for the new rect. */
  function TextStep(kids: seq<Node>, i: nat): (r: Result<Step>)
    requires i < |kids|
    ensures r.Ok? ==> Progress(kids, i, r.value)
  {
    var g :- ScanFrom(kids, i);
    LineOfRun(kids, i, g)
  }

  /** The line made of the children from the text box to the last child taken. */
  function LineOfRun(kids: seq<Node>, i: nat, g: Gathered): (r: Result<Step>)
    requires Finished(kids, i, g)
    ensures r.Ok? ==> Progress(kids, i, r.value)
  {
    if g.lastTaken > i then
      var lw :- LineWidth(kids[g.lastTaken]);
      Ok(RunStep(kids, i, g.lastTaken, lw, ChildKey))
    else
      Ok(Step(kids, g.at + 1, false))
  }

  /** The children from `i` to `e` replaced by a rect over their hull that holds them, sorted
      by `key`. */
  function RunStep(kids: seq<Node>, i: nat, e: nat, lw: real, key: Node -> Key): (r: Step)
    requires i < e < |kids|
    ensures Progress(kids, i, r)
  {
    var run := kids[i..e + 1];
    var line := LineRect(Hull(run), lw, run, key);
    SpliceProgress(kids, i, e, line);
    Step(Splice(kids, i, e, line), i + 1, true)
  }

  /** One pass of the loop at child `i`: a "Yes" text box opens a checkbox line, any other text
      box a measure line, and other children are passed over. */
  function StepAt(kids: seq<Node>, i: nat): (r: Result<Step>)
    requires i < |kids|
    ensures r.Ok? ==> Progress(kids, i, r.value)
  {
    if !kids[i].TextBoxNode? then Ok(Step(kids, i + 1, false))
    else
      var t :- Text(kids[i]);
      if Strip(t) == "Yes" then YesStep(kids, i) else TextStep(kids, i)
  }

  /** The loop over a cell's children from position `i`. */
  function RegroupFrom(kids: seq<Node>, i: nat): (r: Result<seq<Node>>)
    ensures r.Ok? ==> KidsSize(r.value) >= KidsSize(kids)
    decreases |kids| - i
  {
    if i >= |kids| then Ok(kids)
    else
      var s :- StepAt(kids, i);
      RegroupFrom(s.kids, s.next)
  }

  /** A cell with more than one child has its children regrouped; nothing in it is lost. */
  function RegroupCell(cell: Node): (r: Result<Node>)
    ensures r.Ok? ==> r.value.box == cell.box && Size(r.value) >= Size(cell)
  {
    if !cell.IsContainer() then Err(AttributeError)
    else if |cell.kids| <= 1 then Ok(cell)
    else
      var kids :- RegroupFrom(cell.kids, 0);
      Ok(cell.(kids := kids))
  }

  /** Each regrouped cell keeps its box and loses none of its components. */
  predicate Grown(cells: seq<Node>, out: seq<Node>) {
    |out| == |cells| &&
    forall q :: 0 <= q < |cells| ==> out[q].box == cells[q].box && Size(out[q]) >= Size(cells[q])
  }

  /** Every cell from position `k` in turn, after the cells regrouped so far. */
  function RegroupAll(cells: seq<Node>, k: nat, done: seq<Node>): (r: Result<seq<Node>>)
    requires k <= |cells| && Grown(cells[..k], done)
    ensures r.Ok? ==> Grown(cells, r.value)
    decreases |cells| - k
  {
    if k == |cells| then
      assert cells[..k] == cells;
      Ok(done)
    else
      var cell :- RegroupCell(cells[k]);
      assert cells[..k + 1][..k] == cells[..k];
      RegroupAll(cells, k + 1, done + [cell])
  }

  // ----- The loops -----

  /** The scan of the "Yes" branch for its rect. */
  method FindRect(kids: seq<Node>, j: nat) returns (k: nat)
    requires j <= |kids|
    ensures k == FirstRect(kids, j)
  {
    k := j;
    while k < |kids| && !kids[k].RectNode?
      invariant j <= k <= |kids|
      invariant FirstRect(kids, k) == FirstRect(kids, j)
      decreases |kids| - k
    {
      k := k + 1;
    }
  }

  /** The scan of the text branch, `while i < len(rect.children)` after the text box at `i`. */
  method ScanText(kids: seq<Node>, i: nat) returns (r: Result<Gathered>)
    requires i < |kids|
    ensures r == ScanFrom(kids, i)
  {
    r := ScanRest(kids, i, i + 1, Scan(Gathered([kids[i]], i, i, kids[i].box, i), false, false));
  }

  /** The scan from child `j` on, one child at a time, until a child stops it or the children
      run out. */
  method ScanRest(kids: seq<Node>, start: nat, j0: nat, st0: Scan) returns (r: Result<Gathered>)
    requires Scanning(kids, start, j0, st0)
    ensures r == TextScan(kids, start, j0, st0)
  {
    var st := st0;
    var j := j0;
    ghost var goal := TextScan(kids, start, j0, st0);
    while j < |kids|
      invariant Scanning(kids, start, j, st)
      invariant TextScan(kids, start, j, st) == goal
      decreases |kids| - j
    {
      var next := ScanChild(kids, start, j, st);
      TextScanStep(kids, start, j, st);
      if next.Err? {
        return Err(next.error);
      }
      if next.value.Stop? {
        return Ok(next.value.g);
      }
      st := next.value.st;
      j := j + 1;
    }
    return Ok(st.g.(last := j - 1, at := j));
  }

  /** One child of the scan: an error ends it, a stop gives what was gathered, and otherwise
      the scan goes on from the next child. */
  lemma TextScanStep(kids: seq<Node>, start: nat, j: nat, st: Scan)
    requires Scanning(kids, start, j, st) && j < |kids|
    ensures var next := ScanChild(kids, start, j, st);
      (next.Err? ==> TextScan(kids, start, j, st) == Err(next.error)) &&
      (next.Ok? && next.value.Stop? ==> TextScan(kids, start, j, st) == Ok(next.value.g)) &&
      (next.Ok? && next.value.Go? ==>
         TextScan(kids, start, j, st) == TextScan(kids, start, j + 1, next.value.st))
  {
  }

  /** The "Yes" branch: the scan for the rect, then the line up to the child after it. */
  method YesLine(kids: seq<Node>, i: nat) returns (r: Result<Step>)
    requires i < |kids|
    ensures r == YesStep(kids, i)
  {
    var j := FindRect(kids, i);
    r := YesUpTo(kids, i, j);
  }

  /** One pass of the loop over a cell's children at child `i`. */
  method RegroupStep(kids: seq<Node>, i: nat) returns (r: Result<Step>)
    requires i < |kids|
    ensures r == StepAt(kids, i)
  {
    if !kids[i].TextBoxNode? {
      return Ok(Step(kids, i + 1, false));
    }
    var t := Text(kids[i]);
    if t.Err? {
      return Err(t.error);
    }
    if Strip(t.value) == "Yes" {
      r := YesLine(kids, i);
    } else {
      var scanned := ScanText(kids, i);
      if scanned.Err? {
        return Err(scanned.error);
      }
      r := LineOfRun(kids, i, scanned.value);
    }
  }

  /** `while i < len(rect.children)`: the regrouping of one cell's children. */
  method RegroupChildren(kids0: seq<Node>) returns (r: Result<seq<Node>>)
    ensures r == RegroupFrom(kids0, 0)
  {
    var kids := kids0;
    var i: nat := 0;
    while i < |kids|
      invariant RegroupFrom(kids, i) == RegroupFrom(kids0, 0)
      decreases |kids| - i
    {
      var s := RegroupStep(kids, i);
      if s.Err? {
        return Err(s.error);
      }
      kids, i := s.value.kids, s.value.next;
    }
    return Ok(kids);
  }

  /** The regrouping of one cell: a component that is not a container raises AttributeError, a
      cell with at most one child is kept, and any other has its children regrouped. */
  method RegroupOne(cell: Node) returns (r: Result<Node>)
    ensures r == RegroupCell(cell)
  {
    if !cell.IsContainer() {
      return Err(AttributeError);
    }
    if |cell.kids| <= 1 {
      return Ok(cell);
    }
    var kids := RegroupChildren(cell.kids);
    if kids.Err? {
      return Err(kids.error);
    }
    return Ok(cell.(kids := kids.value));
  }

  /** `for rect in rects`: every cell with more than one child has its children regrouped. */
  method RegroupCells(cells: seq<Node>) returns (r: Result<seq<Node>>)
    ensures r == RegroupAll(cells, 0, [])
  {
    var out: seq<Node> := [];
    for k := 0 to |cells|
      invariant Grown(cells[..k], out)
      invariant RegroupAll(cells, k, out) == RegroupAll(cells, 0, [])
    {
      var cell := RegroupOne(cells[k]);
      RegroupAllStep(cells, k, out);
      if cell.Err? {
        return Err(cell.error);
      }
      out := out + [cell.value];
    }
    return Ok(out);
  }

  /** One cell of the loop: a cell that raises ends it, and otherwise the loop goes on from the
      next cell with the regrouped cell appended. */
  lemma RegroupAllStep(cells: seq<Node>, k: nat, done: seq<Node>)
    requires k < |cells| && Grown(cells[..k], done)
    ensures var c := RegroupCell(cells[k]);
      (c.Err? ==> RegroupAll(cells, k, done) == Err(c.error)) &&
      (c.Ok? ==> (Grown(cells[..k + 1], done + [c.value]) &&
                  RegroupAll(cells, k, done) == RegroupAll(cells, k + 1, done + [c.value])))
  {
    assert cells[..k + 1][..k] == cells[..k];
  }

  // ----- The dropped child -----

  const UnitBox := Box(0.0, 0.0, 1.0, 1.0)

  /** A text box holding one line. */
  function TextCell(s: string): Node {
    TextBoxNode(UnitBox, [TextLineNode(UnitBox, s)])
  }

  /** A measure line followed by a caption: a caption, a numbered value, the value's yellow box,
      and a caption that is not a number. */
  function CaptionAfterLine(caption: string, value: string, next: string): seq<Node> {
    [TextCell(caption), TextCell(value), RectNode(UnitBox, PlainStyle(1.0), []), TextCell(next)]
  }

  /** A one-line text box counts two components. */
  lemma TextCellSize(s: string)
    ensures Size(TextCell(s)) == 2
  {
    var line := TextLineNode(UnitBox, s);
    assert [line][..0] == [];
    assert Size(line) == 1;
    assert KidsSize([line]) == KidsSize([line][..0]) + Size(line);
  }

  /** Whether a one-line text box reads as an integer is decided by its stripped line. */
  lemma TextCellInt(s: string)
    ensures IntText(TextCell(s)) == Ok(IsIntLiteral(Strip(Strip(s))))
  {
    var line := TextLineNode(UnitBox, s);
    assert [line][1..] == [];
    assert KidsText([line][1..]) == Ok([]);
    assert [Strip(s)] + [] == [Strip(s)];
    assert KidsText([line]) == Ok([Strip(s)]);
  }

  lemma CaptionSizes(caption: string, value: string, next: string)
    ensures KidsSize(CaptionAfterLine(caption, value, next)[..3]) == 5
    ensures KidsSize(CaptionAfterLine(caption, value, next)) == 7
  {
    var kids := CaptionAfterLine(caption, value, next);
    TextCellSize(caption);
    TextCellSize(value);
    TextCellSize(next);
    assert Size(kids[2]) == 1 by {
      assert KidsSize([]) == 0;
    }
    assert kids[..3][..2] == kids[..2] && kids[..2][..1] == kids[..1] && kids[..1][..0] == [];
    assert KidsSize(kids[..1]) == 2;
    assert KidsSize(kids[..2]) == 4;
    assert KidsSize(kids[..3]) == 5;
    assert kids[..4] == kids;
  }

  /** The scan takes the caption, the value and its box, and stops at the second caption with
      `end_idx` pointing at it. */
  lemma CaptionScan(caption: string, value: string, next: string)
    requires IntText(TextCell(value)) == Ok(true) && IntText(TextCell(next)) == Ok(false)
    ensures var kids := CaptionAfterLine(caption, value, next);
      ScanFrom(kids, 0) == Ok(Gathered(kids[..3], 3, 2, UnitBox, 0))
  {
    var kids := CaptionAfterLine(caption, value, next);
    CaptionFixture(caption, value, next);
    ShapeScan(kids);
  }

  /** The fixture has the caption shape, with the value and the second caption in their
      places. */
  lemma CaptionFixture(caption: string, value: string, next: string)
    ensures var kids := CaptionAfterLine(caption, value, next);
      CaptionShape(kids) && kids[1] == TextCell(value) && kids[3] == TextCell(next)
  {
  }

  /** Over any children of the caption shape, the scan takes the first three and stops at the
      fourth. */
  lemma ShapeScan(kids: seq<Node>)
    requires CaptionShape(kids) && IntText(kids[1]) == Ok(true) && IntText(kids[3]) == Ok(false)
    ensures ScanFrom(kids, 0) == Ok(Gathered(kids[..3], 3, 2, UnitBox, 0))
  {
    var st0 := Scan(Gathered([kids[0]], 0, 0, UnitBox, 0), false, false);
    var st1 := Scan(Gathered(kids[..2], 1, 1, UnitBox, 1), true, true);
    var st2 := Scan(Gathered(kids[..3], 2, 2, UnitBox, 2), true, false);
    CaptionValue(kids);
    CaptionBox(kids);
    CaptionStop(kids);
    assert TextScan(kids, 0, 3, st2) == Ok(Gathered(kids[..3], 3, 2, UnitBox, 0));
    assert TextScan(kids, 0, 2, st1) == TextScan(kids, 0, 3, st2);
    assert TextScan(kids, 0, 1, st0) == TextScan(kids, 0, 2, st1);
  }

  /** A box spanned with itself is unchanged. */
  lemma SpanSelf(b: Box)
    ensures Span(b, b) == b
  {
  }

  /** An integer text box is taken as a numbered value, which now waits for its rect. */
  lemma TakesInt(kids: seq<Node>, start: nat, j: nat, st: Scan)
    requires Scanning(kids, start, j, st) && j < |kids|
    requires kids[j].TextBoxNode? && IntText(kids[j]) == Ok(true)
    ensures ScanChild(kids, start, j, st) ==
      Ok(Go(Scan(Gathered(st.g.taken + [kids[j]], j, j, Span(st.g.span, kids[j].box), j), true, true)))
  {
  }

  /** A caption, a numbered value, its box and a second caption, each over the unit box. */
  predicate CaptionShape(kids: seq<Node>) {
    |kids| == 4 && kids[0].TextBoxNode? && kids[1].TextBoxNode? && kids[2].RectNode? &&
    kids[3].TextBoxNode? && kids[0].box == UnitBox && kids[1].box == UnitBox &&
    kids[2].box == UnitBox && kids[3].box == UnitBox
  }

  /** The numbered value after the caption is taken. */
  lemma CaptionValue(kids: seq<Node>)
    requires CaptionShape(kids) && IntText(kids[1]) == Ok(true)
    ensures ScanChild(kids, 0, 1, Scan(Gathered([kids[0]], 0, 0, UnitBox, 0), false, false)) ==
      Ok(Go(Scan(Gathered(kids[..2], 1, 1, UnitBox, 1), true, true)))
  {
    TakesFirst(kids);
    TakesInt(kids, 0, 1, Scan(Gathered([kids[0]], 0, 0, UnitBox, 0), false, false));
  }

  /** What the scan holds after taking the value: the first two children, over the unit box. */
  lemma TakesFirst(kids: seq<Node>)
    requires CaptionShape(kids)
    ensures [kids[0]] + [kids[1]] == kids[..2] && Span(UnitBox, kids[1].box) == UnitBox
  {
    SpanSelf(UnitBox);
  }

  /** The value's box is taken, and the value no longer waits for one. */
  lemma CaptionBox(kids: seq<Node>)
    requires CaptionShape(kids)
    ensures ScanChild(kids, 0, 2, Scan(Gathered(kids[..2], 1, 1, UnitBox, 1), true, true)) ==
      Ok(Go(Scan(Gathered(kids[..3], 2, 2, UnitBox, 2), true, false)))
  {
    TakesBox(kids);
  }

  /** What the scan holds after taking the value's box: the first three children, over the unit
      box. */
  lemma TakesBox(kids: seq<Node>)
    requires CaptionShape(kids)
    ensures kids[..2] + [kids[2]] == kids[..3] && Span(UnitBox, kids[2].box) == UnitBox
  {
    SpanSelf(UnitBox);
  }

  /** The second caption is not a number: the scan stops there, with `end_idx` at 3. */
  lemma CaptionStop(kids: seq<Node>)
    requires CaptionShape(kids) && IntText(kids[3]) == Ok(false)
    ensures ScanChild(kids, 0, 3, Scan(Gathered(kids[..3], 2, 2, UnitBox, 2), true, false)) ==
      Ok(Stop(Gathered(kids[..3], 3, 2, UnitBox, 0)))
  {
    assert Span(UnitBox, kids[3].box) == UnitBox by { SpanSelf(UnitBox); }
  }

  /** The line as written from what the scan gathered: one rect in place of all four children. */
  lemma CaptionLineAsWritten(caption: string, value: string, next: string)
    ensures var kids := CaptionAfterLine(caption, value, next);
      LineAsWritten(kids, 0, Gathered(kids[..3], 3, 2, UnitBox, 0)) ==
      Ok(Step([LineRect(UnitBox, 1.0, kids[..3], ChildKey)], 1, true))
  {
    var kids := CaptionAfterLine(caption, value, next);
    assert LineWidth(kids[..3][2]) == Ok(1.0);
    assert Splice(kids, 0, 3, LineRect(UnitBox, 1.0, kids[..3], ChildKey)) == [LineRect(UnitBox, 1.0, kids[..3], ChildKey)];
  }

  /** The line of the contiguous run from what the scan gathered: one rect for the first three
      children, followed by the fourth. */
  lemma CaptionLineOfRun(caption: string, value: string, next: string)
    ensures var kids := CaptionAfterLine(caption, value, next);
      LineOfRun(kids, 0, Gathered(kids[..3], 3, 2, UnitBox, 0)) ==
      Ok(Step([LineRect(Hull(kids[0..3]), 1.0, kids[0..3], ChildKey), kids[3]], 1, true))
  {
    var kids := CaptionAfterLine(caption, value, next);
    assert LineWidth(kids[2]) == Ok(1.0);
    var fixed := LineRect(Hull(kids[0..3]), 1.0, kids[0..3], ChildKey);
    assert Splice(kids, 0, 2, fixed) == [fixed, kids[3]];
  }

  /** As written, the scan stops at the second caption but `end_idx` already points at it, so it
      is cut from the cell without being added to the line rect: seven components go in and six
      come out. */
  lemma AsWrittenDropsCaption(caption: string, value: string, next: string)
    requires IntText(TextCell(value)) == Ok(true) && IntText(TextCell(next)) == Ok(false)
    ensures var kids := CaptionAfterLine(caption, value, next);
      KidsSize(kids) == 7 &&
      TextStepAsWritten(kids, 0).Ok? && TextStepAsWritten(kids, 0).value.grouped &&
      KidsSize(TextStepAsWritten(kids, 0).value.kids) == 6
  {
    var kids := CaptionAfterLine(caption, value, next);
    CaptionSizes(caption, value, next);
    CaptionScan(caption, value, next);
    CaptionLineAsWritten(caption, value, next);
    var line := LineRect(UnitBox, 1.0, kids[..3], ChildKey);
    assert KidsSize([line]) == Size(line) by {
      assert [line][..0] == [];
    }
  }

  /** With the line made of the contiguous run, the same children give a line rect holding the
      caption, the value and its box, followed by the second caption: eight components, the seven
      there were and the new rect. */
  lemma RunKeepsCaption(caption: string, value: string, next: string)
    requires IntText(TextCell(value)) == Ok(true) && IntText(TextCell(next)) == Ok(false)
    ensures var kids := CaptionAfterLine(caption, value, next);
      TextStep(kids, 0).Ok? && |TextStep(kids, 0).value.kids| == 2 &&
      TextStep(kids, 0).value.kids[1] == TextCell(next) &&
      KidsSize(TextStep(kids, 0).value.kids) == 8
  {
    CaptionSizes(caption, value, next);
    CaptionScan(caption, value, next);
    CaptionLineOfRun(caption, value, next);
  }
}
