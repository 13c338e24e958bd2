/** The component tree built by `PDFLTContainer.add`: rects and text boxes are containers whose
    children are kept sorted top-down, then left to right. */
module Components {
  import opened Outcomes
  import opened Geometry
  import opened Lines
  import opened Sorting
  import opened PyStr

  /** A `PDFLTComponent`. Rects and text boxes are containers; text lines carry the raw text of
      their pdfminer line; curves keep their style; figures only their box. */
  datatype Node =
    | RectNode(box: Box, style: Style, kids: seq<Node>)
    | TextBoxNode(box: Box, kids: seq<Node>)
    | TextLineNode(box: Box, raw: string)
    | CurveNode(box: Box, style: Style)
    | FigureNode(box: Box)
  {
    predicate IsContainer() {
      RectNode? || TextBoxNode?
    }
  }

  /** The children sort key `(-y0, x0)`. */
  function ChildKey(n: Node): Key {
    Key(-n.box.y0, n.box.x0)
  }

  /** A row of cells, as the matchers group a page's layout. */
  type Cells = seq<Node>

  /** The sort key `x0` alone, by which rows and Yes/No lines order their cells. */
  function X0Key(n: Node): Key {
    Key(n.box.x0, 0.0)
  }

  /** `.children`, which only containers have. */
  function Children(n: Node): (r: Result<seq<Node>>)
    ensures r.Ok? <==> n.IsContainer()
    ensures r.Ok? ==> r.value == n.kids
    ensures r.Err? ==> r.error == AttributeError
  {
    if n.IsContainer() then Ok(n.kids) else Err(AttributeError)
  }

  /** The number of components in the tree rooted at `n`, `n` included. */
  function Size(n: Node): nat
    decreases n, 1
  {
    1 + (if n.IsContainer() then KidsSize(n.kids) else 0)
  }

  function KidsSize(s: seq<Node>): nat
    decreases s, 0
  {
    if |s| == 0 then 0 else KidsSize(s[..|s| - 1]) + Size(s[|s| - 1])
  }

  lemma {:induction false} KidsSizeIsSum(s: seq<Node>)
    ensures KidsSize(s) == SumBy(s, Size)
    decreases |s|
  {
    if |s| > 0 {
      KidsSizeIsSum(s[..|s| - 1]);
    }
  }

  lemma {:induction false} KidsSizeUpdate(s: seq<Node>, k: nat, x: Node)
    requires k < |s|
    ensures KidsSize(s[k := x]) + Size(s[k]) == KidsSize(s) + Size(x)
    decreases |s|
  {
    var t := s[k := x];
    if k < |s| - 1 {
      assert t[..|t| - 1] == s[..|s| - 1][k := x];
      KidsSizeUpdate(s[..|s| - 1], k, x);
    } else {
      assert t[..|t| - 1] == s[..|s| - 1];
    }
  }


  /** `c` is a descendant of `n`. */
  predicate Within(n: Node, c: Node)
    decreases n
  {
    n.IsContainer() && exists k :: 0 <= k < |n.kids| && (n.kids[k] == c || Within(n.kids[k], c))
  }

  /** The index of the first child that is a container whose box contains `p`, or `|kids|`. */
  function FirstContaining(kids: seq<Node>, p: Point): (k: nat)
    ensures k <= |kids|
    ensures k < |kids| ==> kids[k].IsContainer() && kids[k].box.Contains(p)
    ensures forall j :: 0 <= j < k ==> !(kids[j].IsContainer() && kids[j].box.Contains(p))
    decreases |kids|
  {
    if |kids| == 0 then 0
    else if kids[0].IsContainer() && kids[0].box.Contains(p) then 0
    else 1 + FirstContaining(kids[1..], p)
  }

  /** `container.add(child)`: the child goes, recursively, into the first child container whose
      box contains the child's centre; failing that it becomes a direct child and the children are
      re-sorted by `(-y0, x0)`. The container keeps its kind and box, the child ends up in the tree,
      the tree grows by exactly the child's components, and sorted children stay sorted. */
  function Add(n: Node, child: Node): (r: Node)
    requires n.IsContainer()
    ensures r.IsContainer() && r.box == n.box && (r.RectNode? <==> n.RectNode?)
    ensures n.RectNode? ==> r.style == n.style
    ensures Within(r, child)
    ensures Size(r) == Size(n) + Size(child)
    ensures SortedBy(n.kids, ChildKey) ==> SortedBy(r.kids, ChildKey)
    decreases n
  {
    var k := FirstContaining(n.kids, child.box.Center());
    if k < |n.kids| then
      var sub := Add(n.kids[k], child);
      AddInto(n, k, child, sub);
      n.(kids := n.kids[k := sub])
    else
      AddDirect(n, child);
      n.(kids := SortBy(n.kids + [child], ChildKey))
  }

  /** Replacing the child at `k` by one that holds `child` and keeps its box grows the container
      by `child`'s components, and keeps its children's order. */
  lemma AddInto(n: Node, k: nat, child: Node, sub: Node)
    requires n.IsContainer() && k < |n.kids|
    requires sub.box == n.kids[k].box && Within(sub, child) && Size(sub) == Size(n.kids[k]) + Size(child)
    ensures var r := n.(kids := n.kids[k := sub]);
      Within(r, child) && Size(r) == Size(n) + Size(child) &&
      (SortedBy(n.kids, ChildKey) ==> SortedBy(r.kids, ChildKey))
  {
    var r := n.(kids := n.kids[k := sub]);
    assert r.kids[k] == sub;
    KidsSizeUpdate(n.kids, k, sub);
    assert forall j :: 0 <= j < |r.kids| ==> ChildKey(r.kids[j]) == ChildKey(n.kids[j]);
  }

  /** Adding `child` as a direct child and re-sorting grows the container by `child`'s
      components, and leaves the children sorted. */
  lemma AddDirect(n: Node, child: Node)
    requires n.IsContainer()
    ensures var r := n.(kids := SortBy(n.kids + [child], ChildKey));
      Within(r, child) && Size(r) == Size(n) + Size(child) && SortedBy(r.kids, ChildKey)
  {
    var kids := SortBy(n.kids + [child], ChildKey);
    var r := n.(kids := kids);
    assert child in multiset(n.kids + [child]);
    assert child in multiset(kids);
    var i :| 0 <= i < |kids| && kids[i] == child;
    assert (n.kids + [child])[..|n.kids|] == n.kids;
    KidsSizeIsSum(n.kids + [child]);
    KidsSizeIsSum(kids);
    SumBySort(n.kids + [child], ChildKey, Size);
  }

  /** Adding to a rect without children makes the component its one child. */
  lemma AddToEmpty(box: Box, style: Style, child: Node)
    ensures Add(RectNode(box, style, []), child) == RectNode(box, style, [child])
    ensures Size(RectNode(box, style, [child])) == Size(child) + 1
  {
    var n := RectNode(box, style, []);
    AddAsDirect(n, child);
    assert n.kids + [child] == [child];
    SortBySingle(child, ChildKey);
    assert [child][..0] == [];
  }

  /** With no child container holding its centre, the child is added directly. */
  lemma AddAsDirect(n: Node, child: Node)
    requires n.IsContainer() && FirstContaining(n.kids, child.box.Center()) == |n.kids|
    ensures Add(n, child) == n.(kids := SortBy(n.kids + [child], ChildKey))
  {
  }

  /** Adding into a container with no child container leaves the child as a direct child. */
  lemma AddFlat(n: Node, child: Node)
    requires n.IsContainer()
    requires forall j :: 0 <= j < |n.kids| ==> !n.kids[j].IsContainer()
    ensures child in Add(n, child).kids
    ensures |Add(n, child).kids| == |n.kids| + 1
  {
    var kids := SortBy(n.kids + [child], ChildKey);
    assert child in multiset(n.kids + [child]);
    assert child in multiset(kids);
  }

  /** The flags `isinstance(c, PDFLTTextBox)` of the children. */
  function TextBoxFlags(kids: seq<Node>): (r: seq<bool>)
    ensures |r| == |kids|
    ensures forall i :: 0 <= i < |kids| ==> r[i] == kids[i].TextBoxNode?
  {
    seq(|kids|, i requires 0 <= i < |kids| => kids[i].TextBoxNode?)
  }

  function CountTrue(flags: seq<bool>): nat
    decreases |flags|
  {
    if |flags| == 0 then 0 else (if flags[0] then 1 else 0) + CountTrue(flags[1..])
  }

  predicate AllTrue(flags: seq<bool>) {
    forall i :: 0 <= i < |flags| ==> flags[i]
  }

  /** `any(it)` on a fresh iterator consumes up to and including the first true flag; the
      position just past it, or `|flags|` when there is none. */
  function AnyConsumed(flags: seq<bool>): (k: nat)
    ensures k <= |flags|
    decreases |flags|
  {
    if |flags| == 0 then 0 else if flags[0] then 1 else 1 + AnyConsumed(flags[1..])
  }

  predicate AnyTrue(flags: seq<bool>) {
    exists i :: 0 <= i < |flags| && flags[i]
  }

  /** `any(itr) and not any(itr)` on one shared iterator. */
  predicate AnyThenNone(flags: seq<bool>) {
    AnyTrue(flags) && !AnyTrue(flags[AnyConsumed(flags)..])
  }

  lemma {:induction false} AnyConsumedSplit(flags: seq<bool>)
    requires AnyTrue(flags)
    ensures 0 < AnyConsumed(flags) && flags[AnyConsumed(flags) - 1]
    ensures CountTrue(flags) == 1 + CountTrue(flags[AnyConsumed(flags)..])
    decreases |flags|
  {
    if !flags[0] {
      var i :| 0 <= i < |flags| && flags[i];
      assert flags[1..][i - 1];
      AnyConsumedSplit(flags[1..]);
      assert flags[1..][AnyConsumed(flags[1..])..] == flags[AnyConsumed(flags)..];
    }
  }

  lemma {:induction false} CountZero(flags: seq<bool>)
    ensures CountTrue(flags) == 0 <==> !AnyTrue(flags)
    decreases |flags|
  {
    if |flags| > 0 {
      CountZero(flags[1..]);
      if AnyTrue(flags[1..]) {
        var i :| 0 <= i < |flags[1..]| && flags[1..][i];
        assert flags[i + 1];
      }
      if AnyTrue(flags) && !flags[0] {
        var i :| 0 <= i < |flags| && flags[i];
        assert flags[1..][i - 1];
      }
    }
  }

  /** The iterator idiom decides "exactly one child is a text box". */
  lemma AnyThenNoneIsSingle(flags: seq<bool>)
    ensures AnyThenNone(flags) <==> CountTrue(flags) == 1
  {
    CountZero(flags);
    if AnyTrue(flags) {
      AnyConsumedSplit(flags);
      CountZero(flags[AnyConsumed(flags)..]);
    }
  }

  /** The `text` attribute: a rect joins its children's texts when all of them, or exactly one of
      them, are text boxes, and is empty otherwise; a text box joins its lines with newlines; a
      text line is its stripped text; curves and figures have no `text` and raise. */
  function Text(n: Node): (r: Result<string>)
    ensures r.Err? ==> r.error == AttributeError
    ensures n.CurveNode? || n.FigureNode? ==> r == Err(AttributeError)
    ensures n.RectNode? && CountTrue(TextBoxFlags(n.kids)) != 1 && !AllTrue(TextBoxFlags(n.kids))
      ==> r == Ok("")
    decreases n, 1
  {
    match n
    case RectNode(_, _, kids) =>
      var flags := TextBoxFlags(kids);
      AnyThenNoneIsSingle(flags);
      if AllTrue(flags) || AnyThenNone(flags) then
        var ts :- KidsText(kids);
        Ok(Concat(ts))
      else Ok("")
    case TextBoxNode(_, kids) =>
      var ts :- KidsText(kids);
      Ok(Join(ts, "\n"))
    case TextLineNode(_, raw) => Ok(Strip(raw))
    case CurveNode(_, _) => Err(AttributeError)
    case FigureNode(_) => Err(AttributeError)
  }

  function KidsText(s: seq<Node>): (r: Result<seq<string>>)
    ensures r.Err? ==> r.error == AttributeError
    ensures r.Ok? ==> |r.value| == |s|
    decreases s, 0
  {
    if |s| == 0 then Ok([])
    else
      var t :- Text(s[0]);
      var ts :- KidsText(s[1..]);
      Ok([t] + ts)
  }

  /** No curve or figure anywhere in the tree. */
  predicate TextOnly(n: Node)
    decreases n
  {
    match n
    case RectNode(_, _, kids) => forall k :: 0 <= k < |kids| ==> TextOnly(kids[k])
    case TextBoxNode(_, kids) => forall k :: 0 <= k < |kids| ==> TextOnly(kids[k])
    case TextLineNode(_, _) => true
    case CurveNode(_, _) => false
    case FigureNode(_) => false
  }

  /** A tree without curves or figures always has a text. */
  lemma {:induction false} TextOnlyHasText(n: Node)
    requires TextOnly(n)
    ensures Text(n).Ok?
    decreases n, 1
  {
    if n.IsContainer() {
      KidsTextOnlyHaveText(n.kids);
    }
  }

  lemma {:induction false} KidsTextOnlyHaveText(s: seq<Node>)
    requires forall k :: 0 <= k < |s| ==> TextOnly(s[k])
    ensures KidsText(s).Ok?
    decreases s, 0
  {
    if |s| > 0 {
      TextOnlyHasText(s[0]);
      KidsTextOnlyHaveText(s[1..]);
    }
  }

  /** The stripped texts of a sequence of text lines. */
  function LineTexts(s: seq<Node>): (r: seq<string>)
    requires forall k :: 0 <= k < |s| ==> s[k].TextLineNode?
    ensures |r| == |s|
    ensures forall k :: 0 <= k < |s| ==> r[k] == Strip(s[k].raw)
    decreases |s|
  {
    if |s| == 0 then [] else [Strip(s[0].raw)] + LineTexts(s[1..])
  }

  /** A text box holding only text lines: its text is the newline join of the stripped lines. */
  lemma {:induction false} TextBoxOfLines(b: Box, lines: seq<Node>)
    requires forall k :: 0 <= k < |lines| ==> lines[k].TextLineNode?
    ensures Text(TextBoxNode(b, lines)) == Ok(Join(LineTexts(lines), "\n"))
  {
    LinesText(lines);
  }

  lemma {:induction false} LinesText(s: seq<Node>)
    requires forall k :: 0 <= k < |s| ==> s[k].TextLineNode?
    ensures KidsText(s) == Ok(LineTexts(s))
    decreases |s|
  {
    if |s| > 0 {
      LinesText(s[1..]);
    }
  }

  /** `PDFLTRect.color`: the fill colour when it is a tuple, white otherwise. */
  function RectColor(st: Style): (c: seq<real>)
    ensures st.nonStrokingColor.TupleColor? ==> c == st.nonStrokingColor.components
    ensures !st.nonStrokingColor.TupleColor? ==> c == [1.0, 1.0, 1.0]
  {
    if st.nonStrokingColor.TupleColor? then st.nonStrokingColor.components else [1.0, 1.0, 1.0]
  }
}
