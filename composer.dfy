/** `PDFLTComposer`: places the page's text, curves and figures into the cells rebuilt by the
    intersection finder.

    The composer's rects are objects that the first pass nests into one another while they stay in
    the composer's list, so a component added later to a nested rect is also seen through the rect
    that holds it. The model keeps that sharing: the rects live in a store indexed by their position
    in the list, and a child of a rect is either another rect of the list (`Ref`) or a component
    held by value (`Leaf`). */
module Composer {
  import opened Outcomes
  import opened Geometry
  import opened Lines
  import opened Sorting
  import opened Seqs
  import opened Components
  import opened Primitives

  /** A child of a rect of the list: another rect of the list, by its position and with its box
      (which never changes), or a component held by value. */
  datatype Kid = Ref(idx: nat, box: Box) | Leaf(node: Node)

  function KidBox(c: Kid): Box {
    if c.Ref? then c.box else c.node.box
  }

  predicate KidIsContainer(c: Kid) {
    c.Ref? || c.node.IsContainer()
  }

  /** The children sort key `(-y0, x0)`. */
  function KidKey(c: Kid): Key {
    Key(-KidBox(c).y0, KidBox(c).x0)
  }

  /** Every reference points into a store of `n` rects. */
  predicate RefsIn(kids: seq<seq<Kid>>) {
    forall i, k :: 0 <= i < |kids| && 0 <= k < |kids[i]| && kids[i][k].Ref? ==> kids[i][k].idx < |kids|
  }

  /** Every child in the store is a rect of the list. */
  predicate NoLeaves(kids: seq<seq<Kid>>) {
    forall i, k :: 0 <= i < |kids| && 0 <= k < |kids[i]| ==> kids[i][k].Ref?
  }

  /** The position of the first child that is a container whose box contains `p`, or `|ks|`. */
  function FirstKid(ks: seq<Kid>, p: Point): (k: nat)
    ensures k <= |ks|
    ensures k < |ks| ==> KidIsContainer(ks[k]) && KidBox(ks[k]).Contains(p)
    ensures forall j :: 0 <= j < k ==> !(KidIsContainer(ks[j]) && KidBox(ks[j]).Contains(p))
    decreases |ks|
  {
    if |ks| == 0 then 0
    else if KidIsContainer(ks[0]) && KidBox(ks[0]).Contains(p) then 0
    else 1 + FirstKid(ks[1..], p)
  }

  lemma KidsFrom(ks: seq<Kid>, c: Kid, r: seq<Kid>)
    requires multiset(r) == multiset(ks + [c])
    ensures forall k :: 0 <= k < |r| ==> r[k] == c || r[k] in ks
  {
    forall k | 0 <= k < |r|
      ensures r[k] == c || r[k] in ks
    {
      assert r[k] in multiset(ks + [c]);
      assert r[k] in ks + [c];
    }
  }

  /** `rect.add(child)` on the rect at position `i` of the store. The child goes into the first
      child container whose box contains its centre: through a nested rect of the list by
      recursion, into a component held by value by `PDFLTContainer.add` on that value. Failing
      that, it becomes a direct child and the children are re-sorted by `(-y0, x0)`. A descent
      through more rects than the list holds has visited some rect twice and would never end;
      the source then exhausts Python's recursion limit. */
  function AddKid(kids: seq<seq<Kid>>, i: nat, c: Kid, fuel: nat): (r: Result<seq<seq<Kid>>>)
    requires i < |kids| && RefsIn(kids)
    requires c.Ref? ==> c.idx < |kids| && NoLeaves(kids)
    ensures r.Err? ==> r.error == RecursionError
    ensures r.Ok? ==> |r.value| == |kids| && RefsIn(r.value)
    ensures r.Ok? && c.Ref? ==> NoLeaves(r.value)
    decreases fuel
  {
    var ks := kids[i];
    var k := FirstKid(ks, KidBox(c).Center());
    if k == |ks| then
      var sorted := SortBy(ks + [c], KidKey);
      KidsFrom(ks, c, sorted);
      Ok(kids[i := sorted])
    else
      match ks[k]
      case Ref(j, _) =>
        if fuel == 0 then Err(RecursionError) else AddKid(kids, j, c, fuel - 1)
      case Leaf(n) =>
        if c.Leaf? then Ok(kids[i := ks[k := Leaf(Add(n, c.node))]])
        else assert false; Err(RecursionError)
  }

  /** Components counted once each: a rect of the list counts one, a component held by value
      counts every component of its tree. */
  function KidWeight(c: Kid): nat {
    if c.Ref? then 1 else Size(c.node)
  }

  /** The weight of everything the store's rects hold directly or by value. */
  function StoreWeight(kids: seq<seq<Kid>>): nat
    decreases |kids|
  {
    if |kids| == 0 then 0 else StoreWeight(kids[..|kids| - 1]) + SumBy(kids[|kids| - 1], KidWeight)
  }

  lemma {:induction false} StoreWeightUpdate(kids: seq<seq<Kid>>, i: nat, ks: seq<Kid>)
    requires i < |kids|
    ensures StoreWeight(kids[i := ks]) + SumBy(kids[i], KidWeight) == StoreWeight(kids) + SumBy(ks, KidWeight)
    decreases |kids|
  {
    var t := kids[i := ks];
    if i < |kids| - 1 {
      assert t[..|t| - 1] == kids[..|kids| - 1][i := ks];
      StoreWeightUpdate(kids[..|kids| - 1], i, ks);
    } else {
      assert t[..|t| - 1] == kids[..|kids| - 1];
    }
  }

  lemma {:induction false} SumByUpdate(s: seq<Kid>, k: nat, x: Kid)
    requires k < |s|
    ensures SumBy(s[k := x], KidWeight) + KidWeight(s[k]) == SumBy(s, KidWeight) + KidWeight(x)
    decreases |s|
  {
    var t := s[k := x];
    if k < |s| - 1 {
      assert t[..|t| - 1] == s[..|s| - 1][k := x];
      SumByUpdate(s[..|s| - 1], k, x);
    } else {
      assert t[..|t| - 1] == s[..|s| - 1];
    }
  }

  /** `add` loses nothing and duplicates nothing: the store grows by exactly the child. */
  lemma {:induction false} AddKidWeight(kids: seq<seq<Kid>>, i: nat, c: Kid, fuel: nat)
    requires i < |kids| && RefsIn(kids)
    requires c.Ref? ==> c.idx < |kids| && NoLeaves(kids)
    ensures AddKid(kids, i, c, fuel).Ok? ==>
      StoreWeight(AddKid(kids, i, c, fuel).value) == StoreWeight(kids) + KidWeight(c)
    decreases fuel
  {
    var ks := kids[i];
    var k := FirstKid(ks, KidBox(c).Center());
    if k == |ks| {
      var sorted := SortBy(ks + [c], KidKey);
      SumBySort(ks + [c], KidKey, KidWeight);
      SumByAppend(ks, [c], KidWeight);
      assert SumBy([c], KidWeight) == KidWeight(c) by {
        assert [c][..0] == [];
      }
      StoreWeightUpdate(kids, i, sorted);
    } else if ks[k].Ref? {
      if fuel > 0 {
        AddKidWeight(kids, ks[k].idx, c, fuel - 1);
      }
    } else if c.Leaf? {
      var n := ks[k].node;
      var x := Leaf(Add(n, c.node));
      SumByUpdate(ks, k, x);
      StoreWeightUpdate(kids, i, ks[k := x]);
    }
  }

  /** All indices of `rl` are positions of the store. */
  predicate InRange(rl: seq<nat>, n: nat) {
    forall t :: 0 <= t < |rl| ==> rl[t] < n
  }

  /** The test `_assign_components_to_rects` makes: the rect at position `r` is not the component
      itself, contains its centre and has a strictly larger area. */
  predicate Fits(boxes: seq<Box>, r: nat, c: Kid)
    requires r < |boxes|
  {
    !(c.Ref? && c.idx == r) && boxes[r].Contains(KidBox(c).Center()) && boxes[r].Area() > KidBox(c).Area()
  }

  /** The position in `rl` of the first rect that fits `c`, or `|rl|` when none does. */
  function Home(boxes: seq<Box>, rl: seq<nat>, c: Kid): (t: nat)
    requires InRange(rl, |boxes|)
    ensures t <= |rl|
    ensures t < |rl| ==> Fits(boxes, rl[t], c)
    ensures forall u :: 0 <= u < t ==> !Fits(boxes, rl[u], c)
    decreases |rl|
  {
    if |rl| == 0 then 0
    else if Fits(boxes, rl[0], c) then 0
    else 1 + Home(boxes, rl[1..], c)
  }

  predicate AllLeaves(cs: seq<Kid>) {
    forall t :: 0 <= t < |cs| ==> cs[t].Leaf?
  }

  /** Either every component is held by value, or every component is a rect of the list and the
      store holds only rects of the list (the first pass). */
  predicate Uniform(cs: seq<Kid>, kids: seq<seq<Kid>>) {
    AllLeaves(cs) ||
    (NoLeaves(kids) && forall t :: 0 <= t < |cs| ==> cs[t].Ref? && cs[t].idx < |kids|)
  }

  /** The store after a pass and the components no rect took, in the order they came. */
  datatype Assigned = Assigned(kids: seq<seq<Kid>>, remaining: seq<Kid>)

  /** `_assign_components_to_rects(cmpts, rects)`, the components taken from the deque in order,
      `rl` giving the positions of `rects` in the store. */
  function AssignSpec(boxes: seq<Box>, kids: seq<seq<Kid>>, rl: seq<nat>, cs: seq<Kid>): (r: Result<Assigned>)
    requires |kids| == |boxes| && RefsIn(kids) && InRange(rl, |boxes|) && Uniform(cs, kids)
    ensures r.Err? ==> r.error == RecursionError
    ensures r.Ok? ==> |r.value.kids| == |kids| && RefsIn(r.value.kids) && Uniform(cs, r.value.kids)
    ensures r.Ok? ==> forall t :: 0 <= t < |r.value.remaining| ==> r.value.remaining[t] in cs
    decreases |cs|
  {
    if |cs| == 0 then Ok(Assigned(kids, []))
    else
      var a :- AssignSpec(boxes, kids, rl, cs[..|cs| - 1]);
      var c := cs[|cs| - 1];
      var h := Home(boxes, rl, c);
      if h < |rl| then
        var k2 :- AddKid(a.kids, rl[h], c, |boxes|);
        Ok(Assigned(k2, a.remaining))
      else Ok(Assigned(a.kids, a.remaining + [c]))
  }

  /** One more component: it goes to its home rect, or joins those returned when it has none. */
  lemma AssignSpecNext(boxes: seq<Box>, kids: seq<seq<Kid>>, rl: seq<nat>, cs: seq<Kid>, i: nat)
    requires |kids| == |boxes| && RefsIn(kids) && InRange(rl, |boxes|) && Uniform(cs, kids)
    requires i < |cs|
    ensures var a := AssignSpec(boxes, kids, rl, cs[..i]);
      var c := cs[i];
      var h := Home(boxes, rl, c);
      (a.Ok? && h == |rl| ==>
         AssignSpec(boxes, kids, rl, cs[..i + 1]) == Ok(Assigned(a.value.kids, a.value.remaining + [c]))) &&
      (a.Ok? && h < |rl| && (c.Ref? ==> NoLeaves(a.value.kids)) ==>
         AssignSpec(boxes, kids, rl, cs[..i + 1]) ==
           (var k2 :- AddKid(a.value.kids, rl[h], c, |boxes|); Ok(Assigned(k2, a.value.remaining))))
  {
    assert cs[..i + 1][..i] == cs[..i];
  }

  /** The component has no rect to go to. */
  predicate Homeless(boxes: seq<Box>, rl: seq<nat>, c: Kid)
    requires InRange(rl, |boxes|)
  {
    Home(boxes, rl, c) == |rl|
  }

  /** The components returned are exactly those no rect fits, in their original order. */
  lemma {:induction false} AssignRemaining(boxes: seq<Box>, kids: seq<seq<Kid>>, rl: seq<nat>, cs: seq<Kid>)
    requires |kids| == |boxes| && RefsIn(kids) && InRange(rl, |boxes|) && Uniform(cs, kids)
    ensures AssignSpec(boxes, kids, rl, cs).Ok? ==>
      AssignSpec(boxes, kids, rl, cs).value.remaining == Filter(cs, c => Homeless(boxes, rl, c))
    decreases |cs|
  {
    if |cs| > 0 {
      AssignRemaining(boxes, kids, rl, cs[..|cs| - 1]);
    }
  }

  /** Each component ends up either in the store or among the returned ones, exactly once. */
  lemma {:induction false} AssignWeight(boxes: seq<Box>, kids: seq<seq<Kid>>, rl: seq<nat>, cs: seq<Kid>)
    requires |kids| == |boxes| && RefsIn(kids) && InRange(rl, |boxes|) && Uniform(cs, kids)
    ensures var r := AssignSpec(boxes, kids, rl, cs);
      r.Ok? ==>
        StoreWeight(r.value.kids) + SumBy(r.value.remaining, KidWeight) == StoreWeight(kids) + SumBy(cs, KidWeight)
    decreases |cs|
  {
    if |cs| > 0 {
      var init := cs[..|cs| - 1];
      var c := cs[|cs| - 1];
      assert cs == init + [c];
      AssignWeight(boxes, kids, rl, init);
      var a := AssignSpec(boxes, kids, rl, init);
      SumByAppend(init, [c], KidWeight);
      assert SumBy([c], KidWeight) == KidWeight(c) by {
        assert [c][..0] == [];
      }
      if a.Ok? {
        var h := Home(boxes, rl, c);
        if h < |rl| {
          AddKidWeight(a.value.kids, rl[h], c, |boxes|);
        } else {
          SumByAppend(a.value.remaining, [c], KidWeight);
        }
      }
    }
  }

  /** The position in `rl` of the first rect whose box contains `p`, or `|rl|`. */
  function FirstHolding(boxes: seq<Box>, rl: seq<nat>, p: Point): (t: nat)
    requires InRange(rl, |boxes|)
    ensures t <= |rl|
    ensures t < |rl| ==> boxes[rl[t]].Contains(p)
    ensures forall u :: 0 <= u < t ==> !boxes[rl[u]].Contains(p)
    decreases |rl|
  {
    if |rl| == 0 then 0
    else if boxes[rl[0]].Contains(p) then 0
    else 1 + FirstHolding(boxes, rl[1..], p)
  }

  /** A text box sent off by `_assign_text_boxes_to_rects`: added to the rect at position
      `target`, or returned as remaining when `target` is `None`. */
  datatype Emit = Emit(target: Option<nat>, box: Node)

  /** The loop state over one `LTTextBoxHorizontal`: the text box being filled (`ttbox`), the rect
      it is headed for (`trect`), and the boxes already sent off. */
  datatype TextState = TextState(ttbox: Node, trect: Option<nat>, out: seq<Emit>)

  predicate TargetIn(t: Option<nat>, rl: seq<nat>) {
    t.Some? ==> t.value in rl
  }

  predicate StateOk(st: TextState, rl: seq<nat>) {
    st.ttbox.TextBoxNode? && TargetIn(st.trect, rl) &&
    forall k :: 0 <= k < |st.out| ==> st.out[k].target.Some? && TargetIn(st.out[k].target, rl) && st.out[k].box.TextBoxNode?
  }

  /** The box being filled is sent off to its rect and a fresh one started for the same text
      box. */
  function SendOff(rl: seq<nat>, tb: Box, st: TextState): (r: TextState)
    requires StateOk(st, rl) && st.trect.Some?
    ensures StateOk(r, rl) && r.trect == None && r.out == st.out + [Emit(st.trect, st.ttbox)]
  {
    var r := TextState(TextBoxNode(tb, []), None, st.out + [Emit(st.trect, st.ttbox)]);
    assert forall k :: 0 <= k < |st.out| ==> r.out[k] == st.out[k];
    r
  }

  /** One text line: it joins the box being filled while its centre stays in that box's rect.
      Otherwise a box headed for a rect is sent off and a fresh one started for the same text
      box, and the line looks for the first rect of the list containing its centre. It joins the
      box whether or not one is found, so lines no rect holds ride along with the box and go
      wherever it goes next. */
  function LineStep(boxes: seq<Box>, rl: seq<nat>, tb: Box, st: TextState, line: Node): (r: TextState)
    requires InRange(rl, |boxes|) && StateOk(st, rl)
    ensures StateOk(r, rl)
  {
    var c := line.box.Center();
    if st.trect.Some? && boxes[st.trect.value].Contains(c) then
      st.(ttbox := Add(st.ttbox, line))
    else
      var st1 := if st.trect.Some? then SendOff(rl, tb, st) else st;
      var h := FirstHolding(boxes, rl, c);
      if h < |rl| then st1.(ttbox := Add(st1.ttbox, line), trect := Some(rl[h]))
      else st1.(ttbox := Add(st1.ttbox, line))
  }

  /** The state after the first lines of a text box. */
  function LinesSpec(boxes: seq<Box>, rl: seq<nat>, tb: Box, lines: seq<Node>): (r: TextState)
    requires InRange(rl, |boxes|)
    ensures StateOk(r, rl)
    decreases |lines|
  {
    if |lines| == 0 then TextState(TextBoxNode(tb, []), None, [])
    else LineStep(boxes, rl, tb, LinesSpec(boxes, rl, tb, lines[..|lines| - 1]), lines[|lines| - 1])
  }

  /** The `PDFLTTextLine`s of a pdfminer text box. */
  function LineNodes(ls: seq<TextLineIn>): (r: seq<Node>)
    ensures |r| == |ls|
    ensures forall k :: 0 <= k < |ls| ==> r[k] == TextLineNode(ls[k].box, ls[k].raw)
  {
    Map(ls, (l: TextLineIn) => TextLineNode(l.box, l.raw))
  }

  /** Everything one text box sends off: the boxes sent while scanning its lines, then the last
      box, to its rect or to the remaining ones. */
  function BoxEmits(boxes: seq<Box>, rl: seq<nat>, tb: Box, lines: seq<Node>): (r: seq<Emit>)
    requires InRange(rl, |boxes|)
  {
    var st := LinesSpec(boxes, rl, tb, lines);
    st.out + [Emit(st.trect, st.ttbox)]
  }

  /** The text lines held by the boxes sent off. */
  function EmitLines(es: seq<Emit>): multiset<Node>
    decreases |es|
  {
    if |es| == 0 then multiset{} else EmitLines(es[..|es| - 1]) + multiset(KidsOf(es[|es| - 1].box))
  }

  /** The children of a container; other components have none. */
  function KidsOf(n: Node): seq<Node> {
    if n.IsContainer() then n.kids else []
  }

  lemma EmitLinesAppend(es: seq<Emit>, e: Emit)
    ensures EmitLines(es + [e]) == EmitLines(es) + multiset(KidsOf(e.box))
  {
    assert (es + [e])[..|es|] == es;
  }

  /** A box holding only text lines gains exactly the line added to it. */
  lemma AddIntoLines(n: Node, line: Node)
    requires n.TextBoxNode? && line.TextLineNode?
    requires forall k :: 0 <= k < |n.kids| ==> n.kids[k].TextLineNode?
    ensures Add(n, line).TextBoxNode?
    ensures multiset(Add(n, line).kids) == multiset(n.kids) + multiset{line}
    ensures forall k :: 0 <= k < |Add(n, line).kids| ==> Add(n, line).kids[k].TextLineNode?
  {
    var r := Add(n, line).kids;
    assert FirstContaining(n.kids, line.box.Center()) == |n.kids|;
    assert multiset(r) == multiset(n.kids + [line]);
    forall k | 0 <= k < |r|
      ensures r[k].TextLineNode?
    {
      assert r[k] in multiset(n.kids + [line]);
      assert r[k] in n.kids + [line];
    }
  }

  predicate OnlyLines(n: Node) {
    n.TextBoxNode? && forall k :: 0 <= k < |n.kids| ==> n.kids[k].TextLineNode?
  }

  /** Every line read so far is in exactly one box, one sent off or the one being filled, and
      the boxes hold nothing but text lines. */
  predicate LinesKept(st: TextState, read: seq<Node>) {
    OnlyLines(st.ttbox) && (forall k :: 0 <= k < |st.out| ==> OnlyLines(st.out[k].box)) &&
    EmitLines(st.out) + multiset(st.ttbox.kids) == multiset(read)
  }

  lemma LineStepKeepsLines(boxes: seq<Box>, rl: seq<nat>, tb: Box, st: TextState, read: seq<Node>, line: Node)
    requires InRange(rl, |boxes|) && StateOk(st, rl) && line.TextLineNode?
    requires LinesKept(st, read)
    ensures LinesKept(LineStep(boxes, rl, tb, st, line), read + [line])
  {
    var c := line.box.Center();
    if st.trect.Some? && boxes[st.trect.value].Contains(c) {
      AddLineKeeps(st, read, line, st.trect);
    } else {
      var st1 := if st.trect.Some? then SendOff(rl, tb, st) else st;
      if st.trect.Some? {
        SendOffKeepsLines(rl, tb, st, read);
      }
      var h := FirstHolding(boxes, rl, c);
      AddLineKeeps(st1, read, line, if h < |rl| then Some(rl[h]) else st1.trect);
    }
  }

  /** Sending the box being filled off keeps every line read in exactly one box. */
  lemma SendOffKeepsLines(rl: seq<nat>, tb: Box, st: TextState, read: seq<Node>)
    requires StateOk(st, rl) && st.trect.Some? && LinesKept(st, read)
    ensures LinesKept(SendOff(rl, tb, st), read)
  {
    var e := Emit(st.trect, st.ttbox);
    var st1 := SendOff(rl, tb, st);
    EmitLinesAppend(st.out, e);
    assert forall k :: 0 <= k < |st1.out| ==> OnlyLines(st1.out[k].box);
  }

  /** A text line joining the box being filled is then kept in exactly one box, whichever
      rect the box is headed for. */
  lemma AddLineKeeps(st: TextState, read: seq<Node>, line: Node, t: Option<nat>)
    requires LinesKept(st, read) && line.TextLineNode?
    ensures LinesKept(st.(ttbox := Add(st.ttbox, line), trect := t), read + [line])
  {
    AddIntoLines(st.ttbox, line);
  }

  lemma {:induction false} LinesSpecKeepsLines(boxes: seq<Box>, rl: seq<nat>, tb: Box, lines: seq<Node>)
    requires InRange(rl, |boxes|)
    requires forall k :: 0 <= k < |lines| ==> lines[k].TextLineNode?
    ensures LinesKept(LinesSpec(boxes, rl, tb, lines), lines)
    decreases |lines|
  {
    if |lines| > 0 {
      var init, last := lines[..|lines| - 1], lines[|lines| - 1];
      assert lines == init + [last];
      var st := LinesSpec(boxes, rl, tb, init);
      LinesSpecKeepsLines(boxes, rl, tb, init);
      LineStepKeepsLines(boxes, rl, tb, st, init, last);
      assert LinesSpec(boxes, rl, tb, lines) == LineStep(boxes, rl, tb, st, last);
    }
  }

  /** `_assign_text_boxes_to_rects` on one text box: every one of its lines is in exactly one of
      the boxes it sends off, and only text lines are. */
  lemma BoxEmitsKeepLines(boxes: seq<Box>, rl: seq<nat>, tb: Box, ls: seq<TextLineIn>)
    requires InRange(rl, |boxes|)
    ensures var es := BoxEmits(boxes, rl, tb, LineNodes(ls));
      EmitLines(es) == multiset(LineNodes(ls)) &&
      forall k :: 0 <= k < |es| ==> OnlyLines(es[k].box) && es[k].box.box == tb
  {
    var lines := LineNodes(ls);
    LinesSpecKeepsLines(boxes, rl, tb, lines);
    var st := LinesSpec(boxes, rl, tb, lines);
    var es := st.out + [Emit(st.trect, st.ttbox)];
    assert BoxEmits(boxes, rl, tb, lines) == es;
    EmitLinesAppend(st.out, Emit(st.trect, st.ttbox));
    BoxesKeepFrame(boxes, rl, tb, lines);
    forall k | 0 <= k < |es|
      ensures OnlyLines(es[k].box) && es[k].box.box == tb
    {
      if k < |st.out| {
        assert es[k] == st.out[k];
      }
    }
  }

  /** Every box a text box sends off has that text box's bounding box. */
  lemma {:induction false} BoxesKeepFrame(boxes: seq<Box>, rl: seq<nat>, tb: Box, lines: seq<Node>)
    requires InRange(rl, |boxes|)
    ensures var st := LinesSpec(boxes, rl, tb, lines);
      st.ttbox.box == tb && forall k :: 0 <= k < |st.out| ==> st.out[k].box.box == tb
    decreases |lines|
  {
    if |lines| > 0 {
      BoxesKeepFrame(boxes, rl, tb, lines[..|lines| - 1]);
      LineStepKeepsFrame(boxes, rl, tb, LinesSpec(boxes, rl, tb, lines[..|lines| - 1]), lines[|lines| - 1]);
    }
  }

  /** One line keeps every box, sent off or being filled, on the text box's bounding box. */
  lemma LineStepKeepsFrame(boxes: seq<Box>, rl: seq<nat>, tb: Box, st: TextState, line: Node)
    requires InRange(rl, |boxes|) && StateOk(st, rl)
    requires st.ttbox.box == tb && forall k :: 0 <= k < |st.out| ==> st.out[k].box.box == tb
    ensures var r := LineStep(boxes, rl, tb, st, line);
      r.ttbox.box == tb && forall k :: 0 <= k < |r.out| ==> r.out[k].box.box == tb
  {
    if st.trect.Some? {
      var st1 := SendOff(rl, tb, st);
      assert forall k :: 0 <= k < |st1.out| ==> st1.out[k].box.box == tb;
    }
  }

  /** The sent-off boxes applied to the store in order: a box with a target is added to that
      rect, the others are returned. */
  function ApplyEmits(kids: seq<seq<Kid>>, es: seq<Emit>): (r: Result<Assigned>)
    requires RefsIn(kids)
    requires TargetsBelow(es, |kids|)
    ensures r.Err? ==> r.error == RecursionError
    ensures r.Ok? ==> |r.value.kids| == |kids| && RefsIn(r.value.kids) && AllLeaves(r.value.remaining)
    decreases |es|
  {
    if |es| == 0 then Ok(Assigned(kids, []))
    else
      var a :- ApplyEmits(kids, es[..|es| - 1]);
      var e := es[|es| - 1];
      if e.target.Some? then
        var k2 :- AddKid(a.kids, e.target.value, Leaf(e.box), |kids|);
        Ok(Assigned(k2, a.remaining))
      else Ok(Assigned(a.kids, a.remaining + [Leaf(e.box)]))
  }

  predicate TargetsBelow(es: seq<Emit>, n: nat) {
    forall k :: 0 <= k < |es| && es[k].target.Some? ==> es[k].target.value < n
  }

  /** `[0, 1, ..., n - 1]`. */
  function Range(n: nat): (r: seq<nat>)
    ensures |r| == n && forall k :: 0 <= k < n ==> r[k] == k
  {
    seq(n, k requires 0 <= k < n => k)
  }

  /** What the sent-off boxes weigh. */
  function EmitWeight(es: seq<Emit>): nat
    decreases |es|
  {
    if |es| == 0 then 0 else EmitWeight(es[..|es| - 1]) + Size(es[|es| - 1].box)
  }

  predicate Unplaced(e: Emit) {
    e.target.None?
  }

  function EmitLeaf(e: Emit): Kid {
    Leaf(e.box)
  }

  /** Applying the sent-off boxes loses none: each is added to its rect or returned, and the
      returned ones are those without a rect, in order. */
  lemma ApplyEmitsKeeps(kids: seq<seq<Kid>>, es: seq<Emit>)
    requires RefsIn(kids) && TargetsBelow(es, |kids|)
    ensures var r := ApplyEmits(kids, es);
      r.Ok? ==>
        r.value.remaining == Map(Filter(es, Unplaced), EmitLeaf) &&
        StoreWeight(r.value.kids) + SumBy(r.value.remaining, KidWeight) == StoreWeight(kids) + EmitWeight(es)
  {
    ApplyEmitsRemaining(kids, es);
    ApplyEmitsWeight(kids, es);
  }

  /** The boxes returned are those without a rect, in order. */
  lemma {:induction false} ApplyEmitsRemaining(kids: seq<seq<Kid>>, es: seq<Emit>)
    requires RefsIn(kids) && TargetsBelow(es, |kids|)
    ensures var r := ApplyEmits(kids, es);
      r.Ok? ==> r.value.remaining == Map(Filter(es, Unplaced), EmitLeaf)
    decreases |es|
  {
    if |es| > 0 {
      ApplyEmitsRemaining(kids, es[..|es| - 1]);
    }
  }

  /** Each box sent off is added to its rect or returned, and none is lost. */
  lemma {:induction false} ApplyEmitsWeight(kids: seq<seq<Kid>>, es: seq<Emit>)
    requires RefsIn(kids) && TargetsBelow(es, |kids|)
    ensures var r := ApplyEmits(kids, es);
      r.Ok? ==>
        StoreWeight(r.value.kids) + SumBy(r.value.remaining, KidWeight) == StoreWeight(kids) + EmitWeight(es)
    decreases |es|
  {
    if |es| > 0 {
      var init := es[..|es| - 1];
      var e := es[|es| - 1];
      ApplyEmitsWeight(kids, init);
      var a := ApplyEmits(kids, init);
      if a.Ok? {
        if e.target.Some? {
          AddKidWeight(a.value.kids, e.target.value, Leaf(e.box), |kids|);
        } else {
          SumByAppend(a.value.remaining, [Leaf(e.box)], KidWeight);
          assert SumBy([Leaf(e.box)], KidWeight) == Size(e.box) by {
            assert [Leaf(e.box)][..0] == [];
          }
        }
      }
    }
  }

  /** What one page component sends off in the text pass: the boxes of a text box, nothing for
      anything else. */
  function PrimEmits(boxes: seq<Box>, rl: seq<nat>, p: Primitive): seq<Emit>
    requires InRange(rl, |boxes|)
  {
    if p.PTextBox? then BoxEmits(boxes, rl, p.box, LineNodes(p.lines)) else []
  }

  /** The boxes of every text box of `tbs`, in order. */
  function TextEmits(boxes: seq<Box>, rl: seq<nat>, tbs: seq<Primitive>): seq<Emit>
    requires InRange(rl, |boxes|)
    decreases |tbs|
  {
    if |tbs| == 0 then []
    else TextEmits(boxes, rl, tbs[..|tbs| - 1]) + PrimEmits(boxes, rl, tbs[|tbs| - 1])
  }

  /** `_assign_text_boxes_to_rects(texts, rects)`, `rl` giving the positions of `rects`. */
  function TextPass(boxes: seq<Box>, kids: seq<seq<Kid>>, rl: seq<nat>, tbs: seq<Primitive>): (r: Result<Assigned>)
    requires |kids| == |boxes| && RefsIn(kids) && InRange(rl, |boxes|)
    ensures r.Err? ==> r.error == RecursionError
    ensures r.Ok? ==> |r.value.kids| == |kids| && RefsIn(r.value.kids) && AllLeaves(r.value.remaining)
  {
    TextEmitsTargets(boxes, rl, tbs);
    ApplyEmits(kids, TextEmits(boxes, rl, tbs))
  }

  /** Every box sent off in the text pass is headed for a rect of the store, if any. */
  lemma {:induction false} TextEmitsTargets(boxes: seq<Box>, rl: seq<nat>, tbs: seq<Primitive>)
    requires InRange(rl, |boxes|)
    ensures TargetsBelow(TextEmits(boxes, rl, tbs), |boxes|)
    decreases |tbs|
  {
    if |tbs| > 0 {
      var p := tbs[|tbs| - 1];
      TextEmitsTargets(boxes, rl, tbs[..|tbs| - 1]);
      if p.PTextBox? {
        BoxEmitsTargets(boxes, rl, p.box, LineNodes(p.lines));
      }
      TargetsBelowAppend(TextEmits(boxes, rl, tbs[..|tbs| - 1]), PrimEmits(boxes, rl, p), |boxes|);
    }
  }

  lemma TargetsBelowAppend(a: seq<Emit>, b: seq<Emit>, n: nat)
    requires TargetsBelow(a, n) && TargetsBelow(b, n)
    ensures TargetsBelow(a + b, n)
  {
    assert forall k :: |a| <= k < |a + b| ==> (a + b)[k] == b[k - |a|];
  }

  lemma BoxEmitsTargets(boxes: seq<Box>, rl: seq<nat>, tb: Box, lines: seq<Node>)
    requires InRange(rl, |boxes|)
    ensures TargetsBelow(BoxEmits(boxes, rl, tb, lines), |boxes|)
  {
    var st := LinesSpec(boxes, rl, tb, lines);
    var es := BoxEmits(boxes, rl, tb, lines);
    forall k | 0 <= k < |es| && es[k].target.Some?
      ensures es[k].target.value < |boxes|
    {
      var t := es[k].target.value;
      assert t in rl;
      var u :| 0 <= u < |rl| && rl[u] == t;
    }
  }

  /** The page sort key `(-y0, x0)`. */
  function PageKey(p: Primitive): Key {
    Key(-p.box.y0, p.box.x0)
  }

  /** The result sort key `(-y1, x0)`. */
  function OutKey(c: Kid): Key {
    Key(-KidBox(c).y1, KidBox(c).x0)
  }

  predicate IsTextBox(p: Primitive) {
    p.PTextBox?
  }

  /** An `LTCurve` that is neither an `LTRect` nor an `LTLine`. */
  predicate IsCurve(p: Primitive) {
    p.PCurve?
  }

  predicate IsFigure(p: Primitive) {
    p.PFigure?
  }

  /** `PDFLTCurve(el)` and `PDFLTComponent(el)`, held by value. */
  function CurveOf(p: Primitive): Kid {
    if p.PCurve? then Leaf(CurveNode(p.box, p.style)) else Leaf(FigureNode(p.box))
  }

  function FigureOf(p: Primitive): Kid {
    Leaf(FigureNode(p.box))
  }

  /** The rects of the list, each as a reference to itself. */
  function ListRefs(boxes: seq<Box>): (r: seq<Kid>)
    ensures |r| == |boxes|
    ensures forall k :: 0 <= k < |boxes| ==> r[k] == Ref(k, boxes[k])
  {
    seq(|boxes|, k requires 0 <= k < |boxes| => Ref(k, boxes[k]))
  }

  /** The positions of the rects referred to. */
  function Positions(cs: seq<Kid>): (r: seq<nat>)
    ensures |r| == |cs|
    ensures forall k :: 0 <= k < |cs| ==> r[k] == (if cs[k].Ref? then cs[k].idx else 0)
  {
    seq(|cs|, k requires 0 <= k < |cs| => if cs[k].Ref? then cs[k].idx else 0)
  }

  /** A store of `n` rects without children. */
  function EmptyStore(n: nat): (r: seq<seq<Kid>>)
    ensures |r| == n && forall i :: 0 <= i < n ==> r[i] == []
  {
    seq(n, i requires 0 <= i < n => [])
  }

  /** The mean line width of the rects at positions `rl`, or 0 when there are none. */
  function AvgLinewidth(styles: seq<Style>, rl: seq<nat>): real
    requires InRange(rl, |styles|)
  {
    if |rl| > 0 then Mean(seq(|rl|, k requires 0 <= k < |rl| => styles[rl[k]].linewidth)) else 0.0
  }

  /** A component no rect took, wrapped in a rect of its own box holding it. */
  function Wrap(c: Kid, linewidth: real): (r: Kid)
    requires c.Leaf?
    ensures r.Leaf? && r.node == RectNode(c.node.box, PlainStyle(linewidth), [c.node])
    ensures IsWrapper(r) && KidWeight(r) == KidWeight(c) + 1
  {
    AddToEmpty(c.node.box, PlainStyle(linewidth), c.node);
    Leaf(Add(RectNode(c.node.box, PlainStyle(linewidth), []), c.node))
  }

  function WrapAll(cs: seq<Kid>, linewidth: real): (r: seq<Kid>)
    requires AllLeaves(cs)
    ensures |r| == |cs| && AllLeaves(r)
    ensures forall k :: 0 <= k < |cs| ==> r[k] == Wrap(cs[k], linewidth)
  {
    seq(|cs|, k requires 0 <= k < |cs| => Wrap(cs[k], linewidth))
  }

  /** The store after `predict` and the rects it returns. */
  datatype Composed = Composed(kids: seq<seq<Kid>>, rects: seq<Kid>)

  lemma LeavesFrom(cs: seq<Kid>, rem: seq<Kid>)
    requires AllLeaves(cs) && forall t :: 0 <= t < |rem| ==> rem[t] in cs
    ensures AllLeaves(rem)
  {
  }

  /** The first pass of `predict`: the rects of the list nested into one another. The rects
      left over are those that fit in no other rect of the list, in list order. */
  function NestSpec(boxes: seq<Box>): (r: Result<Assigned>)
    ensures r.Err? ==> r.error == RecursionError
    ensures r.Ok? ==> |r.value.kids| == |boxes| && RefsIn(r.value.kids)
    ensures r.Ok? ==> r.value.remaining == Filter(ListRefs(boxes), c => Homeless(boxes, Range(|boxes|), c))
  {
    var n := |boxes|;
    AssignRemaining(boxes, EmptyStore(n), Range(n), ListRefs(boxes));
    AssignSpec(boxes, EmptyStore(n), Range(n), ListRefs(boxes))
  }

  /** The rect tops of the list are the ones whose positions the later passes use. */
  lemma TopsInRange(boxes: seq<Box>, tops: seq<Kid>)
    requires tops == Filter(ListRefs(boxes), c => Homeless(boxes, Range(|boxes|), c))
    ensures InRange(Positions(tops), |boxes|)
  {
    forall t | 0 <= t < |tops|
      ensures tops[t].Ref? && tops[t].idx < |boxes|
    {
      assert tops[t] in ListRefs(boxes);
    }
  }

  /** The text lines, then the curves, then the figures of the page, each kind in page order,
      offered to the rects at positions `rl`; what no rect took is returned, kind after kind. */
  function SweepSpec(boxes: seq<Box>, kids: seq<seq<Kid>>, rl: seq<nat>, page: seq<Primitive>): (r: Result<Assigned>)
    requires |kids| == |boxes| && RefsIn(kids) && InRange(rl, |boxes|)
    ensures r.Err? ==> r.error == RecursionError
    ensures r.Ok? ==> |r.value.kids| == |boxes| && RefsIn(r.value.kids) && AllLeaves(r.value.remaining)
  {
    var comps := SortBy(page, PageKey);
    var tx :- TextPass(boxes, kids, rl, Filter(comps, IsTextBox));
    var curves := Map(Filter(comps, IsCurve), CurveOf);
    var cv :- AssignSpec(boxes, tx.kids, rl, curves);
    LeavesFrom(curves, cv.remaining);
    var figures := Map(Filter(comps, IsFigure), FigureOf);
    var fg :- AssignSpec(boxes, cv.kids, rl, figures);
    LeavesFrom(figures, fg.remaining);
    Ok(Assigned(fg.kids, tx.remaining + cv.remaining + fg.remaining))
  }

  /** The later passes of `predict`, into the rects at positions `rl`: the sweep, then whatever
      no rect took wrapped in a rect of its own, with the mean line width of those rects, and
      offered to them again. The wrappers no rect took are returned. */
  function PlaceSpec(boxes: seq<Box>, styles: seq<Style>, kids: seq<seq<Kid>>, rl: seq<nat>, page: seq<Primitive>): (r: Result<Assigned>)
    requires |styles| == |boxes| && |kids| == |boxes| && RefsIn(kids) && InRange(rl, |boxes|)
    ensures r.Err? ==> r.error == RecursionError
    ensures r.Ok? ==> |r.value.kids| == |boxes| && RefsIn(r.value.kids)
    ensures r.Ok? ==> forall t :: 0 <= t < |r.value.remaining| ==> IsWrapper(r.value.remaining[t])
  {
    var sw :- SweepSpec(boxes, kids, rl, page);
    var wrapped := WrapAll(sw.remaining, AvgLinewidth(styles, rl));
    AssignSpec(boxes, sw.kids, rl, wrapped)
  }

  /** `predict(page)` on the rects of the list (boxes and styles in list order, no children yet):
      the first pass, then the later passes into the rects left over. The result is the wrappers
      no rect took followed by the rects left over, sorted by `(-y1, x0)`. */
  function PredictSpec(boxes: seq<Box>, styles: seq<Style>, page: seq<Primitive>): (r: Result<Composed>)
    requires |styles| == |boxes|
    ensures r.Err? ==> r.error == RecursionError
    ensures r.Ok? ==> |r.value.kids| == |boxes| && RefsIn(r.value.kids) && ShapeOk(boxes, r.value.rects)
  {
    var p1 :- NestSpec(boxes);
    TopsInRange(boxes, p1.remaining);
    var pl :- PlaceSpec(boxes, styles, p1.kids, Positions(p1.remaining), page);
    OutputShape(boxes, p1.remaining, pl.remaining);
    Ok(Composed(pl.kids, SortBy(pl.remaining + p1.remaining, OutKey)))
  }

  /** A wrapper made by `predict`: a plain rect of the component's own box holding only it. */
  predicate IsWrapper(c: Kid) {
    c.Leaf? && c.node.RectNode? && !c.node.style.stroke && !c.node.style.fill &&
    |c.node.kids| == 1 && c.node.kids[0].box == c.node.box
  }

  /** What `predict` returns: rects sorted by `(-y1, x0)`, each either a rect of the list that
      fits in no other rect of the list, or a wrapper around one component no rect took. */
  predicate ShapeOk(boxes: seq<Box>, rects: seq<Kid>) {
    SortedBy(rects, OutKey) &&
    forall t :: 0 <= t < |rects| ==>
      (rects[t].Ref? && rects[t].idx < |boxes| && rects[t].box == boxes[rects[t].idx] &&
       Homeless(boxes, Range(|boxes|), rects[t])) ||
      IsWrapper(rects[t])
  }

  lemma OutputShape(boxes: seq<Box>, tops: seq<Kid>, loose: seq<Kid>)
    requires tops == Filter(ListRefs(boxes), c => Homeless(boxes, Range(|boxes|), c))
    requires forall t :: 0 <= t < |loose| ==> IsWrapper(loose[t])
    ensures ShapeOk(boxes, SortBy(loose + tops, OutKey))
  {
    var out := loose + tops;
    var rects := SortBy(out, OutKey);
    forall t | 0 <= t < |rects|
      ensures (rects[t].Ref? && rects[t].idx < |boxes| && rects[t].box == boxes[rects[t].idx] &&
               Homeless(boxes, Range(|boxes|), rects[t])) || IsWrapper(rects[t])
    {
      assert rects[t] in multiset(out);
      var u :| 0 <= u < |out| && out[u] == rects[t];
      if u >= |loose| {
        var c := tops[u - |loose|];
        assert c in ListRefs(boxes);
      }
    }
  }

  /** Wrapping adds one rect per component. */
  lemma {:induction false} WrapAllWeight(cs: seq<Kid>, linewidth: real)
    requires AllLeaves(cs)
    ensures SumBy(WrapAll(cs, linewidth), KidWeight) == SumBy(cs, KidWeight) + |cs|
    decreases |cs|
  {
    if |cs| > 0 {
      var init := cs[..|cs| - 1];
      WrapAllWeight(init, linewidth);
      var w := WrapAll(cs, linewidth);
      WrapAllPrefix(cs, linewidth);
      assert KidWeight(w[|w| - 1]) == KidWeight(cs[|cs| - 1]) + 1;
    }
  }

  lemma WrapAllPrefix(cs: seq<Kid>, linewidth: real)
    requires AllLeaves(cs) && |cs| > 0
    ensures WrapAll(cs, linewidth)[..|cs| - 1] == WrapAll(cs[..|cs| - 1], linewidth)
  {
    var w, v := WrapAll(cs, linewidth)[..|cs| - 1], WrapAll(cs[..|cs| - 1], linewidth);
    assert forall k :: 0 <= k < |w| ==> w[k] == v[k];
  }

  /** The inner `for rect in rects` of `_assign_components_to_rects`. */
  method FindHome(boxes: seq<Box>, rl: seq<nat>, c: Kid) returns (t: nat)
    requires InRange(rl, |boxes|)
    ensures t == Home(boxes, rl, c)
  {
    t := 0;
    while t < |rl| && !Fits(boxes, rl[t], c)
      invariant t <= |rl|
      invariant forall u :: 0 <= u < t ==> !Fits(boxes, rl[u], c)
    {
      t := t + 1;
    }
    var h := Home(boxes, rl, c);
    assert !(h < t) && !(t < h);
  }

  /** The inner `for rect in rects` of `_assign_text_boxes_to_rects`. */
  method FindHolding(boxes: seq<Box>, rl: seq<nat>, p: Point) returns (t: nat)
    requires InRange(rl, |boxes|)
    ensures t == FirstHolding(boxes, rl, p)
  {
    t := 0;
    while t < |rl| && !boxes[rl[t]].Contains(p)
      invariant t <= |rl|
      invariant forall u :: 0 <= u < t ==> !boxes[rl[u]].Contains(p)
    {
      t := t + 1;
    }
    var h := FirstHolding(boxes, rl, p);
    assert !(h < t) && !(t < h);
  }

  lemma {:induction false} AssignErrSticks(boxes: seq<Box>, kids: seq<seq<Kid>>, rl: seq<nat>, cs: seq<Kid>, j: nat)
    requires |kids| == |boxes| && RefsIn(kids) && InRange(rl, |boxes|) && Uniform(cs, kids)
    requires j <= |cs| && AssignSpec(boxes, kids, rl, cs[..j]).Err?
    ensures AssignSpec(boxes, kids, rl, cs).Err?
    decreases |cs|
  {
    if j < |cs| {
      var init := cs[..|cs| - 1];
      assert init[..j] == cs[..j];
      AssignErrSticks(boxes, kids, rl, init, j);
    } else {
      assert cs[..j] == cs;
    }
  }

  /** `_assign_components_to_rects`: the components popped from the deque in order, each added
      to the first rect that fits it or kept as remaining. */
  method AssignComponents(boxes: seq<Box>, kids0: seq<seq<Kid>>, rl: seq<nat>, cs: seq<Kid>) returns (r: Result<Assigned>)
    requires |kids0| == |boxes| && RefsIn(kids0) && InRange(rl, |boxes|) && Uniform(cs, kids0)
    ensures r == AssignSpec(boxes, kids0, rl, cs)
  {
    var a := Assigned(kids0, []);
    var i := 0;
    while i < |cs|
      invariant i <= |cs|
      invariant AssignSpec(boxes, kids0, rl, cs[..i]) == Ok(a)
      invariant !AllLeaves(cs) ==> NoLeaves(a.kids)
    {
      var step := AssignOne(boxes, kids0, rl, cs, i, a);
      if step.Err? {
        AssignErrSticks(boxes, kids0, rl, cs, i + 1);
        return step;
      }
      a := step.value;
      i := i + 1;
    }
    assert cs[..i] == cs;
    r := Ok(a);
  }

  /** One turn of the loop: the next component goes to the first rect that fits it, or is kept
      as remaining. */
  method AssignOne(boxes: seq<Box>, kids0: seq<seq<Kid>>, rl: seq<nat>, cs: seq<Kid>, i: nat, a: Assigned)
    returns (r: Result<Assigned>)
    requires |kids0| == |boxes| && RefsIn(kids0) && InRange(rl, |boxes|) && Uniform(cs, kids0)
    requires i < |cs| && AssignSpec(boxes, kids0, rl, cs[..i]) == Ok(a)
    requires !AllLeaves(cs) ==> NoLeaves(a.kids)
    ensures r == AssignSpec(boxes, kids0, rl, cs[..i + 1])
    ensures r.Ok? && !AllLeaves(cs) ==> NoLeaves(r.value.kids)
  {
    var c := cs[i];
    AssignSpecNext(boxes, kids0, rl, cs, i);
    var h := FindHome(boxes, rl, c);
    if h < |rl| {
      var added := AddKid(a.kids, rl[h], c, |boxes|);
      if added.Err? {
        return Err(added.error);
      }
      r := Ok(Assigned(added.value, a.remaining));
    } else {
      r := Ok(Assigned(a.kids, a.remaining + [c]));
    }
  }

  /** The line loop of `_assign_text_boxes_to_rects` over one text box. */
  method ScanLines(boxes: seq<Box>, rl: seq<nat>, tb: Box, lines: seq<Node>) returns (es: seq<Emit>)
    requires InRange(rl, |boxes|)
    ensures es == BoxEmits(boxes, rl, tb, lines)
  {
    var st := TextState(TextBoxNode(tb, []), None, []);
    var j := 0;
    while j < |lines|
      invariant j <= |lines|
      invariant st == LinesSpec(boxes, rl, tb, lines[..j])
    {
      assert lines[..j + 1][..j] == lines[..j];
      st := ScanLine(boxes, rl, tb, st, lines[j]);
      j := j + 1;
    }
    assert lines[..j] == lines;
    es := st.out + [Emit(st.trect, st.ttbox)];
  }

  /** One turn of the line loop. */
  method ScanLine(boxes: seq<Box>, rl: seq<nat>, tb: Box, st: TextState, line: Node) returns (r: TextState)
    requires InRange(rl, |boxes|) && StateOk(st, rl)
    ensures r == LineStep(boxes, rl, tb, st, line)
  {
    var c := line.box.Center();
    if st.trect.Some? && boxes[st.trect.value].Contains(c) {
      return st.(ttbox := Add(st.ttbox, line));
    }
    r := st;
    if st.trect.Some? {
      r := SendOff(rl, tb, st);
    }
    var h := FindHolding(boxes, rl, c);
    if h < |rl| {
      r := r.(ttbox := Add(r.ttbox, line), trect := Some(rl[h]));
    } else {
      r := r.(ttbox := Add(r.ttbox, line));
    }
  }

  lemma {:induction false} ApplyErrSticks(kids: seq<seq<Kid>>, es: seq<Emit>, j: nat)
    requires RefsIn(kids) && TargetsBelow(es, |kids|)
    requires j <= |es| && ApplyEmits(kids, es[..j]).Err?
    ensures ApplyEmits(kids, es).Err?
    decreases |es|
  {
    if j < |es| {
      var init := es[..|es| - 1];
      assert init[..j] == es[..j];
      ApplyErrSticks(kids, init, j);
    } else {
      assert es[..j] == es;
    }
  }

  lemma TargetsBelowPrefix(a: seq<Emit>, b: seq<Emit>, j: nat, n: nat)
    requires TargetsBelow(a + b, n) && j <= |b|
    ensures TargetsBelow(a, n) && TargetsBelow(a + b[..j], n)
  {
    assert forall k :: 0 <= k < |a| ==> a[k] == (a + b)[k];
    assert forall k :: 0 <= k < |a| + j ==> (a + b[..j])[k] == (a + b)[k];
  }

  lemma TargetsBelowTake(es: seq<Emit>, j: nat, n: nat)
    requires TargetsBelow(es, n) && j <= |es|
    ensures TargetsBelow(es[..j], n)
  {
    assert forall k :: 0 <= k < j ==> es[..j][k] == es[k];
  }

  lemma ApplyErrAt(kids0: seq<seq<Kid>>, all: seq<Emit>, m: nat, a: Assigned)
    requires RefsIn(kids0) && TargetsBelow(all, |kids0|) && m < |all|
    requires TargetsBelow(all[..m], |kids0|) && ApplyEmits(kids0, all[..m]) == Ok(a)
    requires all[m].target.Some? && AddKid(a.kids, all[m].target.value, Leaf(all[m].box), |kids0|).Err?
    ensures ApplyEmits(kids0, all).Err?
  {
    assert all[..m + 1][..m] == all[..m];
    ApplyErrSticks(kids0, all, m + 1);
  }

  lemma ApplyOkAt(kids0: seq<seq<Kid>>, all: seq<Emit>, m: nat, a: Assigned, next: Assigned)
    requires RefsIn(kids0) && TargetsBelow(all, |kids0|) && m < |all|
    requires TargetsBelow(all[..m], |kids0|) && ApplyEmits(kids0, all[..m]) == Ok(a)
    requires all[m].target.Some? ==>
      AddKid(a.kids, all[m].target.value, Leaf(all[m].box), |kids0|) == Ok(next.kids) && next.remaining == a.remaining
    requires all[m].target.None? ==> next == Assigned(a.kids, a.remaining + [Leaf(all[m].box)])
    ensures TargetsBelow(all[..m + 1], |kids0|) && ApplyEmits(kids0, all[..m + 1]) == Ok(next)
  {
    var p := all[..m + 1];
    TargetsBelowTake(all, m + 1, |kids0|);
    assert p[..m] == all[..m] && p[m] == all[m] && |p| == m + 1;
  }

  /** The boxes sent off, in order, added to their rects or kept as remaining. */
  method ApplyAll(kids0: seq<seq<Kid>>, es: seq<Emit>) returns (r: Result<Assigned>)
    requires RefsIn(kids0) && TargetsBelow(es, |kids0|)
    ensures r == ApplyEmits(kids0, es)
  {
    var kids := kids0;
    var remaining: seq<Kid> := [];
    var j := 0;
    while j < |es|
      invariant j <= |es|
      invariant TargetsBelow(es[..j], |kids0|)
      invariant ApplyEmits(kids0, es[..j]) == Ok(Assigned(kids, remaining))
    {
      var e := es[j];
      ghost var a := Assigned(kids, remaining);
      if e.target.Some? {
        var added := AddKid(kids, e.target.value, Leaf(e.box), |kids0|);
        if added.Err? {
          ApplyErrAt(kids0, es, j, a);
          return Err(added.error);
        }
        kids := added.value;
      } else {
        remaining := remaining + [Leaf(e.box)];
      }
      ApplyOkAt(kids0, es, j, a, Assigned(kids, remaining));
      j := j + 1;
    }
    assert es[..j] == es;
    r := Ok(Assigned(kids, remaining));
  }

  /** The line scans of all text boxes, in order. */
  method CollectEmits(boxes: seq<Box>, rl: seq<nat>, texts: seq<Primitive>) returns (es: seq<Emit>)
    requires InRange(rl, |boxes|)
    ensures es == TextEmits(boxes, rl, texts)
  {
    es := [];
    var i := 0;
    while i < |texts|
      invariant i <= |texts|
      invariant es == TextEmits(boxes, rl, texts[..i])
    {
      var p := texts[i];
      assert texts[..i + 1][..i] == texts[..i];
      if p.PTextBox? {
        var more := ScanLines(boxes, rl, p.box, LineNodes(p.lines));
        es := es + more;
      }
      i := i + 1;
    }
    assert texts[..i] == texts;
  }

  /** `_assign_text_boxes_to_rects`. The source adds each box to its rect as soon as the box is
      sent off; here the boxes of all text boxes are collected first and added afterwards, in the
      same order. The two agree because sending a box off depends only on the rects' boxes,
      which adding never changes. */
  method AssignTextBoxes(boxes: seq<Box>, kids0: seq<seq<Kid>>, rl: seq<nat>, texts: seq<Primitive>) returns (r: Result<Assigned>)
    requires |kids0| == |boxes| && RefsIn(kids0) && InRange(rl, |boxes|)
    ensures r == TextPass(boxes, kids0, rl, texts)
  {
    var es := CollectEmits(boxes, rl, texts);
    TextEmitsTargets(boxes, rl, texts);
    r := ApplyAll(kids0, es);
  }

  /** The `for rcmpt in remain_cmpts` loop of `predict`: one wrapper per component. */
  method WrapEach(cs: seq<Kid>, linewidth: real) returns (out: seq<Kid>)
    requires AllLeaves(cs)
    ensures out == WrapAll(cs, linewidth)
  {
    out := [];
    var i := 0;
    while i < |cs|
      invariant i <= |cs|
      invariant out == WrapAll(cs[..i], linewidth)
    {
      out := out + [Wrap(cs[i], linewidth)];
      i := i + 1;
    }
    assert cs[..i] == cs;
  }

  /** The text, curve and figure passes of `predict`. */
  method Sweep(boxes: seq<Box>, kids: seq<seq<Kid>>, rl: seq<nat>, page: seq<Primitive>) returns (r: Result<Assigned>)
    requires |kids| == |boxes| && RefsIn(kids) && InRange(rl, |boxes|)
    ensures r == SweepSpec(boxes, kids, rl, page)
  {
    var comps := SortBy(page, PageKey);
    var tx := AssignTextBoxes(boxes, kids, rl, Filter(comps, IsTextBox));
    if tx.Err? {
      return Err(tx.error);
    }
    var curves := Map(Filter(comps, IsCurve), CurveOf);
    var cv := AssignComponents(boxes, tx.value.kids, rl, curves);
    if cv.Err? {
      return Err(cv.error);
    }
    LeavesFrom(curves, cv.value.remaining);
    var figures := Map(Filter(comps, IsFigure), FigureOf);
    var fg := AssignComponents(boxes, cv.value.kids, rl, figures);
    if fg.Err? {
      return Err(fg.error);
    }
    r := Ok(Assigned(fg.value.kids, tx.value.remaining + cv.value.remaining + fg.value.remaining));
  }

  /** The passes of `predict(page)` over rects without children yet. */
  method Compose(boxes: seq<Box>, styles: seq<Style>, page: seq<Primitive>) returns (r: Result<Composed>)
    requires |styles| == |boxes|
    ensures r == PredictSpec(boxes, styles, page)
  {
    var n := |boxes|;
    var p1 := AssignComponents(boxes, EmptyStore(n), Range(n), ListRefs(boxes));
    assert p1 == NestSpec(boxes);
    if p1.Err? {
      return Err(p1.error);
    }
    TopsInRange(boxes, p1.value.remaining);
    var pl := Place(boxes, styles, p1.value.kids, Positions(p1.value.remaining), page);
    if pl.Err? {
      return Err(pl.error);
    }
    r := Ok(Composed(pl.value.kids, SortBy(pl.value.remaining + p1.value.remaining, OutKey)));
  }

  /** The passes of `predict` after the first one. */
  method Place(boxes: seq<Box>, styles: seq<Style>, kids: seq<seq<Kid>>, rl: seq<nat>, page: seq<Primitive>)
    returns (r: Result<Assigned>)
    requires |styles| == |boxes| && |kids| == |boxes| && RefsIn(kids) && InRange(rl, |boxes|)
    ensures r == PlaceSpec(boxes, styles, kids, rl, page)
  {
    var sw := Sweep(boxes, kids, rl, page);
    if sw.Err? {
      return Err(sw.error);
    }
    var wrapped := WrapEach(sw.value.remaining, AvgLinewidth(styles, rl));
    r := AssignComponents(boxes, sw.value.kids, rl, wrapped);
  }

  /** `PDFLTComposer`: the rects handed to `fit`, in list order, and the children each gathers. */
  class PDFComposer {
    var boxes: seq<Box>
    var styles: seq<Style>
    var kids: seq<seq<Kid>>

    predicate Valid()
      reads this
    {
      |styles| == |boxes| && |kids| == |boxes| && RefsIn(kids)
    }

    /** No rect has gathered anything yet. */
    predicate Unfilled()
      reads this
    {
      Valid() && forall i :: 0 <= i < |kids| ==> kids[i] == []
    }

    constructor()
      ensures Unfilled() && boxes == []
    {
      boxes := [];
      styles := [];
      kids := [];
    }

    /** `fit(rects)`: keeps the rects sorted by `(-y0, x0)`. */
    method Fit(rects: seq<Node>)
      requires forall k :: 0 <= k < |rects| ==> rects[k].RectNode? && rects[k].kids == []
      modifies this
      ensures Unfilled() && |boxes| == |rects|
      ensures var sorted := SortBy(rects, ChildKey);
        forall k :: 0 <= k < |sorted| ==> sorted[k] == RectNode(boxes[k], styles[k], [])
    {
      var sorted := SortBy(rects, ChildKey);
      forall k | 0 <= k < |sorted|
        ensures sorted[k].RectNode? && sorted[k].kids == []
      {
        assert sorted[k] in multiset(rects);
      }
      boxes := seq(|sorted|, k requires 0 <= k < |sorted| => sorted[k].box);
      styles := seq(|sorted|, k requires 0 <= k < |sorted| => sorted[k].style);
      kids := EmptyStore(|sorted|);
    }

    /** `predict(page)`. On a `RecursionError` the store is left as it was. */
    method Predict(page: seq<Primitive>) returns (r: Result<seq<Kid>>)
      requires Unfilled()
      modifies this
      ensures boxes == old(boxes) && styles == old(styles) && Valid()
      ensures var spec := PredictSpec(old(boxes), old(styles), page);
        (spec.Err? ==> r == Err(spec.error) && kids == old(kids)) &&
        (spec.Ok? ==> r == Ok(spec.value.rects) && kids == spec.value.kids)
    {
      var c := Compose(boxes, styles, page);
      if c.Err? {
        return Err(c.error);
      }
      kids := c.value.kids;
      r := Ok(c.value.rects);
    }
  }
}
