/** The layout matcher for MV checklists. A page's cells are grouped into rows by their `y0`;
    the first page yields the checklist header, and every later page a run of location rows
    (which open a task) and element rows (number, description with its measures, remarks, tools
    and status). The result tree is flattened into the rows of the MV sheet. */
module MvMatcher {
  import opened Outcomes
  import opened PyStr
  import opened Seqs
  import opened Dicts
  import opened Runs
  import opened Lines
  import opened Components
  import opened MvResult

  /** The `position_tol` the MV pipeline runs with. */
  const PositionTol: real := 1.5

  /** `PDFLTMatchState` as this matcher uses it: the current task and element keys. */
  datatype State = State(task: string, element: string)

  /** The match result: the checklist header and the tasks in insertion order. */
  datatype Match = Match(header: Header, tasks: Dict<string, Task>)

  datatype Matched = Matched(state: State, result: Match)

  // ----- Rows of a page -----

  /** A cell joins the current row when its `y0` is within `position_tol` of the `y0` of the
      row's first cell. */
  function SameRow(first: Node, cell: Node): bool {
    Abs(cell.box.y0 - first.box.y0) <= PositionTol
  }

  /** `lines[2:-2]`: the two header rows and the two footer rows go. */
  function DropMargins<T>(rows: seq<T>): (r: seq<T>)
    ensures |r| == if |rows| <= 4 then 0 else |rows| - 4
    ensures forall i :: 0 <= i < |r| ==> r[i] == rows[i + 2]
  {
    if |rows| <= 4 then [] else rows[2..|rows| - 2]
  }

  /** The rows the matcher reads from a page's layout. */
  function PageRows(layout: seq<Node>): seq<Cells> {
    DropMargins(RunsOf(layout, SameRow))
  }

  lemma FlattenConcat<T>(a: seq<seq<T>>, b: seq<seq<T>>)
    ensures Flatten(a + b) == Flatten(a) + Flatten(b)
    decreases |b|
  {
    if |b| == 0 {
      assert a + b == a;
    } else {
      var c := b[..|b| - 1];
      assert (a + b)[..|a + b| - 1] == a + c;
      FlattenConcat(a, c);
    }
  }

  /** Within a row every cell's `y0` is within the tolerance of the first cell's, and the first
      cells of consecutive rows are farther apart than that. */
  lemma PageRowsWithin(layout: seq<Node>)
    ensures var rows := PageRows(layout);
      (forall i, k :: 0 <= i < |rows| && 0 < k < |rows[i]| ==>
         Abs(rows[i][k].box.y0 - rows[i][0].box.y0) <= PositionTol) &&
      (forall i :: 0 < i < |rows| ==> Abs(rows[i][0].box.y0 - rows[i - 1][0].box.y0) > PositionTol)
  {
    var all: seq<Cells> := RunsOf(layout, SameRow);
    var rows: seq<Cells> := PageRows(layout);
    RunsJoin(layout, SameRow);
    forall i, k | 0 <= i < |rows| && 0 < k < |rows[i]|
      ensures Abs(rows[i][k].box.y0 - rows[i][0].box.y0) <= PositionTol
    {
      assert rows[i] == all[i + 2];
      assert SameRow(all[i + 2][0], all[i + 2][k]);
    }
    forall i | 0 < i < |rows|
      ensures Abs(rows[i][0].box.y0 - rows[i - 1][0].box.y0) > PositionTol
    {
      assert rows[i] == all[i + 2] && rows[i - 1] == all[i + 1];
      assert !SameRow(all[i + 1][0], all[i + 2][0]);
    }
  }

  /** The rows kept are a contiguous run of the layout: nothing in between is lost, duplicated
      or reordered. */
  lemma PageRowsContiguous(layout: seq<Node>)
    ensures var all := RunsOf(layout, SameRow);
      |all| > 4 ==>
        Start(all, 2) <= Start(all, |all| - 2) <= |layout| &&
        Flatten(PageRows(layout)) == layout[Start(all, 2)..Start(all, |all| - 2)]
  {
    var all: seq<Cells> := RunsOf(layout, SameRow);
    RunsFlatten(layout, SameRow);
    if |all| > 4 {
      var n := |all|;
      var head, rows, tail := all[..2], all[2..n - 2], all[n - 2..];
      assert rows == PageRows(layout);
      assert all == head + rows + tail;
      assert all[..n - 2] == head + rows;
      FlattenConcat(head + rows, tail);
      FlattenConcat(head, rows);
    }
  }

  // ----- Cells -----

  /** The text of a cell's first child when that child is a text box. */
  function FirstText(cell: Node): (r: Result<Option<string>>)
    ensures r.Err? ==> r.error == AttributeError
    ensures r.Ok? ==> cell.IsContainer()
    ensures r.Ok? && r.value.Some? ==>
      |cell.kids| > 0 && cell.kids[0].TextBoxNode? && Text(cell.kids[0]) == Ok(r.value.value)
    ensures r.Ok? && r.value.None? ==> |cell.kids| == 0 || !cell.kids[0].TextBoxNode?
  {
    var kids :- Children(cell);
    if |kids| > 0 && kids[0].TextBoxNode? then
      var t :- Text(kids[0]);
      Ok(Some(t))
    else
      Ok(None)
  }

  /** A header value: the stripped text of the cell's first text box, or "" without one. */
  function CellValue(cell: Node): (r: Result<string>)
    ensures r.Err? ==> r.error == AttributeError
    ensures r.Ok? ==> |r.value| == 0 || (!IsSpace(r.value[0]) && !IsSpace(r.value[|r.value| - 1]))
  {
    var t :- FirstText(cell);
    if t.Some? then StripSlice(t.value); Ok(Strip(t.value)) else Ok("")
  }

  // ----- The first page -----

  /** The first page: row 0 is the title, and each later value row follows a row of labels.
      Row 2 holds the checklist name and year, row 4 the site, WTG and order number, row 6 the
      language, revision date and approval date. A value row with too few cells raises the match
      exception, and running out of rows raises `TypeError`. */
  function Page1(rows: seq<Cells>): (r: Result<Header>)
    ensures |rows| <= 2 ==> r == Err(TypeError)
    ensures |rows| > 2 && |rows[2]| < 2 ==> r == Err(Mismatch)
    ensures r.Ok? ==> |rows| > 6 && |rows[2]| >= 2 && |rows[4]| >= 3 && |rows[6]| >= 3
    ensures r.Ok? ==>
      CellValue(rows[2][0]) == Ok(r.value.checklistName) && CellValue(rows[2][1]) == Ok(r.value.year) &&
      CellValue(rows[4][0]) == Ok(r.value.site) && CellValue(rows[4][1]) == Ok(r.value.wtg) &&
      CellValue(rows[4][2]) == Ok(r.value.orderNumber) && CellValue(rows[6][0]) == Ok(r.value.language) &&
      CellValue(rows[6][1]) == Ok(r.value.revisionDate) && CellValue(rows[6][2]) == Ok(r.value.approvalDate)
  {
    var a :- RowAt(rows, 2);
    if |a| < 2 then Err(Mismatch)
    else
      var name :- CellValue(a[0]);
      var year :- CellValue(a[1]);
      var b :- RowAt(rows, 4);
      if |b| < 3 then Err(Mismatch)
      else
        var site :- CellValue(b[0]);
        var wtg :- CellValue(b[1]);
        var order :- CellValue(b[2]);
        var c :- RowAt(rows, 6);
        if |c| < 3 then Err(Mismatch)
        else
          var language :- CellValue(c[0]);
          var revision :- CellValue(c[1]);
          var approval :- CellValue(c[2]);
          Ok(Header(name, year, site, wtg, order, language, revision, approval))
  }

  /** Only the three value rows are read: later rows never change the header. */
  lemma Page1Prefix(rows: seq<Cells>, more: seq<Cells>)
    requires |rows| > 6
    ensures Page1(rows + more) == Page1(rows)
  {
    assert (rows + more)[2] == rows[2] && (rows + more)[4] == rows[4] && (rows + more)[6] == rows[6];
  }

  // ----- Locations -----

  /** The task key of a location text: lowercased, without "location:", stripped, uppercased. */
  function LocationKey(text: string): (key: string)
    ensures forall k :: 0 <= k < |key| ==> !IsLowerLetter(key[k])
  {
    Upper(Strip(Replace(Lower(text), "location:", "")))
  }

  /** A one-cell row. The cell must be a rect; with a text box first, its text must start with
      "location:" in any case, else the match exception is raised. The location becomes the
      current task and is created, empty, only when it is new: an existing task is never
      overwritten. */
  function LocationRow(cell: Node, st: State, m: Match): (r: Result<Matched>)
    ensures !cell.RectNode? ==> r == Err(Mismatch)
    ensures r.Ok? ==> r.value.state.element == st.element && r.value.result.header == m.header
    ensures r.Ok? && r.value.state != st ==> r.value.state.task in Keys(r.value.result.tasks)
    ensures r.Ok? && r.value.state.task in Keys(m.tasks) ==> r.value.result == m
    ensures r.Ok? ==>
      (r.value.result == m ||
       (r.value.state.task !in Keys(m.tasks) &&
        r.value.result.tasks == m.tasks + [(r.value.state.task, Task(r.value.state.task, []))]))
    ensures cell.RectNode? && |cell.kids| > 0 && cell.kids[0].TextBoxNode? ==>
      (r.Ok? <==> Text(cell.kids[0]).Ok? && StartsWith(Lower(Text(cell.kids[0]).value), "location:"))
  {
    if !cell.RectNode? then Err(Mismatch)
    else
      var t :- FirstText(cell);
      if t.None? then Ok(Matched(st, m))
      else if !StartsWith(Lower(t.value), "location:") then Err(Mismatch)
      else
        var key := LocationKey(t.value);
        Ok(Matched(st.(task := key), m.(tasks := PutAbsent(m.tasks, key, Task(key, [])))))
  }

  // ----- Elements -----

  /** A new element: everything empty, the status the empty string. */
  function NewElement(key: string): Element {
    Element(key, "", "", "", Some(""), [])
  }

  /** The element cell: its stripped, lowercased text is the element key, an empty text keeps
      the current element; the key becomes the current element and is created in the current
      task only when it is new. A missing current task raises `KeyError`. */
  function OpenElement(text: string, st: State, m: Match): (r: Result<Matched>)
    ensures r.Err? <==> st.task !in Keys(m.tasks)
    ensures r.Err? ==> r.error == KeyError
    ensures r.Ok? ==> var key := Lower(Strip(text));
      r.value.state == st.(element := if key == "" then st.element else key)
    ensures r.Ok? ==> r.value.result.header == m.header && Keys(r.value.result.tasks) == Keys(m.tasks)
    ensures r.Ok? ==> var t := Get(m.tasks, st.task).value;
      var t' := Get(r.value.result.tasks, st.task).value;
      t'.section == t.section &&
      (r.value.state.element in Keys(t.elements) ==> r.value.result == m) &&
      (r.value.state.element !in Keys(t.elements) ==>
         t'.elements == t.elements + [(r.value.state.element, NewElement(r.value.state.element))])
  {
    var lowered := Lower(Strip(text));
    var key := if lowered == "" then st.element else lowered;
    var task :- Lookup(m.tasks, st.task);
    var st' := st.(element := key);
    var t' := task.(elements := PutAbsent(task.elements, key, NewElement(key)));
    PutGet(m.tasks, st.task, t', st.task);
    if key in Keys(task.elements) then
      Ok(Matched(st', m))
    else
      Ok(Matched(st', m.(tasks := Put(m.tasks, st.task, t'))))
  }

  /** The element fields the matcher writes. */
  datatype Field = Description | Remarks | Tools | Status

  function WithField(e: Element, f: Field, v: string): (r: Element)
    ensures r.number == e.number && r.measures == e.measures
  {
    match f
    case Description => e.(description := v)
    case Remarks => e.(remarks := v)
    case Tools => e.(tools := v)
    case Status => e.(status := Some(v))
  }

  /** The current element, which raises `KeyError` when the task or the element is missing. */
  function Current(m: Match, st: State): (r: Result<Element>)
    ensures r.Ok? <==> st.task in Keys(m.tasks) && st.element in Keys(Get(m.tasks, st.task).value.elements)
    ensures r.Err? ==> r.error == KeyError
    ensures r.Ok? ==> Get(Get(m.tasks, st.task).value.elements, st.element) == Some(r.value)
  {
    var task :- Lookup(m.tasks, st.task);
    Lookup(task.elements, st.element)
  }

  /** Replaces the current element, which must exist. */
  function Store(m: Match, st: State, e: Element): (r: Match)
    requires Current(m, st).Ok?
    ensures r.header == m.header && Keys(r.tasks) == Keys(m.tasks)
  {
    var task := Get(m.tasks, st.task).value;
    m.(tasks := Put(m.tasks, st.task, task.(elements := Put(task.elements, st.element, e))))
  }

  /** `Tasks[task]["Elements"][element][field] = value`: only that field of the current element
      changes. */
  function SetField(m: Match, st: State, f: Field, v: string): (r: Result<Match>)
    ensures r.Err? <==> Current(m, st).Err?
    ensures r.Err? ==> r.error == KeyError
    ensures r.Ok? ==> r.value == Store(m, st, WithField(Current(m, st).value, f, v))
  {
    var e :- Current(m, st);
    Ok(Store(m, st, WithField(e, f, v)))
  }

  /** Sets a field from a cell whose first child is a text box, to that text stripped; any other
      cell leaves the result unchanged. */
  function FieldFromCell(m: Match, st: State, f: Field, cell: Node): (r: Result<Match>)
    ensures r.Ok? ==> cell.IsContainer()
  {
    var t :- FirstText(cell);
    if t.Some? then SetField(m, st, f, Strip(t.value)) else Ok(m)
  }

  /** The number and description cells of an element row. */
  function ElementHead(line: Cells, st: State, m: Match): (r: Result<Matched>)
    requires |line| >= 5
    ensures r.Ok? ==> line[1].IsContainer() && r.value.result.header == m.header
  {
    var n :- FirstText(line[0]);
    var a :- if n.Some? then OpenElement(n.value, st, m) else Ok(Matched(st, m));
    var d :- FieldFromCell(a.result, a.state, Description, line[1]);
    Ok(Matched(a.state, d))
  }

  /** `sqrt` is monotone, so comparing squared distances to green `(0, 1, 0)` and red `(1, 0, 0)`
      decides the same as comparing the distances. */
  function GreenDistSq(c: seq<real>): real
    requires |c| >= 3
  {
    c[0] * c[0] + (1.0 - c[1]) * (1.0 - c[1]) + c[2] * c[2]
  }

  function RedDistSq(c: seq<real>): real
    requires |c| >= 3
  {
    (1.0 - c[0]) * (1.0 - c[0]) + c[1] * c[1] + c[2] * c[2]
  }

  /** The status of a curve mark: "OK" when its stroke colour is strictly nearer green than
      red, "NOT OK" otherwise. Indexing a colour with fewer than three components raises
      `IndexError`; a grey level or a missing colour cannot be indexed and raises `TypeError`. */
  function CurveStatus(color: Color): (r: Result<string>)
    ensures (color.TupleColor? || color.ListColor?) && |color.components| >= 3 ==>
      r == Ok(if GreenDistSq(color.components) < RedDistSq(color.components) then "OK" else "NOT OK")
    ensures (color.TupleColor? || color.ListColor?) && |color.components| < 3 ==> r == Err(IndexError)
    ensures color.GrayColor? || color.NoColor? ==> r == Err(TypeError)
  {
    match color
    case TupleColor(c) =>
      if |c| < 3 then Err(IndexError)
      else Ok(if GreenDistSq(c) < RedDistSq(c) then "OK" else "NOT OK")
    case ListColor(c) =>
      if |c| < 3 then Err(IndexError)
      else Ok(if GreenDistSq(c) < RedDistSq(c) then "OK" else "NOT OK")
    case GrayColor(_) => Err(TypeError)
    case NoColor => Err(TypeError)
  }

  /** A mark is nearer green than red exactly when its red component is below its green one. */
  lemma GreenerIffRedBelowGreen(c: seq<real>)
    requires |c| >= 3
    ensures GreenDistSq(c) < RedDistSq(c) <==> c[0] < c[1]
  {
    var r, g, b := c[0], c[1], c[2];
    assert GreenDistSq(c) - RedDistSq(c) == 2.0 * r - 2.0 * g;
  }

  /** The status cell: a text box gives its stripped text, a curve its colour verdict, anything
      else (or no child) leaves the status as it was. */
  function StatusFromCell(m: Match, st: State, cell: Node): (r: Result<Match>)
    ensures r.Ok? ==> cell.IsContainer()
    ensures cell.IsContainer() && |cell.kids| > 0 && cell.kids[0].CurveNode? ==>
      (r.Ok? <==> CurveStatus(cell.kids[0].style.strokingColor).Ok? && Current(m, st).Ok?)
    ensures cell.IsContainer() && |cell.kids| > 0 && cell.kids[0].CurveNode? && r.Ok? ==>
      r.value == Store(m, st, WithField(Current(m, st).value, Status, CurveStatus(cell.kids[0].style.strokingColor).value))
    ensures cell.IsContainer() && |cell.kids| > 0 && cell.kids[0].TextBoxNode? ==>
      (r.Ok? <==> Text(cell.kids[0]).Ok? && Current(m, st).Ok?)
    ensures cell.IsContainer() && |cell.kids| > 0 && cell.kids[0].TextBoxNode? && r.Ok? ==>
      r.value == Store(m, st, WithField(Current(m, st).value, Status, Strip(Text(cell.kids[0]).value)))
    ensures cell.IsContainer() && (|cell.kids| == 0 || !(cell.kids[0].TextBoxNode? || cell.kids[0].CurveNode?)) ==>
      r == Ok(m)
  {
    var kids :- Children(cell);
    if |kids| == 0 then Ok(m)
    else if kids[0].TextBoxNode? then
      var t :- Text(kids[0]);
      SetField(m, st, Status, Strip(t))
    else if kids[0].CurveNode? then
      var s :- CurveStatus(kids[0].style.strokingColor);
      SetField(m, st, Status, s)
    else Ok(m)
  }

  /** The remarks, tools and status cells of an element row. */
  function ElementTail(line: Cells, st: State, m: Match): (r: Result<Match>)
    requires |line| >= 5
  {
    var a :- FieldFromCell(m, st, Remarks, line[2]);
    var b :- FieldFromCell(a, st, Tools, line[3]);
    StatusFromCell(b, st, line[4])
  }

  // ----- Measures -----

  /** The value and unit of a yellow value rect: a text starting with '+' or '-' is split on
      whitespace into a value and an optional unit; any other text is the value, without a
      unit. The value is the first word of the text; the unit is the word after the whitespace
      that follows it, or "" when only whitespace follows. */
  function ValueUnit(text: string): (r: Measure)
    ensures Signed(text) ==> LeadingWords(text, r.value, r.unit)
    ensures !Signed(text) ==> r == Measure(text, "")
  {
    if Signed(text) then
      ValueWords(text);
      ValueOf(text)
    else
      Measure(text, "")
  }

  /** The value and unit read from the first two whitespace-separated fields of a signed text. */
  function ValueOf(text: string): Measure
    requires Signed(text)
  {
    var split := SplitWs(text);
    assert !IsSpace(text[0]);
    Measure(split[0], if |split| > 1 then split[1] else "")
  }

  /** The first two fields of a signed text are the words the value and unit are read from. */
  lemma ValueWords(text: string)
    requires Signed(text)
    ensures var m := ValueOf(text); LeadingWords(text, m.value, m.unit)
  {
    assert !IsSpace(text[0]);
    SplitWsTwo(text);
  }

  /** The text starts with a sign. */
  predicate Signed(text: string) {
    StartsWith(text, "+") || StartsWith(text, "-")
  }

  /** A signed value and a unit, both single words, written with a space between them are read
      back as that value and that unit. */
  lemma ValueUnitJoined(value: string, unit: string)
    requires Signed(value) && NoSpace(value) && NoSpace(unit)
    ensures ValueUnit(value + " " + unit) == Measure(value, unit)
  {
    var text := value + " " + unit;
    assert text[..|value|] == value;
    assert Signed(text);
    var r := ValueUnit(text);
    JoinedWords(value, unit);
    LeadingWordsUnique(text, r.value, r.unit, value, unit);
  }

  /** A Yes/No checkbox: children 2 and 4 are the Yes and No boxes, and a box holding anything
      is ticked. Yes wins over No, and neither ticked gives "". Missing boxes raise the match
      exception, or `UnboundLocalError` when the measure has no name to report. */
  function YesNo(kids: seq<Node>, named: bool): (r: Result<string>)
    ensures |kids| < 5 ==> r == Err(if named then Mismatch else UnboundLocalError)
    ensures |kids| >= 5 && kids[2].IsContainer() && kids[4].IsContainer() ==>
      r == Ok(if |kids[2].kids| > 0 then "Yes" else if |kids[4].kids| > 0 then "No" else "")
  {
    if |kids| < 5 then Err(if named then Mismatch else UnboundLocalError)
    else
      var yes :- Children(kids[2]);
      if |yes| > 0 then Ok("Yes")
      else
        var no :- Children(kids[4]);
        Ok(if |no| > 0 then "No" else "")
  }

  /** An option of a list measure: its lowercased name and the text of its value rect. */
  datatype Choice = Choice(name: string, value: string)

  /** The stripped text of a cell's first text box, or "". */
  function OptionValue(cell: Node): Result<string> {
    var t :- FirstText(cell);
    if t.Some? then StripSlice(t.value); Ok(Strip(t.value)) else Ok("")
  }

  /** The options from child `i` on, in pairs of a label and a value rect, after those already
      read. A label without its value rect raises the match exception (or `UnboundLocalError`
      when the measure has no name). */
  function OptionsFrom(kids: seq<Node>, i: nat, named: bool, acc: seq<Choice>): (r: Result<seq<Choice>>)
    decreases |kids| - i
  {
    if i >= |kids| then Ok(acc)
    else
      var caption :- Text(kids[i]);
      if i + 1 >= |kids| then Err(if named then Mismatch else UnboundLocalError)
      else
        var value :- OptionValue(kids[i + 1]);
        OptionsFrom(kids, i + 2, named, acc + [Choice(Strip(Lower(caption)), value)])
  }

  /** Options come in pairs of a label and a value rect: with an odd number of children from
      `i` on, the last label has no value rect and the options never read. */
  lemma {:induction false} OddOptionsFail(kids: seq<Node>, i: nat, named: bool, acc: seq<Choice>)
    requires i < |kids| && (|kids| - i) % 2 == 1
    ensures OptionsFrom(kids, i, named, acc).Err?
    decreases |kids| - i
  {
    if i + 1 < |kids| {
      var caption := Text(kids[i]);
      var value := OptionValue(kids[i + 1]);
      if caption.Ok? && value.Ok? {
        OddOptionsFail(kids, i + 2, named, acc + [Choice(Strip(Lower(caption.value)), value.value)]);
      }
    }
  }

  /** What a measure's second child reads as: a value and unit, and the options of a list. */
  datatype Reading = Reading(value: string, unit: string, options: seq<Choice>)

  /** The second child decides the measure's form: a rect holds a value (and unit), a text box
      is either the Yes label of a checkbox or the first label of a list of options; anything
      else reads as nothing. */
  function MeasureReading(kids: seq<Node>, named: bool): (r: Result<Reading>)
    requires |kids| > 1
    ensures kids[1].RectNode? ==> r.Ok? ==> r.value.options == []
    ensures !kids[1].RectNode? && !kids[1].TextBoxNode? ==> r == Ok(Reading("", "", []))
  {
    if kids[1].RectNode? then
      var t :- FirstText(kids[1]);
      if t.Some? then
        var vu := ValueUnit(Strip(t.value));
        Ok(Reading(vu.value, vu.unit, []))
      else Ok(Reading("", "", []))
    else if kids[1].TextBoxNode? then
      var t :- Text(kids[1]);
      var text := Strip(Lower(t));
      if text == "yes" || text == "no" then
        var v :- YesNo(kids, named);
        Ok(Reading(v, "", []))
      else
        var opts :- OptionsFrom(kids, 1, named, []);
        Ok(Reading("", "", opts))
    else Ok(Reading("", "", []))
  }

  /** `Measures[name] = {...}` for each option in turn. */
  function PutOptions(ms: Dict<string, Measure>, opts: seq<Choice>): (r: Dict<string, Measure>)
    decreases |opts|
  {
    if |opts| == 0 then ms else PutOptions(Put(ms, opts[0].name, Measure(opts[0].value, "")), opts[1..])
  }

  /** The measure's name is the stripped text of its first child when that is a text box. */
  function MeasureName(kids: seq<Node>): (r: Result<Option<string>>)
    ensures r.Err? ==> r.error == AttributeError
    ensures r.Ok? ==> (r.value.Some? <==> |kids| > 0 && kids[0].TextBoxNode?)
  {
    if |kids| > 0 && kids[0].TextBoxNode? then
      var t :- Text(kids[0]);
      Ok(Some(Strip(t)))
    else Ok(None)
  }

  /** A named measure is created empty in the current element when it is new. */
  function OpenMeasure(m: Match, st: State, name: string): (r: Result<Match>)
    ensures r.Err? <==> Current(m, st).Err?
    ensures r.Ok? ==> Current(r.value, st).Ok?
  {
    var e :- Current(m, st);
    if name in Keys(e.measures) then Ok(m)
    else
      var r := Store(m, st, e.(measures := Put(e.measures, name, Measure("", ""))));
      assert Current(r, st).Ok? by {
        var task := Get(m.tasks, st.task).value;
        PutGet(m.tasks, st.task, task.(elements := Put(task.elements, st.element, e.(measures := Put(e.measures, name, Measure("", ""))))), st.task);
      }
      Ok(r)
  }

  /** Records the reading of a measure: its value and unit under its name, then every option as
      a measure of its own with an empty unit. */
  function Record(m: Match, st: State, name: string, rd: Reading): (r: Result<Match>)
    ensures r.Err? <==> Current(m, st).Err?
  {
    var e :- Current(m, st);
    var ms := PutOptions(Put(e.measures, name, Measure(rd.value, rd.unit)), rd.options);
    Ok(Store(m, st, e.(measures := ms)))
  }

  /** One measure of the description cell. Without a name, a measure with more than one child
      ends in `UnboundLocalError`, since its name is never bound. */
  function MeasureSpec(cell: Node, st: State, m: Match): (r: Result<Match>)
    ensures cell.IsContainer() && |cell.kids| > 1 && !cell.kids[0].TextBoxNode? ==> r.Err?
    ensures r.Ok? ==> r.value.header == m.header
  {
    var kids :- Children(cell);
    var name :- MeasureName(kids);
    var m1 :- if name.Some? then OpenMeasure(m, st, name.value) else Ok(m);
    if |kids| <= 1 then Ok(m1)
    else
      var rd :- MeasureReading(kids, name.Some?);
      if name.None? then Err(UnboundLocalError)
      else Record(m1, st, name.value, rd)
  }

  /** The measures of the description cell, one per child after the first. */
  function MeasuresFrom(kids: seq<Node>, i: nat, st: State, m: Match): (r: Result<Match>)
    decreases |kids| - i
  {
    if i >= |kids| then Ok(m)
    else
      var m' :- MeasureSpec(kids[i], st, m);
      MeasuresFrom(kids, i + 1, st, m')
  }

  // ----- Rows of a later page -----

  /** A row of the table: a location row has one cell, an element row at least five; empty rows
      and rows of two to four cells raise the match exception. */
  function TaskOrElement(line: Cells, st: State, m: Match): (r: Result<Matched>)
    ensures |line| == 0 || 1 < |line| < 5 ==> r == Err(Mismatch)
    ensures |line| == 1 ==> r == LocationRow(line[0], st, m)
  {
    if |line| == 0 then Err(Mismatch)
    else if |line| == 1 then LocationRow(line[0], st, m)
    else if |line| < 5 then Err(Mismatch)
    else
      var a :- ElementHead(line, st, m);
      var b :- MeasuresFrom(line[1].kids, 1, a.state, a.result);
      var c :- ElementTail(line, a.state, b);
      Ok(Matched(a.state, c))
  }

  /** The rows from position `i` on, in order; the first error ends the page. */
  function RowsFrom(rows: seq<Cells>, i: nat, st: State, m: Match): (r: Result<Matched>)
    decreases |rows| - i
  {
    if i >= |rows| then Ok(Matched(st, m))
    else
      var a :- TaskOrElement(rows[i], st, m);
      RowsFrom(rows, i + 1, a.state, a.result)
  }

  /** Skips the rows from position `i` up to the table header, whose first cell's text starts
      with "#", and gives the position after it (or the end). Every skipped row must start with
      a rect. */
  function HeaderEnd(rows: seq<Cells>, i: nat): (r: Result<nat>)
    ensures r.Ok? ==> r.value <= |rows| && (i <= |rows| ==> i <= r.value)
    decreases |rows| - i
  {
    if i >= |rows| then Ok(|rows|)
    else if |rows[i]| == 0 || !rows[i][0].RectNode? then Err(Mismatch)
    else
      var t :- FirstText(rows[i][0]);
      if t.Some? && StartsWith(Lower(Strip(t.value)), "#") then Ok(i + 1)
      else HeaderEnd(rows, i + 1)
  }

  /** A later page: row 0 is the page number and row 1 the page title, which must start with a
      rect. A "tools" page changes nothing; on any other page the rows after the table header
      are matched one by one. */
  function PageN(rows: seq<Cells>, st: State, m: Match): (r: Result<Matched>)
    ensures |rows| < 2 ==> r == Err(TypeError)
    ensures |rows| >= 2 && (|rows[1]| == 0 || !rows[1][0].RectNode?) ==> r == Err(Mismatch)
  {
    var line :- RowAt(rows, 1);
    if |line| < 1 || !line[0].RectNode? then Err(Mismatch)
    else
      var title :- FirstText(line[0]);
      if title.Some? && Contains(Lower(Strip(title.value)), "tools") then Ok(Matched(st, m))
      else
        var k :- HeaderEnd(rows, 2);
        RowsFrom(rows, k, st, m)
  }

  /** A page: page 1 fills the header, every other page the tasks. */
  function PageSpec(pageid: int, layout: seq<Node>, st: State, m: Match): (r: Result<Matched>) {
    var rows := PageRows(layout);
    if pageid == 1 then
      var h :- Page1(rows);
      Ok(Matched(st, m.(header := h)))
    else PageN(rows, st, m)
  }

  /** The pages from position `i` on, numbered from 1 as pdfminer numbers them. */
  function PagesFrom(pages: seq<seq<Node>>, i: nat, st: State, m: Match): (r: Result<Match>)
    decreases |pages| - i
  {
    if i >= |pages| then Ok(m)
    else
      var a :- PageSpec(i + 1, pages[i], st, m);
      PagesFrom(pages, i + 1, a.state, a.result)
  }

  const EmptyHeader := Header("", "", "", "", "", "", "", "")

  /** The whole document: the match starts with no task, no element and no header, and the
      result is flattened into the rows of the MV sheet. */
  function MvDocument(pages: seq<seq<Node>>): (r: Result<seq<Row>>)
    ensures r.Ok? ==> AllWide(r.value)
  {
    var m :- PagesFrom(pages, 0, State("", ""), Match(EmptyHeader, []));
    AllRowsShape(m.header, m.tasks);
    Ok(AllRows(m.header, m.tasks))
  }

  // ----- Keys agree with the records they name -----

  predicate ElementKeyed(key: string, e: Element) {
    e.number == key
  }

  predicate TaskKeyed(key: string, t: Task) {
    t.section == key && AllEntries(t.elements, ElementKeyed)
  }

  /** Every task's WTG section is its key, and every element's number is its key. */
  predicate Keyed(m: Match) {
    AllEntries(m.tasks, TaskKeyed)
  }

  lemma CurrentKeyed(m: Match, st: State)
    requires Keyed(m) && Current(m, st).Ok?
    ensures Current(m, st).value.number == st.element
  {
    GetAll(m.tasks, st.task, TaskKeyed);
    GetAll(Get(m.tasks, st.task).value.elements, st.element, ElementKeyed);
  }

  lemma StoreKeyed(m: Match, st: State, e: Element)
    requires Keyed(m) && Current(m, st).Ok? && e.number == st.element
    ensures Keyed(Store(m, st, e))
  {
    var task := Get(m.tasks, st.task).value;
    GetAll(m.tasks, st.task, TaskKeyed);
    PutAll(task.elements, st.element, e, ElementKeyed);
    PutAll(m.tasks, st.task, task.(elements := Put(task.elements, st.element, e)), TaskKeyed);
  }

  lemma SetFieldKeyed(m: Match, st: State, f: Field, v: string)
    requires Keyed(m) && SetField(m, st, f, v).Ok?
    ensures Keyed(SetField(m, st, f, v).value)
  {
    CurrentKeyed(m, st);
    StoreKeyed(m, st, WithField(Current(m, st).value, f, v));
  }

  lemma FieldFromCellKeyed(m: Match, st: State, f: Field, cell: Node)
    requires Keyed(m) && FieldFromCell(m, st, f, cell).Ok?
    ensures Keyed(FieldFromCell(m, st, f, cell).value)
  {
    var t := FirstText(cell);
    if t.value.Some? {
      SetFieldKeyed(m, st, f, Strip(t.value.value));
    }
  }

  lemma LocationRowKeyed(cell: Node, st: State, m: Match)
    requires Keyed(m) && LocationRow(cell, st, m).Ok?
    ensures Keyed(LocationRow(cell, st, m).value.result)
  {
    var r := LocationRow(cell, st, m).value;
    if r.result != m {
      var key := r.state.task;
      assert r.result.tasks == m.tasks + [(key, Task(key, []))];
      assert TaskKeyed(key, Task(key, []));
    }
  }

  lemma OpenElementKeyed(text: string, st: State, m: Match)
    requires Keyed(m) && OpenElement(text, st, m).Ok?
    ensures Keyed(OpenElement(text, st, m).value.result)
  {
    var lowered := Lower(Strip(text));
    var key := if lowered == "" then st.element else lowered;
    var task := Get(m.tasks, st.task).value;
    if key !in Keys(task.elements) {
      GetAll(m.tasks, st.task, TaskKeyed);
      var t' := task.(elements := PutAbsent(task.elements, key, NewElement(key)));
      GrowKeyed(st.task, task, key);
      PutAll(m.tasks, st.task, t', TaskKeyed);
    }
  }

  /** Opening a new element under its own number keeps a task keyed. */
  lemma GrowKeyed(k: string, t: Task, key: string)
    requires TaskKeyed(k, t)
    ensures TaskKeyed(k, t.(elements := PutAbsent(t.elements, key, NewElement(key))))
  {
    var es := PutAbsent(t.elements, key, NewElement(key));
    forall i | 0 <= i < |es|
      ensures ElementKeyed(es[i].0, es[i].1)
    {
      if i >= |t.elements| {
        assert es[i] == (key, NewElement(key));
      }
    }
  }

  lemma ElementHeadKeyed(line: Cells, st: State, m: Match)
    requires |line| >= 5 && Keyed(m) && ElementHead(line, st, m).Ok?
    ensures Keyed(ElementHead(line, st, m).value.result)
  {
    var n := FirstText(line[0]).value;
    var a := if n.Some? then OpenElement(n.value, st, m).value else Matched(st, m);
    if n.Some? {
      OpenElementKeyed(n.value, st, m);
    }
    FieldFromCellKeyed(a.result, a.state, Description, line[1]);
  }

  lemma OpenMeasureKeyed(m: Match, st: State, name: string)
    requires Keyed(m) && OpenMeasure(m, st, name).Ok?
    ensures Keyed(OpenMeasure(m, st, name).value)
  {
    CurrentKeyed(m, st);
    var e := Current(m, st).value;
    if name !in Keys(e.measures) {
      StoreKeyed(m, st, e.(measures := Put(e.measures, name, Measure("", ""))));
    }
  }

  lemma RecordKeyed(m: Match, st: State, name: string, rd: Reading)
    requires Keyed(m) && Record(m, st, name, rd).Ok?
    ensures Keyed(Record(m, st, name, rd).value)
  {
    CurrentKeyed(m, st);
    var e := Current(m, st).value;
    StoreKeyed(m, st, e.(measures := PutOptions(Put(e.measures, name, Measure(rd.value, rd.unit)), rd.options)));
  }

  lemma MeasureSpecKeyed(cell: Node, st: State, m: Match)
    requires Keyed(m) && MeasureSpec(cell, st, m).Ok?
    ensures Keyed(MeasureSpec(cell, st, m).value)
  {
    var kids := cell.kids;
    var name := MeasureName(kids).value;
    if name.Some? {
      OpenMeasureKeyed(m, st, name.value);
      var m1 := OpenMeasure(m, st, name.value).value;
      if |kids| > 1 {
        RecordKeyed(m1, st, name.value, MeasureReading(kids, true).value);
      }
    }
  }

  lemma {:induction false} MeasuresFromKeyed(kids: seq<Node>, i: nat, st: State, m: Match)
    requires Keyed(m) && MeasuresFrom(kids, i, st, m).Ok?
    ensures Keyed(MeasuresFrom(kids, i, st, m).value)
    decreases |kids| - i
  {
    if i < |kids| {
      MeasureSpecKeyed(kids[i], st, m);
      MeasuresFromKeyed(kids, i + 1, st, MeasureSpec(kids[i], st, m).value);
    }
  }

  lemma ElementTailKeyed(line: Cells, st: State, m: Match)
    requires |line| >= 5 && Keyed(m) && ElementTail(line, st, m).Ok?
    ensures Keyed(ElementTail(line, st, m).value)
  {
    FieldFromCellKeyed(m, st, Remarks, line[2]);
    var a := FieldFromCell(m, st, Remarks, line[2]).value;
    FieldFromCellKeyed(a, st, Tools, line[3]);
    var b := FieldFromCell(a, st, Tools, line[3]).value;
    var kids := line[4].kids;
    if |kids| > 0 && kids[0].TextBoxNode? {
      SetFieldKeyed(b, st, Status, Strip(Text(kids[0]).value));
    } else if |kids| > 0 && kids[0].CurveNode? {
      SetFieldKeyed(b, st, Status, CurveStatus(kids[0].style.strokingColor).value);
    }
  }

  /** Matching a row keeps every key naming its own record. */
  lemma TaskOrElementKeyed(line: Cells, st: State, m: Match)
    requires Keyed(m) && TaskOrElement(line, st, m).Ok?
    ensures Keyed(TaskOrElement(line, st, m).value.result)
  {
    if |line| == 1 {
      LocationRowKeyed(line[0], st, m);
    } else {
      ElementHeadKeyed(line, st, m);
      var a := ElementHead(line, st, m).value;
      MeasuresFromKeyed(line[1].kids, 1, a.state, a.result);
      ElementTailKeyed(line, a.state, MeasuresFrom(line[1].kids, 1, a.state, a.result).value);
    }
  }

  lemma {:induction false} RowsFromKeyed(rows: seq<Cells>, i: nat, st: State, m: Match)
    requires Keyed(m) && RowsFrom(rows, i, st, m).Ok?
    ensures Keyed(RowsFrom(rows, i, st, m).value.result)
    decreases |rows| - i
  {
    if i < |rows| {
      TaskOrElementKeyed(rows[i], st, m);
      var a := TaskOrElement(rows[i], st, m).value;
      RowsFromKeyed(rows, i + 1, a.state, a.result);
    }
  }

  lemma {:induction false} PagesFromKeyed(pages: seq<seq<Node>>, i: nat, st: State, m: Match)
    requires Keyed(m) && PagesFrom(pages, i, st, m).Ok?
    ensures Keyed(PagesFrom(pages, i, st, m).value)
    decreases |pages| - i
  {
    if i < |pages| {
      PagesFromStep(pages, i, st, m);
      var a := PageSpec(i + 1, pages[i], st, m).value;
      PageSpecKeyed(i + 1, pages[i], st, m);
      PagesFromKeyed(pages, i + 1, a.state, a.result);
    }
  }

  lemma PageSpecKeyed(pageid: int, layout: seq<Node>, st: State, m: Match)
    requires Keyed(m) && PageSpec(pageid, layout, st, m).Ok?
    ensures Keyed(PageSpec(pageid, layout, st, m).value.result)
  {
    if pageid != 1 {
      PageNKeyed(PageRows(layout), st, m);
    }
  }

  lemma PageNKeyed(rows: seq<Cells>, st: State, m: Match)
    requires Keyed(m) && PageN(rows, st, m).Ok?
    ensures Keyed(PageN(rows, st, m).value.result)
  {
    var line := rows[1];
    var title := FirstText(line[0]).value;
    if !(title.Some? && Contains(Lower(Strip(title.value)), "tools")) {
      RowsFromKeyed(rows, HeaderEnd(rows, 2).value, st, m);
    }
  }

  /** In the matched document every task's section is its key and every element's number is
      its key, so the flattened rows carry them consistently. */
  lemma DocumentKeyed(pages: seq<seq<Node>>)
    requires PagesFrom(pages, 0, State("", ""), Match(EmptyHeader, [])).Ok?
    ensures Keyed(PagesFrom(pages, 0, State("", ""), Match(EmptyHeader, [])).value)
  {
    PagesFromKeyed(pages, 0, State("", ""), Match(EmptyHeader, []));
  }

  // ----- The matching loops -----

  /** The grouping loop over the page's layout, then `lines[2:-2]`. */
  method GroupRows(layout: seq<Node>) returns (rows: seq<Cells>)
    ensures rows == PageRows(layout)
  {
    var all := GroupRuns(layout, SameRow);
    if |all| <= 4 {
      rows := [];
    } else {
      rows := all[2..|all| - 2];
    }
  }

  /** The option loop `for i in range(1, len(children), 2)`. */
  method CollectOptions(kids: seq<Node>, named: bool) returns (r: Result<seq<Choice>>)
    ensures r == OptionsFrom(kids, 1, named, [])
  {
    var opts: seq<Choice> := [];
    var i := 1;
    while i < |kids|
      invariant OptionsFrom(kids, i, named, opts) == OptionsFrom(kids, 1, named, [])
      decreases |kids| - i
    {
      var caption := Text(kids[i]);
      if caption.Err? {
        return Err(caption.error);
      }
      if i + 1 >= |kids| {
        return Err(if named then Mismatch else UnboundLocalError);
      }
      var value := OptionValue(kids[i + 1]);
      if value.Err? {
        return Err(value.error);
      }
      opts := opts + [Choice(Strip(Lower(caption.value)), value.value)];
      i := i + 2;
    }
    return Ok(opts);
  }

  /** The loop storing each option as a measure. */
  method PutEach(ms: Dict<string, Measure>, opts: seq<Choice>) returns (r: Dict<string, Measure>)
    ensures r == PutOptions(ms, opts)
  {
    r := ms;
    var i := 0;
    assert opts[0..] == opts;
    while i < |opts|
      invariant i <= |opts|
      invariant PutOptions(r, opts[i..]) == PutOptions(ms, opts)
    {
      assert opts[i..][1..] == opts[i + 1..];
      r := Put(r, opts[i].name, Measure(opts[i].value, ""));
      i := i + 1;
    }
  }

  /** `_match_mv_pdf_page_n_measure`. */
  method ReadMeasure(cell: Node, st: State, m: Match) returns (r: Result<Match>)
    ensures r == MeasureSpec(cell, st, m)
  {
    if !cell.IsContainer() {
      return Err(AttributeError);
    }
    var kids := cell.kids;
    var name := MeasureName(kids);
    if name.Err? {
      return Err(name.error);
    }
    var named := name.value.Some?;
    var m1 := m;
    if named {
      var made := OpenMeasure(m, st, name.value.value);
      if made.Err? {
        return Err(made.error);
      }
      m1 := made.value;
    }
    if |kids| <= 1 {
      return Ok(m1);
    }
    var rd: Result<Reading>;
    var second := if kids[1].TextBoxNode? then Text(kids[1]) else Ok("");
    if kids[1].TextBoxNode? && second.Ok? && Strip(Lower(second.value)) != "yes" && Strip(Lower(second.value)) != "no" {
      var opts := CollectOptions(kids, named);
      rd := if opts.Err? then Err(opts.error) else Ok(Reading("", "", opts.value));
    } else {
      rd := MeasureReading(kids, named);
    }
    if rd.Err? {
      return Err(rd.error);
    }
    if !named {
      return Err(UnboundLocalError);
    }
    var e := Current(m1, st).value;
    var ms := PutEach(Put(e.measures, name.value.value, Measure(rd.value.value, rd.value.unit)), rd.value.options);
    return Ok(Store(m1, st, e.(measures := ms)));
  }

  /** The measure loop `for i in range(1, len(description_rect.children))`. */
  method MatchMeasures(kids: seq<Node>, st: State, m: Match) returns (r: Result<Match>)
    ensures r == MeasuresFrom(kids, 1, st, m)
  {
    var cur := m;
    var i := 1;
    while i < |kids|
      invariant MeasuresFrom(kids, i, st, cur) == MeasuresFrom(kids, 1, st, m)
      decreases |kids| - i
    {
      var next := ReadMeasure(kids[i], st, cur);
      if next.Err? {
        return Err(next.error);
      }
      cur := next.value;
      i := i + 1;
    }
    return Ok(cur);
  }

  /** `_match_mv_pdf_page_n_task_or_element`. */
  method MatchTaskOrElement(line: Cells, st: State, m: Match) returns (r: Result<Matched>)
    ensures r == TaskOrElement(line, st, m)
  {
    if |line| == 0 {
      return Err(Mismatch);
    } else if |line| == 1 {
      return LocationRow(line[0], st, m);
    } else if |line| < 5 {
      return Err(Mismatch);
    }
    var a := ElementHead(line, st, m);
    if a.Err? {
      return Err(a.error);
    }
    var b := MatchMeasures(line[1].kids, a.value.state, a.value.result);
    if b.Err? {
      return Err(b.error);
    }
    var c := ElementTail(line, a.value.state, b.value);
    if c.Err? {
      return Err(c.error);
    }
    return Ok(Matched(a.value.state, c.value));
  }

  /** `_match_mv_pdf_page_n`: the title test, the loop skipping to the table header, and the
      loop over the remaining rows. */
  method MatchPageN(rows: seq<Cells>, st: State, m: Match) returns (r: Result<Matched>)
    ensures r == PageN(rows, st, m)
  {
    if |rows| < 2 {
      return Err(TypeError);
    }
    var line := rows[1];
    if |line| < 1 || !line[0].RectNode? {
      return Err(Mismatch);
    }
    var title := FirstText(line[0]);
    if title.Err? {
      return Err(title.error);
    }
    if title.value.Some? && Contains(Lower(Strip(title.value.value)), "tools") {
      return Ok(Matched(st, m));
    }
    var k := FindHeaderEnd(rows);
    if k.Err? {
      return Err(k.error);
    }
    r := MatchRows(rows, k.value, st, m);
  }

  /** The loop that skips to the table header from row 2. */
  method FindHeaderEnd(rows: seq<Cells>) returns (r: Result<nat>)
    ensures r == HeaderEnd(rows, 2)
  {
    var k := 2;
    var found := false;
    while k < |rows| && !found
      invariant 2 <= k && (|rows| >= 2 ==> k <= |rows|)
      invariant !found ==> HeaderEnd(rows, k) == HeaderEnd(rows, 2)
      invariant found ==> HeaderEnd(rows, 2) == Ok(k)
      decreases |rows| - k
    {
      if |rows[k]| == 0 || !rows[k][0].RectNode? {
        return Err(Mismatch);
      }
      var t := FirstText(rows[k][0]);
      if t.Err? {
        return Err(t.error);
      }
      found := t.value.Some? && StartsWith(Lower(Strip(t.value.value)), "#");
      k := k + 1;
    }
    if !found {
      return Ok(|rows|);
    }
    return Ok(k);
  }

  /** The loop over the rows after the table header. */
  method MatchRows(rows: seq<Cells>, k0: nat, st: State, m: Match) returns (r: Result<Matched>)
    ensures r == RowsFrom(rows, k0, st, m)
  {
    var k := k0;
    var cur := Matched(st, m);
    while k < |rows|
      invariant RowsFrom(rows, k, cur.state, cur.result) == RowsFrom(rows, k0, st, m)
      decreases |rows| - k
    {
      var next := MatchTaskOrElement(rows[k], cur.state, cur.result);
      if next.Err? {
        return Err(next.error);
      }
      cur := next.value;
      k := k + 1;
    }
    return Ok(cur);
  }

  /** `_match_mv_pdf_page`. */
  method MatchPage(pageid: int, layout: seq<Node>, st: State, m: Match) returns (r: Result<Matched>)
    ensures r == PageSpec(pageid, layout, st, m)
  {
    var rows := GroupRows(layout);
    if pageid == 1 {
      var h := Page1(rows);
      if h.Err? {
        return Err(h.error);
      }
      return Ok(Matched(st, m.(header := h.value)));
    }
    r := MatchPageN(rows, st, m);
  }

  /** One page of `match_mv_pdf`'s loop: an error ends the document, otherwise the next
      page starts from the state and result this one leaves. */
  lemma PagesFromStep(pages: seq<seq<Node>>, i: nat, st: State, m: Match)
    requires i < |pages|
    ensures var a := PageSpec(i + 1, pages[i], st, m);
      (a.Err? ==> PagesFrom(pages, i, st, m) == Err(a.error)) &&
      (a.Ok? ==> PagesFrom(pages, i, st, m) == PagesFrom(pages, i + 1, a.value.state, a.value.result))
  {
  }

  /** The loop of `match_mv_pdf` over the pages. */
  method MatchPages(pages: seq<seq<Node>>) returns (r: Result<Match>)
    ensures r == PagesFrom(pages, 0, State("", ""), Match(EmptyHeader, []))
  {
    ghost var goal := PagesFrom(pages, 0, State("", ""), Match(EmptyHeader, []));
    var cur := Matched(State("", ""), Match(EmptyHeader, []));
    var i := 0;
    while i < |pages|
      invariant i <= |pages|
      invariant PagesFrom(pages, i, cur.state, cur.result) == goal
    {
      PagesFromStep(pages, i, cur.state, cur.result);
      var next := MatchPage(i + 1, pages[i], cur.state, cur.result);
      if next.Err? {
        return Err(next.error);
      }
      cur := next.value;
      i := i + 1;
    }
    return Ok(cur.result);
  }

  /** `match_mv_pdf`: every page in turn, then the flattening loop. */
  method MatchMvPdf(pages: seq<seq<Node>>) returns (r: Result<seq<Row>>)
    ensures r == MvDocument(pages)
  {
    var m := MatchPages(pages);
    if m.Err? {
      return Err(m.error);
    }
    var rows := FillRows(m.value.header, m.value.tasks);
    return Ok(rows);
  }
}
