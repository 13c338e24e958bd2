/** The preventive-checklist matcher: the first page gives the checklist header, every later
    page walks its rows through a small state machine (WTG section, sub-task, element) that
    fills the result tree, and the tree is flattened into the rows of the preventive sheet.
    Rows are read by index; a row read past the end is `None`, and `len(None)` raises
    `TypeError`. */
module Preventive {
  import opened Outcomes
  import opened Dicts
  import opened PyStr
  import opened Geometry
  import opened Lines
  import opened Components
  import opened Runs
  import opened PreventiveResult
  import opened PreventiveRows

  // ----- Form fields and matching state -----

  /** A form field of the document: its value `V`, if any, and its `Kids`, if any. */
  datatype FormField = FormField(v: Option<string>, kids: Option<Dict<string, FormField>>)

  type FormFields = Dict<string, FormField>

  /** `field.get("V", "")`. */
  function FieldText(f: FormField): string {
    f.v.GetOr("")
  }

  /** `not pdf_form_fields` is false: there are form fields, and at least one. */
  predicate UsesForms(ff: Option<FormFields>) {
    ff.Some? && |ff.value| > 0
  }

  /** `match_state`: the open WTG section and sub-task ("" when none is open; the source's
      `None` and "" are both falsy and are never told apart) and the block and line counters
      the form-field keys are built from. */
  datatype State = State(task: string, subtask: string, blockNum: nat, lineNum: nat)

  const Initial := State("", "", 1, 1)

  /** `match_result`: the checklist header and, once a later page has been matched, the tasks. */
  datatype Match = Match(header: Header, tasks: Option<Dict<string, Task>>)

  const EmptyHeader := Header("", "", "", "", "", "", "", "", "", false, false)

  /** The state and the tasks after a row. */
  datatype Matched = Matched(state: State, tasks: Dict<string, Task>)

  /** The next row to read after a dispatched row, and what matching it left. */
  datatype Step = Step(next: nat, state: State, tasks: Dict<string, Task>)

  // ----- Cell texts and labels -----

  /** `rect.text.strip()`. */
  function Stripped(n: Node): (r: Result<string>)
    ensures r.Err? ==> r.error == AttributeError
  {
    var t :- Text(n);
    Ok(Strip(t))
  }

  /** The test `rect.text.lower().strip().startswith(tag)`. */
  function Labelled(tag: string): Node -> Result<bool> {
    n => var t :- Text(n); Ok(StartsWith(Strip(Lower(t)), tag))
  }

  /** The test `rect.text.lower().replace("\n", " ").strip().startswith(tag)` of the signature
      labels, which may break over two lines. */
  function SignLabelled(tag: string): Node -> Result<bool> {
    n => var t :- Text(n); Ok(StartsWith(Strip(Replace(Lower(t), "\n", " ")), tag))
  }

  /** `any(test(rect) for rect in line[i:])`: the tests run left to right and the scan stops at
      the first that holds; a test that raises ends the scan with its error. */
  function AnyCell(line: Cells, test: Node -> Result<bool>, i: nat): Result<bool>
    decreases |line| - i
  {
    if i >= |line| then Ok(false)
    else
      var b :- test(line[i]);
      if b then Ok(true) else AnyCell(line, test, i + 1)
  }

  /** The scan holds only when some cell passes the test. */
  lemma {:induction false} AnyCellFound(line: Cells, test: Node -> Result<bool>, i: nat)
    ensures AnyCell(line, test, i) == Ok(true) ==>
      exists j :: i <= j < |line| && test(line[j]) == Ok(true)
    decreases |line| - i
  {
    if i < |line| {
      AnyCellFound(line, test, i + 1);
    }
  }

  /** A label scan raises only what reading a cell's text raises. */
  lemma {:induction false} LabelScanErr(line: Cells, tag: string, i: nat)
    ensures AnyCell(line, Labelled(tag), i).Err? ==> AnyCell(line, Labelled(tag), i).error == AttributeError
    decreases |line| - i
  {
    if i < |line| {
      LabelScanErr(line, tag, i + 1);
    }
  }

  /** The scan fails to hold exactly when every cell's test runs and does not hold. */
  lemma {:induction false} AnyCellNone(line: Cells, test: Node -> Result<bool>, i: nat)
    ensures AnyCell(line, test, i) == Ok(false) <==>
      forall p :: i <= p < |line| ==> test(line[p]) == Ok(false)
    decreases |line| - i
  {
    if i < |line| {
      AnyCellNone(line, test, i + 1);
    }
  }

  /** The loops of `_page_1_text` that read a header value: the stripped text after the first
      cell passing `test` that has a right neighbour, `None` when no cell qualifies. */
  function LabelValue(line: Cells, test: Node -> Result<bool>, i: nat): Result<Option<string>>
    decreases |line| - i
  {
    if i >= |line| then Ok(None)
    else
      var b :- test(line[i]);
      if !b || i + 1 >= |line| then LabelValue(line, test, i + 1)
      else
        var v :- Stripped(line[i + 1]);
        Ok(Some(v))
  }

  /** A value found is the stripped text of the right neighbour of a labelled cell. */
  lemma {:induction false} LabelValueFound(line: Cells, test: Node -> Result<bool>, i: nat)
    ensures LabelValue(line, test, i).Ok? && LabelValue(line, test, i).value.Some? ==>
      exists j :: i <= j && j + 1 < |line| && test(line[j]) == Ok(true) &&
        Stripped(line[j + 1]) == Ok(LabelValue(line, test, i).value.value)
    decreases |line| - i
  {
    if i < |line| {
      LabelValueFound(line, test, i + 1);
    }
  }

  /** When no value is found, no cell with a right neighbour carries the label. */
  lemma {:induction false} LabelValueNone(line: Cells, test: Node -> Result<bool>, i: nat)
    ensures LabelValue(line, test, i) == Ok(None) ==>
      forall j :: i <= j && j + 1 < |line| ==> test(line[j]) == Ok(false)
    decreases |line| - i
  {
    if i < |line| {
      LabelValueNone(line, test, i + 1);
    }
  }

  /** The signature loops: signed when a labelled cell's right neighbour has a child; a
      labelled cell whose neighbour has none does not stop the scan. */
  function SignedFrom(line: Cells, test: Node -> Result<bool>, i: nat): Result<bool>
    decreases |line| - i
  {
    if i >= |line| then Ok(false)
    else
      var b :- test(line[i]);
      if !b || i + 1 >= |line| then SignedFrom(line, test, i + 1)
      else
        var kids :- Children(line[i + 1]);
        if |kids| > 0 then Ok(true) else SignedFrom(line, test, i + 1)
  }

  /** Signed only when some labelled cell has a right neighbour with a child. */
  lemma {:induction false} SignedFound(line: Cells, test: Node -> Result<bool>, i: nat)
    ensures SignedFrom(line, test, i) == Ok(true) ==>
      exists j :: i <= j && j + 1 < |line| && test(line[j]) == Ok(true) &&
        Children(line[j + 1]).Ok? && |Children(line[j + 1]).value| > 0
    decreases |line| - i
  {
    if i < |line| {
      SignedFound(line, test, i + 1);
    }
  }

  /** Unsigned only when the right neighbour of every labelled cell is a container without
      children. */
  lemma {:induction false} SignedNone(line: Cells, test: Node -> Result<bool>, i: nat)
    ensures SignedFrom(line, test, i) == Ok(false) ==>
      forall j :: i <= j && j + 1 < |line| ==>
        test(line[j]).Ok? && (test(line[j]).value ==> Children(line[j + 1]) == Ok([]))
    decreases |line| - i
  {
    if i < |line| {
      SignedNone(line, test, i + 1);
    }
  }

  /** The loops that skip rows until one of at least `minLen` cells has a cell passing `test`;
      running out of rows leaves the row `None`, and the next use of it raises `TypeError`. */
  function SkipTo(rows: seq<Cells>, k: nat, minLen: nat, test: Node -> Result<bool>): Result<nat>
    decreases |rows| - k
  {
    if k >= |rows| then Err(TypeError)
    else if |rows[k]| < minLen then SkipTo(rows, k + 1, minLen, test)
    else
      var b :- AnyCell(rows[k], test, 0);
      if b then Ok(k) else SkipTo(rows, k + 1, minLen, test)
  }

  /** The row found is the first row from `k` on that is long enough and has a labelled cell. */
  lemma {:induction false} SkipToFound(rows: seq<Cells>, k: nat, minLen: nat, test: Node -> Result<bool>)
    ensures SkipTo(rows, k, minLen, test).Ok? ==>
      var w := SkipTo(rows, k, minLen, test).value;
      k <= w < |rows| && |rows[w]| >= minLen && AnyCell(rows[w], test, 0) == Ok(true) &&
      forall p :: k <= p < w && |rows[p]| >= minLen ==> AnyCell(rows[p], test, 0) == Ok(false)
    decreases |rows| - k
  {
    if k < |rows| {
      SkipToFound(rows, k + 1, minLen, test);
    }
  }

  lemma {:induction false} SkipToBound(rows: seq<Cells>, k: nat, minLen: nat, test: Node -> Result<bool>)
    ensures SkipTo(rows, k, minLen, test).Ok? ==> k <= SkipTo(rows, k, minLen, test).value < |rows|
    decreases |rows| - k
  {
    if k < |rows| {
      SkipToBound(rows, k + 1, minLen, test);
    }
  }

  /** Without a long enough labelled row, running out of rows raises `TypeError`. */
  lemma {:induction false} SkipToExhausted(rows: seq<Cells>, k: nat, minLen: nat, test: Node -> Result<bool>)
    requires forall p :: k <= p < |rows| && |rows[p]| >= minLen ==> AnyCell(rows[p], test, 0) == Ok(false)
    ensures SkipTo(rows, k, minLen, test) == Err(TypeError)
    decreases |rows| - k
  {
    if k < |rows| {
      SkipToExhausted(rows, k + 1, minLen, test);
    }
  }

  // ----- Page 1 -----

  /** The title rows of page 1. */
  datatype Title = Title(year: string, code: string, date: string, rev: string)

  /** Rows 1 to 4 of page 1 (row 0 is read and skipped by the page dispatcher): the year of the
      annual service is the first cell of row 1, the code, date and revision the second cells
      of rows 2, 3 and 4. */
  function TitleRows(rows: seq<Cells>): (r: Result<Title>)
    ensures |rows| < 2 ==> r == Err(TypeError)
    ensures r.Ok? ==>
      |rows| >= 5 && |rows[1]| >= 1 && |rows[2]| >= 2 && |rows[3]| >= 2 &&
      |rows[4]| >= 2 && Stripped(rows[1][0]) == Ok(r.value.year) &&
      Stripped(rows[2][1]) == Ok(r.value.code) && Stripped(rows[3][1]) == Ok(r.value.date) &&
      Stripped(rows[4][1]) == Ok(r.value.rev)
    ensures r.Err? ==> r.error in {TypeError, Mismatch, AttributeError}
  {
    var l1 :- RowAt(rows, 1);
    if |l1| < 1 then Err(Mismatch)
    else
      var year :- Stripped(l1[0]);
      var l2 :- RowAt(rows, 2);
      if |l2| < 2 then Err(Mismatch)
      else
        var code :- Stripped(l2[1]);
        var l3 :- RowAt(rows, 3);
        if |l3| < 2 then Err(Mismatch)
        else
          var date :- Stripped(l3[1]);
          var l4 :- RowAt(rows, 4);
          if |l4| < 2 then Err(Mismatch)
          else
            var rev :- Stripped(l4[1]);
            Ok(Title(year, code, date, rev))
  }

  /** The dates and hours of page 1 read from the text: the row of at least six cells with a
      "wtg" label gives the WTG, the beginning date and the operational hours, and the row after
      it, of at least four cells, the finish date and the shut-down hours. */
  datatype Dates = Dates(wtg: string, beginningDate: string, operationalHours: string,
                         finishDate: string, shutdownHours: string, next: nat)

  function DateRows(rows: seq<Cells>): Result<Dates> {
    var w :- SkipTo(rows, 5, 6, Labelled("wtg"));
    SkipToBound(rows, 5, 6, Labelled("wtg"));
    DatesAt(rows, w)
  }

  /** The dates and hours read from the "wtg" row `w` and the row after it. */
  function DatesAt(rows: seq<Cells>, w: nat): Result<Dates>
    requires w < |rows|
  {
    var line := rows[w];
    var wtg :- LabelValue(line, Labelled("wtg"), 0);
    var begin :- LabelValue(line, Labelled("beginning date"), 0);
    var hours :- LabelValue(line, Labelled("operationnal hours"), 0);
    var fl :- RowAt(rows, w + 1);
    if |fl| < 4 then Err(Mismatch)
    else
      var finish :- LabelValue(fl, Labelled("finish date"), 0);
      var shut :- LabelValue(fl, Labelled("shut-down hours"), 0);
      Ok(Dates(wtg.GetOr(""), begin.GetOr(""), hours.GetOr(""), finish.GetOr(""),
               shut.GetOr(""), w + 2))
  }

  /** Both signatures of page 1 read from the text: the first row from `k` on of at least two
      cells with a "signature" label holds the site manager's signature, the row after it, of
      at least two cells, the third party's. */
  function SignatureRows(rows: seq<Cells>, k: nat): (r: Result<(bool, bool)>) {
    var s :- SkipTo(rows, k, 2, Labelled("signature"));
    SkipToBound(rows, k, 2, Labelled("signature"));
    var sgre :- SignedFrom(rows[s], SignLabelled("signature of sgre"), 0);
    var tl :- RowAt(rows, s + 1);
    if |tl| < 2 then Err(Mismatch)
    else
      var third :- SignedFrom(tl, SignLabelled("signature of 3rd"), 0);
      Ok((sgre, third))
  }

  /** `_page_1_text`: the title, the dates and the signatures, all from the cells' texts. */
  function Page1Text(rows: seq<Cells>): (r: Result<Header>) {
    var t :- TitleRows(rows);
    var d :- DateRows(rows);
    var s :- SignatureRows(rows, d.next);
    Ok(Header(t.year, t.code, t.date, t.rev, d.wtg, d.beginningDate, d.operationalHours,
              d.finishDate, d.shutdownHours, s.0, s.1))
  }

  /** `_page_1_form_fields`: the WTG, dates and hours are the values of their form fields as
      they are (not stripped), a signature is present when its field has a value, and the
      title still comes from the rows. A missing field raises `KeyError`. */
  function Page1Forms(rows: seq<Cells>, ff: FormFields): (r: Result<Header>)
    ensures r.Ok? ==>
      TitleRows(rows) == Ok(Title(r.value.yearAnnualService, r.value.code, r.value.date, r.value.rev))
    ensures r.Ok? ==> Get(ff, "Dropdun").Some? && r.value.wtg == FieldText(Get(ff, "Dropdun").value)
    ensures r.Ok? ==> Get(ff, "Signature1").Some? && (r.value.signatureSgre <==> Get(ff, "Signature1").value.v.Some?)
    ensures r.Ok? ==> Get(ff, "Signature5").Some? && (r.value.signature <==> Get(ff, "Signature5").value.v.Some?)
    ensures Get(ff, "Dropdun").None? ==> r == Err(KeyError)
  {
    var wtg :- Lookup(ff, "Dropdun");
    var begin :- Lookup(ff, "BEGINNING Date");
    var hours :- Lookup(ff, "OPERATIONNAL HOURS");
    var finish :- Lookup(ff, "FINISH Date");
    var shut :- Lookup(ff, "SHUTDOWN HOURS");
    var sig1 :- Lookup(ff, "Signature1");
    var sig5 :- Lookup(ff, "Signature5");
    var t :- TitleRows(rows);
    Ok(Header(t.year, t.code, t.date, t.rev, FieldText(wtg), FieldText(begin), FieldText(hours),
              FieldText(finish), FieldText(shut), sig1.v.Some?, sig5.v.Some?))
  }

  /** `_page_1`: the form fields when there are any, the text otherwise. */
  function Page1(rows: seq<Cells>, ff: Option<FormFields>): Result<Header> {
    if UsesForms(ff) then Page1Forms(rows, ff.value) else Page1Text(rows)
  }

  /** Read from the text, a header found has the title of rows 1 to 4. */
  lemma Page1TextTitle(rows: seq<Cells>)
    ensures |rows| < 2 ==> Page1Text(rows) == Err(TypeError)
    ensures Page1Text(rows).Ok? ==>
      var h := Page1Text(rows).value;
      TitleRows(rows) == Ok(Title(h.yearAnnualService, h.code, h.date, h.rev))
  {
  }


  // ----- Later pages: row kinds -----

  /** What a row of a later page starts, by the rules of `_page_n_task_subtask_or_element`. */
  datatype RowKind = SectionRow | SubtaskRow | BlockRow | ListRow | OtherRow

  /** The reference fills: white cells, blue sub-task headers and green WTG sections. */
  const White: seq<real> := [1.0, 1.0, 1.0]
  const Blue: seq<real> := [0.7, 0.7, 1.0]
  const Green: seq<real> := [0.7, 1.0, 0.7]

  /** The squared distance between two colours of three components; `math.dist` compares the
      same way, the square root being monotone. */
  function ColourDistSq(a: seq<real>, c: seq<real>): real
    requires |a| == 3 && |c| == 3
  {
    (a[0] - c[0]) * (a[0] - c[0]) + (a[1] - c[1]) * (a[1] - c[1]) + (a[2] - c[2]) * (a[2] - c[2])
  }

  /** `c` is strictly nearer `a` than both `b` and `d`. */
  predicate Nearest(c: seq<real>, a: seq<real>, b: seq<real>, d: seq<real>)
    requires |c| == 3 && |a| == 3 && |b| == 3 && |d| == 3
  {
    ColourDistSq(a, c) < ColourDistSq(b, c) && ColourDistSq(a, c) < ColourDistSq(d, c)
  }

  /** The row rules: the row must start with a rect; a "tech" label is looked for first, then
      the first cell's fill is compared with the three reference fills (`math.dist` raises
      `ValueError` unless the fill has three components). */
  function Classify(line: Cells): (r: Result<RowKind>)
    ensures |line| == 0 || !line[0].RectNode? ==> r == Err(Mismatch)
    ensures r.Ok? ==>
      |line| >= 1 && line[0].RectNode? && |RectColor(line[0].style)| == 3 &&
      AnyCell(line, Labelled("tech"), 0).Ok?
    ensures r == Ok(SectionRow) ==> |line| == 1 && Nearest(RectColor(line[0].style), Green, Blue, White)
    ensures r == Ok(SubtaskRow) ==>
      AnyCell(line, Labelled("tech"), 0) == Ok(true) ||
      (|line| <= 4 && Nearest(RectColor(line[0].style), Blue, Green, White))
    ensures r == Ok(BlockRow) ==>
      |line| == 1 && AnyCell(line, Labelled("tech"), 0) == Ok(false) &&
      !Nearest(RectColor(line[0].style), Green, Blue, White) &&
      !Nearest(RectColor(line[0].style), Blue, Green, White)
    ensures r == Ok(ListRow) ==> |line| >= 6 && AnyCell(line, Labelled("tech"), 0) == Ok(false)
    ensures r == Ok(OtherRow) ==>
      2 <= |line| <= 5 && AnyCell(line, Labelled("tech"), 0) == Ok(false) &&
      !(|line| <= 4 && Nearest(RectColor(line[0].style), Blue, Green, White))
    ensures r.Err? ==> r.error in {Mismatch, AttributeError, ValueError}
    ensures |line| >= 1 && line[0].RectNode? && AnyCell(line, Labelled("tech"), 0).Err? ==>
      r == Err(AnyCell(line, Labelled("tech"), 0).error)
    ensures |line| >= 1 && line[0].RectNode? && AnyCell(line, Labelled("tech"), 0).Ok? ==>
      (r.Ok? <==> |RectColor(line[0].style)| == 3)
    ensures (|line| >= 1 && line[0].RectNode? && AnyCell(line, Labelled("tech"), 0).Ok? &&
             |RectColor(line[0].style)| == 3) ==>
      var c := RectColor(line[0].style);
      var section := |line| == 1 && Nearest(c, Green, Blue, White);
      var subtask := AnyCell(line, Labelled("tech"), 0) == Ok(true) || (|line| <= 4 && Nearest(c, Blue, Green, White));
      (r == Ok(SectionRow) <==> section) &&
      (r == Ok(SubtaskRow) <==> !section && subtask) &&
      (r == Ok(BlockRow) <==> !section && !subtask && |line| == 1) &&
      (r == Ok(ListRow) <==> !section && !subtask && |line| >= 6) &&
      (r == Ok(OtherRow) <==> !section && !subtask && 2 <= |line| <= 5)
  {
    LabelScanErr(line, "tech", 0);
    if |line| < 1 || !line[0].RectNode? then Err(Mismatch)
    else
      var tech :- AnyCell(line, Labelled("tech"), 0);
      var c := RectColor(line[0].style);
      if |c| != 3 then Err(ValueError)
      else if |line| == 1 && Nearest(c, Green, Blue, White) then Ok(SectionRow)
      else if tech || (1 <= |line| <= 4 && Nearest(c, Blue, Green, White)) then Ok(SubtaskRow)
      else if |line| == 1 then Ok(BlockRow)
      else if |line| >= 6 then Ok(ListRow)
      else Ok(OtherRow)
  }

  // ----- Later pages: sections, sub-tasks and elements -----

  /** `_page_n_task`: a WTG section needs a child; its name is its stripped text, prefixed with
      the open section while no sub-task is open; it becomes the open section, closes the
      sub-task and (re)creates its task with no sub-tasks. */
  function StartSection(cell: Node, st: State, ts: Dict<string, Task>): (r: Result<Matched>)
    ensures r.Err? ==> r.error in {AttributeError, Mismatch}
    ensures r.Ok? ==>
      r.value.state.subtask == "" && r.value.state.blockNum == st.blockNum &&
      r.value.state.lineNum == st.lineNum
  {
    var kids :- Children(cell);
    if |kids| < 1 then Err(Mismatch)
    else
      var text :- Stripped(cell);
      var name := if st.task != "" && st.subtask == "" then Strip(st.task + " " + text) else text;
      Ok(Matched(st.(task := name, subtask := ""), Put(ts, name, Task(name, []))))
  }

  /** `_page_n_subtask`: a sub-task needs a child and an open section; its stripped text
      becomes the open sub-task and names a new, empty sub-task of the open section. */
  function StartSubtask(cell: Node, st: State, ts: Dict<string, Task>): (r: Result<Matched>)
    ensures r == Err(KeyError) ==> st.task != "" && Get(ts, st.task).None?
    ensures r.Ok? ==> r.value.state == st.(subtask := r.value.state.subtask) && st.task != ""
  {
    var kids :- Children(cell);
    if |kids| < 1 || st.task == "" then Err(Mismatch)
    else
      var text :- Stripped(cell);
      var task :- Lookup(ts, st.task);
      Ok(Matched(st.(subtask := text),
                 Put(ts, st.task, task.(subtasks := Put(task.subtasks, text, Subtask(text, []))))))
  }

  /** A section row opens the section its text names, prefixed by the open section while no
      sub-task is open, closes the sub-task and stores the section anew with no sub-tasks;
      no other section changes. */
  lemma StartSectionSets(cell: Node, st: State, ts: Dict<string, Task>, other: string)
    requires StartSection(cell, st, ts).Ok?
    ensures Stripped(cell).Ok? && Children(cell).Ok? && |cell.kids| >= 1
    ensures var m := StartSection(cell, st, ts).value;
      var text := Stripped(cell).value;
      m.state == st.(task := (if st.task != "" && st.subtask == "" then Strip(st.task + " " + text) else text),
                     subtask := "") &&
      Get(m.tasks, m.state.task) == Some(Task(m.state.task, [])) &&
      (other != m.state.task ==> Get(m.tasks, other) == Get(ts, other))
  {
    var m := StartSection(cell, st, ts).value;
    PutGet(ts, m.state.task, Task(m.state.task, []), m.state.task);
    PutGet(ts, m.state.task, Task(m.state.task, []), other);
  }

  /** A sub-task row needs an open section; it opens the sub-task its text names and stores it
      anew, with no elements, under the open section, whose other sub-tasks stay as they were. */
  lemma StartSubtaskSets(cell: Node, st: State, ts: Dict<string, Task>, other: string)
    requires StartSubtask(cell, st, ts).Ok?
    ensures st.task != "" && Stripped(cell).Ok? && Get(ts, st.task).Some?
    ensures var m := StartSubtask(cell, st, ts).value;
      var text := Stripped(cell).value;
      var before := Get(ts, st.task).value;
      m.state == st.(subtask := text) && Get(m.tasks, st.task).Some? &&
      var after := Get(m.tasks, st.task).value;
      after.section == before.section &&
      Get(after.subtasks, text) == Some(Subtask(text, [])) &&
      (other != text ==> Get(after.subtasks, other) == Get(before.subtasks, other))
  {
    var text := Stripped(cell).value;
    var t := Get(ts, st.task).value;
    var t2 := t.(subtasks := Put(t.subtasks, text, Subtask(text, [])));
    PutGet(ts, st.task, t2, st.task);
    PutGet(t.subtasks, text, Subtask(text, []), text);
    PutGet(t.subtasks, text, Subtask(text, []), other);
  }

  /** The open sub-task is stored under the open section. */
  predicate Open(st: State, ts: Dict<string, Task>) {
    Get(ts, st.task).Some? && Get(Get(ts, st.task).value.subtasks, st.subtask).Some?
  }

  /** `Tasks[task]["Elements"][subtask]["Elements"][key] = e` for the open section and
      sub-task; a missing section or sub-task raises `KeyError`. */
  function PutElement(ts: Dict<string, Task>, st: State, key: string, e: Element): (r: Result<Dict<string, Task>>)
    ensures r.Err? <==> !Open(st, ts)
    ensures r.Err? ==> r.error == KeyError
  {
    var task :- Lookup(ts, st.task);
    var sub :- Lookup(task.subtasks, st.subtask);
    Ok(Put(ts, st.task, task.(subtasks := Put(task.subtasks, st.subtask, sub.(elements := Put(sub.elements, key, e))))))
  }

  /** The element stored under a section, sub-task and key, if any. */
  function ElementAt(ts: Dict<string, Task>, task: string, subtask: string, key: string): Option<Element> {
    match Get(ts, task)
    case None => None
    case Some(t) =>
      match Get(t.subtasks, subtask)
      case None => None
      case Some(s) => Get(s.elements, key)
  }

  /** Storing an element sets that one entry and leaves every other element, every key of the
      tasks and every key of the sub-tasks as they were. */
  lemma PutElementSets(ts: Dict<string, Task>, st: State, key: string, e: Element,
                       task: string, subtask: string, key2: string)
    requires PutElement(ts, st, key, e).Ok?
    ensures var r := PutElement(ts, st, key, e).value;
      ElementAt(r, task, subtask, key2) ==
        (if (task, subtask, key2) == (st.task, st.subtask, key) then Some(e)
         else ElementAt(ts, task, subtask, key2))
    ensures Keys(PutElement(ts, st, key, e).value) == Keys(ts)
  {
    var t := Get(ts, st.task).value;
    var sub := Get(t.subtasks, st.subtask).value;
    var t2 := t.(subtasks := Put(t.subtasks, st.subtask, sub.(elements := Put(sub.elements, key, e))));
    PutGet(ts, st.task, t2, task);
    PutGet(t.subtasks, st.subtask, sub.(elements := Put(sub.elements, key, e)), subtask);
    PutGet(sub.elements, key, e, key2);
  }

  /** A form field read into an element field: its stripped value, or the field as it was when
      the form field is missing. */
  function FieldOr(f: Option<FormField>, was: string): string {
    if f.Some? then Strip(FieldText(f.value)) else was
  }

  /** The form-field keys of list row `l` of block `b`. */
  function StatusKey(b: nat, l: nat): string {
    "Drop" + NatToString(b) + "-" + NatToString(l)
  }

  function CommentKey(b: nat, l: nat): string {
    "TextComment-" + NatToString(b) + "-" + NatToString(l)
  }

  function CommentKeyAlt(b: nat, l: nat): string {
    "Text" + NatToString(b) + "-Comment-" + NatToString(l)
  }

  function MorsKey(b: nat, l: nat): string {
    "Text-MORS-" + NatToString(b) + "-" + NatToString(l)
  }

  function MeasurementKey(b: nat, l: nat): string {
    "Text-Measurement-" + NatToString(b) + "-" + NatToString(l)
  }

  /** `_page_n_list_element_form_fields`: the status, comment, MORS case and measurement of the
      current list row come from the form fields named by the block and line counters; the
      comment falls back to the second spelling of its key; a missing key leaves the field as
      it was. */
  function FormColumns(e: Element, st: State, ff: FormFields): (r: Element)
    ensures r.taskCode == e.taskCode && r.description == e.description && r.unit == e.unit &&
      r.min == e.min && r.max == e.max
    ensures Get(ff, StatusKey(st.blockNum, st.lineNum)).None? ==> r.status == e.status
    ensures Get(ff, StatusKey(st.blockNum, st.lineNum)).Some? ==>
      r.status == Strip(FieldText(Get(ff, StatusKey(st.blockNum, st.lineNum)).value))
    ensures Get(ff, CommentKey(st.blockNum, st.lineNum)).Some? ==>
      r.comment == Strip(FieldText(Get(ff, CommentKey(st.blockNum, st.lineNum)).value))
    ensures (Get(ff, CommentKey(st.blockNum, st.lineNum)).None? &&
             Get(ff, CommentKeyAlt(st.blockNum, st.lineNum)).Some?) ==>
      r.comment == Strip(FieldText(Get(ff, CommentKeyAlt(st.blockNum, st.lineNum)).value))
    ensures (Get(ff, CommentKey(st.blockNum, st.lineNum)).None? &&
             Get(ff, CommentKeyAlt(st.blockNum, st.lineNum)).None?) ==> r.comment == e.comment
    ensures Get(ff, MorsKey(st.blockNum, st.lineNum)).None? ==> r.mors == e.mors
    ensures Get(ff, MorsKey(st.blockNum, st.lineNum)).Some? ==>
      r.mors == Strip(FieldText(Get(ff, MorsKey(st.blockNum, st.lineNum)).value))
    ensures Get(ff, MeasurementKey(st.blockNum, st.lineNum)).None? ==> r.measurement == e.measurement
    ensures Get(ff, MeasurementKey(st.blockNum, st.lineNum)).Some? ==>
      r.measurement == Strip(FieldText(Get(ff, MeasurementKey(st.blockNum, st.lineNum)).value))
  {
    var b, l := st.blockNum, st.lineNum;
    var c1 := Get(ff, CommentKey(b, l));
    var comment := if c1.Some? then c1 else Get(ff, CommentKeyAlt(b, l));
    e.(status := FieldOr(Get(ff, StatusKey(b, l)), e.status),
       comment := FieldOr(comment, e.comment),
       mors := FieldOr(Get(ff, MorsKey(b, l)), e.mors),
       measurement := FieldOr(Get(ff, MeasurementKey(b, l)), e.measurement))
  }

  /** The text of cell `i` stripped, when the row has it; `was` otherwise. */
  function CellOr(line: Cells, i: nat, was: string): (r: Result<string>)
    ensures |line| <= i ==> r == Ok(was)
    ensures r.Err? ==> r.error == AttributeError
  {
    if |line| > i then Stripped(line[i]) else Ok(was)
  }

  /** Without form fields: cells 2 to 5, where present, give the status, comment, MORS case and
      measurement. */
  function TextColumns(e: Element, line: Cells): (r: Result<Element>)
    ensures r.Ok? ==>
      r.value.taskCode == e.taskCode && r.value.description == e.description &&
      r.value.unit == e.unit && r.value.min == e.min && r.value.max == e.max &&
      CellOr(line, 2, e.status) == Ok(r.value.status) &&
      CellOr(line, 3, e.comment) == Ok(r.value.comment) &&
      CellOr(line, 4, e.mors) == Ok(r.value.mors) &&
      CellOr(line, 5, e.measurement) == Ok(r.value.measurement)
    ensures r.Err? ==> r.error == AttributeError
  {
    var status :- CellOr(line, 2, e.status);
    var comment :- CellOr(line, 3, e.comment);
    var mors :- CellOr(line, 4, e.mors);
    var measurement :- CellOr(line, 5, e.measurement);
    Ok(e.(status := status, comment := comment, mors := mors, measurement := measurement))
  }

  /** Cell 6 gives the unit and cell 7 the minimum; the maximum is the last cell of a row of at
      least nine. */
  function TailColumns(e: Element, line: Cells): (r: Result<Element>)
    ensures r.Ok? ==>
      r.value.taskCode == e.taskCode && r.value.description == e.description &&
      r.value.status == e.status && r.value.comment == e.comment && r.value.mors == e.mors &&
      r.value.measurement == e.measurement &&
      CellOr(line, 6, e.unit) == Ok(r.value.unit) && CellOr(line, 7, e.min) == Ok(r.value.min) &&
      (|line| > 8 ==> Stripped(line[|line| - 1]) == Ok(r.value.max)) &&
      (|line| <= 8 ==> r.value.max == e.max)
    ensures r.Err? ==> r.error == AttributeError
  {
    var unit :- CellOr(line, 6, e.unit);
    var min :- CellOr(line, 7, e.min);
    var max :- if |line| > 8 then Stripped(line[|line| - 1]) else Ok(e.max);
    Ok(e.(unit := unit, min := min, max := max))
  }

  /** The element a list row describes: keyed by the stripped text of its first cell, with
      the description of the second, the four middle fields from the form fields or, without
      them, from cells 2 to 5, and the unit, minimum and maximum from cells 6, 7 and the last;
      a field whose cell the row does not reach stays empty. */
  function ListRowElement(line: Cells, st: State, ff: Option<FormFields>): (r: Result<Element>)
    requires |line| >= 2
    ensures r.Ok? ==>
      Stripped(line[0]) == Ok(r.value.taskCode) && Stripped(line[1]) == Ok(r.value.description) &&
      CellOr(line, 6, "") == Ok(r.value.unit) && CellOr(line, 7, "") == Ok(r.value.min) &&
      (|line| > 8 ==> Stripped(line[|line| - 1]) == Ok(r.value.max)) &&
      (|line| <= 8 ==> r.value.max == "")
    ensures r.Ok? && !UsesForms(ff) ==>
      CellOr(line, 2, "") == Ok(r.value.status) && CellOr(line, 3, "") == Ok(r.value.comment) &&
      CellOr(line, 4, "") == Ok(r.value.mors) && CellOr(line, 5, "") == Ok(r.value.measurement)
    ensures r.Ok? && UsesForms(ff) ==>
      r.value == TailColumns(FormColumns(BlankElement(r.value.taskCode).(description := r.value.description),
                                         st, ff.value), line).value
    ensures r.Err? ==> r.error == AttributeError
  {
    var code :- Stripped(line[0]);
    var desc :- Stripped(line[1]);
    var e0 := BlankElement(code).(description := desc);
    var e1 :- if UsesForms(ff) then Ok(FormColumns(e0, st, ff.value)) else TextColumns(e0, line);
    TailColumns(e1, line)
  }

  /** `_page_n_list_element`: the first cell needs a child and a sub-task must be open; the
      element keyed by its task code is (re)created from the row, and the line counter moves
      on by one. */
  function ListElement(line: Cells, st: State, ts: Dict<string, Task>, ff: Option<FormFields>): (r: Result<Matched>)
    requires |line| >= 2
    ensures r == Err(KeyError) ==> st.subtask != "" && !Open(st, ts)
    ensures r.Ok? ==>
      Open(st, ts) && ListRowElement(line, st, ff).Ok? &&
      var e := ListRowElement(line, st, ff).value;
      r.value == Matched(st.(lineNum := st.lineNum + 1), PutElement(ts, st, e.taskCode, e).value)
  {
    var kids :- Children(line[0]);
    if |kids| < 1 || st.task == "" || st.subtask == "" then Err(Mismatch)
    else
      var code :- Stripped(line[0]);
      if !Open(st, ts) then Err(KeyError)
      else
        var e :- ListRowElement(line, st, ff);
        Ok(Matched(st.(lineNum := st.lineNum + 1), PutElement(ts, st, code, e).value))
  }

  /** A list row stores the element it describes under its task code in the open sub-task,
      and only the line counter of the state moves, by one. */
  lemma ListElementStores(line: Cells, st: State, ts: Dict<string, Task>, ff: Option<FormFields>)
    requires |line| >= 2 && ListElement(line, st, ts, ff).Ok?
    ensures ListRowElement(line, st, ff).Ok?
    ensures var m := ListElement(line, st, ts, ff).value;
      var e := ListRowElement(line, st, ff).value;
      m.state == st.(lineNum := st.lineNum + 1) &&
      ElementAt(m.tasks, st.task, st.subtask, e.taskCode) == Some(e)
  {
    var e := ListRowElement(line, st, ff).value;
    PutElementSets(ts, st, e.taskCode, e, st.task, st.subtask, e.taskCode);
  }

  /** The six cells of a block grid row: comment, MORS case, measurement, unit, minimum and
      maximum. */
  function GridElement(line: Cells): (r: Result<Element>)
    requires |line| >= 6
    ensures r.Err? ==> r.error == AttributeError
  {
    var comment :- Stripped(line[0]);
    var mors :- Stripped(line[1]);
    var measurement :- Stripped(line[2]);
    var unit :- Stripped(line[3]);
    var min :- Stripped(line[4]);
    var max :- Stripped(line[5]);
    Ok(Element("", "", "", comment, mors, measurement, unit, min, max))
  }

  /** `has_any_text`: some field read from a block row is not empty. */
  predicate HasAnyText(e: Element) {
    e.comment != "" || e.mors != "" || e.measurement != "" || e.unit != "" || e.min != "" ||
    e.max != ""
  }

  /** The grid loop of `_page_n_block_task_element_text` from row `j`, the `i`-th grid row: a
      row of fewer than six cells ends the block (and is consumed), and so does the end of the
      page; a grid row with any text is stored under its index `i` written in decimal. */
  function BlockGrid(rows: seq<Cells>, j: nat, i: nat, st: State, ts: Dict<string, Task>): (r: Result<Step>)
    requires j <= |rows|
    ensures r.Ok? ==> j <= r.value.next <= |rows| && r.value.state == st
    decreases |rows| - j
  {
    if j == |rows| then Ok(Step(|rows|, st, ts))
    else if |rows[j]| < 6 then Ok(Step(j + 1, st, ts))
    else
      var e :- GridElement(rows[j]);
      var ts1 :- if HasAnyText(e) then PutElement(ts, st, NatToString(i), e) else Ok(ts);
      BlockGrid(rows, j + 1, i + 1, st, ts1)
  }

  /** One grid row of six cells or more: its element, when it has text, is stored, and a
      failure to read or store it ends the block. */
  lemma BlockGridStep(rows: seq<Cells>, j: nat, i: nat, st: State, ts: Dict<string, Task>)
    requires j < |rows| && |rows[j]| >= 6 && GridElement(rows[j]).Ok?
    ensures var e := GridElement(rows[j]).value;
      var p := if HasAnyText(e) then PutElement(ts, st, NatToString(i), e) else Ok(ts);
      (p.Err? ==> BlockGrid(rows, j, i, st, ts) == Err(p.error)) &&
      (p.Ok? ==> BlockGrid(rows, j, i, st, ts) == BlockGrid(rows, j + 1, i + 1, st, p.value))
  {
  }

  /** `_page_n_block_task_element_text`: the row after the block's title is the header row and
      needs six cells; the grid rows follow it. */
  function BlockText(rows: seq<Cells>, k: nat, st: State, ts: Dict<string, Task>): (r: Result<Step>)
    ensures r.Ok? ==> k + 2 <= r.value.next <= |rows| && r.value.state == st
    ensures k + 1 >= |rows| ==> r == Err(TypeError)
  {
    var header :- RowAt(rows, k + 1);
    if |header| < 6 then Err(Mismatch) else BlockGrid(rows, k + 2, 0, st, ts)
  }

  /** The comments loop of `_page_n_block_task_element_form_fields`: each comment field,
      with the MORS field of the same key if there is one, gives an element stored under that
      key when either value is not empty. */
  function CommentsFrom(cs: Dict<string, FormField>, ms: Dict<string, FormField>, i: nat, st: State,
                        ts: Dict<string, Task>): Result<Dict<string, Task>>
    decreases |cs| - i
  {
    if i >= |cs| then Ok(ts)
    else
      var e := CommentElement(cs[i].1, Get(ms, cs[i].0));
      var ts1 :- if HasAnyText(e) then PutElement(ts, st, cs[i].0, e) else Ok(ts);
      CommentsFrom(cs, ms, i + 1, st, ts1)
  }

  /** One turn of the comments loop: the comment's element, when it has text, is stored, and a
      failure to store it ends the loop. */
  lemma CommentsFromStep(cs: Dict<string, FormField>, ms: Dict<string, FormField>, i: nat, st: State,
                         ts: Dict<string, Task>)
    requires i < |cs|
    ensures var e := CommentElement(cs[i].1, Get(ms, cs[i].0));
      var p := if HasAnyText(e) then PutElement(ts, st, cs[i].0, e) else Ok(ts);
      (p.Err? ==> CommentsFrom(cs, ms, i, st, ts) == Err(p.error)) &&
      (p.Ok? ==> CommentsFrom(cs, ms, i, st, ts) == CommentsFrom(cs, ms, i + 1, st, p.value))
  {
  }

  /** The element of one comment field and its MORS field, if any: their stripped values. */
  function CommentElement(c: FormField, m: Option<FormField>): (e: Element)
    ensures HasAnyText(e) <==> e.comment != "" || e.mors != ""
  {
    BlankElement("").(comment := Strip(FieldText(c)), mors := if m.Some? then Strip(FieldText(m.value)) else "")
  }

  /** `min(n, m)` on row positions: skipping past the last row stays at the end. */
  function Cap(n: nat, m: nat): (r: nat)
    ensures r <= n && r <= m && (r == n || r == m)
  {
    if n < m then n else m
  }

  /** `_page_n_block_task_element_form_fields`: one row is skipped; the "Comments-{b}" and
      "MORS-{b}" fields of the block must both have kids, and as many, or the block is left
      as it is; then one row is skipped per comment. */
  function BlockFields(rows: seq<Cells>, k: nat, st: State, ts: Dict<string, Task>, ff: FormFields): (r: Result<Step>)
    requires k < |rows|
    ensures r.Ok? ==> k < r.value.next <= |rows| && r.value.state == st
    ensures BlockKids(ff, st.blockNum).None? ==> r == Ok(Step(Cap(k + 2, |rows|), st, ts))
  {
    KidsBlock(rows, k, st, ts, BlockKids(ff, st.blockNum))
  }

  /** The block read from the kids of its comment and MORS fields, if they qualify. */
  function KidsBlock(rows: seq<Cells>, k: nat, st: State, ts: Dict<string, Task>,
                     kids: Option<(Dict<string, FormField>, Dict<string, FormField>)>): (r: Result<Step>)
    requires k < |rows|
    ensures r.Ok? ==> k < r.value.next <= |rows| && r.value.state == st
    ensures kids.None? ==> r == Ok(Step(Cap(k + 2, |rows|), st, ts))
  {
    var j := Cap(k + 2, |rows|);
    match kids
    case None => Ok(Step(j, st, ts))
    case Some(kids) =>
      var ts1 :- CommentsFrom(kids.0, kids.1, 0, st, ts);
      Ok(Step(Cap(j + |kids.0|, |rows|), st, ts1))
  }

  /** The block is the comments loop's outcome, with one row skipped per comment. */
  lemma KidsBlockComments(rows: seq<Cells>, k: nat, st: State, ts: Dict<string, Task>,
                          cs: Dict<string, FormField>, ms: Dict<string, FormField>)
    requires k < |rows|
    ensures CommentsFrom(cs, ms, 0, st, ts).Err? ==>
      KidsBlock(rows, k, st, ts, Some((cs, ms))) == Err(CommentsFrom(cs, ms, 0, st, ts).error)
    ensures CommentsFrom(cs, ms, 0, st, ts).Ok? ==>
      KidsBlock(rows, k, st, ts, Some((cs, ms))) ==
        Ok(Step(Cap(Cap(k + 2, |rows|) + |cs|, |rows|), st, CommentsFrom(cs, ms, 0, st, ts).value))
  {
    var kids := (cs, ms);
    assert kids.0 == cs && kids.1 == ms;
  }

  /** The kids of the block's "Comments-{b}" and "MORS-{b}" fields, when both fields are
      there with kids and with as many kids. */
  function BlockKids(ff: FormFields, b: nat): Option<(Dict<string, FormField>, Dict<string, FormField>)>
  {
    var comments := Get(ff, "Comments-" + NatToString(b));
    var mors := Get(ff, "MORS-" + NatToString(b));
    if comments.None? || comments.value.kids.None? then None
    else if mors.None? || mors.value.kids.None? then None
    else if |mors.value.kids.value| != |comments.value.kids.value| then None
    else Some((comments.value.kids.value, mors.value.kids.value))
  }

  /** `_page_n_block_task_element`: a sub-task must be open; the block is read from the form
      fields when there are any, from the text otherwise. */
  function BlockElement(rows: seq<Cells>, k: nat, st: State, ts: Dict<string, Task>, ff: Option<FormFields>): (r: Result<Step>)
    requires k < |rows|
    ensures r.Ok? ==> k < r.value.next <= |rows| && r.value.state == st
  {
    if st.task == "" || st.subtask == "" then Err(Mismatch)
    else if UsesForms(ff) then BlockFields(rows, k, st, ts, ff.value)
    else BlockText(rows, k, st, ts)
  }

  /** One row of a later page: its kind decides what it starts, and a block consumes the rows
      of its grid. */
  function Dispatch(rows: seq<Cells>, k: nat, st: State, ts: Dict<string, Task>, ff: Option<FormFields>): (r: Result<Step>)
    requires k < |rows|
    ensures r.Ok? ==> k < r.value.next <= |rows|
    ensures r.Ok? ==>
      r.value.state.blockNum == st.blockNum && r.value.state.lineNum >= st.lineNum
  {
    var line := rows[k];
    var kind :- Classify(line);
    match kind
    case SectionRow =>
      var m :- StartSection(line[0], st, ts);
      Ok(Step(k + 1, m.state, m.tasks))
    case SubtaskRow =>
      var m :- StartSubtask(line[0], st, ts);
      Ok(Step(k + 1, m.state, m.tasks))
    case BlockRow => BlockElement(rows, k, st, ts, ff)
    case ListRow =>
      var m :- ListElement(line, st, ts, ff);
      Ok(Step(k + 1, m.state, m.tasks))
    case OtherRow => Ok(Step(k + 1, st, ts))
  }

  /** The rows from `k` on, each dispatched in turn. */
  function RowsFrom(rows: seq<Cells>, k: nat, st: State, ts: Dict<string, Task>, ff: Option<FormFields>): Result<Matched>
    decreases |rows| - k
  {
    if k >= |rows| then Ok(Matched(st, ts))
    else
      var d :- Dispatch(rows, k, st, ts, ff);
      RowsFrom(rows, d.next, d.state, d.tasks, ff)
  }

  /** Where the rows of a later page start, and in what state. */
  datatype Start = Start(row: nat, state: State)

  /** The head of `_page_n`: the first row must start with a rect whose first child is a text
      box; a "td code" header row is skipped, any other first row opens a new block (the block
      counter moves on, the line counter restarts at 1) and is dispatched itself. */
  function PageStart(rows: seq<Cells>, st: State): (r: Result<Start>)
    ensures |rows| == 0 ==> r == Err(TypeError)
    ensures (|rows| > 0 && (|rows[0]| == 0 || !rows[0][0].RectNode? || |rows[0][0].kids| == 0 ||
              !rows[0][0].kids[0].TextBoxNode?)) ==> r == Err(Mismatch)
    ensures r.Err? ==> r.error in {TypeError, Mismatch, AttributeError}
    ensures r.Ok? ==>
      |rows| > 0 && |rows[0]| > 0 && |rows[0][0].kids| > 0 &&
      Stripped(rows[0][0].kids[0]).Ok? &&
      var header := StartsWith(Lower(Stripped(rows[0][0].kids[0]).value), "td code");
      r.value == (if header then Start(1, st)
                  else Start(0, st.(blockNum := st.blockNum + 1, lineNum := 1)))
  {
    var line :- RowAt(rows, 0);
    if |line| == 0 || !line[0].RectNode? then Err(Mismatch)
    else if |line[0].kids| < 1 || !line[0].kids[0].TextBoxNode? then Err(Mismatch)
    else
      var text :- Stripped(line[0].kids[0]);
      if StartsWith(Lower(text), "td code") then Ok(Start(1, st))
      else Ok(Start(0, st.(blockNum := st.blockNum + 1, lineNum := 1)))
  }

  /** `_page_n`: the rows from where the page starts, each dispatched in turn. */
  function PageN(rows: seq<Cells>, st: State, ts: Dict<string, Task>, ff: Option<FormFields>): Result<Matched> {
    var start :- PageStart(rows, st);
    RowsFrom(rows, start.row, start.state, ts, ff)
  }

  // ----- Pages and the document -----

  /** A page: the bounding boxes of pdfminer's elements and the layout of cells built from
      them. */
  datatype Page = Page(elements: seq<Box>, layout: seq<Node>)

  /** The state and the match after a page. */
  datatype Paged = Paged(state: State, result: Match)

  /** Some element of the page lies below or left of the origin. */
  predicate AnyUnderflow(boxes: seq<Box>) {
    exists i :: 0 <= i < |boxes| && Underflows(boxes[i])
  }

  /** `_pdf_page`: the tolerances of the page, its rows, then page 1 fills the header and any
      other page the tasks (created empty when missing). */
  function PageSpec(pageid: int, page: Page, st: State, m: Match, ff: Option<FormFields>): (r: Result<Paged>)
    ensures r.Ok? && pageid == 1 ==> r.value.state == st && r.value.result.tasks == m.tasks
    ensures r.Ok? && pageid != 1 ==> r.value.result.header == m.header && r.value.result.tasks.Some?
  {
    var p := PageParamsFor(pageid, AnyUnderflow(page.elements));
    var rows :- PageRows(page.layout, p.params.positionTol, p.verticalOverlap);
    if pageid == 1 then
      var h :- Page1(rows, ff);
      Ok(Paged(st, m.(header := h)))
    else
      var a :- PageN(rows, st, m.tasks.GetOr([]), ff);
      Ok(Paged(a.state, m.(tasks := Some(a.tasks))))
  }

  /** The pages from position `i` on, numbered from 1. */
  function PagesFrom(pages: seq<Page>, i: nat, st: State, m: Match, ff: Option<FormFields>): Result<Match>
    decreases |pages| - i
  {
    if i >= |pages| then Ok(m)
    else
      var a :- PageSpec(i + 1, pages[i], st, m, ff);
      PagesFrom(pages, i + 1, a.state, a.result, ff)
  }

  /** The tasks exist after the pages exactly when they existed before or a page other than the
      first was matched. */
  lemma {:induction false} PagesFromTasks(pages: seq<Page>, i: nat, st: State, m: Match, ff: Option<FormFields>)
    requires PagesFrom(pages, i, st, m, ff).Ok?
    ensures PagesFrom(pages, i, st, m, ff).value.tasks.Some? <==>
      m.tasks.Some? || (i < |pages| && 2 <= |pages|)
    decreases |pages| - i
  {
    if i < |pages| {
      var a := PageSpec(i + 1, pages[i], st, m, ff).value;
      PagesFromTasks(pages, i + 1, a.state, a.result, ff);
    }
  }

  /** `match_prev_pdf`: the pages in order from an empty match, then `_fill_dataframe`, whose
      `match_result["Tasks"]` raises `KeyError` when no later page was matched. */
  function Document(pages: seq<Page>, ff: Option<FormFields>): (r: Result<seq<Row>>)
    ensures r.Ok? ==> AllWide(r.value)
  {
    var m :- PagesFrom(pages, 0, Initial, Match(EmptyHeader, None), ff);
    if m.tasks.None? then Err(KeyError)
    else
      AllRowsShape(m.header, m.tasks.value);
      Ok(AllRows(m.header, m.tasks.value))
  }

  /** A document of one page or none has no tasks and fails; a longer one fails only when one
      of its pages does, and then gives one row per matched element. */
  lemma DocumentNeedsTwoPages(pages: seq<Page>, ff: Option<FormFields>)
    ensures |pages| <= 1 ==> Document(pages, ff).Err?
    ensures |pages| >= 2 ==>
      (Document(pages, ff).Ok? <==> PagesFrom(pages, 0, Initial, Match(EmptyHeader, None), ff).Ok?)
    ensures Document(pages, ff).Ok? ==>
      var m := PagesFrom(pages, 0, Initial, Match(EmptyHeader, None), ff).value;
      m.tasks.Some? && |Document(pages, ff).value| == TreeCount(m.tasks.value)
  {
    var m0 := Match(EmptyHeader, None);
    if PagesFrom(pages, 0, Initial, m0, ff).Ok? {
      PagesFromTasks(pages, 0, Initial, m0, ff);
      var m := PagesFrom(pages, 0, Initial, m0, ff).value;
      if m.tasks.Some? {
        AllRowsShape(m.header, m.tasks.value);
      }
    }
  }

  // ----- What the matching keeps true -----

  predicate SubtaskKeyed(key: string, s: Subtask) {
    s.name == key
  }

  predicate TaskKeyed(key: string, t: Task) {
    t.section == key && AllEntries(t.subtasks, SubtaskKeyed)
  }

  /** The open section and sub-task are stored, and every section and sub-task is stored under
      its own name. */
  predicate Consistent(st: State, ts: Dict<string, Task>) {
    (st.task != "" ==> Get(ts, st.task).Some?) &&
    (st.subtask != "" ==> st.task != "" && Open(st, ts)) &&
    AllEntries(ts, TaskKeyed)
  }

  /** Storing an element keeps every stored section and sub-task stored, under its name. */
  lemma PutElementConsistent(ts: Dict<string, Task>, st: State, key: string, e: Element, st2: State)
    requires PutElement(ts, st, key, e).Ok? && Consistent(st2, ts)
    ensures Consistent(st2, PutElement(ts, st, key, e).value)
  {
    var t := Get(ts, st.task).value;
    var sub := Get(t.subtasks, st.subtask).value;
    var sub2 := sub.(elements := Put(sub.elements, key, e));
    var t2 := t.(subtasks := Put(t.subtasks, st.subtask, sub2));
    PutGet(ts, st.task, t2, st2.task);
    PutGet(t.subtasks, st.subtask, sub2, st2.subtask);
    GetAll(ts, st.task, TaskKeyed);
    GetAll(t.subtasks, st.subtask, SubtaskKeyed);
    PutAll(t.subtasks, st.subtask, sub2, SubtaskKeyed);
    PutAll(ts, st.task, t2, TaskKeyed);
  }

  lemma StartSectionConsistent(cell: Node, st: State, ts: Dict<string, Task>)
    requires Consistent(st, ts)
    ensures StartSection(cell, st, ts).Ok? ==>
      Consistent(StartSection(cell, st, ts).value.state, StartSection(cell, st, ts).value.tasks)
  {
    if StartSection(cell, st, ts).Ok? {
      var m := StartSection(cell, st, ts).value;
      assert m.tasks == Put(ts, m.state.task, Task(m.state.task, []));
      NewSectionConsistent(ts, m.state);
    }
  }

  /** Storing an empty section under the open section's name, with no sub-task open, keeps
      the state consistent. */
  lemma NewSectionConsistent(ts: Dict<string, Task>, st: State)
    requires AllEntries(ts, TaskKeyed) && st.subtask == ""
    ensures Consistent(st, Put(ts, st.task, Task(st.task, [])))
  {
    var t := Task(st.task, []);
    assert TaskKeyed(st.task, t);
    PutGet(ts, st.task, t, st.task);
    PutAll(ts, st.task, t, TaskKeyed);
  }

  /** Under a consistent state a sub-task never meets a missing section. */
  lemma StartSubtaskConsistent(cell: Node, st: State, ts: Dict<string, Task>)
    requires Consistent(st, ts)
    ensures StartSubtask(cell, st, ts) != Err(KeyError)
    ensures StartSubtask(cell, st, ts).Ok? ==>
      Consistent(StartSubtask(cell, st, ts).value.state, StartSubtask(cell, st, ts).value.tasks)
  {
    if StartSubtask(cell, st, ts).Ok? {
      assert Stripped(cell).Ok? && Get(ts, st.task).Some?;
      var text := Stripped(cell).value;
      var t := Get(ts, st.task).value;
      assert StartSubtask(cell, st, ts) ==
        Ok(Matched(st.(subtask := text), Put(ts, st.task, t.(subtasks := Put(t.subtasks, text, Subtask(text, []))))));
      NewSubtaskConsistent(ts, st, text);
    }
  }

  /** Storing an empty sub-task under its name in the open section, and opening it, keeps the
      state consistent. */
  lemma NewSubtaskConsistent(ts: Dict<string, Task>, st: State, text: string)
    requires Consistent(st, ts) && st.task != "" && Get(ts, st.task).Some?
    ensures var t := Get(ts, st.task).value;
      Consistent(st.(subtask := text),
                 Put(ts, st.task, t.(subtasks := Put(t.subtasks, text, Subtask(text, [])))))
  {
    var t := Get(ts, st.task).value;
    var t2 := t.(subtasks := Put(t.subtasks, text, Subtask(text, [])));
    PutGet(ts, st.task, t2, st.task);
    PutGet(t.subtasks, text, Subtask(text, []), text);
    GetAll(ts, st.task, TaskKeyed);
    PutAll(t.subtasks, text, Subtask(text, []), SubtaskKeyed);
    PutAll(ts, st.task, t2, TaskKeyed);
  }

  lemma ListElementConsistent(line: Cells, st: State, ts: Dict<string, Task>, ff: Option<FormFields>)
    requires |line| >= 2 && Consistent(st, ts)
    ensures ListElement(line, st, ts, ff) != Err(KeyError)
    ensures ListElement(line, st, ts, ff).Ok? ==>
      Consistent(ListElement(line, st, ts, ff).value.state, ListElement(line, st, ts, ff).value.tasks)
  {
    if ListElement(line, st, ts, ff).Ok? {
      var e := ListRowElement(line, st, ff).value;
      PutElementConsistent(ts, st, e.taskCode, e, st);
    }
  }

  lemma {:induction false} BlockGridConsistent(rows: seq<Cells>, j: nat, i: nat, st: State, ts: Dict<string, Task>)
    requires j <= |rows| && Consistent(st, ts) && st.subtask != ""
    ensures BlockGrid(rows, j, i, st, ts) != Err(KeyError)
    ensures BlockGrid(rows, j, i, st, ts).Ok? ==> Consistent(st, BlockGrid(rows, j, i, st, ts).value.tasks)
    decreases |rows| - j
  {
    if j < |rows| && |rows[j]| >= 6 && GridElement(rows[j]).Ok? {
      BlockGridStep(rows, j, i, st, ts);
      var e := GridElement(rows[j]).value;
      var ts1 := if HasAnyText(e) then PutElement(ts, st, NatToString(i), e).value else ts;
      if HasAnyText(e) {
        PutElementConsistent(ts, st, NatToString(i), e, st);
      }
      BlockGridConsistent(rows, j + 1, i + 1, st, ts1);
    }
  }

  lemma {:induction false} CommentsFromConsistent(cs: Dict<string, FormField>, ms: Dict<string, FormField>, i: nat,
                                                  st: State, ts: Dict<string, Task>)
    requires Consistent(st, ts) && st.subtask != ""
    ensures CommentsFrom(cs, ms, i, st, ts) != Err(KeyError)
    ensures CommentsFrom(cs, ms, i, st, ts).Ok? ==> Consistent(st, CommentsFrom(cs, ms, i, st, ts).value)
    decreases |cs| - i
  {
    if i < |cs| {
      var key := cs[i].0;
      var e := CommentElement(cs[i].1, Get(ms, key));
      var put := HasAnyText(e);
      if put {
        PutElementConsistent(ts, st, key, e, st);
      }
      CommentsFromConsistent(cs, ms, i + 1, st, if put then PutElement(ts, st, key, e).value else ts);
    }
  }

  lemma BlockElementConsistent(rows: seq<Cells>, k: nat, st: State, ts: Dict<string, Task>, ff: Option<FormFields>)
    requires k < |rows| && Consistent(st, ts)
    ensures BlockElement(rows, k, st, ts, ff) != Err(KeyError)
    ensures BlockElement(rows, k, st, ts, ff).Ok? ==>
      Consistent(st, BlockElement(rows, k, st, ts, ff).value.tasks)
  {
    if st.task != "" && st.subtask != "" {
      if UsesForms(ff) {
        BlockFieldsConsistent(rows, k, st, ts, ff.value);
      } else {
        BlockTextConsistent(rows, k, st, ts);
      }
    }
  }

  lemma BlockFieldsConsistent(rows: seq<Cells>, k: nat, st: State, ts: Dict<string, Task>, ff: FormFields)
    requires k < |rows| && Consistent(st, ts) && st.subtask != ""
    ensures BlockFields(rows, k, st, ts, ff) != Err(KeyError)
    ensures BlockFields(rows, k, st, ts, ff).Ok? ==> Consistent(st, BlockFields(rows, k, st, ts, ff).value.tasks)
  {
    var kids := BlockKids(ff, st.blockNum);
    if kids.Some? {
      CommentsFromConsistent(kids.value.0, kids.value.1, 0, st, ts);
    }
  }

  lemma BlockTextConsistent(rows: seq<Cells>, k: nat, st: State, ts: Dict<string, Task>)
    requires Consistent(st, ts) && st.subtask != ""
    ensures BlockText(rows, k, st, ts) != Err(KeyError)
    ensures BlockText(rows, k, st, ts).Ok? ==> Consistent(st, BlockText(rows, k, st, ts).value.tasks)
  {
    if k + 1 < |rows| {
      BlockGridConsistent(rows, k + 2, 0, st, ts);
    }
  }

  /** A row of a later page never meets a missing section or sub-task, and leaves the state
      consistent. */
  lemma DispatchConsistent(rows: seq<Cells>, k: nat, st: State, ts: Dict<string, Task>, ff: Option<FormFields>)
    requires k < |rows| && Consistent(st, ts)
    ensures Dispatch(rows, k, st, ts, ff) != Err(KeyError)
    ensures Dispatch(rows, k, st, ts, ff).Ok? ==>
      Consistent(Dispatch(rows, k, st, ts, ff).value.state, Dispatch(rows, k, st, ts, ff).value.tasks)
  {
    var line := rows[k];
    if Classify(line).Ok? {
      match Classify(line).value
      case SectionRow => StartSectionConsistent(line[0], st, ts);
      case SubtaskRow => StartSubtaskConsistent(line[0], st, ts);
      case BlockRow => BlockElementConsistent(rows, k, st, ts, ff);
      case ListRow => ListElementConsistent(line, st, ts, ff);
      case OtherRow =>
    }
  }

  lemma {:induction false} RowsFromConsistent(rows: seq<Cells>, k: nat, st: State, ts: Dict<string, Task>, ff: Option<FormFields>)
    requires Consistent(st, ts)
    ensures RowsFrom(rows, k, st, ts, ff) != Err(KeyError)
    ensures RowsFrom(rows, k, st, ts, ff).Ok? ==>
      Consistent(RowsFrom(rows, k, st, ts, ff).value.state, RowsFrom(rows, k, st, ts, ff).value.tasks)
    decreases |rows| - k
  {
    if k < |rows| {
      DispatchConsistent(rows, k, st, ts, ff);
      if Dispatch(rows, k, st, ts, ff).Ok? {
        var d := Dispatch(rows, k, st, ts, ff).value;
        RowsFromConsistent(rows, d.next, d.state, d.tasks, ff);
      }
    }
  }

  /** A later page never raises `KeyError`: the guards on the open section and sub-task cover
      every access to the tasks. */
  lemma PageNConsistent(rows: seq<Cells>, st: State, ts: Dict<string, Task>, ff: Option<FormFields>)
    requires Consistent(st, ts)
    ensures PageN(rows, st, ts, ff) != Err(KeyError)
    ensures PageN(rows, st, ts, ff).Ok? ==>
      Consistent(PageN(rows, st, ts, ff).value.state, PageN(rows, st, ts, ff).value.tasks)
  {
    var start := PageStart(rows, st);
    if start.Ok? {
      RowsFromConsistent(rows, start.value.row, start.value.state, ts, ff);
    }
  }

  lemma {:induction false} PagesFromConsistent(pages: seq<Page>, i: nat, st: State, m: Match, ff: Option<FormFields>)
    requires i >= 1 && Consistent(st, m.tasks.GetOr([]))
    ensures PagesFrom(pages, i, st, m, ff) != Err(KeyError)
    ensures PagesFrom(pages, i, st, m, ff).Ok? ==>
      AllEntries(PagesFrom(pages, i, st, m, ff).value.tasks.GetOr([]), TaskKeyed)
    decreases |pages| - i
  {
    if i < |pages| {
      var p := PageParamsFor(i + 1, AnyUnderflow(pages[i].elements));
      var rows := PageRows(pages[i].layout, p.params.positionTol, p.verticalOverlap);
      if rows.Ok? {
        PageNConsistent(rows.value, st, m.tasks.GetOr([]), ff);
        if PageSpec(i + 1, pages[i], st, m, ff).Ok? {
          var a := PageSpec(i + 1, pages[i], st, m, ff).value;
          PagesFromConsistent(pages, i + 1, a.state, a.result, ff);
        }
      }
    }
  }

  /** Past the first page the document never raises `KeyError`, and in the matched tree every
      section and sub-task is stored under its own name. */
  lemma DocumentConsistent(pages: seq<Page>, ff: Option<FormFields>)
    requires |pages| >= 1
    requires PageSpec(1, pages[0], Initial, Match(EmptyHeader, None), ff).Ok?
    ensures PagesFrom(pages, 0, Initial, Match(EmptyHeader, None), ff) != Err(KeyError)
    ensures PagesFrom(pages, 0, Initial, Match(EmptyHeader, None), ff).Ok? ==>
      AllEntries(PagesFrom(pages, 0, Initial, Match(EmptyHeader, None), ff).value.tasks.GetOr([]), TaskKeyed)
  {
    var a := PageSpec(1, pages[0], Initial, Match(EmptyHeader, None), ff).value;
    PagesFromConsistent(pages, 1, a.state, a.result, ff);
  }

  // ----- The matching loops -----

  /** `for rect in line: if test(rect): ... break`. */
  method ScanCells(line: Cells, test: Node -> Result<bool>) returns (r: Result<bool>)
    ensures r == AnyCell(line, test, 0)
  {
    var i := 0;
    while i < |line|
      invariant i <= |line|
      invariant AnyCell(line, test, i) == AnyCell(line, test, 0)
    {
      var b := test(line[i]);
      if b.Err? {
        return Err(b.error);
      }
      if b.value {
        return Ok(true);
      }
      i := i + 1;
    }
    return Ok(false);
  }

  /** The loops of `_page_1_text` reading the value to the right of a label. */
  method FindValue(line: Cells, test: Node -> Result<bool>) returns (r: Result<Option<string>>)
    ensures r == LabelValue(line, test, 0)
  {
    var i := 0;
    while i < |line|
      invariant i <= |line|
      invariant LabelValue(line, test, i) == LabelValue(line, test, 0)
    {
      var b := test(line[i]);
      if b.Err? {
        return Err(b.error);
      }
      if b.value && i + 1 < |line| {
        var v := Stripped(line[i + 1]);
        if v.Err? {
          return Err(v.error);
        }
        return Ok(Some(v.value));
      }
      i := i + 1;
    }
    return Ok(None);
  }

  /** The signature loops of `_page_1_text`. */
  method FindSigned(line: Cells, test: Node -> Result<bool>) returns (r: Result<bool>)
    ensures r == SignedFrom(line, test, 0)
  {
    var i := 0;
    while i < |line|
      invariant i <= |line|
      invariant SignedFrom(line, test, i) == SignedFrom(line, test, 0)
    {
      var b := test(line[i]);
      if b.Err? {
        return Err(b.error);
      }
      if b.value && i + 1 < |line| {
        var kids := Children(line[i + 1]);
        if kids.Err? {
          return Err(kids.error);
        }
        if |kids.value| > 0 {
          return Ok(true);
        }
      }
      i := i + 1;
    }
    return Ok(false);
  }

  /** The `while` loops of `_page_1_text` that skip rows until a labelled one. */
  method SkipRows(rows: seq<Cells>, k: nat, minLen: nat, test: Node -> Result<bool>) returns (r: Result<nat>)
    ensures r == SkipTo(rows, k, minLen, test)
  {
    var j := k;
    while j < |rows|
      invariant k <= j
      invariant SkipTo(rows, j, minLen, test) == SkipTo(rows, k, minLen, test)
      decreases |rows| - j
    {
      if |rows[j]| >= minLen {
        var b := ScanCells(rows[j], test);
        if b.Err? {
          return Err(b.error);
        }
        if b.value {
          return Ok(j);
        }
      }
      j := j + 1;
    }
    return Err(TypeError);
  }

  /** The dates and hours of `_page_1_text`. */
  method ReadDates(rows: seq<Cells>) returns (r: Result<Dates>)
    ensures r == DateRows(rows)
  {
    var w := SkipRows(rows, 5, 6, Labelled("wtg"));
    if w.Err? {
      return Err(w.error);
    }
    SkipToBound(rows, 5, 6, Labelled("wtg"));
    r := ReadDatesAt(rows, w.value);
  }

  /** The reads from the "wtg" row and the row after it. */
  method ReadDatesAt(rows: seq<Cells>, w: nat) returns (r: Result<Dates>)
    requires w < |rows|
    ensures r == DatesAt(rows, w)
  {
    var line := rows[w];
    var wtg := FindValue(line, Labelled("wtg"));
    if wtg.Err? {
      return Err(wtg.error);
    }
    var begin := FindValue(line, Labelled("beginning date"));
    if begin.Err? {
      return Err(begin.error);
    }
    var hours := FindValue(line, Labelled("operationnal hours"));
    if hours.Err? {
      return Err(hours.error);
    }
    if w + 1 >= |rows| {
      return Err(TypeError);
    }
    var fl := rows[w + 1];
    if |fl| < 4 {
      return Err(Mismatch);
    }
    var finish := FindValue(fl, Labelled("finish date"));
    if finish.Err? {
      return Err(finish.error);
    }
    var shut := FindValue(fl, Labelled("shut-down hours"));
    if shut.Err? {
      return Err(shut.error);
    }
    return Ok(Dates(wtg.value.GetOr(""), begin.value.GetOr(""), hours.value.GetOr(""),
                    finish.value.GetOr(""), shut.value.GetOr(""), w + 2));
  }

  /** The signatures of `_page_1_text`. */
  method ReadSignatures(rows: seq<Cells>, k: nat) returns (r: Result<(bool, bool)>)
    ensures r == SignatureRows(rows, k)
  {
    var s := SkipRows(rows, k, 2, Labelled("signature"));
    if s.Err? {
      return Err(s.error);
    }
    SkipToBound(rows, k, 2, Labelled("signature"));
    var sgre := FindSigned(rows[s.value], SignLabelled("signature of sgre"));
    if sgre.Err? {
      return Err(sgre.error);
    }
    if s.value + 1 >= |rows| {
      return Err(TypeError);
    }
    var tl := rows[s.value + 1];
    if |tl| < 2 {
      return Err(Mismatch);
    }
    var third := FindSigned(tl, SignLabelled("signature of 3rd"));
    if third.Err? {
      return Err(third.error);
    }
    return Ok((sgre.value, third.value));
  }

  /** `_page_1_text`. */
  method MatchPage1Text(rows: seq<Cells>) returns (r: Result<Header>)
    ensures r == Page1Text(rows)
  {
    var t := TitleRows(rows);
    if t.Err? {
      return Err(t.error);
    }
    var d := ReadDates(rows);
    if d.Err? {
      return Err(d.error);
    }
    var s := ReadSignatures(rows, d.value.next);
    if s.Err? {
      return Err(s.error);
    }
    var h := Header(t.value.year, t.value.code, t.value.date, t.value.rev, d.value.wtg,
                    d.value.beginningDate, d.value.operationalHours, d.value.finishDate,
                    d.value.shutdownHours, s.value.0, s.value.1);
    return Ok(h);
  }

  /** The grid loop of `_page_n_block_task_element_text`. */
  method MatchBlockGrid(rows: seq<Cells>, j0: nat, st: State, ts: Dict<string, Task>) returns (r: Result<Step>)
    requires j0 <= |rows|
    ensures r == BlockGrid(rows, j0, 0, st, ts)
  {
    var j, i, cur := j0, 0, ts;
    while j < |rows|
      invariant j0 <= j <= |rows|
      invariant BlockGrid(rows, j, i, st, cur) == BlockGrid(rows, j0, 0, st, ts)
      decreases |rows| - j
    {
      if |rows[j]| < 6 {
        return Ok(Step(j + 1, st, cur));
      }
      var e := GridElement(rows[j]);
      if e.Err? {
        return Err(e.error);
      }
      if HasAnyText(e.value) {
        var put := PutElement(cur, st, NatToString(i), e.value);
        if put.Err? {
          return Err(put.error);
        }
        cur := put.value;
      }
      j, i := j + 1, i + 1;
    }
    return Ok(Step(|rows|, st, cur));
  }

  /** The comments loop of `_page_n_block_task_element_form_fields`. */
  method MatchComments(cs: Dict<string, FormField>, ms: Dict<string, FormField>, st: State,
                       ts: Dict<string, Task>) returns (r: Result<Dict<string, Task>>)
    ensures r == CommentsFrom(cs, ms, 0, st, ts)
  {
    var i, cur := 0, ts;
    while i < |cs|
      invariant i <= |cs|
      invariant CommentsFrom(cs, ms, i, st, cur) == CommentsFrom(cs, ms, 0, st, ts)
    {
      var e := CommentElement(cs[i].1, Get(ms, cs[i].0));
      CommentsFromStep(cs, ms, i, st, cur);
      if HasAnyText(e) {
        var put := PutElement(cur, st, cs[i].0, e);
        if put.Err? {
          return Err(put.error);
        }
        cur := put.value;
      }
      i := i + 1;
    }
    return Ok(cur);
  }

  /** `_page_n_block_task_element`. */
  method MatchBlock(rows: seq<Cells>, k: nat, st: State, ts: Dict<string, Task>, ff: Option<FormFields>)
    returns (r: Result<Step>)
    requires k < |rows|
    ensures r == BlockElement(rows, k, st, ts, ff)
  {
    if st.task == "" || st.subtask == "" {
      return Err(Mismatch);
    }
    if UsesForms(ff) {
      r := MatchBlockFields(rows, k, st, ts, ff.value);
    } else {
      r := MatchBlockText(rows, k, st, ts);
    }
  }

  /** `_page_n_block_task_element_form_fields`. */
  method MatchBlockFields(rows: seq<Cells>, k: nat, st: State, ts: Dict<string, Task>, ff: FormFields)
    returns (r: Result<Step>)
    requires k < |rows|
    ensures r == BlockFields(rows, k, st, ts, ff)
  {
    var j := Cap(k + 2, |rows|);
    var kids := BlockKids(ff, st.blockNum);
    if kids.None? {
      return Ok(Step(j, st, ts));
    }
    var cs, ms := kids.value.0, kids.value.1;
    assert BlockFields(rows, k, st, ts, ff) == KidsBlock(rows, k, st, ts, Some((cs, ms)));
    KidsBlockComments(rows, k, st, ts, cs, ms);
    var put := MatchComments(cs, ms, st, ts);
    if put.Err? {
      return Err(put.error);
    }
    var next := Cap(j + |cs|, |rows|);
    assert next == Cap(Cap(k + 2, |rows|) + |cs|, |rows|);
    return Ok(Step(next, st, put.value));
  }

  /** `_page_n_block_task_element_text`. */
  method MatchBlockText(rows: seq<Cells>, k: nat, st: State, ts: Dict<string, Task>) returns (r: Result<Step>)
    ensures r == BlockText(rows, k, st, ts)
  {
    if k + 1 >= |rows| {
      return Err(TypeError);
    }
    if |rows[k + 1]| < 6 {
      return Err(Mismatch);
    }
    r := MatchBlockGrid(rows, k + 2, st, ts);
  }

  /** `_page_n_task_subtask_or_element`. */
  method MatchRow(rows: seq<Cells>, k: nat, st: State, ts: Dict<string, Task>, ff: Option<FormFields>)
    returns (r: Result<Step>)
    requires k < |rows|
    ensures r == Dispatch(rows, k, st, ts, ff)
  {
    var line := rows[k];
    var kind := ClassifyRow(line);
    if kind.Err? {
      return Err(kind.error);
    }
    match kind.value
    case SectionRow =>
      var m := StartSection(line[0], st, ts);
      if m.Err? {
        return Err(m.error);
      }
      return Ok(Step(k + 1, m.value.state, m.value.tasks));
    case SubtaskRow =>
      var m := StartSubtask(line[0], st, ts);
      if m.Err? {
        return Err(m.error);
      }
      return Ok(Step(k + 1, m.value.state, m.value.tasks));
    case BlockRow =>
      r := MatchBlock(rows, k, st, ts, ff);
    case ListRow =>
      var m := ListElement(line, st, ts, ff);
      if m.Err? {
        return Err(m.error);
      }
      return Ok(Step(k + 1, m.value.state, m.value.tasks));
    case OtherRow =>
      return Ok(Step(k + 1, st, ts));
  }

  /** The tests of `_page_n_task_subtask_or_element`: the "tech" scan, then the fill. */
  method ClassifyRow(line: Cells) returns (r: Result<RowKind>)
    ensures r == Classify(line)
  {
    if |line| < 1 || !line[0].RectNode? {
      return Err(Mismatch);
    }
    var tech := ScanCells(line, Labelled("tech"));
    if tech.Err? {
      return Err(tech.error);
    }
    var c := RectColor(line[0].style);
    if |c| != 3 {
      return Err(ValueError);
    }
    if |line| == 1 && Nearest(c, Green, Blue, White) {
      return Ok(SectionRow);
    } else if tech.value || (1 <= |line| <= 4 && Nearest(c, Blue, Green, White)) {
      return Ok(SubtaskRow);
    } else if |line| == 1 {
      return Ok(BlockRow);
    } else if |line| >= 6 {
      return Ok(ListRow);
    }
    return Ok(OtherRow);
  }

  /** `_page_n`: the page's head, then `while line is not None` over the rows. */
  method MatchPageN(rows: seq<Cells>, st: State, ts: Dict<string, Task>, ff: Option<FormFields>)
    returns (r: Result<Matched>)
    ensures r == PageN(rows, st, ts, ff)
  {
    var start := PageStart(rows, st);
    if start.Err? {
      return Err(start.error);
    }
    var k, cur, tasks := start.value.row, start.value.state, ts;
    while k < |rows|
      invariant RowsFrom(rows, k, cur, tasks, ff) == PageN(rows, st, ts, ff)
      decreases |rows| - k
    {
      var d := MatchRow(rows, k, cur, tasks, ff);
      if d.Err? {
        return Err(d.error);
      }
      k, cur, tasks := d.value.next, d.value.state, d.value.tasks;
    }
    return Ok(Matched(cur, tasks));
  }

  /** `_pdf_page`: the underflow scan, the tolerances, the row grouping, then the page. */
  method MatchPage(pageid: int, page: Page, st: State, m: Match, ff: Option<FormFields>)
    returns (r: Result<Paged>)
    ensures r == PageSpec(pageid, page, st, m, ff)
  {
    var underflow := FindUnderflow(page.elements);
    var p := PageParamsFor(pageid, underflow);
    var rows := GroupRows(page.layout, p.params.positionTol, p.verticalOverlap);
    if rows.Err? {
      return Err(rows.error);
    }
    if pageid == 1 {
      var h: Result<Header>;
      if UsesForms(ff) {
        h := Page1Forms(rows.value, ff.value);
      } else {
        h := MatchPage1Text(rows.value);
      }
      if h.Err? {
        return Err(h.error);
      }
      return Ok(Paged(st, m.(header := h.value)));
    }
    var a := MatchPageN(rows.value, st, m.tasks.GetOr([]), ff);
    if a.Err? {
      return Err(a.error);
    }
    return Ok(Paged(a.value.state, m.(tasks := Some(a.value.tasks))));
  }

  /** `match_prev_pdf`: every page in order, then `_fill_dataframe`. */
  method MatchPrevPdf(pages: seq<Page>, ff: Option<FormFields>) returns (r: Result<seq<Row>>)
    ensures r == Document(pages, ff)
  {
    var m := MatchPages(pages, ff);
    if m.Err? {
      return Err(m.error);
    }
    if m.value.tasks.None? {
      return Err(KeyError);
    }
    var rows := FillRows(m.value.header, m.value.tasks.value);
    return Ok(rows);
  }

  /** The page loop of `match_prev_pdf`, page numbers counting from 1. */
  method MatchPages(pages: seq<Page>, ff: Option<FormFields>) returns (r: Result<Match>)
    ensures r == PagesFrom(pages, 0, Initial, Match(EmptyHeader, None), ff)
  {
    var st, m := Initial, Match(EmptyHeader, None);
    var i := 0;
    while i < |pages|
      invariant i <= |pages|
      invariant PagesFrom(pages, i, st, m, ff) == PagesFrom(pages, 0, Initial, Match(EmptyHeader, None), ff)
    {
      var a := MatchPage(i + 1, pages[i], st, m, ff);
      if a.Err? {
        return Err(a.error);
      }
      st, m := a.value.state, a.value.result;
      i := i + 1;
    }
    return Ok(m);
  }
}
