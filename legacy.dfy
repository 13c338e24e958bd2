/** The legacy text-layout parser in `app/core/pdfs.py`: the document classifier, the MV page
    line parser `parse_tasks`, and the grouping of line intercepts into rows. */
module LegacyParser {
  import opened Outcomes
  import opened PyStr
  import opened Seqs
  import opened Dicts
  import opened Sorting
  import opened Runs
  import opened Geometry
  import opened MvResult

  datatype PdfType = Preventive | MV | Unknown

  /** The stripped, lower-cased first line of the first page's text. */
  function FirstLine(text: string): string {
    Lower(Strip(SplitOn(text, '\n')[0]))
  }

  /** `_resolve_pdf_type`: a first line that starts with "preventive" is an MV checklist, one that
      only contains it further on is a preventive checklist, anything else is unknown. */
  function ResolvePdfType(text: string): (r: PdfType)
    ensures r == MV <==> StartsWith(FirstLine(text), "preventive")
    ensures r == Preventive <==> !StartsWith(FirstLine(text), "preventive") && Contains(FirstLine(text), "preventive")
  {
    var first := FirstLine(text);
    if StartsWith(first, "preventive") then MV
    else if Contains(first, "preventive") then Preventive
    else Unknown
  }

  /** Only the first line decides: whatever follows the first newline is never looked at. */
  lemma ResolveFirstLineOnly(line: string, rest: string)
    requires '\n' !in line
    ensures ResolvePdfType(line + "\n" + rest) == ResolvePdfType(line)
  {
    SplitOnAfter(line, rest, '\n');
    SplitOnAbsent(line, '\n');
  }

  /** The task key of a `Location:` line: lower-cased, `location:` removed, stripped and
      upper-cased. */
  function TaskKey(line: string): (k: string)
    ensures forall i :: 0 <= i < |k| ==> !IsLowerLetter(k[i])
  {
    Upper(Strip(Replace(Lower(line), "location:", "")))
  }

  /** The parser's state between lines: the open element number and the open measure name
      (empty when none is open). */
  datatype Cursor = Cursor(number: string, measure: string)

  datatype Parsed = Parsed(tasks: Dict<string, Task>, cursor: Cursor)

  /** A task is created only when its key is new; an existing task keeps its elements. */
  function OpenTask(tasks: Dict<string, Task>, key: string): (r: Dict<string, Task>)
    ensures key in Keys(r)
    ensures key in Keys(tasks) ==> r == tasks
    ensures key !in Keys(tasks) ==> r == tasks + [(key, Task(key, []))]
  {
    PutAbsent(tasks, key, Task(key, []))
  }

  /** `parse_result['Tasks'][task]['Elements'][number] = e`. */
  function StoreElement(tasks: Dict<string, Task>, task: string, t: Task, number: string, e: Element): Dict<string, Task> {
    Put(tasks, task, t.(elements := Put(t.elements, number, e)))
  }

  /** A line that opens an element: its stripped text starts with a digit and it does not start
      with three spaces. */
  predicate OpensElement(line: string)
    requires |Strip(line)| > 0
  {
    IsDigit(Strip(line)[0]) && !StartsWith(line, "   ")
  }

  /** The element a numbered line opens, from its fields separated by two or more spaces; the
      description is required, remarks and tools default to empty. An element with the same
      number is replaced. */
  function OpenElement(tasks: Dict<string, Task>, task: string, line: string): (r: Result<Parsed>)
    ensures var values := SplitRuns2(line);
      r.Err? <==> |values| < 2 || task !in Keys(tasks)
  {
    var values := SplitRuns2(line);
    if |values| < 2 then Err(IndexError)
    else
      var t :- Lookup(tasks, task);
      var e := Element(values[0], values[1], if |values| > 2 then values[2] else "",
                       if |values| > 3 then values[3] else "", None, []);
      Ok(Parsed(StoreElement(tasks, task, t, values[0], e), Cursor(values[0], "")))
  }

  predicate IsMeasureName(field: string) {
    var f := Lower(field);
    StartsWith(f, "voltage") || StartsWith(f, "temperature") || StartsWith(f, "g") || StartsWith(f, "battery")
  }

  /** `values[i]` behind a newline when the field is present, nothing otherwise. */
  function MoreText(values: seq<string>, i: nat): string {
    if |values| > i then "\n" + values[i] else ""
  }

  /** The edit an indented line makes to the open element, and the measure left open after it:
      with a measure open, a single-word field is its value and closes it; a field naming a
      measure opens it with the value and unit of the next field, and a unit closes it again;
      anything else is more description, remarks and tools text. */
  function LineEdit(e: Element, measure: string, values: seq<string>): (r: Result<(Element, string)>)
    requires |values| > 0
    ensures r.Err? ==> r.error == KeyError
    ensures r.Ok? ==> r.value.0.number == e.number
  {
    if measure != "" && |SplitWs(values[0])| == 1 then
      var m :- Lookup(e.measures, measure);
      Ok((e.(measures := Put(e.measures, measure, m.(value := values[0]))), ""))
    else if IsMeasureName(values[0]) then
      var mv := if |values| > 1 then SplitWs(Strip(values[1])) else [];
      var m := Measure(if |mv| > 0 then mv[0] else "", if |mv| > 1 then mv[1] else "");
      Ok((e.(measures := Put(e.measures, values[0], m)), if m.unit != "" then "" else values[0]))
    else
      Ok((e.(description := e.description + "\n" + values[0],
             remarks := e.remarks + MoreText(values, 1),
             tools := e.tools + MoreText(values, 2)), measure))
  }

  /** An indented line under an open element, split on runs of two or more spaces. */
  function ContinueElement(tasks: Dict<string, Task>, task: string, cur: Cursor, line: string): (r: Result<Parsed>)
    ensures r.Ok? ==> r.value.cursor.number == cur.number
    ensures r.Ok? ==> Keys(r.value.tasks) == Keys(tasks)
  {
    var values := SplitRuns2(Strip(line));
    var t :- Lookup(tasks, task);
    var e :- Lookup(t.elements, cur.number);
    var edit :- LineEdit(e, cur.measure, values);
    Ok(Parsed(StoreElement(tasks, task, t, cur.number, edit.0), cur.(measure := edit.1)))
  }

  /** A line that hands the rest of the page to a new task. */
  predicate IsLocation(line: string) {
    |Strip(line)| > 0 && !OpensElement(line) && StartsWith(line, "Location:")
  }

  /** One line of `parse_tasks`'s loop other than a `Location:` line. A blank line has no first
      character to test, which raises. */
  function LineStep(tasks: Dict<string, Task>, task: string, cur: Cursor, line: string): (r: Result<Parsed>)
    requires !IsLocation(line)
    ensures r.Ok? ==> forall k :: k in Keys(tasks) ==> k in Keys(r.value.tasks)
  {
    if |Strip(line)| == 0 then Err(IndexError)
    else if OpensElement(line) then
      var p :- OpenElement(tasks, task, line);
      Ok(Parsed(p.tasks, p.cursor.(measure := cur.measure)))
    else if cur.number != "" && StartsWith(line, "   ") then ContinueElement(tasks, task, cur, line)
    else Ok(Parsed(tasks, cur))
  }

  /** `parse_tasks(number, measure, lines, line, result)`: opens the task of `line` and reads
      the lines after it. */
  function ParseTasks(tasks: Dict<string, Task>, cur: Cursor, line: string, rest: seq<string>): Result<Parsed>
    decreases |rest|, 1
  {
    var key := TaskKey(line);
    TaskLines(OpenTask(tasks, key), key, cur, rest)
  }

  /** The loop of `parse_tasks` over the remaining lines of task `task`. A `Location:` line
      hands the rest of the page to a new `parse_tasks` call and stops; the cursor returned is
      then this call's own, not the nested call's. */
  function TaskLines(tasks: Dict<string, Task>, task: string, cur: Cursor, lines: seq<string>): Result<Parsed>
    decreases |lines|, 0
  {
    if |lines| == 0 then Ok(Parsed(tasks, cur))
    else if IsLocation(lines[0]) then
      var inner :- ParseTasks(tasks, cur, lines[0], lines[1..]);
      Ok(Parsed(inner.tasks, cur))
    else
      var p :- LineStep(tasks, task, cur, lines[0]);
      TaskLines(p.tasks, task, p.cursor, lines[1..])
  }

  /** `parse_tasks` as the source writes it: a loop over the line iterator that recurses on a
      `Location:` line and then breaks. */
  method ParseTasksLoop(tasks: Dict<string, Task>, cur: Cursor, line: string, lines: seq<string>)
      returns (r: Result<Parsed>)
    ensures r == ParseTasks(tasks, cur, line, lines)
    decreases |lines|
  {
    var key := TaskKey(line);
    var ts := OpenTask(tasks, key);
    var c := cur;
    var i := 0;
    assert lines[0..] == lines;
    while i < |lines|
      invariant i <= |lines|
      invariant TaskLines(ts, key, c, lines[i..]) == ParseTasks(tasks, cur, line, lines)
    {
      var l := lines[i];
      assert lines[i..][0] == l && lines[i..][1..] == lines[i + 1..];
      if IsLocation(l) {
        var inner := ParseTasksLoop(ts, c, l, lines[i + 1..]);
        if inner.Err? {
          return Err(inner.error);
        }
        return Ok(Parsed(inner.value.tasks, c));
      }
      var p := LineStep(ts, key, c, l);
      if p.Err? {
        return Err(p.error);
      }
      ts, c := p.value.tasks, p.value.cursor;
      i := i + 1;
    }
    r := Ok(Parsed(ts, c));
  }

  /** Tasks are never removed: every task key present before parsing is present after it. */
  lemma {:induction false} ParseTasksKeepsTasks(tasks: Dict<string, Task>, cur: Cursor, line: string, rest: seq<string>)
    ensures var r := ParseTasks(tasks, cur, line, rest);
      r.Ok? ==> (forall k :: k in Keys(tasks) ==> k in Keys(r.value.tasks)) && TaskKey(line) in Keys(r.value.tasks)
    decreases |rest|, 1
  {
    var key := TaskKey(line);
    TaskLinesKeepsTasks(OpenTask(tasks, key), key, cur, rest);
  }

  lemma {:induction false} TaskLinesKeepsTasks(tasks: Dict<string, Task>, task: string, cur: Cursor, lines: seq<string>)
    ensures var r := TaskLines(tasks, task, cur, lines);
      r.Ok? ==> forall k :: k in Keys(tasks) ==> k in Keys(r.value.tasks)
    decreases |lines|, 0
  {
    if |lines| > 0 {
      if IsLocation(lines[0]) {
        ParseTasksKeepsTasks(tasks, cur, lines[0], lines[1..]);
      } else {
        var p := LineStep(tasks, task, cur, lines[0]);
        if p.Ok? {
          TaskLinesKeepsTasks(p.value.tasks, task, p.value.cursor, lines[1..]);
        }
      }
    }
  }

  /** A `Location:` line ends the current task's loop, and the cursor handed back is the one
      from before that line, whatever the nested task left open. */
  lemma LocationKeepsCursor(tasks: Dict<string, Task>, task: string, cur: Cursor, line: string, rest: seq<string>)
    requires StartsWith(line, "Location:")
    ensures var r := TaskLines(tasks, task, cur, [line] + rest);
      r.Ok? ==> r.value.cursor == cur
  {
    var lines := [line] + rest;
    assert lines[0] == line && lines[1..] == rest;
    LocationLine(line);
  }

  /** A line that starts with `Location:` is recognised as one, whatever surrounds it. */
  lemma LocationLine(line: string)
    requires StartsWith(line, "Location:")
    ensures IsLocation(line)
  {
    assert line[..9] == "Location:";
    assert line[0] == 'L' && !IsSpace(line[0]);
    assert LStrip(line) == line;
    RStripSlice(line);
    assert |RStrip(line)| > 0;
    assert Strip(line) == RStrip(line);
    assert Strip(line)[0] == 'L';
  }

  /** A numbered line records its element under its number, with the fields of the line, and
      makes it the open element; the open measure is carried over. */
  lemma ElementLine(tasks: Dict<string, Task>, task: string, cur: Cursor, line: string, rest: seq<string>)
    requires |Strip(line)| > 0 && OpensElement(line)
    requires task in Keys(tasks)
    requires |SplitRuns2(line)| >= 2
    ensures var values := SplitRuns2(line);
      var p := OpenElement(tasks, task, line);
      p.Ok? &&
      TaskLines(tasks, task, cur, [line] + rest) ==
        TaskLines(p.value.tasks, task, Cursor(values[0], cur.measure), rest) &&
      Get(Get(p.value.tasks, task).value.elements, values[0]) ==
        Some(Element(values[0], values[1], if |values| > 2 then values[2] else "",
                     if |values| > 3 then values[3] else "", None, []))
  {
    var lines := [line] + rest;
    assert lines[0] == line && lines[1..] == rest;
    assert !IsLocation(line);
    var values := SplitRuns2(line);
    var t := Get(tasks, task).value;
    var e := Element(values[0], values[1], if |values| > 2 then values[2] else "",
                     if |values| > 3 then values[3] else "", None, []);
    PutGet(tasks, task, t.(elements := Put(t.elements, values[0], e)), task);
    PutGet(t.elements, values[0], e, values[0]);
  }

  /** With a measure open, a single-word field becomes that measure's value, keeps its unit,
      and closes it. */
  lemma MeasureValueLine(e: Element, measure: string, values: seq<string>, m: Measure)
    requires |values| > 0 && measure != "" && |SplitWs(values[0])| == 1
    requires Get(e.measures, measure) == Some(m)
    ensures var r := LineEdit(e, measure, values);
      r.Ok? && r.value.1 == "" &&
      Get(r.value.0.measures, measure) == Some(Measure(values[0], m.unit))
  {
    PutGet(e.measures, measure, m.(value := values[0]), measure);
  }

  /** A field naming a measure records it with the value and unit of the next field, and the
      measure stays open for a value on a later line exactly when there was no unit. */
  lemma MeasureLine(e: Element, measure: string, values: seq<string>)
    requires |values| > 0
    requires !(measure != "" && |SplitWs(values[0])| == 1) && IsMeasureName(values[0])
    ensures var mv := if |values| > 1 then SplitWs(Strip(values[1])) else [];
      var r := LineEdit(e, measure, values);
      r.Ok? && (r.value.1 == "" <==> |mv| > 1) &&
      Get(r.value.0.measures, values[0]) ==
        Some(Measure(if |mv| > 0 then mv[0] else "", if |mv| > 1 then mv[1] else ""))
  {
    var mv := if |values| > 1 then SplitWs(Strip(values[1])) else [];
    var m := Measure(if |mv| > 0 then mv[0] else "", if |mv| > 1 then mv[1] else "");
    PutGet(e.measures, values[0], m, values[0]);
    if |mv| > 1 {
      assert |mv[1]| > 0;
    } else {
      assert |Lower(values[0])| == |values[0]|;
    }
  }

  /** Any other indented line extends the description, and the remarks and tools when those
      fields are present, each on a new line; no measure is touched. */
  lemma TextLine(e: Element, measure: string, values: seq<string>)
    requires |values| > 0
    requires !(measure != "" && |SplitWs(values[0])| == 1) && !IsMeasureName(values[0])
    ensures var r := LineEdit(e, measure, values);
      r.Ok? && r.value.1 == measure && r.value.0.measures == e.measures &&
      r.value.0.description == e.description + "\n" + values[0] &&
      r.value.0.remarks == e.remarks + (if |values| > 1 then "\n" + values[1] else "") &&
      r.value.0.tools == e.tools + (if |values| > 2 then "\n" + values[2] else "")
  {
  }

  /** The pages after the first: lines up to the `#` header are skipped, the next line opens
      the first task, and a page without a header changes nothing. A header on the last line
      leaves no line to strip, which raises. */
  function PageN(tasks: Dict<string, Task>, cur: Cursor, lines: seq<string>): Result<Parsed>
    decreases |lines|
  {
    if |lines| == 0 then Ok(Parsed(tasks, cur))
    else if IsHeader(lines[0]) then
      if |lines| == 1 then Err(AttributeError)
      else ParseTasks(tasks, cur, Strip(lines[1]), lines[2..])
    else PageN(tasks, cur, lines[1..])
  }

  predicate IsHeader(line: string) {
    StartsWith(Strip(line), "#")
  }

  /** A page without a `#` header changes neither the tasks nor the cursor. */
  lemma {:induction false} PageWithoutHeader(tasks: Dict<string, Task>, cur: Cursor, lines: seq<string>)
    requires forall i :: 0 <= i < |lines| ==> !IsHeader(lines[i])
    ensures PageN(tasks, cur, lines) == Ok(Parsed(tasks, cur))
    decreases |lines|
  {
    if |lines| > 0 {
      PageWithoutHeader(tasks, cur, lines[1..]);
    }
  }

  /** The loop that skips to the `#` header, then `parse_tasks` from the line after it. */
  method ParsePageN(tasks: Dict<string, Task>, cur: Cursor, lines: seq<string>) returns (r: Result<Parsed>)
    ensures r == PageN(tasks, cur, lines)
  {
    var i := 0;
    assert lines[0..] == lines;
    while i < |lines| && !IsHeader(lines[i])
      invariant i <= |lines|
      invariant PageN(tasks, cur, lines[i..]) == PageN(tasks, cur, lines)
    {
      assert lines[i..][1..] == lines[i + 1..];
      i := i + 1;
    }
    if i == |lines| {
      return Ok(Parsed(tasks, cur));
    }
    if i + 1 == |lines| {
      return Err(AttributeError);
    }
    assert lines[i..][2..] == lines[i + 2..];
    r := ParseTasksLoop(tasks, cur, Strip(lines[i + 1]), lines[i + 2..]);
  }

  /** The lines of a page's text that are not blank. */
  function PageLines(text: string): (r: seq<string>)
    ensures forall i :: 0 <= i < |r| ==> |Strip(r[i])| > 0
  {
    Filter(SplitOn(text, '\n'), (l: string) => |Strip(l)| > 0)
  }

  /** An intersection point of two lines, with the indices of the two lines. */
  datatype Intercept = Intercept(at: Point, first: nat, second: nat)

  /** `(y, x)`, the order intercepts are sorted in before grouping. */
  function InterceptKey(c: Intercept): Key {
    Key(c.at.y, c.at.x)
  }

  function SameY(a: Intercept, b: Intercept): bool {
    a.at.y == b.at.y
  }

  /** The intercepts sorted by `(y, x)` and grouped into rows of equal `y`. */
  function InterceptRows(cs: seq<Intercept>): seq<seq<Intercept>> {
    RunsOf(SortBy(cs, InterceptKey), SameY)
  }

  /** `intercepts_2d`: the sort and the grouping loop. */
  method GroupIntercepts(cs: seq<Intercept>) returns (rows: seq<seq<Intercept>>)
    ensures rows == InterceptRows(cs)
  {
    var sorted := SortBy(cs, InterceptKey);
    rows := GroupRuns(sorted, SameY);
  }

  /** The rows hold every intercept once, in `(y, x)` order; each row shares one `y`, and the
      rows' `y` strictly increase, so each row is a maximal run of equal `y`. */
  lemma InterceptRowsShape(cs: seq<Intercept>)
    ensures var rows := InterceptRows(cs);
      Flatten(rows) == SortBy(cs, InterceptKey) &&
      (forall i, k :: 0 <= i < |rows| && 0 <= k < |rows[i]| ==> rows[i][k].at.y == rows[i][0].at.y) &&
      (forall i :: 0 < i < |rows| ==> rows[i - 1][0].at.y < rows[i][0].at.y)
  {
    RunsFlatten(SortBy(cs, InterceptKey), SameY);
    RowsShareY(cs);
    RowsRiseY(cs);
  }

  /** Sorting by `(y, x)` orders the intercepts by `y`. */
  lemma SortedYs(cs: seq<Intercept>)
    ensures var s := SortBy(cs, InterceptKey);
      forall i, j :: 0 <= i < j < |s| ==> s[i].at.y <= s[j].at.y
  {
    var s := SortBy(cs, InterceptKey);
    forall i, j | 0 <= i < j < |s|
      ensures s[i].at.y <= s[j].at.y
    {
      assert KeyLe(InterceptKey(s[i]), InterceptKey(s[j]));
    }
  }

  /** All intercepts of a row share its `y`. */
  lemma RowsShareY(cs: seq<Intercept>)
    ensures var rows := InterceptRows(cs);
      forall i, k :: 0 <= i < |rows| && 0 <= k < |rows[i]| ==> rows[i][k].at.y == rows[i][0].at.y
  {
    RunsJoin(SortBy(cs, InterceptKey), SameY);
    var rows: seq<seq<Intercept>> := InterceptRows(cs);
    forall i: int, k: int | 0 <= i < |rows| && 0 <= k < |rows[i]|
      ensures rows[i][k].at.y == rows[i][0].at.y
    {
      if k > 0 {
        assert SameY(rows[i][0], rows[i][k]);
      }
    }
  }

  /** Rows come in strictly increasing `y`. */
  lemma RowsRiseY(cs: seq<Intercept>)
    ensures var rows := InterceptRows(cs);
      forall i :: 0 < i < |rows| ==> rows[i - 1][0].at.y < rows[i][0].at.y
  {
    var sorted := SortBy(cs, InterceptKey);
    var y := (c: Intercept) => c.at.y;
    assert forall i, j :: 0 <= i < j < |sorted| ==> y(sorted[i]) <= y(sorted[j]) by {
      SortedYs(cs);
    }
    RunsOfEqualKeys(sorted, y, SameY);
    var rows: seq<seq<Intercept>> := InterceptRows(cs);
    assert rows == RunsOf(sorted, SameY);
    forall i: int | 0 < i < |rows|
      ensures rows[i - 1][0].at.y < rows[i][0].at.y
    {
      assert y(rows[i - 1][0]) < y(rows[i][0]);
    }
  }
}
