/** The result tree of an MV checklist and the spreadsheet rows it is flattened into. Both the
    legacy text parser and the layout matcher fill this tree, and both flatten it the same way. */
module MvResult {
  import opened Outcomes
  import opened Dicts

  datatype Measure = Measure(value: string, unit: string)

  /** An element of a task. `status` is `None` where the parser cannot read it. */
  datatype Element = Element(number: string, description: string, remarks: string, tools: string,
                             status: Option<string>, measures: Dict<string, Measure>)

  /** A task (a WTG section) and its elements, keyed by element number. */
  datatype Task = Task(section: string, elements: Dict<string, Element>)

  /** The checklist fields read from the first page. */
  datatype Header = Header(checklistName: string, year: string, site: string, wtg: string,
                           orderNumber: string, language: string, revisionDate: string,
                           approvalDate: string)

  /** A spreadsheet row; `None` is an empty cell. */
  type Row = seq<Option<string>>

  const Width := 14

  /** The row of an element: the header fields, the section, description, remarks, two `N/A`
      cells, the status and three empty cells. */
  function ElementRow(h: Header, t: Task, e: Element): (r: Row)
    ensures |r| == Width
  {
    [Some(h.wtg), Some(h.checklistName), Some(h.revisionDate), Some(h.orderNumber),
     Some(h.approvalDate), Some(t.section), Some(e.description), Some(e.remarks),
     Some("N/A"), Some("N/A"), e.status, None, None, None]
  }

  /** The row of a measure: the header fields, the section, the measure name, `N/A`, the value
      and unit, `N/A` and three empty cells. */
  function MeasureRow(h: Header, t: Task, name: string, m: Measure): (r: Row)
    ensures |r| == Width
  {
    [Some(h.wtg), Some(h.checklistName), Some(h.revisionDate), Some(h.orderNumber),
     Some(h.approvalDate), Some(t.section), Some(name), Some("N/A"), Some(m.value),
     Some(m.unit), Some("N/A"), None, None, None]
  }

  function MeasureRows(h: Header, t: Task, ms: Dict<string, Measure>): seq<Row>
    decreases |ms|
  {
    if |ms| == 0 then []
    else MeasureRows(h, t, ms[..|ms| - 1]) + [MeasureRow(h, t, ms[|ms| - 1].0, ms[|ms| - 1].1)]
  }

  /** An element's row followed by the rows of its measures. */
  function ElementRows(h: Header, t: Task, e: Element): seq<Row> {
    [ElementRow(h, t, e)] + MeasureRows(h, t, e.measures)
  }

  function TaskRows(h: Header, t: Task, es: Dict<string, Element>): seq<Row>
    decreases |es|
  {
    if |es| == 0 then []
    else TaskRows(h, t, es[..|es| - 1]) + ElementRows(h, t, es[|es| - 1].1)
  }

  /** All rows, task by task and element by element in insertion order. */
  function AllRows(h: Header, ts: Dict<string, Task>): seq<Row>
    decreases |ts|
  {
    if |ts| == 0 then []
    else AllRows(h, ts[..|ts| - 1]) + TaskRows(h, ts[|ts| - 1].1, ts[|ts| - 1].1.elements)
  }

  /** The number of rows an element, a task and a whole tree produce. */
  function ElementCount(e: Element): nat {
    1 + |e.measures|
  }

  function TaskCount(es: Dict<string, Element>): nat
    decreases |es|
  {
    if |es| == 0 then 0 else TaskCount(es[..|es| - 1]) + ElementCount(es[|es| - 1].1)
  }

  function TreeCount(ts: Dict<string, Task>): nat
    decreases |ts|
  {
    if |ts| == 0 then 0 else TreeCount(ts[..|ts| - 1]) + TaskCount(ts[|ts| - 1].1.elements)
  }

  predicate AllWide(rows: seq<Row>) {
    forall i :: 0 <= i < |rows| ==> |rows[i]| == Width
  }

  lemma {:induction false} MeasureRowsShape(h: Header, t: Task, ms: Dict<string, Measure>)
    ensures |MeasureRows(h, t, ms)| == |ms| && AllWide(MeasureRows(h, t, ms))
    ensures forall k :: 0 <= k < |ms| ==> MeasureRows(h, t, ms)[k] == MeasureRow(h, t, ms[k].0, ms[k].1)
    decreases |ms|
  {
    if |ms| > 0 {
      MeasureRowsShape(h, t, ms[..|ms| - 1]);
    }
  }

  lemma {:induction false} TaskRowsShape(h: Header, t: Task, es: Dict<string, Element>)
    ensures |TaskRows(h, t, es)| == TaskCount(es) && AllWide(TaskRows(h, t, es))
    decreases |es|
  {
    if |es| > 0 {
      TaskRowsShape(h, t, es[..|es| - 1]);
      MeasureRowsShape(h, t, es[|es| - 1].1.measures);
    }
  }

  /** Every row has the 14 columns of the MV sheet, and there is one row per element plus one
      per measure. */
  lemma {:induction false} AllRowsShape(h: Header, ts: Dict<string, Task>)
    ensures |AllRows(h, ts)| == TreeCount(ts) && AllWide(AllRows(h, ts))
    decreases |ts|
  {
    if |ts| > 0 {
      AllRowsShape(h, ts[..|ts| - 1]);
      TaskRowsShape(h, ts[|ts| - 1].1, ts[|ts| - 1].1.elements);
    }
  }

  /** The flattening loop: for each task, for each of its elements, the element's row and then
      one row per measure. */
  method FillRows(h: Header, ts: Dict<string, Task>) returns (rows: seq<Row>)
    ensures rows == AllRows(h, ts)
  {
    rows := [];
    var i := 0;
    while i < |ts|
      invariant i <= |ts|
      invariant rows == AllRows(h, ts[..i])
    {
      assert ts[..i + 1][..i] == ts[..i];
      var more := FillTask(h, ts[i].1);
      rows := rows + more;
      i := i + 1;
    }
    assert ts[..i] == ts;
  }

  /** The rows of one task: each element's row followed by its measures' rows. */
  method FillTask(h: Header, t: Task) returns (rows: seq<Row>)
    ensures rows == TaskRows(h, t, t.elements)
  {
    rows := [];
    var j := 0;
    while j < |t.elements|
      invariant j <= |t.elements|
      invariant rows == TaskRows(h, t, t.elements[..j])
    {
      assert t.elements[..j + 1][..j] == t.elements[..j];
      var more := FillElement(h, t, t.elements[j].1);
      rows := rows + more;
      j := j + 1;
    }
    assert t.elements[..j] == t.elements;
  }

  /** The rows of one element: its own row, then one per measure, in order. */
  method FillElement(h: Header, t: Task, e: Element) returns (rows: seq<Row>)
    ensures rows == ElementRows(h, t, e)
  {
    rows := [ElementRow(h, t, e)];
    var k := 0;
    while k < |e.measures|
      invariant k <= |e.measures|
      invariant rows == [ElementRow(h, t, e)] + MeasureRows(h, t, e.measures[..k])
    {
      assert e.measures[..k + 1][..k] == e.measures[..k];
      rows := rows + [MeasureRow(h, t, e.measures[k].0, e.measures[k].1)];
      k := k + 1;
    }
    assert e.measures[..k] == e.measures;
  }
}
