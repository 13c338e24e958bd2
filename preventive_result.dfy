/** The result tree of a preventive checklist and the spreadsheet rows it is flattened into:
    WTG sections hold sub-tasks ("Task Description Code/Name"), which hold elements. */
module PreventiveResult {
  import opened Outcomes
  import opened Dicts

  /** An element of a sub-task: a list row or a block row. */
  datatype Element = Element(taskCode: string, description: string, status: string,
                             comment: string, mors: string, measurement: string, unit: string,
                             min: string, max: string)

  /** An element with the given task code and every other field empty. */
  function BlankElement(code: string): Element {
    Element(code, "", "", "", "", "", "", "", "")
  }

  /** A sub-task and its elements in insertion order. */
  datatype Subtask = Subtask(name: string, elements: Dict<string, Element>)

  /** A WTG section and its sub-tasks in insertion order. */
  datatype Task = Task(section: string, subtasks: Dict<string, Subtask>)

  /** The checklist fields read from the first page. */
  datatype Header = Header(yearAnnualService: string, code: string, date: string, rev: string,
                           wtg: string, beginningDate: string, operationalHours: string,
                           finishDate: string, shutdownHours: string, signatureSgre: bool,
                           signature: bool)

  /** A spreadsheet row; `None` is an empty cell. */
  type Row = seq<Option<string>>

  /** The 23 columns of the preventive sheet. */
  const Width := 23

  /** A signature column: "OK" when signed, "NO OK" otherwise. */
  function Signed(b: bool): string {
    if b then "OK" else "NO OK"
  }

  /** The row of one element: the header fields, both signatures, the section, the sub-task,
      the element's nine fields and three empty cells. */
  function ElementRow(h: Header, t: Task, s: Subtask, e: Element): (r: Row)
    ensures |r| == Width
  {
    [Some(h.wtg), Some(h.yearAnnualService), Some(h.beginningDate), Some(h.finishDate),
     Some(h.code), Some(h.rev), Some(h.date), Some(Signed(h.signatureSgre)),
     Some(Signed(h.signature)), Some(t.section), Some(s.name), Some(e.taskCode),
     Some(e.description), Some(e.status), Some(e.comment), Some(e.mors), Some(e.measurement),
     Some(e.unit), Some(e.min), Some(e.max), None, None, None]
  }

  function SubtaskRows(h: Header, t: Task, s: Subtask, es: Dict<string, Element>): seq<Row>
    decreases |es|
  {
    if |es| == 0 then []
    else SubtaskRows(h, t, s, es[..|es| - 1]) + [ElementRow(h, t, s, es[|es| - 1].1)]
  }

  function TaskRows(h: Header, t: Task, ss: Dict<string, Subtask>): seq<Row>
    decreases |ss|
  {
    if |ss| == 0 then []
    else TaskRows(h, t, ss[..|ss| - 1]) + SubtaskRows(h, t, ss[|ss| - 1].1, ss[|ss| - 1].1.elements)
  }

  /** All rows: section by section, sub-task by sub-task, element by element, in insertion
      order. */
  function AllRows(h: Header, ts: Dict<string, Task>): seq<Row>
    decreases |ts|
  {
    if |ts| == 0 then []
    else AllRows(h, ts[..|ts| - 1]) + TaskRows(h, ts[|ts| - 1].1, ts[|ts| - 1].1.subtasks)
  }

  /** The number of (section, sub-task, element) triples. */
  function TaskCount(ss: Dict<string, Subtask>): nat
    decreases |ss|
  {
    if |ss| == 0 then 0 else TaskCount(ss[..|ss| - 1]) + |ss[|ss| - 1].1.elements|
  }

  function TreeCount(ts: Dict<string, Task>): nat
    decreases |ts|
  {
    if |ts| == 0 then 0 else TreeCount(ts[..|ts| - 1]) + TaskCount(ts[|ts| - 1].1.subtasks)
  }

  predicate AllWide(rows: seq<Row>) {
    forall i :: 0 <= i < |rows| ==> |rows[i]| == Width
  }

  /** A sub-task gives one row per element, in order, each carrying that element. */
  lemma {:induction false} SubtaskRowsShape(h: Header, t: Task, s: Subtask, es: Dict<string, Element>)
    ensures |SubtaskRows(h, t, s, es)| == |es| && AllWide(SubtaskRows(h, t, s, es))
    ensures forall k :: 0 <= k < |es| ==> SubtaskRows(h, t, s, es)[k] == ElementRow(h, t, s, es[k].1)
    decreases |es|
  {
    if |es| > 0 {
      SubtaskRowsShape(h, t, s, es[..|es| - 1]);
    }
  }

  lemma {:induction false} TaskRowsShape(h: Header, t: Task, ss: Dict<string, Subtask>)
    ensures |TaskRows(h, t, ss)| == TaskCount(ss) && AllWide(TaskRows(h, t, ss))
    decreases |ss|
  {
    if |ss| > 0 {
      TaskRowsShape(h, t, ss[..|ss| - 1]);
      SubtaskRowsShape(h, t, ss[|ss| - 1].1, ss[|ss| - 1].1.elements);
    }
  }

  /** Every row has the 23 columns of the preventive sheet, and there is exactly one row per
      (section, sub-task, element) triple. */
  lemma {:induction false} AllRowsShape(h: Header, ts: Dict<string, Task>)
    ensures |AllRows(h, ts)| == TreeCount(ts) && AllWide(AllRows(h, ts))
    decreases |ts|
  {
    if |ts| > 0 {
      AllRowsShape(h, ts[..|ts| - 1]);
      TaskRowsShape(h, ts[|ts| - 1].1, ts[|ts| - 1].1.subtasks);
    }
  }

  /** The signature columns hold "OK" or "NO OK" and the last three cells are empty, on every
      row. */
  lemma {:induction false} RowsSignedAndPadded(h: Header, ts: Dict<string, Task>)
    ensures Padded(h, AllRows(h, ts))
    decreases |ts|
  {
    if |ts| > 0 {
      RowsSignedAndPadded(h, ts[..|ts| - 1]);
      TaskRowsPadded(h, ts[|ts| - 1].1, ts[|ts| - 1].1.subtasks);
    }
  }

  predicate Padded(h: Header, rows: seq<Row>) {
    forall i :: 0 <= i < |rows| ==>
      |rows[i]| == Width && rows[i][7] == Some(Signed(h.signatureSgre)) &&
      rows[i][8] == Some(Signed(h.signature)) && rows[i][20] == None && rows[i][21] == None &&
      rows[i][22] == None
  }

  lemma {:induction false} TaskRowsPadded(h: Header, t: Task, ss: Dict<string, Subtask>)
    ensures Padded(h, TaskRows(h, t, ss))
    decreases |ss|
  {
    if |ss| > 0 {
      var s := ss[|ss| - 1].1;
      TaskRowsPadded(h, t, ss[..|ss| - 1]);
      SubtaskRowsPadded(h, t, s, s.elements);
      PaddedAppend(h, TaskRows(h, t, ss[..|ss| - 1]), SubtaskRows(h, t, s, s.elements));
    }
  }

  lemma SubtaskRowsPadded(h: Header, t: Task, s: Subtask, es: Dict<string, Element>)
    ensures Padded(h, SubtaskRows(h, t, s, es))
  {
    SubtaskRowsShape(h, t, s, es);
  }

  lemma PaddedAppend(h: Header, a: seq<Row>, b: seq<Row>)
    requires Padded(h, a) && Padded(h, b)
    ensures Padded(h, a + b)
  {
    forall i | 0 <= i < |a + b|
      ensures (a + b)[i] == if i < |a| then a[i] else b[i - |a|]
    {
    }
  }

  /** The flattening loop of `_fill_dataframe`: for each section, for each of its sub-tasks,
      for each of their elements, one row. */
  method FillRows(h: Header, ts: Dict<string, Task>) returns (rows: seq<Row>)
    ensures rows == AllRows(h, ts)
  {
    rows := [];
    var i := 0;
    while i < |ts|
      invariant i <= |ts|
      invariant rows == AllRows(h, ts[..i])
    {
      assert ts[..i + 1][..i] == ts[..i];
      var more := FillTask(h, ts[i].1);
      rows := rows + more;
      i := i + 1;
    }
    assert ts[..i] == ts;
  }

  /** The rows of one section: its sub-tasks' rows in order. */
  method FillTask(h: Header, t: Task) returns (rows: seq<Row>)
    ensures rows == TaskRows(h, t, t.subtasks)
  {
    rows := [];
    var j := 0;
    while j < |t.subtasks|
      invariant j <= |t.subtasks|
      invariant rows == TaskRows(h, t, t.subtasks[..j])
    {
      assert t.subtasks[..j + 1][..j] == t.subtasks[..j];
      var more := FillSubtask(h, t, t.subtasks[j].1);
      rows := rows + more;
      j := j + 1;
    }
    assert t.subtasks[..j] == t.subtasks;
  }

  /** The rows of one sub-task: one per element, in order. */
  method FillSubtask(h: Header, t: Task, s: Subtask) returns (rows: seq<Row>)
    ensures rows == SubtaskRows(h, t, s, s.elements)
  {
    rows := [];
    var k := 0;
    while k < |s.elements|
      invariant k <= |s.elements|
      invariant rows == SubtaskRows(h, t, s, s.elements[..k])
    {
      assert s.elements[..k + 1][..k] == s.elements[..k];
      rows := rows + [ElementRow(h, t, s, s.elements[k].1)];
      k := k + 1;
    }
    assert s.elements[..k] == s.elements;
  }
}
