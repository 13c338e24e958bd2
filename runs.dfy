/** Grouping a sequence into rows: an element joins the last row when it is related to that
    row's first element, and opens a new row otherwise. */
module Runs {
  import opened Outcomes
  import opened Seqs

  /** The row `next(lines_iter, None)` gives at position `k`; past the end it is `None`, and the
      `len(line)` that follows raises `TypeError`. */
  function RowAt<T>(rows: seq<T>, k: nat): (r: Result<T>)
    ensures r.Ok? <==> k < |rows|
    ensures r.Ok? ==> r.value == rows[k]
    ensures r.Err? ==> r.error == TypeError
  {
    if k < |rows| then Ok(rows[k]) else Err(TypeError)
  }

  /** The rows built so far from `s`. */
  function RunsOf<T>(s: seq<T>, joins: (T, T) -> bool): (rows: seq<seq<T>>)
    ensures |s| > 0 <==> |rows| > 0
    ensures forall i :: 0 <= i < |rows| ==> |rows[i]| > 0
    decreases |s|
  {
    if |s| == 0 then []
    else
      var rows := RunsOf(s[..|s| - 1], joins);
      var x := s[|s| - 1];
      if |rows| > 0 && joins(rows[|rows| - 1][0], x) then
        rows[..|rows| - 1] + [rows[|rows| - 1] + [x]]
      else
        rows + [[x]]
  }

  /** Nothing is lost, duplicated or reordered: the rows concatenate back to `s`. */
  lemma {:induction false} RunsFlatten<T>(s: seq<T>, joins: (T, T) -> bool)
    ensures Flatten(RunsOf(s, joins)) == s
    decreases |s|
  {
    if |s| > 0 {
      var rows := RunsOf(s[..|s| - 1], joins);
      RunsFlatten(s[..|s| - 1], joins);
      var x := s[|s| - 1];
      assert s == s[..|s| - 1] + [x];
      if |rows| > 0 && joins(rows[|rows| - 1][0], x) {
        var init := rows[..|rows| - 1];
        assert rows == init + [rows[|rows| - 1]];
        FlattenSnoc(init, rows[|rows| - 1]);
        FlattenSnoc(init, rows[|rows| - 1] + [x]);
      } else {
        FlattenSnoc(rows, [x]);
      }
    }
  }

  /** Every element of a row is related to the row's first element. */
  predicate RowsJoined<T>(rows: seq<seq<T>>, joins: (T, T) -> bool) {
    forall i, k :: 0 <= i < |rows| && 0 < k < |rows[i]| ==> joins(rows[i][0], rows[i][k])
  }

  /** The first element of each row is unrelated to the first element of the row before it. */
  predicate RowsSplit<T>(rows: seq<seq<T>>, joins: (T, T) -> bool)
    requires forall i :: 0 <= i < |rows| ==> |rows[i]| > 0
  {
    forall i :: 0 < i < |rows| ==> !joins(rows[i - 1][0], rows[i][0])
  }

  /** Each row is a maximal run of elements related to its first element. */
  lemma {:induction false} RunsJoin<T>(s: seq<T>, joins: (T, T) -> bool)
    ensures RowsJoined(RunsOf(s, joins), joins) && RowsSplit(RunsOf(s, joins), joins)
    decreases |s|
  {
    if |s| > 0 {
      var rows := RunsOf(s[..|s| - 1], joins);
      RunsJoin(s[..|s| - 1], joins);
      var x := s[|s| - 1];
      if |rows| > 0 && joins(rows[|rows| - 1][0], x) {
        JoinStep(rows, x, joins, RunsOf(s, joins));
      } else {
        NewRowStep(rows, x, joins, RunsOf(s, joins));
      }
    }
  }

  /** An element related to the last row's first element extends that row. */
  lemma JoinStep<T>(rows: seq<seq<T>>, x: T, joins: (T, T) -> bool, r: seq<seq<T>>)
    requires forall i :: 0 <= i < |rows| ==> |rows[i]| > 0
    requires RowsJoined(rows, joins) && RowsSplit(rows, joins)
    requires |rows| > 0 && joins(rows[|rows| - 1][0], x)
    requires r == rows[..|rows| - 1] + [rows[|rows| - 1] + [x]]
    ensures forall i :: 0 <= i < |r| ==> |r[i]| > 0
    ensures RowsJoined(r, joins) && RowsSplit(r, joins)
  {
    var n := |rows| - 1;
    forall i, k | 0 <= i < |r| && 0 < k < |r[i]|
      ensures joins(r[i][0], r[i][k])
    {
      if i < n {
        assert r[i] == rows[i];
        assert joins(rows[i][0], rows[i][k]);
      } else if k < |rows[n]| {
        assert r[i][k] == rows[n][k] && r[i][0] == rows[n][0];
        assert joins(rows[n][0], rows[n][k]);
      }
    }
    forall i | 0 < i < |r|
      ensures !joins(r[i - 1][0], r[i][0])
    {
      assert r[i - 1][0] == rows[i - 1][0] && r[i][0] == rows[i][0];
      assert !joins(rows[i - 1][0], rows[i][0]);
    }
  }

  /** Any other element opens a row of its own. */
  lemma NewRowStep<T>(rows: seq<seq<T>>, x: T, joins: (T, T) -> bool, r: seq<seq<T>>)
    requires forall i :: 0 <= i < |rows| ==> |rows[i]| > 0
    requires RowsJoined(rows, joins) && RowsSplit(rows, joins)
    requires !(|rows| > 0 && joins(rows[|rows| - 1][0], x))
    requires r == rows + [[x]]
    ensures forall i :: 0 <= i < |r| ==> |r[i]| > 0
    ensures RowsJoined(r, joins) && RowsSplit(r, joins)
  {
    forall i, k | 0 <= i < |r| && 0 < k < |r[i]|
      ensures joins(r[i][0], r[i][k])
    {
      assert r[i] == rows[i];
      assert joins(rows[i][0], rows[i][k]);
    }
    forall i | 0 < i < |r|
      ensures !joins(r[i - 1][0], r[i][0])
    {
      if i < |rows| {
        assert !joins(rows[i - 1][0], rows[i][0]);
      }
    }
  }

  lemma FlattenSnoc<T>(ss: seq<seq<T>>, x: seq<T>)
    ensures Flatten(ss + [x]) == Flatten(ss) + x
  {
    assert (ss + [x])[..|ss|] == ss;
  }

  /** The grouping loop `for x in s: if rows and joins(rows[-1][0], x): rows[-1].append(x)
      else: rows.append([x])`. */
  method GroupRuns<T>(s: seq<T>, joins: (T, T) -> bool) returns (rows: seq<seq<T>>)
    ensures rows == RunsOf(s, joins)
  {
    rows := [];
    var i := 0;
    while i < |s|
      invariant i <= |s|
      invariant rows == RunsOf(s[..i], joins)
    {
      assert s[..i + 1][..i] == s[..i];
      var x := s[i];
      if |rows| > 0 && joins(rows[|rows| - 1][0], x) {
        rows := rows[..|rows| - 1] + [rows[|rows| - 1] + [x]];
      } else {
        rows := rows + [[x]];
      }
      i := i + 1;
    }
    assert s[..i] == s;
  }

  /** Grouping by an equivalence on a key: each row is a maximal run of equal keys, and with keys
      in order the rows' keys strictly increase. */
  lemma RunsOfEqualKeys<T>(s: seq<T>, key: T -> real, joins: (T, T) -> bool)
    requires forall i, j :: 0 <= i < j < |s| ==> key(s[i]) <= key(s[j])
    requires forall a, b :: joins(a, b) <==> key(a) == key(b)
    ensures var rows := RunsOf(s, joins);
      forall i :: 0 < i < |rows| ==> key(rows[i - 1][0]) < key(rows[i][0])
  {
    var rows := RunsOf(s, joins);
    RunsFlatten(s, joins);
    RunsJoin(s, joins);
    forall i | 0 < i < |rows|
      ensures key(rows[i - 1][0]) < key(rows[i][0])
    {
      var a, b := rows[i - 1][0], rows[i][0];
      RowStartsOrdered(rows, key, i);
      assert !joins(a, b);
      KeysDiffer(key, joins, a, b);
    }
  }

  lemma KeysDiffer<T>(key: T -> real, joins: (T, T) -> bool, a: T, b: T)
    requires forall a, b :: joins(a, b) <==> key(a) == key(b)
    requires !joins(a, b)
    ensures key(a) != key(b)
  {
  }

  /** With keys in order along the flattened rows, the first element of a row has a key no
      smaller than that of the row before it. */
  lemma RowStartsOrdered<T>(rows: seq<seq<T>>, key: T -> real, i: nat)
    requires 0 < i < |rows|
    requires forall j :: 0 <= j < |rows| ==> |rows[j]| > 0
    requires forall p, q :: 0 <= p < q < |Flatten(rows)| ==> key(Flatten(rows)[p]) <= key(Flatten(rows)[q])
    ensures key(rows[i - 1][0]) <= key(rows[i][0])
  {
    FlattenAt(rows, i - 1, 0);
    FlattenAt(rows, i, 0);
    StartsBefore(rows, i - 1, i);
  }

  /** Where row `i` starts in the flattened sequence. */
  function Start<T>(rows: seq<seq<T>>, i: nat): nat
    requires i <= |rows|
  {
    |Flatten(rows[..i])|
  }

  lemma {:induction false} FlattenAt<T>(rows: seq<seq<T>>, i: nat, k: nat)
    requires i < |rows| && k < |rows[i]|
    ensures Start(rows, i) + k < |Flatten(rows)|
    ensures Flatten(rows)[Start(rows, i) + k] == rows[i][k]
    decreases |rows|
  {
    var n := |rows|;
    var init := rows[..n - 1];
    assert rows == init + [rows[n - 1]];
    FlattenSnoc(init, rows[n - 1]);
    if i == n - 1 {
      assert rows[..i] == init;
    } else {
      FlattenAt(init, i, k);
      assert init[..i] == rows[..i];
    }
  }

  /** A row ends no later than where any later row starts. */
  lemma StartsBefore<T>(rows: seq<seq<T>>, j: nat, i: nat)
    requires j < i <= |rows|
    ensures Start(rows, j) + |rows[j]| <= Start(rows, i)
  {
    StartMono(rows, j + 1, i);
    assert rows[..j + 1] == rows[..j] + [rows[j]];
    FlattenSnoc(rows[..j], rows[j]);
  }

  lemma {:induction false} StartMono<T>(rows: seq<seq<T>>, a: nat, b: nat)
    requires a <= b <= |rows|
    ensures Start(rows, a) <= Start(rows, b)
    decreases b - a
  {
    if a < b {
      StartMono(rows, a, b - 1);
      assert rows[..b] == rows[..b - 1] + [rows[b - 1]];
      FlattenSnoc(rows[..b - 1], rows[b - 1]);
    }
  }
}
