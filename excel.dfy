/** `ExcelUtils.resolve_excel_cell`: a spreadsheet reference such as `B4` as (column, row). */
module Excel {
  import opened PyStr

  datatype CellPos = CellPos(col: int, row: int)

  /** The accumulators after reading `s`: a letter shifts the column one base-26 digit, a digit
      shifts the row one decimal digit, anything else is skipped. */
  function CellRef(s: string): CellPos
    decreases |s|
  {
    if |s| == 0 then CellPos(0, 0)
    else
      var acc := CellRef(s[..|s| - 1]);
      var c := s[|s| - 1];
      if IsAlpha(c) then acc.(col := acc.col * 26 + (c as int - 'A' as int) + 1)
      else if IsDigit(c) then acc.(row := acc.row * 10 + DigitValue(c))
      else acc
  }

  /** `resolve_excel_cell(cell)`. */
  method ResolveExcelCell(cell: string) returns (col: int, row: int)
    ensures CellPos(col, row) == CellRef(cell)
  {
    col, row := 0, 0;
    var i := 0;
    while i < |cell|
      invariant i <= |cell|
      invariant CellPos(col, row) == CellRef(cell[..i])
    {
      var c := cell[i];
      assert cell[..i + 1][..i] == cell[..i];
      if IsAlpha(c) {
        col := col * 26 + (c as int - 'A' as int) + 1;
      }
      if IsDigit(c) {
        row := row * 10 + DigitValue(c);
      }
      i := i + 1;
    }
    assert cell[..i] == cell;
  }

  /** The column letters of column `n` (1 is `A`, 26 is `Z`, 27 is `AA`). */
  function ColumnName(n: nat): (r: string)
    requires n >= 1
    ensures |r| > 0 && forall k :: 0 <= k < |r| ==> IsUpperLetter(r[k])
    decreases n
  {
    var d := ('A' as int + (n - 1) % 26) as char;
    if n <= 26 then [d] else ColumnName((n - 1) / 26) + [d]
  }

  /** Reading the letters of a column gives its number and leaves the row at 0. */
  lemma {:induction false} ColumnNameValue(n: nat)
    requires n >= 1
    ensures CellRef(ColumnName(n)) == CellPos(n, 0)
    decreases n
  {
    var r := ColumnName(n);
    if n > 26 {
      ColumnNameValue((n - 1) / 26);
      assert r[..|r| - 1] == ColumnName((n - 1) / 26);
    } else {
      assert r[..0] == [];
    }
  }

  /** Digits read after a prefix that left the row at 0 set the row to their value and leave
      the column alone. */
  lemma {:induction false} DigitsAfter(a: string, d: string)
    requires CellRef(a).row == 0
    requires forall k :: 0 <= k < |d| ==> IsDigit(d[k])
    ensures CellRef(a + d) == CellPos(CellRef(a).col, DigitsValue(d))
    decreases |d|
  {
    if |d| == 0 {
      assert a + d == a;
    } else {
      var init := d[..|d| - 1];
      DigitsAfter(a, init);
      assert (a + d)[..|a + d| - 1] == a + init;
    }
  }

  /** Resolving the reference written from a column number and a row number gives them back:
      `resolve_excel_cell("B4") == (2, 4)` is the instance `(2, 4)`. */
  lemma CellRefRoundTrip(col: nat, row: nat)
    requires col >= 1
    ensures CellRef(ColumnName(col) + NatToString(row)) == CellPos(col, row)
  {
    ColumnNameValue(col);
    DigitsAfter(ColumnName(col), NatToString(row));
    NatToStringValue(row);
  }

  lemma B4()
    ensures CellRef("B4") == CellPos(2, 4)
  {
    CellRefRoundTrip(2, 4);
  }
}
