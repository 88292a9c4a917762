/** The result-bounding loop of the read-only executor. */
module SqlExecutor {

  datatype Cell = Text(s: string) | Other(repr: string)

  datatype RawLimits = Limits(maxResultRows: nat, maxResultBytes: nat, maxCellChars: nat)

  type Limits = l: RawLimits | l.maxResultRows > 0 && l.maxResultBytes > 0 && l.maxCellChars > 0
    witness Limits(1, 1, 1)

  type Row = seq<Cell>

  /** Over-long text is cut and marked with an ellipsis; nothing else is touched. */
  function BoundCell(limits: Limits, cell: Cell): (r: Cell)
    ensures r.Text? ==> |r.s| <= limits.maxCellChars + 1
  {
    if cell.Text? && |cell.s| > limits.maxCellChars then Text(cell.s[..limits.maxCellChars] + "\U{2026}") else cell
  }

  function BoundRow(limits: Limits, row: Row): (r: Row)
    ensures |r| == |row| && forall i :: 0 <= i < |row| ==> r[i] == BoundCell(limits, row[i])
  {
    seq(|row|, i requires 0 <= i < |row| => BoundCell(limits, row[i]))
  }

  function BoundRows(limits: Limits, rows: seq<Row>): (r: seq<Row>)
    ensures |r| == |rows| && forall i :: 0 <= i < |rows| ==> r[i] == BoundRow(limits, rows[i])
  {
    seq(|rows|, i requires 0 <= i < |rows| => BoundRow(limits, rows[i]))
  }

  /** `len(str(value).encode("utf-8"))`, for whatever encoder is in use. */
  function CellBytes(utf8: string -> nat, cell: Cell): nat {
    match cell
    case Text(s) => utf8(s)
    case Other(repr) => utf8(repr)
  }

  function RowBytes(utf8: string -> nat, row: Row): nat {
    if row == [] then 0 else RowBytes(utf8, row[..|row| - 1]) + CellBytes(utf8, row[|row| - 1])
  }

  function Bytes(utf8: string -> nat, rows: seq<Row>): nat {
    if rows == [] then 0 else Bytes(utf8, rows[..|rows| - 1]) + RowBytes(utf8, rows[|rows| - 1])
  }

  /** The first `k` rows of the query result fit both budgets. */
  predicate Fits(limits: Limits, utf8: string -> nat, result: seq<Row>, k: nat) {
    k <= |result| && k <= limits.maxResultRows && Bytes(utf8, BoundRows(limits, result[..k])) <= limits.maxResultBytes
  }

  lemma BoundPrefix(limits: Limits, rows: seq<Row>, k: nat)
    requires k <= |rows|
    ensures BoundRows(limits, rows[..k]) == BoundRows(limits, rows)[..k]
  {
  }

  lemma {:induction false} BytesMonotone(utf8: string -> nat, rows: seq<Row>, j: nat, k: nat)
    requires j <= k <= |rows|
    ensures Bytes(utf8, rows[..j]) <= Bytes(utf8, rows[..k])
  {
    if j < k {
      assert rows[..k][..k - 1] == rows[..k - 1];
      BytesMonotone(utf8, rows, j, k - 1);
    }
  }

  lemma {:induction false} RowBytesMonotone(utf8: string -> nat, row: Row, j: nat, k: nat)
    requires j <= k <= |row|
    ensures RowBytes(utf8, row[..j]) <= RowBytes(utf8, row[..k])
  {
    if j < k {
      assert row[..k][..k - 1] == row[..k - 1];
      RowBytesMonotone(utf8, row, j, k - 1);
    }
  }

  lemma BytesStep(utf8: string -> nat, rows: seq<Row>, k: nat)
    requires k < |rows|
    ensures Bytes(utf8, rows[..k + 1]) == Bytes(utf8, rows[..k]) + RowBytes(utf8, rows[k])
  {
    assert rows[..k + 1][..k] == rows[..k];
  }

  lemma TakeOneMore<T>(s: seq<T>, i: nat)
    requires i < |s|
    ensures s[..i] + [s[i]] == s[..i + 1]
  {
  }

  lemma RowBytesStep(utf8: string -> nat, row: Row, j: nat)
    requires j < |row|
    ensures RowBytes(utf8, row[..j + 1]) == RowBytes(utf8, row[..j]) + CellBytes(utf8, row[j])
  {
    assert row[..j + 1][..j] == row[..j];
  }

  /** The cells of one row, read until the running byte count bursts the budget. */
  method BoundOneRow(limits: Limits, utf8: string -> nat, row: Row, before: nat)
      returns (safeRow: Row, bytes: nat, fits: bool, read: nat)
    requires before <= limits.maxResultBytes
    ensures read <= |row| && bytes == before + RowBytes(utf8, BoundRow(limits, row)[..read])
    ensures fits <==> before + RowBytes(utf8, BoundRow(limits, row)) <= limits.maxResultBytes
    ensures fits ==> safeRow == BoundRow(limits, row) && bytes == before + RowBytes(utf8, safeRow)
    ensures !fits ==> bytes > limits.maxResultBytes
  {
    ghost var all := BoundRow(limits, row);
    safeRow, bytes, read := [], before, 0;
    while read < |row|
      invariant 0 <= read <= |row| && safeRow == all[..read]
      invariant bytes == before + RowBytes(utf8, safeRow) <= limits.maxResultBytes
    {
      var value := BoundCell(limits, row[read]);
      RowBytesStep(utf8, all, read);
      TakeOneMore(all, read);
      bytes := bytes + CellBytes(utf8, value);
      read := read + 1;
      if bytes > limits.maxResultBytes {
        RowBytesMonotone(utf8, all, read, |all|);
        assert all[..|all|] == all;
        fits := false;
        return;
      }
      safeRow := safeRow + [value];
    }
    assert safeRow == all;
    fits := true;
  }

  /** Bounding is maximal: the returned rows are the longest prefix of the cell-bounded
      result within the row cap and the byte budget, and `truncated` says exactly whether
      some row was left out. The byte counter may include the cell that overflowed. */
  method Execute(limits: Limits, utf8: string -> nat, result: seq<Row>)
      returns (rows: seq<Row>, truncated: bool, bytes: nat)
    ensures |rows| <= |result| && rows == BoundRows(limits, result[..|rows|])
    ensures Fits(limits, utf8, result, |rows|)
    ensures forall k: nat :: Fits(limits, utf8, result, k) ==> k <= |rows|
    ensures truncated <==> |rows| < |result|
    ensures Bytes(utf8, rows) <= bytes && (Bytes(utf8, rows) < bytes ==> truncated)
  {
    var fetched := if |result| <= limits.maxResultRows + 1 then result else result[..limits.maxResultRows + 1];
    truncated := |fetched| > limits.maxResultRows;
    var kept := if truncated then fetched[..limits.maxResultRows] else fetched;
    assert kept == result[..|kept|];
    ghost var all := BoundRows(limits, result);
    rows, bytes := [], 0;
    var i := 0;
    while i < |kept|
      invariant 0 <= i <= |kept| && |rows| == i && rows == all[..i]
      invariant bytes == Bytes(utf8, rows) <= limits.maxResultBytes
    {
      var safeRow, total, fits, read := BoundOneRow(limits, utf8, kept[i], bytes);
      bytes := total;
      if !fits {
        truncated := true;
        OverBudget(limits, utf8, result, i, read);
        return;
      }
      BytesStep(utf8, all, i);
      TakeOneMore(all, i);
      rows := rows + [safeRow];
      i := i + 1;
    }
    WholeFits(limits, utf8, result, i);
  }

  /** Nothing longer than the row cap or the result itself can fit. */
  lemma WholeFits(limits: Limits, utf8: string -> nat, result: seq<Row>, n: nat)
    requires n <= |result| && (n == |result| || n == limits.maxResultRows)
    requires Bytes(utf8, BoundRows(limits, result)[..n]) <= limits.maxResultBytes
    ensures BoundRows(limits, result)[..n] == BoundRows(limits, result[..n])
    ensures forall k: nat :: Fits(limits, utf8, result, k) ==> k <= n
  {
    BoundPrefix(limits, result, n);
  }

  /** Once the cells read so far burst the budget, no longer prefix can fit. */
  lemma OverBudget(limits: Limits, utf8: string -> nat, result: seq<Row>, i: nat, j: nat)
    requires i < |result| && j <= |BoundRow(limits, result[i])|
    requires Bytes(utf8, BoundRows(limits, result)[..i]) + RowBytes(utf8, BoundRow(limits, result[i])[..j])
             > limits.maxResultBytes
    ensures BoundRows(limits, result)[..i] == BoundRows(limits, result[..i])
    ensures forall k: nat :: Fits(limits, utf8, result, k) ==> k <= i
  {
    var all := BoundRows(limits, result);
    BoundPrefix(limits, result, i);
    forall k: nat | i < k <= |result|
      ensures Bytes(utf8, BoundRows(limits, result[..k])) > limits.maxResultBytes
    {
      BoundPrefix(limits, result, k);
      BytesMonotone(utf8, all, i + 1, k);
      BytesStep(utf8, all, i);
      RowBytesMonotone(utf8, all[i], j, |all[i]|);
      assert all[i][..|all[i]|] == all[i];
    }
  }
}
