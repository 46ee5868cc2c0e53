/**
 * The spreadsheet variant's table: a pandas DataFrame loaded from the Excel
 * file, with the selections the routes make on it. A cell a row does not hold
 * reads as missing (NaN), as in a frame every row has every column.
 */
module Frames {
  import opened Wrappers
  import opened Text
  import opened Cells

  /** The column names of the sheet and its rows; each row's `player` column is held in its Record. */
  datatype Frame = Frame(columns: seq<string>, rows: seq<Record>)

  /**
   * `df[df['player'] == name].iloc[0]`: the first row of the player, or None
   * where `.iloc[0]` raises IndexError on an empty selection.
   */
  function FirstRowOf(rows: seq<Record>, name: string): (r: Option<Record>)
    ensures r.None? <==> forall i | 0 <= i < |rows| :: rows[i].player != name
    ensures r.Some? ==> exists k | 0 <= k < |rows| :: rows[k] == r.value && r.value.player == name &&
                          forall j | 0 <= j < k :: rows[j].player != name
  {
    if rows == [] then None
    else if rows[0].player == name then Some(rows[0])
    else
      var r := FirstRowOf(rows[1..], name);
      assert forall i | 1 <= i < |rows| :: rows[i] == rows[1..][i - 1];
      r
  }

  /** `.str.contains('MF', na=False)` on a `pos_` cell: only text containing "MF" matches. */
  predicate IsMidfielder(c: Cell) {
    c.Text? && Contains(c.text, "MF")
  }

  /** The rows whose `pos_` cell matches, in order. */
  function MidfielderRows(rows: seq<Record>): (r: seq<Record>)
    ensures forall i | 0 <= i < |r| :: r[i] in rows && IsMidfielder(Get(r[i].cells, "pos_"))
    ensures forall i | 0 <= i < |rows| :: IsMidfielder(Get(rows[i].cells, "pos_")) ==> rows[i] in r
  {
    if rows == [] then []
    else
      var p := rows[..|rows| - 1];
      var x := rows[|rows| - 1];
      assert forall i | 0 <= i < |p| :: p[i] == rows[i];
      if IsMidfielder(Get(x.cells, "pos_")) then MidfielderRows(p) + [x] else MidfielderRows(p)
  }

  /**
   * The selection over two runs of rows is the first run's followed by the
   * second's: rows keep their order and each matching row appears once.
   */
  lemma {:induction false} MidfielderRowsAppend(a: seq<Record>, b: seq<Record>)
    ensures MidfielderRows(a + b) == MidfielderRows(a) + MidfielderRows(b)
  {
    if b == [] {
      assert a + b == a;
    } else {
      var q := b[..|b| - 1];
      assert (a + b)[..|a + b| - 1] == a + q;
      assert (a + b)[|a + b| - 1] == b[|b| - 1];
      MidfielderRowsAppend(a, q);
    }
  }

  /** One row is kept exactly when its `pos_` cell matches. */
  lemma MidfielderRowsOne(x: Record)
    ensures MidfielderRows([x]) == if IsMidfielder(Get(x.cells, "pos_")) then [x] else []
  {
    assert [x][..0] == [];
  }

  /**
   * `df[df['pos_'].str.contains('MF', na=False)]`, which raises KeyError when
   * the sheet has no `pos_` column; otherwise it keeps exactly the matching rows.
   */
  function Midfielders(f: Frame): (r: Result<seq<Record>, Error>)
    ensures r.Failure? <==> "pos_" !in f.columns
    ensures r.Failure? ==> r.error == KeyError("pos_")
    ensures r.Success? ==> forall i | 0 <= i < |r.value| :: r.value[i] in f.rows && IsMidfielder(Get(r.value[i].cells, "pos_"))
    ensures r.Success? ==> forall i | 0 <= i < |f.rows| :: IsMidfielder(Get(f.rows[i].cells, "pos_")) ==> f.rows[i] in r.value
  {
    if "pos_" !in f.columns then Failure(KeyError("pos_")) else Success(MidfielderRows(f.rows))
  }

  /**
   * The non-missing cells of a column over the given rows, in order (what
   * pandas' reductions skip to): every one comes from a row, and every
   * non-missing cell of a row is among them.
   */
  function ColumnValues(rows: seq<Record>, column: string): (r: seq<Cell>)
    ensures forall i | 0 <= i < |r| :: r[i] != Null
    ensures r == [] <==> forall i | 0 <= i < |rows| :: Get(rows[i].cells, column) == Null
    ensures forall i | 0 <= i < |r| :: exists k | 0 <= k < |rows| :: Get(rows[k].cells, column) == r[i]
    ensures forall k | 0 <= k < |rows| :: Get(rows[k].cells, column) != Null ==> Get(rows[k].cells, column) in r
  {
    if rows == [] then []
    else
      var p := rows[..|rows| - 1];
      var c := Get(rows[|rows| - 1].cells, column);
      var q := ColumnValues(p, column);
      assert forall i | 0 <= i < |p| :: p[i] == rows[i];
      if c == Null then q else q + [c]
  }

  /**
   * The values over two runs of rows are the first run's followed by the
   * second's: each row contributes its own cell once, in row order.
   */
  lemma {:induction false} ColumnValuesAppend(a: seq<Record>, b: seq<Record>, column: string)
    ensures ColumnValues(a + b, column) == ColumnValues(a, column) + ColumnValues(b, column)
  {
    if b == [] {
      assert a + b == a;
    } else {
      var q := b[..|b| - 1];
      assert (a + b)[..|a + b| - 1] == a + q;
      assert (a + b)[|a + b| - 1] == b[|b| - 1];
      ColumnValuesAppend(a, q, column);
    }
  }

  /** One row contributes its cell when it is not missing, and nothing otherwise. */
  lemma ColumnValuesOne(x: Record, column: string)
    ensures ColumnValues([x], column) == if Get(x.cells, column) == Null then [] else [Get(x.cells, column)]
  {
    assert [x][..0] == [];
  }
}
