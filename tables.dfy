/**
 * The in-memory table the CBC pipeline works on (a pandas DataFrame).
 * A table is column-major: `names[j]` labels the column `cols[j]`, and every
 * column holds `height` cells. A cell is a number, a piece of text, or
 * missing (NaN / None).
 */
module Tables {
  import opened Wrappers

  datatype Cell = Num(x: real) | Text(s: string) | Missing

  /** The exceptions the pipeline raises, by class, each with its message. */
  datatype Failure =
    | ValueError(msg: string)
    | FileNotFound(msg: string)
    | RuntimeError(msg: string)
    | OtherError(msg: string)

  datatype Table = Table(names: seq<string>, cols: seq<seq<Cell>>, height: nat)

  predicate WellFormed(t: Table) {
    |t.names| == |t.cols| && forall j :: 0 <= j < |t.cols| ==> |t.cols[j]| == t.height
  }

  /** DataFrame.empty: no rows or no columns. */
  predicate IsEmpty(t: Table) {
    t.height == 0 || |t.names| == 0
  }

  /** A column has pandas' object dtype when it holds some text. */
  predicate IsTextColumn(col: seq<Cell>) {
    exists c :: c in col && c.Text?
  }

  /** Position of the first column labelled `name`. */
  function ColumnIndex(names: seq<string>, name: string): (r: Option<nat>)
    ensures r.Some? ==> r.value < |names| && names[r.value] == name && name !in names[..r.value]
    ensures r.None? <==> name !in names
  {
    if names == [] then None
    else if names[0] == name then Some(0)
    else match ColumnIndex(names[1..], name)
      case Some(i) => Some(i + 1)
      case None => None
  }

  /** One row of a table, with the table's column labels. */
  datatype Row = Row(names: seq<string>, cells: seq<Cell>)

  function RowAt(t: Table, i: nat): (r: Row)
    requires WellFormed(t) && i < t.height
    ensures |r.cells| == |r.names| == |t.names|
    ensures forall j :: 0 <= j < |t.names| ==> r.cells[j] == t.cols[j][i]
  {
    Row(t.names, seq(|t.names|, j requires 0 <= j < |t.names| => t.cols[j][i]))
  }

  /** row.get(name): the cell under the first column labelled `name`. */
  function Get(row: Row, name: string): (r: Option<Cell>)
    requires |row.cells| == |row.names|
    ensures r.None? <==> name !in row.names
  {
    match ColumnIndex(row.names, name)
    case Some(j) => Some(row.cells[j])
    case None => None
  }

  /** row[name] = c: overwrite the first column labelled `name`, or append one. */
  function SetCell(row: Row, name: string, c: Cell): (r: Row)
    requires |row.cells| == |row.names|
    ensures |r.cells| == |r.names|
    ensures Get(r, name) == Some(c)
  {
    match ColumnIndex(row.names, name)
    case Some(j) => Row(row.names, row.cells[j := c])
    case None => Row(row.names + [name], row.cells + [c])
  }

  /** df[name] = col: overwrite the first column labelled `name`, or append one. */
  function SetColumn(t: Table, name: string, col: seq<Cell>): (r: Table)
    requires WellFormed(t) && |col| == t.height
    ensures WellFormed(r) && r.height == t.height
    ensures name in r.names
    ensures name in t.names ==> r.names == t.names
    ensures name !in t.names ==> r.names == t.names + [name]
    ensures ColumnIndex(r.names, name).Some? && r.cols[ColumnIndex(r.names, name).value] == col
    ensures forall j :: 0 <= j < |t.names| && t.names[j] != name ==> r.cols[j] == t.cols[j]
  {
    match ColumnIndex(t.names, name)
    case Some(j) => Table(t.names, t.cols[j := col], t.height)
    case None =>
      var r := Table(t.names + [name], t.cols + [col], t.height);
      assert ColumnIndex(r.names, name) == Some(|t.names|) by {
        assert r.names[..|t.names|] == t.names;
      }
      r
  }
}
