/**
 The on-screen spreadsheet (components/SpreadsheetView.tsx): a placeholder
 when there are no rows, otherwise a header of `#`, `Timestamp` and the
 columns, and one line per row labelled with its ordinal.
 */
module Table {
  import opened Values
  import opened StringOrder
  import Columns
  import CsvWriter

  /** One table line: its `#` number, the row's timestamp, the shown cells. */
  datatype TableRow = TableRow(number: int, timestamp: string, cells: seq<string>)

  datatype View = Placeholder | Grid(header: seq<string>, body: seq<TableRow>)

  /** What a cell shows: `-` for a missing or null value (missing: the
      record has no own property of that name), `TRUE`/`FALSE` for a
      boolean, otherwise `String(value)`. */
  function DisplayCell(data: FlatRecord, key: string): string
  {
    if key !in data || data[key] == Null then "-"
    else match data[key]
      case Boolean(b) => if b then "TRUE" else "FALSE"
      case v => ToText(v)
  }

  function DisplayCells(data: FlatRecord, keys: seq<string>): (r: seq<string>)
    ensures |r| == |keys|
    ensures forall j :: 0 <= j < |keys| ==> r[j] == DisplayCell(data, keys[j])
  {
    if |keys| == 0 then [] else [DisplayCell(data, keys[0])] + DisplayCells(data, keys[1..])
  }

  /** The `#` label of the row at `index` in a store of `count` rows. */
  function RowLabel(count: nat, index: nat): int
  {
    count - index
  }

  function Body(rows: seq<ProcessedRow>, keys: seq<string>, count: nat): (r: seq<TableRow>)
    requires |rows| <= count
    ensures |r| == |rows|
    ensures forall i :: 0 <= i < |rows| ==>
      r[i] == TableRow(RowLabel(count, count - |rows| + i), rows[i].timestamp, DisplayCells(rows[i].data, keys))
  {
    if |rows| == 0 then []
    else
      var line := TableRow(RowLabel(count, count - |rows|), rows[0].timestamp, DisplayCells(rows[0].data, keys));
      [line] + Body(rows[1..], keys, count)
  }

  /** The spreadsheet for the rows, with `keys` the sorted column union. */
  function Render(rows: seq<ProcessedRow>, keys: seq<string>): (v: View)
    requires StrictlySorted(keys) && Elems(keys) == Columns.ColumnUnion(rows)
    ensures v.Placeholder? <==> |rows| == 0
    ensures v.Grid? ==> v.header == ["#", "Timestamp"] + keys && |v.body| == |rows|
    ensures v.Grid? ==> forall i :: 0 <= i < |rows| ==> |v.body[i].cells| == |keys|
  {
    if |rows| == 0 then Placeholder
    else Grid(["#", "Timestamp"] + keys, Body(rows, keys, |rows|))
  }

  /** The labels count down from the number of rows to 1: the newest row
      (first) carries the highest label, the oldest carries 1, and no two
      rows share a label. */
  lemma RowLabels(rows: seq<ProcessedRow>, keys: seq<string>)
    requires StrictlySorted(keys) && Elems(keys) == Columns.ColumnUnion(rows)
    requires |rows| > 0
    ensures var body := Render(rows, keys).body;
      && body[0].number == |rows|
      && body[|rows| - 1].number == 1
      && (forall i :: 0 <= i < |rows| ==> 1 <= body[i].number <= |rows|)
      && (forall i, j :: 0 <= i < j < |rows| ==> body[i].number > body[j].number)
  {
  }

  /** A row keeps its label when a newer row is prepended: labels number rows
      in arrival order, and the new row gets the next number. */
  lemma LabelStableOnPrepend(row: ProcessedRow, rows: seq<ProcessedRow>, keys: seq<string>, keys': seq<string>)
    requires StrictlySorted(keys) && Elems(keys) == Columns.ColumnUnion(rows)
    requires StrictlySorted(keys') && Elems(keys') == Columns.ColumnUnion([row] + rows)
    ensures Render([row] + rows, keys').body[0].number == |rows| + 1
    ensures forall i :: 0 <= i < |rows| ==>
      Render([row] + rows, keys').body[i + 1].number == Render(rows, keys).body[i].number
  {
  }

  /** The table and the export show the same text except for booleans
      (`TRUE`/`FALSE` on screen, `true`/`false` in the file) and missing or
      null values (`-` on screen, an empty field in the file). */
  lemma DisplayVersusExport(data: FlatRecord, key: string)
    ensures key !in data || data[key] == Null ==>
      DisplayCell(data, key) == "-" && CsvWriter.CellText(data, key) == ""
    ensures key in data && data[key].Boolean? ==>
      DisplayCell(data, key) == (if data[key].b then "TRUE" else "FALSE") &&
      CsvWriter.CellText(data, key) == (if data[key].b then "true" else "false")
    ensures key in data && (data[key].Text? || data[key].Number?) ==>
      DisplayCell(data, key) == CsvWriter.CellText(data, key)
  {
  }
}
