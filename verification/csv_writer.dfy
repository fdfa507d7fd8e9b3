/**
 The CSV export of the spreadsheet (components/SpreadsheetView.tsx,
 `handleExportCSV`): an unquoted header line, then one line per row with
 every cell wrapped in double quotes, lines joined by '\n'.
 */
module CsvWriter {
  import opened Wrappers
  import opened Values
  import opened Strings
  import opened StringOrder
  import Columns

  /** Doubles every double quote (rule 7 of section 2 of RFC 4180). */
  function Escape(s: string): (r: string)
    ensures |r| == |s| + CountQuotes(s)
    ensures '"' !in s ==> r == s
  {
    if |s| == 0 then ""
    else if s[0] == '"' then "\"\"" + Escape(s[1..])
    else [s[0]] + Escape(s[1..])
  }

  /** Escaping works character by character. */
  lemma {:induction false} EscapeAppend(a: string, b: string)
    ensures Escape(a + b) == Escape(a) + Escape(b)
  {
    if |a| == 0 {
      assert a + b == b;
    } else {
      var head := EscapeFirst(a, b);
      EscapeAppend(a[1..], b);
      AppendAssociative(head, Escape(a[1..]), Escape(b));
    }
  }

  lemma AppendAssociative(x: string, y: string, z: string)
    ensures x + (y + z) == (x + y) + z
  {
  }

  /** The first character of a non-empty text is escaped on its own, whatever follows it. */
  lemma EscapeFirst(a: string, b: string) returns (head: string)
    requires |a| > 0
    ensures Escape(a) == head + Escape(a[1..])
    ensures Escape(a + b) == head + Escape(a[1..] + b)
  {
    head := if a[0] == '"' then "\"\"" else [a[0]];
    assert (a + b)[0] == a[0] && (a + b)[1..] == a[1..] + b;
  }

  function CountQuotes(s: string): nat
  {
    if |s| == 0 then 0 else (if s[0] == '"' then 1 else 0) + CountQuotes(s[1..])
  }

  /** Wraps text in double quotes without escaping it: how the timestamp and
      id cells are written. */
  function Wrap(s: string): string
  {
    "\"" + s + "\""
  }

  /** An escaped, quoted field (rules 5 and 7 of section 2 of RFC 4180). */
  function Quote(s: string): string
  {
    Wrap(Escape(s))
  }

  /** The text a data cell stands for: empty when the record has no own
      property of that name (`undefined`) or holds null, otherwise
      `String(val)`. */
  function CellText(data: FlatRecord, key: string): string
  {
    if key !in data || data[key] == Null then "" else ToText(data[key])
  }

  function ExportCell(data: FlatRecord, key: string): (r: string)
    ensures key !in data || data[key] == Null ==> r == "\"\""
  {
    Quote(CellText(data, key))
  }

  /** One exported cell per column, in column order. */
  function ExportCells(data: FlatRecord, keys: seq<string>): (r: seq<string>)
    ensures |r| == |keys|
    ensures forall j :: 0 <= j < |keys| ==> r[j] == Quote(CellText(data, keys[j]))
  {
    if |keys| == 0 then [] else [ExportCell(data, keys[0])] + ExportCells(data, keys[1..])
  }

  /** The texts of a row's cells: timestamp, id, then one per column. */
  function RowFields(row: ProcessedRow, keys: seq<string>): (r: seq<string>)
    ensures |r| == 2 + |keys|
  {
    [row.timestamp, row.id] + seq(|keys|, j requires 0 <= j < |keys| => CellText(row.data, keys[j]))
  }

  const HeaderPrefix: seq<string> := ["Timestamp", "ID"]

  /** The header line: the fixed columns and then the keys, comma-joined and
      not quoted. */
  function Header(keys: seq<string>): string
  {
    Join(",", HeaderPrefix + keys)
  }

  /** The header is the literal `Timestamp,ID` followed by a comma and the
      name of each column in turn: one header cell per column, no quoting. */
  lemma HeaderShape(keys: seq<string>)
    ensures Header(keys) == "Timestamp,ID" + JoinTail(",", keys)
  {
    JoinCons(",", "Timestamp", ["ID"] + keys);
    assert HeaderPrefix + keys == ["Timestamp"] + (["ID"] + keys);
    assert (["ID"] + keys)[1..] == keys;
    assert "Timestamp" + ("," + "ID") == "Timestamp,ID";
  }

  function DataCells(row: ProcessedRow, keys: seq<string>): (r: seq<string>)
    ensures |r| == 2 + |keys|
    ensures r[0] == Wrap(row.timestamp) && r[1] == Wrap(row.id)
    ensures forall j :: 0 <= j < |keys| ==> r[2 + j] == Quote(CellText(row.data, keys[j]))
  {
    [Wrap(row.timestamp), Wrap(row.id)] + ExportCells(row.data, keys)
  }

  function DataLine(row: ProcessedRow, keys: seq<string>): string
  {
    Join(",", DataCells(row, keys))
  }

  function DataLines(rows: seq<ProcessedRow>, keys: seq<string>): (r: seq<string>)
    ensures |r| == |rows|
    ensures forall i :: 0 <= i < |rows| ==> r[i] == DataLine(rows[i], keys)
  {
    if |rows| == 0 then [] else [DataLine(rows[0], keys)] + DataLines(rows[1..], keys)
  }

  /** The whole export: the header and then one line per row, in store order
      (newest first). */
  function Document(rows: seq<ProcessedRow>, keys: seq<string>): string
  {
    Join("\n", [Header(keys)] + DataLines(rows, keys))
  }

  /** The export action: nothing when there are no rows; otherwise the
      document over the sorted column union. */
  method ExportCsv(rows: seq<ProcessedRow>) returns (keys: seq<string>, doc: Option<string>)
    ensures StrictlySorted(keys) && Elems(keys) == Columns.ColumnUnion(rows)
    ensures doc.None? <==> |rows| == 0
    ensures doc.Some? ==> doc.value == Document(rows, keys)
    ensures doc.Some? ==> doc.value[|doc.value| - 1] == '"'
    ensures doc.Some? ==> doc.value[..|Header(keys)| + 1] == Header(keys) + "\n"
  {
    keys := Columns.AllKeys(rows);
    if |rows| == 0 {
      return keys, None;
    }
    var d := Document(rows, keys);
    DocumentShape(rows, keys);
    doc := Some(d);
  }

  /** A non-empty document is the header, a line break, and the data lines;
      it ends with the closing quote of the last cell, not a line break. */
  lemma DocumentShape(rows: seq<ProcessedRow>, keys: seq<string>)
    requires |rows| > 0
    ensures |Document(rows, keys)| > |Header(keys)|
    ensures Document(rows, keys)[..|Header(keys)| + 1] == Header(keys) + "\n"
    ensures Document(rows, keys)[|Document(rows, keys)| - 1] == '"'
  {
    var lines := DataLines(rows, keys);
    JoinCons("\n", Header(keys), lines);
    var doc := Document(rows, keys);
    assert doc == Header(keys) + ("\n" + lines[0] + JoinTail("\n", lines[1..]));
    assert doc[..|Header(keys)| + 1] == Header(keys) + "\n";
    JoinTailSnoc("\n", lines);
    LineEndsInQuote(rows[|rows| - 1], keys);
  }

  /** A data line ends with the closing quote of its last cell. */
  lemma LineEndsInQuote(row: ProcessedRow, keys: seq<string>)
    ensures |DataLine(row, keys)| > 0
    ensures DataLine(row, keys)[|DataLine(row, keys)| - 1] == '"'
  {
    var cells := DataCells(row, keys);
    var n := |cells|;
    var last := cells[n - 1];
    assert last[|last| - 1] == '"' by {
      if |keys| == 0 {
        assert last == Wrap(row.id);
      } else {
        assert last == Wrap(Escape(CellText(row.data, keys[|keys| - 1])));
      }
    }
    JoinCons(",", cells[0], cells[1..]);
    assert [cells[0]] + cells[1..] == cells;
    JoinTailSnoc(",", cells[1..]);
    assert cells[1..][n - 2] == last;
    var line := DataLine(row, keys);
    assert line == cells[0] + (JoinTail(",", cells[1..][..n - 2]) + "," + last);
  }
}
