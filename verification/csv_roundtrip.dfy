/**
 Reading an export back with `CsvReader`, the reader of the quoted-field
 subset of RFC 4180 that the export writes, recovers the header's
 names and every row's cell texts: the quoting is undone exactly, every data
 line holds exactly the timestamp, the id and one field per column, and the
 document holds exactly one header and one record per row, in store order.
 */
module CsvRoundTrip {
  import opened Wrappers
  import opened Values
  import opened Strings
  import opened CsvWriter
  import opened CsvReader

  /** Undoing the quote doubling of an escaped field gives the text back, as
      long as what follows the closing quote does not begin with a quote. */
  lemma {:induction false} ReadEscaped(f: string, rest: string)
    requires rest == [] || rest[0] != '"'
    ensures ReadQuoted(Escape(f) + "\"" + rest) == Some((f, rest))
  {
    var s := Escape(f) + "\"" + rest;
    if |f| == 0 {
      assert s == "\"" + rest;
      assert s[1..] == rest;
    } else if f[0] == '"' {
      ReadEscaped(f[1..], rest);
      assert s == "\"\"" + (Escape(f[1..]) + "\"" + rest);
      assert s[2..] == Escape(f[1..]) + "\"" + rest;
      assert "\"" + f[1..] == f;
    } else {
      ReadEscaped(f[1..], rest);
      assert s == [f[0]] + (Escape(f[1..]) + "\"" + rest);
      assert s[1..] == Escape(f[1..]) + "\"" + rest;
      assert [f[0]] + f[1..] == f;
    }
  }

  /** A single exported cell reads back as the one field `String(val)`, or the
      empty field for a missing or null value. */
  lemma ExportCellReadBack(data: FlatRecord, key: string)
    ensures ReadRecord(ExportCell(data, key)) == Some(([CellText(data, key)], ""))
  {
    var f := CellText(data, key);
    ReadEscaped(f, "");
    assert ExportCell(data, key) == "\"" + (Escape(f) + "\"" + "");
  }

  /** The opening quote of a quoted field, then its text up to the closing quote. */
  lemma ReadFirstField(f: string, after: string)
    requires after == [] || after[0] != '"'
    ensures |Quote(f) + after| > 0 && (Quote(f) + after)[0] == '"'
    ensures ReadQuoted((Quote(f) + after)[1..]) == Some((f, after))
  {
    ReadEscaped(f, after);
    assert (Quote(f) + after)[1..] == Escape(f) + "\"" + after;
  }

  /** A comma-joined line of quoted fields reads back as those fields. */
  lemma {:induction false} ReadQuotedLine(fields: seq<string>, cells: seq<string>, rest: string)
    requires |fields| > 0 && |cells| == |fields|
    requires forall i :: 0 <= i < |cells| ==> cells[i] == Quote(fields[i])
    requires rest == [] || rest[0] == '\n'
    ensures ReadRecord(Join(",", cells) + rest) == Some((fields, rest))
  {
    if |cells| == 1 {
      ReadFirstField(fields[0], rest);
      assert Join(",", cells) + rest == Quote(fields[0]) + rest;
      assert fields == [fields[0]];
    } else {
      QuotedTail(fields, cells);
      ReadQuotedLine(fields[1..], cells[1..], rest);
      var more := Join(",", cells[1..]) + rest;
      ReadNextField(fields[0], fields[1..], more, rest);
      JoinFront(cells, rest);
      assert [fields[0]] + fields[1..] == fields;
    }
  }

  lemma QuotedTail(fields: seq<string>, cells: seq<string>)
    requires |fields| > 0 && |cells| == |fields|
    requires forall i :: 0 <= i < |cells| ==> cells[i] == Quote(fields[i])
    ensures forall i :: 0 <= i < |cells| - 1 ==> cells[1..][i] == Quote(fields[1..][i])
  {
  }

  lemma JoinFront(cells: seq<string>, rest: string)
    requires |cells| > 1
    ensures Join(",", cells) + rest == cells[0] + ("," + (Join(",", cells[1..]) + rest))
  {
  }

  /** A quoted field followed by a comma and a readable remainder reads as
      that field in front of the remainder's fields. */
  lemma ReadNextField(f: string, fs: seq<string>, more: string, rest: string)
    requires ReadRecord(more) == Some((fs, rest))
    ensures ReadRecord(Quote(f) + ("," + more)) == Some(([f] + fs, rest))
  {
    ReadFirstField(f, "," + more);
    assert ("," + more)[1..] == more;
  }

  /** A data line reads back as the row's timestamp, id and one field per
      column, provided the unescaped timestamp and id hold no quote. */
  lemma DataLineReadBack(row: ProcessedRow, keys: seq<string>, rest: string)
    requires '"' !in row.timestamp && '"' !in row.id
    requires rest == [] || rest[0] == '\n'
    ensures ReadRecord(DataLine(row, keys) + rest) == Some((RowFields(row, keys), rest))
  {
    CellsQuoteFields(row, keys);
    ReadQuotedLine(RowFields(row, keys), DataCells(row, keys), rest);
  }

  /** Every cell of a data line is the quoted form of the matching field. */
  lemma CellsQuoteFields(row: ProcessedRow, keys: seq<string>)
    requires '"' !in row.timestamp && '"' !in row.id
    ensures forall i :: 0 <= i < 2 + |keys| ==> DataCells(row, keys)[i] == Quote(RowFields(row, keys)[i])
  {
    var cells := DataCells(row, keys);
    var fields := RowFields(row, keys);
    forall i | 0 <= i < 2 + |keys|
      ensures cells[i] == Quote(fields[i])
    {
      if i == 0 {
        assert Escape(row.timestamp) == row.timestamp;
      } else if i == 1 {
        assert Escape(row.id) == row.id;
      } else {
        assert fields[i] == CellText(row.data, keys[i - 2]);
      }
    }
  }

  /** The fields every row should read back as, in store order. */
  function AllRowFields(rows: seq<ProcessedRow>, keys: seq<string>): (r: seq<seq<string>>)
    ensures |r| == |rows|
    ensures forall i :: 0 <= i < |rows| ==> r[i] == RowFields(rows[i], keys)
  {
    if |rows| == 0 then [] else [RowFields(rows[0], keys)] + AllRowFields(rows[1..], keys)
  }

  predicate PlainStamps(rows: seq<ProcessedRow>)
  {
    forall i :: 0 <= i < |rows| ==> '"' !in rows[i].timestamp && '"' !in rows[i].id
  }

  predicate PlainKeys(keys: seq<string>)
  {
    forall j :: 0 <= j < |keys| ==> ',' !in keys[j] && '\n' !in keys[j]
  }

  lemma {:induction false} LinesReadBack(rows: seq<ProcessedRow>, keys: seq<string>)
    requires PlainStamps(rows)
    ensures ReadRecords(JoinTail("\n", DataLines(rows, keys))) == Some(AllRowFields(rows, keys))
  {
    if |rows| > 0 {
      var lines := DataLines(rows, keys);
      var after := JoinTail("\n", lines[1..]);
      assert lines[1..] == DataLines(rows[1..], keys);
      LinesReadBack(rows[1..], keys);
      DataLineReadBack(rows[0], keys, after);
      assert JoinTail("\n", lines) == "\n" + (DataLine(rows[0], keys) + after);
    }
  }

  /** The header reads back as `Timestamp`, `ID` and the columns, as long as
      no column name holds a comma or a line break (the header is not quoted). */
  lemma HeaderReadBack(keys: seq<string>)
    requires PlainKeys(keys)
    ensures '\n' !in Header(keys)
    ensures Split(Header(keys), ',') == HeaderPrefix + keys
  {
    var parts := HeaderPrefix + keys;
    forall i | 0 <= i < |parts|
      ensures ',' !in parts[i] && '\n' !in parts[i]
    {
      if i >= 2 {
        assert parts[i] == keys[i - 2];
      }
    }
    JoinAvoids(",", parts, '\n');
    SplitJoin(parts, ',');
  }

  /** The export, read back, gives exactly one header of `Timestamp`, `ID` and
      the columns, and one record per row in store order, each holding the
      row's timestamp, id and the text of each of its cells. */
  lemma ExportReadBack(rows: seq<ProcessedRow>, keys: seq<string>)
    requires PlainStamps(rows) && PlainKeys(keys)
    ensures ReadDocument(Document(rows, keys)) == Some((HeaderPrefix + keys, AllRowFields(rows, keys)))
  {
    var header := Header(keys);
    var tail := JoinTail("\n", DataLines(rows, keys));
    JoinCons("\n", header, DataLines(rows, keys));
    HeaderReadBack(keys);
    LinesReadBack(rows, keys);
    FirstLineSplit(header, tail);
  }

  lemma {:induction false} FirstLineSplit(line: string, rest: string)
    requires '\n' !in line
    requires rest == [] || rest[0] == '\n'
    ensures FirstLine(line + rest) == (line, rest)
  {
    if |line| == 0 {
      assert line + rest == rest;
    }
    if |line| > 0 {
      assert line[0] != '\n' by { assert line[0] in line; }
      var s := line + rest;
      assert s[0] == line[0] && s[1..] == line[1..] + rest;
      FirstLineSplit(line[1..], rest);
      assert FirstLine(s) == ([line[0]] + line[1..], rest);
      assert [line[0]] + line[1..] == line;
    }
  }
}
