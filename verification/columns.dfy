/**
 The dynamic column set of the spreadsheet: every key that occurs in any
 row's record, deduplicated and sorted (components/SpreadsheetView.tsx,
 `allKeys`).
 */
module Columns {
  import opened Values
  import opened StringOrder

  /** The keys that occur in the records of the given rows. */
  function ColumnUnion(rows: seq<ProcessedRow>): set<string>
  {
    set i, k | 0 <= i < |rows| && k in rows[i].data :: k
  }

  /** `Array.from(new Set(data.flatMap(row => Object.keys(row.data)))).sort()`.
      The order in which a record's keys are visited does not matter: the
      result is the one strictly sorted sequence of the union. */
  method AllKeys(rows: seq<ProcessedRow>) returns (keys: seq<string>)
    ensures StrictlySorted(keys)
    ensures Elems(keys) == ColumnUnion(rows)
  {
    keys := [];
    var i := 0;
    while i < |rows|
      invariant 0 <= i <= |rows|
      invariant StrictlySorted(keys)
      invariant Elems(keys) == ColumnUnion(rows[..i])
    {
      var pending := rows[i].data.Keys;
      while pending != {}
        invariant pending <= rows[i].data.Keys
        invariant StrictlySorted(keys)
        invariant Elems(keys) == ColumnUnion(rows[..i]) + (rows[i].data.Keys - pending)
        decreases pending
      {
        var k :| k in pending;
        keys := Insert(keys, k);
        pending := pending - {k};
      }
      UnionExtend(rows, i);
      i := i + 1;
    }
    assert rows[..i] == rows;
  }

  lemma UnionExtend(rows: seq<ProcessedRow>, i: int)
    requires 0 <= i < |rows|
    ensures ColumnUnion(rows[..i + 1]) == ColumnUnion(rows[..i]) + rows[i].data.Keys
  {
  }

  /** Every row's key set lies within the column union, so every key of every
      row has a column in the table and in the export. */
  lemma RowKeysCovered(rows: seq<ProcessedRow>, i: int)
    requires 0 <= i < |rows|
    ensures rows[i].data.Keys <= ColumnUnion(rows)
  {
  }

  /** A key is a column exactly when some row's record has it. */
  lemma ColumnWitness(rows: seq<ProcessedRow>, k: string)
    ensures k in ColumnUnion(rows) <==> exists i :: 0 <= i < |rows| && k in rows[i].data
  {
  }

  /** Prepending a row adds exactly that row's keys to the columns. */
  lemma UnionPrepend(row: ProcessedRow, rows: seq<ProcessedRow>)
    ensures ColumnUnion([row] + rows) == row.data.Keys + ColumnUnion(rows)
  {
    var all := [row] + rows;
    forall k | k in ColumnUnion(rows)
      ensures k in ColumnUnion(all)
    {
      var j :| 0 <= j < |rows| && k in rows[j].data;
      assert all[j + 1] == rows[j];
    }
    assert all[0] == row;
  }
}
