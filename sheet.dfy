/**
 * The worksheet the script reads and overwrites, as a grid of text cells
 * whose first row is the header, and the header-keyed records that
 * gspread's get_all_records() makes of it.
 */
module Sheet {

  /** The remote worksheet: each call below stands for one request to the
      spreadsheet service. */
  class Worksheet {
    var rows: seq<seq<string>>

    constructor (rows: seq<seq<string>>)
      ensures this.rows == rows
    {
      this.rows := rows;
    }

    /** ws.clear() */
    method Clear()
      modifies this
      ensures rows == []
    {
      rows := [];
    }

    /** ws.append_row(row) */
    method AppendRow(row: seq<string>)
      modifies this
      ensures rows == old(rows) + [row]
    {
      rows := rows + [row];
    }

    /** ws.update(values) on a cleared sheet: the values fill it from A1. */
    method Update(values: seq<seq<string>>)
      requires rows == []
      modifies this
      ensures rows == values
    {
      rows := values;
    }
  }

  /** Short rows read as padded with empty cells. */
  function CellAt(row: seq<string>, j: nat): string
  {
    if j < |row| then row[j] else ""
  }

  /** dict(zip(header, row)), padded: when two header cells are equal the
      later column wins. */
  function RowRecord(header: seq<string>, row: seq<string>): (r: map<string, string>)
    ensures forall k :: k in r <==> k in header
    decreases |header|
  {
    if header == [] then map[]
    else
      var n := |header| - 1;
      assert forall k :: k in header <==> k in header[..n] || k == header[n] by {
        assert header == header[..n] + [header[n]];
      }
      RowRecord(header[..n], row)[header[n] := CellAt(row, n)]
  }

  /** A key that appears once in the header reads the cell of its column. */
  lemma {:induction false} RowRecordAt(header: seq<string>, row: seq<string>, j: nat)
    requires j < |header| && header[j] !in header[j + 1..]
    ensures header[j] in RowRecord(header, row)
    ensures RowRecord(header, row)[header[j]] == CellAt(row, j)
    decreases |header|
  {
    var n := |header| - 1;
    if j < n {
      assert header[n] == header[j + 1..][n - j - 1];
      assert header[..n][j + 1..] == header[j + 1..n];
      RowRecordAt(header[..n], row, j);
    }
  }

  /** The last column of the header named k. */
  function LastIndex(header: seq<string>, k: string): (j: nat)
    requires k in header
    ensures j < |header| && header[j] == k && k !in header[j + 1..]
    decreases |header|
  {
    var n := |header| - 1;
    if header[n] == k then n
    else
      assert k in header[..n] by {
        assert header == header[..n] + [header[n]];
      }
      var j := LastIndex(header[..n], k);
      assert header[j + 1..] == header[..n][j + 1..] + [header[n]];
      j
  }

  /** The record of a row, key by key: a header name reads the cell under
      the last column with that name (so with a repeated name the later
      column wins), or "" past the end of the row. */
  lemma RowRecordLast(header: seq<string>, row: seq<string>, k: string)
    requires k in header
    ensures k in RowRecord(header, row)
    ensures RowRecord(header, row)[k] == CellAt(row, LastIndex(header, k))
  {
    RowRecordAt(header, row, LastIndex(header, k));
  }

  /** ws.get_all_records(): one record per row below the header. */
  function Records(rows: seq<seq<string>>): (rs: seq<map<string, string>>)
    ensures |rs| == if rows == [] then 0 else |rows| - 1
    ensures forall i :: 0 <= i < |rs| ==> rs[i] == RowRecord(rows[0], rows[i + 1])
  {
    if rows == [] then []
    else seq(|rows| - 1, i requires 0 <= i < |rows| - 1 => RowRecord(rows[0], rows[i + 1]))
  }
}
