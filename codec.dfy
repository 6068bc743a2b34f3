/**
 * Reading and writing the list of tasks (versions 1.3 and 1.4): load_data maps
 * each header-keyed record to a task, preferring the Japanese header and
 * falling back to the English one; save_data rewrites the whole sheet with
 * the Japanese header.
 */
module Codec {
  import opened Text
  import opened Tasks
  import opened Sheet

  /** The header save_data writes. */
  const Header: seq<string> := ["タスク", "締切日", "完了", "属性"]

  /** r.get(key, default) */
  function Get(r: map<string, string>, key: string, default: string): string
  {
    if key in r then r[key] else default
  }

  /** The cell load_data reads for a field: the Japanese column, else the
      English one, else the default. */
  function Field(r: map<string, string>, japanese: string, english: string, default: string): (v: string)
    ensures japanese in r ==> v == r[japanese]
    ensures japanese !in r && english in r ==> v == r[english]
    ensures japanese !in r && english !in r ==> v == default
  {
    Get(r, japanese, Get(r, english, default))
  }

  /** The done flag of a cell: str(cell).lower() == "true".  Only a
      four-character cell can pass. */
  predicate IsTrueText(cell: string)
    ensures IsTrueText(cell) ==> |cell| == 4
  {
    Lower(cell) == "true"
  }

  /** The cells read as done are exactly the four letters of "true" in any
      mix of upper and lower case ("TRUE", "True", "true", ...). */
  lemma TrueTextIsCaseless(cell: string)
    ensures IsTrueText(cell) <==>
      && |cell| == 4
      && cell[0] in "tT" && cell[1] in "rR" && cell[2] in "uU" && cell[3] in "eE"
  {
    if |cell| == 4 {
      var l := Lower(cell);
      assert IsTrueText(cell) <==> l[0] == 't' && l[1] == 'r' && l[2] == 'u' && l[3] == 'e';
    }
  }

  /** One record of load_data: a Japanese key wins over its English
      twin, and a record with neither gets the default. */
  function DecodeRecord(r: map<string, string>): (t: Task)
    ensures "タスク" in r ==> t.task == r["タスク"]
    ensures "タスク" !in r && "task" in r ==> t.task == r["task"]
    ensures "締切日" in r ==> t.due == r["締切日"]
    ensures "締切日" !in r && "due" in r ==> t.due == r["due"]
    ensures "完了" in r ==> t.done == IsTrueText(r["完了"])
    ensures "完了" !in r && "done" in r ==> t.done == IsTrueText(r["done"])
    ensures "完了" !in r && "done" !in r ==> !t.done
    ensures "属性" in r ==> t.tag == r["属性"]
    ensures "属性" !in r && "tag" in r ==> t.tag == r["tag"]
    ensures "属性" !in r && "tag" !in r ==> t.tag == UnsetTag
  {
    Task(
      task := Field(r, "タスク", "task", ""),
      due := Field(r, "締切日", "due", ""),
      done := IsTrueText(Field(r, "完了", "done", "")),
      tag := Field(r, "属性", "tag", UnsetTag))
  }

  /** load_data: every record of the sheet, in sheet order. */
  function LoadData(rows: seq<seq<string>>): (data: seq<Task>)
    ensures |data| == |Records(rows)|
    ensures rows != [] ==> |data| == |rows| - 1
  {
    var rs := Records(rows);
    seq(|rs|, i requires 0 <= i < |rs| => DecodeRecord(rs[i]))
  }

  /** The cell a field is read from, found by position in the sheet: the
      last column headed with the Japanese name, else the last column headed
      with the English name, else the default. */
  function ColumnValue(header: seq<string>, row: seq<string>, japanese: string, english: string, default: string): string
  {
    if japanese in header then CellAt(row, LastIndex(header, japanese))
    else if english in header then CellAt(row, LastIndex(header, english))
    else default
  }

  /** Task i of load_data comes from sheet row i + 1: each field is the cell
      under its column (the Japanese header first, then the English one),
      or the default when the sheet has neither column. */
  lemma LoadDataRow(rows: seq<seq<string>>, i: nat)
    requires 0 < |rows| && i < |rows| - 1
    ensures
      var t, h, row := LoadData(rows)[i], rows[0], rows[i + 1];
      && t.task == ColumnValue(h, row, "タスク", "task", "")
      && t.due == ColumnValue(h, row, "締切日", "due", "")
      && t.done == IsTrueText(ColumnValue(h, row, "完了", "done", ""))
      && t.tag == ColumnValue(h, row, "属性", "tag", UnsetTag)
  {
    var h, row := rows[0], rows[i + 1];
    assert LoadData(rows)[i] == DecodeRecord(RowRecord(h, row));
    FieldAt(h, row, "タスク", "task", "");
    FieldAt(h, row, "締切日", "due", "");
    FieldAt(h, row, "完了", "done", "");
    FieldAt(h, row, "属性", "tag", UnsetTag);
  }

  /** The nested get on a row's record reads the cell ColumnValue finds. */
  lemma FieldAt(header: seq<string>, row: seq<string>, japanese: string, english: string, default: string)
    ensures Field(RowRecord(header, row), japanese, english, default) == ColumnValue(header, row, japanese, english, default)
  {
    if japanese in header {
      RowRecordLast(header, row, japanese);
    } else if english in header {
      RowRecordLast(header, row, english);
    }
  }

  /** str(bool(done)) */
  function BoolText(b: bool): string
  {
    if b then "True" else "False"
  }

  /** The row save_data writes for one task. */
  function EncodeRow(t: Task): (row: seq<string>)
    ensures |row| == |Header|
  {
    [t.task, t.due, BoolText(t.done), t.tag]
  }

  /** What the sheet holds after save_data(ws, data): the header, then one
      row per task, in list order. */
  function EncodeSheet(data: seq<Task>): (rows: seq<seq<string>>)
    ensures |rows| == |data| + 1 && rows[0] == Header
    ensures forall i :: 0 <= i < |data| ==> rows[i + 1] == EncodeRow(data[i])
  {
    [Header] + seq(|data|, i requires 0 <= i < |data| => EncodeRow(data[i]))
  }

  /** save_data: clear the sheet, write the header, append one row per task. */
  method SaveData(ws: Worksheet, data: seq<Task>)
    modifies ws
    ensures ws.rows == EncodeSheet(data)
  {
    ws.Clear();
    ws.AppendRow(Header);
    for i := 0 to |data|
      invariant ws.rows == EncodeSheet(data[..i])
    {
      ws.AppendRow(EncodeRow(data[i]));
      assert data[..i + 1] == data[..i] + [data[i]];
    }
    assert data[..|data|] == data;
  }

  /** The written done cell reads back as the flag that was written. */
  lemma DoneRoundTrip(b: bool)
    ensures IsTrueText(BoolText(b)) == b
  {
    if !b {
      assert Lower("False")[0] == 'f';
    }
  }

  /** Reading a row that save_data wrote gives back that task. */
  lemma DecodeEncodedRow(t: Task)
    ensures DecodeRecord(RowRecord(Header, EncodeRow(t))) == t
  {
    var r := RowRecord(Header, EncodeRow(t));
    RowRecordAt(Header, EncodeRow(t), 0);
    RowRecordAt(Header, EncodeRow(t), 1);
    RowRecordAt(Header, EncodeRow(t), 2);
    RowRecordAt(Header, EncodeRow(t), 3);
    DoneRoundTrip(t.done);
  }

  /** Loading what save_data wrote gives back the same list: every field of
      every task, the done flag included, in the same order. */
  lemma LoadAfterSave(data: seq<Task>)
    ensures LoadData(EncodeSheet(data)) == data
  {
    var loaded := LoadData(EncodeSheet(data));
    forall i | 0 <= i < |data|
      ensures loaded[i] == data[i]
    {
      DecodeEncodedRow(data[i]);
    }
  }
}
