/**
 * Version 1.0: three columns (タスク, 締切日, 完了) and no tag.  load_data
 * reads the Japanese columns only; the page lists the tasks with a done
 * checkbox and a delete button each, and every run that is not cut short
 * by a button ends by saving the whole list, so a checkbox change reaches
 * the sheet.
 */
module V10 {
  import opened Text
  import opened Tasks
  import opened Sheet
  import opened Codec
  import opened ListOps

  /** One 1.0 entry: text, due date as ISO text, done flag. */
  datatype Item = Item(task: string, due: string, done: bool)

  /** The header 1.0's save_data writes. */
  const Header10: seq<string> := ["タスク", "締切日", "完了"]

  /** One record as 1.0's load_data sets its fields: Japanese columns
      only, and no tag. */
  function DecodeItem(r: map<string, string>): (t: Item)
    ensures "タスク" in r ==> t.task == r["タスク"]
    ensures "タスク" !in r ==> t.task == ""
    ensures "締切日" in r ==> t.due == r["締切日"]
    ensures "締切日" !in r ==> t.due == ""
    ensures "完了" in r ==> t.done == IsTrueText(r["完了"])
    ensures "完了" !in r ==> !t.done
  {
    Item(Get(r, "タスク", ""), Get(r, "締切日", ""), IsTrueText(Get(r, "完了", "")))
  }

  /** The list 1.0's load_data returns. */
  function LoadItems(rows: seq<seq<string>>): (data: seq<Item>)
    ensures |data| == |Records(rows)|
  {
    var rs := Records(rows);
    seq(|rs|, i requires 0 <= i < |rs| => DecodeItem(rs[i]))
  }

  /** load_data: for r in records, set done, task and due. */
  method LoadData10(ws: Worksheet) returns (data: seq<Item>)
    ensures data == LoadItems(ws.rows)
  {
    var rows := ws.rows;
    ghost var want := LoadItems(rows);
    var records := Records(rows);
    data := [];
    for i := 0 to |records|
      invariant data == want[..i]
    {
      data := data + [DecodeItem(records[i])];
    }
    assert want[..|records|] == want;
  }

  /** The row 1.0's save_data writes for one entry. */
  function EncodeItem(t: Item): (row: seq<string>)
    ensures |row| == |Header10|
  {
    [t.task, t.due, BoolText(t.done)]
  }

  /** What the sheet holds after 1.0's save_data. */
  function EncodeSheet10(data: seq<Item>): (rows: seq<seq<string>>)
    ensures |rows| == |data| + 1 && rows[0] == Header10
    ensures forall i :: 0 <= i < |data| ==> rows[i + 1] == EncodeItem(data[i])
  {
    [Header10] + seq(|data|, i requires 0 <= i < |data| => EncodeItem(data[i]))
  }

  /** save_data: clear the sheet, write the header, append one row per entry. */
  method SaveData10(ws: Worksheet, data: seq<Item>)
    modifies ws
    ensures ws.rows == EncodeSheet10(data)
  {
    ws.Clear();
    ws.AppendRow(Header10);
    for i := 0 to |data|
      invariant ws.rows == EncodeSheet10(data[..i])
    {
      ws.AppendRow(EncodeItem(data[i]));
      assert data[..i + 1] == data[..i] + [data[i]];
    }
    assert data[..|data|] == data;
  }

  /** Loading what 1.0's save_data wrote gives back the same list. */
  lemma LoadItemsAfterSave(data: seq<Item>)
    ensures LoadItems(EncodeSheet10(data)) == data
  {
    var loaded := LoadItems(EncodeSheet10(data));
    forall i | 0 <= i < |data|
      ensures loaded[i] == data[i]
    {
      DecodeOwnRow(data[i]);
    }
  }

  /** A row 1.0 wrote reads back in 1.0 as the entry. */
  lemma DecodeOwnRow(t: Item)
    ensures DecodeItem(RowRecord(Header10, EncodeItem(t))) == t
  {
    var row := EncodeItem(t);
    RowRecordAt(Header10, row, 0);
    RowRecordAt(Header10, row, 1);
    RowRecordAt(Header10, row, 2);
    DoneRoundTrip(t.done);
  }

  /** A record read from a sheet 1.0 wrote, as a later version reads it:
      the fields carry over and the missing 属性 column gives "未設定". */
  lemma DecodeItemRow(t: Item)
    ensures DecodeRecord(RowRecord(Header10, EncodeItem(t))) == Task(t.task, t.due, t.done, UnsetTag)
  {
    var row := EncodeItem(t);
    RowRecordAt(Header10, row, 0);
    RowRecordAt(Header10, row, 1);
    RowRecordAt(Header10, row, 2);
    assert "属性" !in Header10 && "tag" !in Header10;
    DoneRoundTrip(t.done);
  }

  /** Version 1.4 opening a sheet that 1.0 saved keeps every entry and
      gives each the tag "未設定". */
  lemma CurrentReadsV10Sheet(data: seq<Item>)
    ensures |LoadData(EncodeSheet10(data))| == |data|
    ensures forall i :: 0 <= i < |data| ==>
      LoadData(EncodeSheet10(data))[i] == Task(data[i].task, data[i].due, data[i].done, UnsetTag)
  {
    forall i | 0 <= i < |data|
      ensures LoadData(EncodeSheet10(data))[i] == Task(data[i].task, data[i].due, data[i].done, UnsetTag)
    {
      DecodeItemRow(data[i]);
    }
  }

  /** Version 1.0 opening a sheet that 1.4 saved reads text, due and done
      of every task and ignores the 属性 column. */
  lemma V10ReadsCurrentSheet(data: seq<Task>)
    ensures |LoadItems(EncodeSheet(data))| == |data|
    ensures forall i :: 0 <= i < |data| ==>
      LoadItems(EncodeSheet(data))[i] == Item(data[i].task, data[i].due, data[i].done)
  {
    var items := LoadItems(EncodeSheet(data));
    forall i | 0 <= i < |data|
      ensures items[i] == Item(data[i].task, data[i].due, data[i].done)
    {
      DecodeCurrentRow(data[i]);
    }
  }

  /** A row 1.4 wrote reads in 1.0 as that task without its tag. */
  lemma DecodeCurrentRow(t: Task)
    ensures DecodeItem(RowRecord(Header, EncodeRow(t))) == Item(t.task, t.due, t.done)
  {
    var row := EncodeRow(t);
    RowRecordAt(Header, row, 0);
    RowRecordAt(Header, row, 1);
    RowRecordAt(Header, row, 2);
    DoneRoundTrip(t.done);
  }

  /** Version 1.0 saving a list loaded from a 1.4 sheet drops the 属性
      column: reading it back in 1.4 keeps text, due and done, and every
      tag becomes "未設定". */
  lemma V10SaveDropsTags(data: seq<Task>)
    ensures |LoadData(EncodeSheet10(LoadItems(EncodeSheet(data))))| == |data|
    ensures forall i :: 0 <= i < |data| ==>
      LoadData(EncodeSheet10(LoadItems(EncodeSheet(data))))[i] == data[i].(tag := UnsetTag)
  {
    var items := LoadItems(EncodeSheet(data));
    V10ReadsCurrentSheet(data);
    CurrentReadsV10Sheet(items);
  }

  /** The list after the checkboxes of the first n rows were drawn with the
      given states. */
  function Ticked(items: seq<Item>, checked: seq<bool>, n: nat): (r: seq<Item>)
    requires n <= |items| == |checked|
    ensures |r| == |items|
    ensures forall j :: 0 <= j < n ==> r[j] == items[j].(done := checked[j])
    ensures forall j :: n <= j < |items| ==> r[j] == items[j]
  {
    seq(|items|, j requires 0 <= j < |items| => if j < n then items[j].(done := checked[j]) else items[j])
  }

  /** "Add": a text that is empty once stripped adds nothing; otherwise the
      stripped text is appended as a new, not-done entry. */
  function AddedItem(data: seq<Item>, text: string, due: string): (r: seq<Item>)
    ensures AllSpace(text) ==> r == data
    ensures !AllSpace(text) ==> r == data + [Item(Strip(text), due, false)]
    ensures !AllSpace(text) ==> r[|data|].task != [] && !IsSpace(r[|data|].task[0])
  {
    StripSpec(text);
    if Strip(text) != "" then data + [Item(Strip(text), due, false)] else data
  }

  class TodoApp10 {
    /** The worksheet get_worksheet() opened. */
    const ws: Worksheet
    /** The list load_data returned, as the run changes it. */
    var data: seq<Item>

    /** The sheet holds exactly the list, as save_data writes it. */
    ghost predicate Synced()
      reads this, ws
    {
      ws.rows == EncodeSheet10(data)
    }

    /** The start of a run: the list is loaded from the sheet. */
    constructor (ws: Worksheet)
      ensures this.ws == ws && data == LoadItems(ws.rows)
    {
      this.ws := ws;
      var items := LoadData10(ws);
      data := items;
    }

    /** The "Add" button: appends the stripped text and saves, unless the
        text is blank. */
    method Add(text: string, due: string) returns (added: bool)
      modifies this, ws
      ensures added <==> !AllSpace(text)
      ensures data == AddedItem(old(data), text, due)
      ensures added ==> Synced()
      ensures !added ==> ws.rows == old(ws.rows)
    {
      StripSpec(text);
      var t := Strip(text);
      if t != "" {
        data := data + [Item(t, due, false)];
        SaveData10(ws, data);
        added := true;
      } else {
        added := false;
      }
    }

    /** The list loop and the final save: row by row, the checkbox state is
        stored in the entry, and when row deleteRow's delete button was
        pressed that row is popped, the list saved and the run ends there.
        A run that reaches the end saves the list. */
    method RenderList(checked: seq<bool>, deleteRow: int)
      requires |checked| == |data|
      modifies this, ws
      ensures 0 <= deleteRow < |old(data)| ==>
        data == Removed(Ticked(old(data), checked, deleteRow + 1), deleteRow)
      ensures !(0 <= deleteRow < |old(data)|) ==> data == Ticked(old(data), checked, |old(data)|)
      ensures Synced()
    {
      var i := 0;
      while i < |data|
        invariant 0 <= i <= |data| == |checked| == |old(data)|
        invariant data == Ticked(old(data), checked, i)
        invariant deleteRow < 0 || deleteRow >= i
      {
        data := data[i := data[i].(done := checked[i])];
        if i == deleteRow {
          data := data[..i] + data[i + 1..];
          SaveData10(ws, data);
          return;
        }
        i := i + 1;
      }
      SaveData10(ws, data);
    }
  }

  /** A run in which nothing is clicked redraws every checkbox with the
      loaded flag and saves: the sheet then holds the loaded list in 1.0's
      own format, and the next run loads the same list again. */
  lemma QuietRunKeepsList(rows: seq<seq<string>>)
    ensures Ticked(LoadItems(rows), Flags(LoadItems(rows)), |LoadItems(rows)|) == LoadItems(rows)
    ensures LoadItems(EncodeSheet10(LoadItems(rows))) == LoadItems(rows)
  {
    var items := LoadItems(rows);
    var r := Ticked(items, Flags(items), |items|);
    forall j | 0 <= j < |items|
      ensures r[j] == items[j]
    {
    }
    LoadItemsAfterSave(items);
  }

  /** The done flags of the list, the states its checkboxes start from. */
  function Flags(items: seq<Item>): (f: seq<bool>)
    ensures |f| == |items| && forall j :: 0 <= j < |items| ==> f[j] == items[j].done
  {
    seq(|items|, j requires 0 <= j < |items| => items[j].done)
  }
}
