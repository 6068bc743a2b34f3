/**
 * One session of the list view (versions 1.3 and 1.4): the list of tasks the
 * page holds, the row being edited, and the worksheet behind them.  Each
 * button handler changes the list in place and, except the done checkbox,
 * writes the whole list back with save_data.  Streamlit reruns the script
 * after a handler, which reloads the list from the sheet (Reload below).
 */
module App {
  import opened Wrappers
  import opened Text
  import opened Tasks
  import opened Sheet
  import opened Codec
  import opened Sorting
  import opened Restore
  import opened ListOps

  class TodoApp {
    /** The worksheet get_worksheet() opened. */
    const ws: Worksheet
    /** The list load_data returned, as the handlers change it. */
    var data: seq<Task>
    /** st.session_state["edit_index"]: the row shown in edit mode, -1 for
        none. */
    var editIndex: int

    /** The sheet holds exactly the list, as save_data writes it. */
    ghost predicate Synced()
      reads this, ws
    {
      ws.rows == EncodeSheet(data)
    }

    /** A first run: the list is loaded and no row is in edit mode. */
    constructor (ws: Worksheet)
      ensures this.ws == ws && data == LoadData(ws.rows) && editIndex == -1
    {
      this.ws := ws;
      data := LoadData(ws.rows);
      editIndex := -1;
    }

    /** A rerun: data = load_data(ws); the edit row is kept in the session. */
    method Reload()
      modifies this
      ensures data == LoadData(ws.rows) && editIndex == old(editIndex)
      ensures old(Synced()) ==> data == old(data)
    {
      if Synced() {
        LoadAfterSave(data);
      }
      data := LoadData(ws.rows);
    }

    /** The "Add" button: appends the stripped text as a new task and saves,
        unless the text is blank. */
    method Add(text: string, due: string, tag: string) returns (added: bool)
      modifies this, ws
      ensures added <==> !AllSpace(text)
      ensures data == Added(old(data), text, due, tag) && editIndex == old(editIndex)
      ensures added ==> Synced()
      ensures !added ==> ws.rows == old(ws.rows)
    {
      StripSpec(text);
      var t := Strip(text);
      if t != "" {
        data := data + [Task(t, due, false, tag)];
        SaveData(ws, data);
        added := true;
      } else {
        added := false;
      }
    }

    /** The "Delete" button of row i: pops the row, leaves edit mode and
        saves. */
    method Delete(i: int)
      requires 0 <= i < |data|
      modifies this, ws
      ensures data == Removed(old(data), i) && editIndex == -1 && Synced()
    {
      data := data[..i] + data[i + 1..];
      editIndex := -1;
      SaveData(ws, data);
    }

    /** The "Up" button of row i: on any row but the first, swaps it with
        the row above and saves; the edit row index is left as it was. */
    method MoveUp(i: int)
      requires 0 <= i < |data|
      modifies this, ws
      ensures data == MovedUp(old(data), i) && editIndex == old(editIndex)
      ensures i > 0 ==> Synced()
      ensures i == 0 ==> ws.rows == old(ws.rows)
    {
      if i > 0 {
        data := data[i - 1 := data[i]][i := data[i - 1]];
        SaveData(ws, data);
      }
    }

    /** The "Down" button of row i: on any row but the last, swaps it with
        the row below and saves. */
    method MoveDown(i: int)
      requires 0 <= i < |data|
      modifies this, ws
      ensures data == MovedDown(old(data), i) && editIndex == old(editIndex)
      ensures i < |old(data)| - 1 ==> Synced()
      ensures i == |old(data)| - 1 ==> ws.rows == old(ws.rows)
    {
      if i < |data| - 1 {
        data := data[i + 1 := data[i]][i := data[i + 1]];
        SaveData(ws, data);
      }
    }

    /** The "Edit" button of row i. */
    method StartEdit(i: int)
      requires 0 <= i < |data|
      modifies this
      ensures editIndex == i && data == old(data)
    {
      editIndex := i;
    }

    /** The "Save" button of the row in edit mode: takes the edited text as
        typed, the picked date and tag, leaves edit mode and saves. */
    method SaveEdit(task: string, due: string, tag: string)
      requires 0 <= editIndex < |data|
      modifies this, ws
      ensures data == Edited(old(data), old(editIndex), task, due, tag)
      ensures editIndex == -1 && Synced()
    {
      data := data[editIndex := Task(task, due, data[editIndex].done, tag)];
      editIndex := -1;
      SaveData(ws, data);
    }

    /** The done checkbox of row i (shown when the row is not in edit mode):
        it changes the list but nothing is saved. */
    method SetDone(i: int, done: bool)
      requires 0 <= i < |data| && i != editIndex
      modifies this
      ensures data == Checked(old(data), i, done) && editIndex == old(editIndex)
    {
      data := data[i := data[i].(done := done)];
    }

    /** The "Sort by due" button: data.sort(key=_sort_key_due), then save. */
    method SortByDue()
      modifies this, ws
      ensures data == SortBy(old(data), DueKey) && editIndex == old(editIndex) && Synced()
    {
      data := SortBy(data, DueKey);
      SaveData(ws, data);
    }

    /** The "Restore" button: restore_from_excel normalises the table first;
        when that raises, the error is shown and the sheet is left as it
        was, otherwise the sheet is cleared and overwritten with the
        normalised table.  The list is reread on the rerun that follows. */
    method RestoreFromBackup(df: Frame) returns (r: Result<Frame>)
      requires Rectangular(df)
      modifies ws
      ensures r == NormalizedAsWritten(df)
      ensures r.Err? ==> ws.rows == old(ws.rows)
      ensures r.Ok? ==> ws.rows == SheetRows(r.value)
    {
      r := NormalizeRestoredDf(df);
      if r.Ok? {
        ws.Clear();
        ws.Update(SheetRows(r.value));
      }
    }
  }
}
