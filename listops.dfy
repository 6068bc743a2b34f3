/**
 * The edits the list view makes to the list of tasks (versions 1.3 and 1.4),
 * as functions from the list before to the list after.  The TodoApp class
 * performs them in place and is specified by them.
 */
module ListOps {
  import opened Text
  import opened Tasks

  /** "Add": a text that is empty once stripped adds nothing; otherwise the
      stripped text is appended as a new, not-done task. */
  function Added(data: seq<Task>, text: string, due: string, tag: string): (r: seq<Task>)
    ensures AllSpace(text) ==> r == data
    ensures !AllSpace(text) ==> |r| == |data| + 1 && r[..|data|] == data
    ensures !AllSpace(text) ==> r[|data|] == Task(Strip(text), due, false, tag)
    ensures !AllSpace(text) ==> r[|data|].task != [] && !IsSpace(r[|data|].task[0])
  {
    StripSpec(text);
    if Strip(text) != "" then data + [Task(Strip(text), due, false, tag)] else data
  }

  /** "Delete" on row i: data.pop(i) (in every version). */
  function Removed<T(==)>(data: seq<T>, i: nat): (r: seq<T>)
    requires i < |data|
    ensures |r| == |data| - 1
    ensures forall j :: 0 <= j < i ==> r[j] == data[j]
    ensures forall j :: i <= j < |r| ==> r[j] == data[j + 1]
    ensures multiset(r) + multiset{data[i]} == multiset(data)
  {
    assert data == data[..i] + [data[i]] + data[i + 1..];
    data[..i] + data[i + 1..]
  }

  /** Rows i and i + 1 trade places. */
  function Swapped(data: seq<Task>, i: nat): (r: seq<Task>)
    requires i + 1 < |data|
    ensures |r| == |data| && r[i] == data[i + 1] && r[i + 1] == data[i]
    ensures forall j :: 0 <= j < |data| && j != i && j != i + 1 ==> r[j] == data[j]
    ensures multiset(r) == multiset(data)
  {
    data[i := data[i + 1]][i + 1 := data[i]]
  }

  /** "Up" on row i: swaps it with the row above, except on the first row. */
  function MovedUp(data: seq<Task>, i: nat): (r: seq<Task>)
    requires i < |data|
    ensures |r| == |data| && multiset(r) == multiset(data)
    ensures i == 0 ==> r == data
    ensures i > 0 ==> r[i - 1] == data[i] && r[i] == data[i - 1]
    ensures forall j :: 0 <= j < |data| && j != i - 1 && j != i ==> r[j] == data[j]
  {
    if i > 0 then Swapped(data, i - 1) else data
  }

  /** "Down" on row i: swaps it with the row below, except on the last row. */
  function MovedDown(data: seq<Task>, i: nat): (r: seq<Task>)
    requires i < |data|
    ensures |r| == |data| && multiset(r) == multiset(data)
    ensures i == |data| - 1 ==> r == data
    ensures i < |data| - 1 ==> r[i + 1] == data[i] && r[i] == data[i + 1]
    ensures forall j :: 0 <= j < |data| && j != i && j != i + 1 ==> r[j] == data[j]
  {
    if i < |data| - 1 then Swapped(data, i) else data
  }

  /** "Save" in edit mode: row i takes the edited text, due and tag and
      keeps its done flag; no other row changes. */
  function Edited(data: seq<Task>, i: nat, task: string, due: string, tag: string): (r: seq<Task>)
    requires i < |data|
    ensures |r| == |data| && r[i] == Task(task, due, data[i].done, tag)
    ensures forall j :: 0 <= j < |data| && j != i ==> r[j] == data[j]
  {
    data[i := data[i].(task := task, due := due, tag := tag)]
  }

  /** The done checkbox of row i. */
  function Checked(data: seq<Task>, i: nat, done: bool): (r: seq<Task>)
    requires i < |data|
    ensures |r| == |data| && r[i] == data[i].(done := done)
    ensures forall j :: 0 <= j < |data| && j != i ==> r[j] == data[j]
  {
    data[i := data[i].(done := done)]
  }

  /** Deleting a task just added gives back the list before the add. */
  lemma RemoveAdded(data: seq<Task>, text: string, due: string, tag: string)
    requires !AllSpace(text)
    ensures Removed(Added(data, text, due, tag), |data|) == data
  {
    var r := Removed(Added(data, text, due, tag), |data|);
    assert r == Added(data, text, due, tag)[..|data|];
  }

  /** "Up" on row i, then "Down" on the row it moved to, restores the list. */
  lemma UpThenDown(data: seq<Task>, i: nat)
    requires 0 < i < |data|
    ensures MovedDown(MovedUp(data, i), i - 1) == data
  {
    var r := MovedDown(MovedUp(data, i), i - 1);
    forall j | 0 <= j < |data|
      ensures r[j] == data[j]
    {
    }
  }

  /** "Down" on row i, then "Up" on the row it moved to, restores the list. */
  lemma DownThenUp(data: seq<Task>, i: nat)
    requires i + 1 < |data|
    ensures MovedUp(MovedDown(data, i), i + 1) == data
  {
    var r := MovedUp(MovedDown(data, i), i + 1);
    forall j | 0 <= j < |data|
      ensures r[j] == data[j]
    {
    }
  }

  /** Saving an edit with the row's own values changes nothing. */
  lemma EditUnchanged(data: seq<Task>, i: nat)
    requires i < |data|
    ensures Edited(data, i, data[i].task, data[i].due, data[i].tag) == data
  {
  }
}
