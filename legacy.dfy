/**
 * Versions 1.1 and 1.2 where they differ from 1.4.  Their load_data walks
 * the records and sets each task field from the Japanese column only, with
 * a tag default of "その他" (1.1) or "未設定" (1.2); save_data and the list
 * handlers are those of 1.4.  The edit form parses the due with
 * date.fromisoformat and no fallback, 1.1 maps an unknown tag to "その他"
 * before looking it up, 1.2 looks the tag up as it is, and 1.2 sorts on the
 * raw due text.
 */
module Legacy {
  import opened Wrappers
  import opened Text
  import opened Tasks
  import opened Sheet
  import opened Codec
  import opened Sorting

  datatype Version = V11 | V12

  /** The last tag option, which 1.1 also uses as its load default. */
  const OtherTag: string := "その他"

  /** The tag a record gets when the sheet has no 属性 column. */
  function TagDefault(v: Version): (d: string)
    ensures v == V11 ==> d in TagOptions
    ensures v == V12 ==> d !in TagOptions
  {
    if v == V11 then OtherTag else UnsetTag
  }

  /** One record as load_data sets its fields: Japanese columns only, so a
      record without them gets the defaults whatever English keys it has. */
  function DecodeLegacy(r: map<string, string>, v: Version): (t: Task)
    ensures "タスク" in r ==> t.task == r["タスク"]
    ensures "タスク" !in r ==> t.task == ""
    ensures "締切日" in r ==> t.due == r["締切日"]
    ensures "締切日" !in r ==> t.due == ""
    ensures "完了" in r ==> t.done == IsTrueText(r["完了"])
    ensures "完了" !in r ==> !t.done
    ensures "属性" in r ==> t.tag == r["属性"]
    ensures "属性" !in r ==> t.tag == TagDefault(v)
  {
    Task(
      task := Get(r, "タスク", ""),
      due := Get(r, "締切日", ""),
      done := IsTrueText(Get(r, "完了", "")),
      tag := Get(r, "属性", TagDefault(v)))
  }

  /** The list load_data returns. */
  function LoadLegacy(rows: seq<seq<string>>, v: Version): (data: seq<Task>)
    ensures |data| == |Records(rows)|
  {
    var rs := Records(rows);
    seq(|rs|, i requires 0 <= i < |rs| => DecodeLegacy(rs[i], v))
  }

  /** load_data: for r in records, set done, task, due and tag. */
  method LoadDataLegacy(ws: Worksheet, v: Version) returns (data: seq<Task>)
    ensures data == LoadLegacy(ws.rows, v)
  {
    var rows := ws.rows;
    ghost var want := LoadLegacy(rows, v);
    var records := Records(rows);
    data := [];
    for i := 0 to |records|
      invariant data == want[..i]
    {
      assert want[i] == DecodeLegacy(records[i], v);
      data := data + [DecodeLegacy(records[i], v)];
      assert data == want[..i + 1];
    }
    assert want[..|records|] == want;
  }

  /** The sheet save_data wrote loads back as the same list in both
      versions, since the header written is the Japanese one. */
  lemma LegacyLoadAfterSave(data: seq<Task>, v: Version)
    ensures LoadLegacy(EncodeSheet(data), v) == data
  {
    var loaded := LoadLegacy(EncodeSheet(data), v);
    forall i | 0 <= i < |data|
      ensures loaded[i] == data[i]
    {
      DecodeLegacyRow(data[i], v);
    }
  }

  /** A row save_data wrote reads back as that task. */
  lemma DecodeLegacyRow(t: Task, v: Version)
    ensures DecodeLegacy(RowRecord(Header, EncodeRow(t)), v) == t
  {
    var row := EncodeRow(t);
    RowRecordAt(Header, row, 0);
    RowRecordAt(Header, row, 1);
    RowRecordAt(Header, row, 2);
    RowRecordAt(Header, row, 3);
    DoneRoundTrip(t.done);
  }

  /** On a sheet with all four Japanese columns, both versions load what
      1.4 loads. */
  lemma LegacyAgreesOnJapaneseHeader(rows: seq<seq<string>>, v: Version)
    requires rows != []
    requires forall k :: k in Header ==> k in rows[0]
    ensures LoadLegacy(rows, v) == LoadData(rows)
  {
    var a := LoadLegacy(rows, v);
    var b := LoadData(rows);
    var rs := Records(rows);
    forall i | 0 <= i < |a|
      ensures a[i] == b[i]
    {
      assert Header[0] in rs[i] && Header[1] in rs[i];
      assert Header[2] in rs[i] && Header[3] in rs[i];
    }
  }

  /** The English header that 1.3 added support for. */
  const EnglishHeader: seq<string> := ["task", "due", "done", "tag"]

  /** A record keyed by the English header has none of the Japanese keys,
      so every field takes its default. */
  lemma EnglishRecordLegacy(r: map<string, string>, v: Version)
    requires forall k :: k in r <==> k in EnglishHeader
    ensures DecodeLegacy(r, v) == Task("", "", false, TagDefault(v))
  {
    assert "タスク" !in r && "締切日" !in r && "完了" !in r && "属性" !in r;
    assert Lower("") == "";
  }

  /** A sheet with the English header loads in 1.1 and 1.2 as blank,
      not-done tasks with the default tag. */
  lemma LegacyIgnoresEnglishHeader(rows: seq<seq<string>>, v: Version)
    requires rows != [] && rows[0] == EnglishHeader
    ensures forall i :: 0 <= i < |LoadLegacy(rows, v)| ==>
      LoadLegacy(rows, v)[i] == Task("", "", false, TagDefault(v))
  {
    var rs := Records(rows);
    var data := LoadLegacy(rows, v);
    forall i | 0 <= i < |data|
      ensures data[i] == Task("", "", false, TagDefault(v))
    {
      EnglishRecordLegacy(rs[i], v);
    }
  }

  /** On the same sheet 1.4 reads each task's text from the first column. */
  lemma CurrentReadsEnglishHeader(rows: seq<seq<string>>)
    requires rows != [] && rows[0] == EnglishHeader
    ensures forall i :: 0 < i < |rows| ==> LoadData(rows)[i - 1].task == CellAt(rows[i], 0)
  {
    forall i | 0 < i < |rows|
      ensures LoadData(rows)[i - 1].task == CellAt(rows[i], 0)
    {
      EnglishRowTask(rows[i]);
    }
  }

  /** A row under the English header: 1.4 takes its text from column 0. */
  lemma EnglishRowTask(row: seq<string>)
    ensures DecodeRecord(RowRecord(EnglishHeader, row)).task == CellAt(row, 0)
  {
    RowRecordAt(EnglishHeader, row, 0);
    assert "タスク" !in EnglishHeader;
  }

  /** The tag preselected in 1.1's edit form: a tag that is not an option
      is shown as "その他". */
  function TagIndexFallback(tag: string): (k: nat)
    ensures k < |TagOptions|
    ensures tag in TagOptions ==> TagOptions[k] == tag
    ensures tag !in TagOptions ==> TagOptions[k] == OtherTag
  {
    IndexOf(TagOptions, if tag in TagOptions then tag else OtherTag)
  }

  /** The tag preselected in 1.2's edit form: list.index(tag), which raises
      ValueError (None here) for a tag that is not an option. */
  function TagIndexAsWritten(tag: string): (k: Option<nat>)
    ensures k.Some? <==> tag in TagOptions
    ensures k.Some? ==> k.value < |TagOptions| && TagOptions[k.value] == tag
  {
    if tag in TagOptions then Some(IndexOf(TagOptions, tag)) else None
  }

  /** In 1.2 every task loaded from a sheet without a 属性 column gets the
      tag "未設定", and opening such a task in the edit form raises; 1.4's
      TagIndex preselects the first option instead. */
  lemma UntaggedTaskNotEditable(rows: seq<seq<string>>)
    requires rows != [] && "属性" !in rows[0]
    ensures forall t :: t in LoadLegacy(rows, V12) ==>
      t.tag == UnsetTag && TagIndexAsWritten(t.tag) == None && TagIndex(t.tag) == 0
  {
    var data := LoadLegacy(rows, V12);
    forall t | t in data
      ensures t.tag == UnsetTag
    {
      var i :| 0 <= i < |data| && data[i] == t;
      assert "属性" !in Records(rows)[i];
    }
  }

  /** The date the 1.1 and 1.2 edit form starts from:
      date.fromisoformat(due) with no fallback.  `parsed` is what it yields
      as ISO text, None when it raises (as it does for ""). */
  function EditDueAsWritten(due: string, parsed: Option<string>): (d: Result<string>)
    requires due == "" ==> parsed.None?
    ensures d.Ok? <==> parsed.Some?
    ensures d.Ok? ==> d.value == parsed.value
  {
    match parsed
    case Some(iso) => Ok(iso)
    case None => Err("Invalid isoformat string: '" + due + "'")
  }

  /** A task loaded from a sheet without a 締切日 column has an empty due,
      so its edit form raises in 1.1 and 1.2; 1.4's EditDueInit starts it
      from today. */
  lemma UndatedTaskNotEditable(rows: seq<seq<string>>, v: Version, today: string)
    requires rows != [] && "締切日" !in rows[0]
    ensures forall t :: t in LoadLegacy(rows, v) ==>
      t.due == "" && EditDueAsWritten(t.due, None).Err? && EditDueInit(t.due, None, today) == today
  {
    var data := LoadLegacy(rows, v);
    forall t | t in data
      ensures t.due == ""
    {
      var i :| 0 <= i < |data| && data[i] == t;
      assert "締切日" !in Records(rows)[i];
    }
  }

  /** 1.2's "Sort by due" button: data.sort(key=lambda x: x["due"]), then
      save_data. */
  method SortByRawDue(ws: Worksheet, data: seq<Task>) returns (sorted: seq<Task>)
    modifies ws
    ensures sorted == SortBy(data, RawDueKey) && ws.rows == EncodeSheet(sorted)
  {
    sorted := SortBy(data, RawDueKey);
    SaveData(ws, sorted);
  }
}
