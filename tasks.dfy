/**
 * Task records and the small per-task rules of the list view (versions
 * 1.3 and 1.4): the overdue highlight, the tag preselected in edit mode and
 * the date the edit form starts from.
 */
module Tasks {
  import opened Wrappers
  import opened Text
  import opened Dates

  /** One to-do entry: its text, its due date as ISO text ("" for none),
      whether it is done, and its tag. */
  datatype Task = Task(task: string, due: string, done: bool, tag: string)

  /** The tag a record gets when the sheet has no tag column. */
  const UnsetTag: string := "未設定"

  /** The choices of the tag selectbox, in display order. */
  const TagOptions: seq<string> := ["仕事", "プライベート", "その他"]

  /** The position of the first x in s, as list.index(x) returns it. */
  function IndexOf<T(==)>(s: seq<T>, x: T): (k: nat)
    requires x in s
    ensures k < |s| && s[k] == x && x !in s[..k]
  {
    if s[0] == x then 0
    else
      assert s == [s[0]] + s[1..];
      var k := IndexOf(s[1..], x);
      assert s[..k + 1] == [s[0]] + s[1..][..k];
      k + 1
  }

  /** A task is shown in red when it is not done, has a due date, and that
      date sorts before today's ISO date.  A done task, an undated task and
      a task due today are never shown so. */
  predicate IsOverdue(t: Task, today: string)
    ensures IsOverdue(t, today) ==> !t.done && t.due != "" && t.due != today
  {
    !t.done && t.due != "" && StrLess(t.due, today)
  }

  /** With well-formed dates, "overdue" means "not done and due on an
      earlier calendar day than today"; a task due today is not overdue. */
  lemma OverdueIsEarlierDay(t: Task, today: string)
    requires IsIsoDate(t.due) && IsIsoDate(today)
    ensures IsOverdue(t, today) <==> !t.done && EarlierDate(t.due, today)
    ensures t.due == today ==> !IsOverdue(t, today)
  {
    IsoOrderIsCalendarOrder(t.due, today);
    StrLessIrreflexive(today);
  }

  /** The selectbox position preselected when editing: the tag's own position
      when it is one of the options, else the first option. */
  function TagIndex(tag: string): (k: nat)
    ensures k < |TagOptions|
    ensures tag in TagOptions ==> TagOptions[k] == tag
    ensures tag !in TagOptions ==> k == 0
  {
    if tag in TagOptions then IndexOf(TagOptions, tag) else 0
  }

  /** The date the edit form starts from.  `parsed` is what
      date.fromisoformat(due) yields, rendered back as ISO text, or None
      when it raises; a due that is empty or does not parse falls back to
      today. */
  function EditDueInit(due: string, parsed: Option<string>, today: string): (d: string)
    ensures due != "" && parsed.Some? ==> d == parsed.value
    ensures due == "" || parsed.None? ==> d == today
  {
    if due != "" then
      match parsed
      case Some(iso) => iso
      case None => today
    else today
  }
}
