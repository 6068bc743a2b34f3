# todo_app_gsheet — a Dafny model of the to-do list script

The repository holds five versions (1.0 to 1.4) of one Streamlit script: a
personal to-do list kept in a Google Sheets worksheet. Every run of the
script reads the whole sheet into a list of task records (`load_data`).
Each button handler changes that list in place and writes the whole list
back (`save_data`), then reruns the script. Version 1.4 is the reference
here. Version 1.3 has the same list, sheet and restore logic. Apart from
comments and docstrings it differs from 1.4 only in the backup:
`backup_to_xlsx` in 1.3 writes to the Downloads folder and falls back to
an in-memory file on any error (1.3:99-111), while 1.4 always builds the
file in memory, hands back the bytes when `IS_CLOUD` holds and otherwise
writes them to Downloads with no fallback (1.4:94, 1.4:100-120); the
button label and the message shown afterwards differ too (1.3:182,
1.4:184). All of this is file I/O, which the model leaves out (see the
Excel line under "## Left out"). Versions 1.0 to
1.2 are modelled where they differ from 1.4.

What is modelled:

- **The sheet.** `Sheet.Worksheet` is a grid of text cells whose first row
  is the header. `Sheet.Records` is what `get_all_records()` makes of it:
  one record per data row, built like `dict(zip(header, row))`. Short rows
  are padded with `""`, and when a header name appears twice the later
  column wins, as in the gspread releases that built records that way
  (see "## Left out").
- **Task records.** `Tasks.Task` holds task, due, done and tag.
  `Tasks.IsOverdue` is the red-highlight rule. `Tasks.TagIndex` is the tag
  preselected in edit mode. `Tasks.EditDueInit` is the date the edit form
  starts from.
- **Reading and writing the sheet.** `Codec.LoadData` is 1.4's
  `load_data`: the Japanese column first, then the English one, then a
  default, and done when `str(cell).lower() == "true"`. `Codec.SaveData`
  is `save_data`: the header, then one row per task.
- **Sorting.** `Sorting.SortBy` is Python's stable `list.sort`.
  `Sorting.DueKey` is `_sort_key_due`: tasks with a due come first in
  ascending order, tasks without one come last.
- **Backup and restore.** `Restore.AsDataFrame` is `_as_dataframe`.
  `Restore.NormalizeRestoredDf` is `_normalize_restored_df` as written:
  column renaming, default columns, the done and due conversions, and the
  final column selection. `Restore.Normalized` is the intended result.
  `App.TodoApp.RestoreFromBackup` runs the as-written normalisation before
  it clears the sheet, so when that raises the sheet is left as it was. The
  Excel file written and read back is taken to be the same table.
- **The list view.** `ListOps` states each edit as a function from the old
  list to the new one. `App.TodoApp` is a class with `data` and
  `editIndex` fields whose button methods change them and save.
- **Older versions.** `Legacy` covers 1.1 and 1.2: a loading loop that
  reads Japanese columns only, the older tag defaults, the edit form
  without fallbacks, and 1.2's sort on the raw due text. `V10` covers 1.0:
  three columns, no tag, a checkbox loop, and a save at the end of every
  run.

The current date is a parameter (`today`, as ISO text). So is what
`date.fromisoformat` yields, passed as `parsed`: `None` when it raises.
Widget values (the text typed, the picked date, the checkbox states, which
button was pressed) are method parameters.

One might expect every handler to save the list. The code is followed
instead: in 1.1 to 1.4 the done checkbox changes the list but does not
call `save_data`. `App.TodoApp.SetDone` therefore leaves the sheet alone.
In 1.0, the save at the end of the run does store the checkbox state
(`V10.TodoApp10.RenderList`).

## Model

| member | source | states |
|---|---|---|
| Text.Strip | todo_app_gsheet_1.4.py:220 | `str.strip()` never makes the text longer; StripSpec states which characters it drops. |
| Text.StripSpec | todo_app_gsheet_1.4.py:220 | `str.strip()` gives "" exactly when every character is whitespace. A non-empty result starts and ends with a non-space and is no longer than the input. |
| Text.TrimLeftSpec | todo_app_gsheet_1.4.py:158 | Leading-strip keeps a suffix of the input, drops only whitespace, and does not start with whitespace. |
| Text.TrimRightSpec | todo_app_gsheet_1.4.py:158 | Trailing-strip keeps a prefix of the input, drops only whitespace, and does not end with whitespace. |
| Text.StripUnchanged | todo_app_gsheet_1.4.py:126 | A name without whitespace at either end strips to itself. |
| Text.StripIdempotent | todo_app_gsheet_1.4.py:220-223 | Stripping twice is the same as stripping once. |
| Text.Lower | todo_app_gsheet_1.4.py:44 | `.lower()` keeps the length and maps each capital A–Z to its small letter; other characters are unchanged. |
| Text.StrLess | todo_app_gsheet_1.4.py:243 | Python's `<` on strings, by code point; a string is never before itself. |
| Text.StrLessIsLexBefore | todo_app_gsheet_1.4.py:243 | Python's `<` on strings is lexicographic code-point order: a proper prefix comes first, otherwise the first differing character decides. |
| Text.StrLessIrreflexive | todo_app_gsheet_1.4.py:243 | No string is less than itself. |
| Text.StrLessTransitive | todo_app_gsheet_1.4.py:243 | String order is transitive. |
| Text.StrLessTotal | todo_app_gsheet_1.4.py:243 | Of two different strings, one is less than the other. |
| Text.StrLessConcat | todo_app_gsheet_1.4.py:243 | Comparing two strings with equal-length heads compares the heads first, then the tails. |
| Text.RemoveAll | todo_app_gsheet_1.4.py:145 | `str.replace(pat, "")` never makes the text longer, and when the pattern occurs the text loses at least its length. |
| Text.RemoveAllChanges | todo_app_gsheet_1.4.py:145 | The replacement changes the text exactly when the pattern occurs in it. |
| Text.RemoveAllAbsent | todo_app_gsheet_1.4.py:145 | Text that does not contain the pattern is left unchanged. |
| Text.RemoveAllLeading | todo_app_gsheet_1.4.py:145 | An occurrence at the head of the text is deleted whole and the scan resumes after it. |
| Text.RemoveAllRepeat | todo_app_gsheet_1.4.py:145 | Text made only of repetitions of the pattern becomes "". |
| Text.RemoveAllSinglePass | todo_app_gsheet_1.4.py:145 | The replacement is one left-to-right pass: "nnanan" becomes "nan", which still contains "nan". |
| Dates.DigitsOrder | todo_app_gsheet_1.4.py:243 | For digit strings of equal length, string order is numeric order. |
| Dates.FieldOrder | todo_app_gsheet_1.4.py:243 | Equal-length digit fields compare as numbers and are equal exactly when their values are equal. |
| Dates.IsoDateStripped | todo_app_gsheet_1.4.py:158 | An ISO date has no surrounding whitespace to strip. |
| Dates.IsoOrderIsCalendarOrder | todo_app_gsheet_1.4.py:243 | For two YYYY-MM-DD dates, string `<` holds exactly when the first date is an earlier calendar day (year, then month, then day). |
| Sheet.RowRecord | todo_app_gsheet_1.4.py:39 | A record's keys are exactly the header names. |
| Sheet.RowRecordAt | todo_app_gsheet_1.4.py:39 | A header name that does not occur again later maps to the cell in its own column, or "" past the end of the row. |
| Sheet.LastIndex | todo_app_gsheet_1.4.py:39 | The position of the last header column with a given name. |
| Sheet.RowRecordLast | todo_app_gsheet_1.4.py:39 | Every header name is a key, and it reads the cell under the last column with that name (so the later of two equal names wins), or "" past the end of the row. |
| Sheet.Records | todo_app_gsheet_1.4.py:39 | One record per row after the header, each built from the header and that row. |
| Sheet.Worksheet.Clear | todo_app_gsheet_1.4.py:52 | `ws.clear()` leaves the sheet empty. |
| Sheet.Worksheet.AppendRow | todo_app_gsheet_1.4.py:53-60 | `ws.append_row` adds one row after the existing ones. |
| Sheet.Worksheet.Update | todo_app_gsheet_1.4.py:154 | `ws.update(values)`, called only on a cleared sheet, makes the sheet hold exactly those values. |
| Tasks.IndexOf | todo_app_gsheet_1.4.py:258 | `list.index(x)` returns the first position holding x. |
| Tasks.IsOverdue | todo_app_gsheet_1.4.py:243 | The red-highlight test; a done task, an undated task and a task due today are never highlighted. |
| Tasks.OverdueIsEarlierDay | todo_app_gsheet_1.4.py:243 | For ISO dates, a task is shown as overdue exactly when it is not done and its due day is before today; a task due today is never overdue. |
| Tasks.TagIndex | todo_app_gsheet_1.4.py:255-260 | The preselected option is always valid. A tag that is an option selects itself; any other tag selects option 0. |
| Tasks.EditDueInit | todo_app_gsheet_1.4.py:250-253 | The edit form starts from the parsed due when the due is non-empty and parses. Otherwise, including for an empty due, it starts from today. |
| Codec.Field | todo_app_gsheet_1.4.py:42-45 | Each field is read from the Japanese column when present, else from the English column, else takes the default. |
| Codec.IsTrueText | todo_app_gsheet_1.4.py:44 | `str(cell).lower() == "true"`; only a four-character cell passes. |
| Codec.TrueTextIsCaseless | todo_app_gsheet_1.4.py:44 | A cell reads as done exactly when it is "true" in any letter case. |
| Codec.DecodeRecord | todo_app_gsheet_1.4.py:41-46 | For each of task, due, done and tag, the Japanese key wins, else its English twin is read, else "" for task and due, not done, and tag 未設定; done is true exactly when the cell read is "true" ignoring case. |
| Codec.LoadData | todo_app_gsheet_1.4.py:38-48 | One task per data row of the sheet. |
| Codec.LoadDataRow | todo_app_gsheet_1.4.py:38-48 | Task i comes from sheet row i+1: its task, due and tag are the cells under their columns (Japanese name first, then English, else the default), and it is done exactly when its done cell is "true" in any case. |
| Codec.FieldAt | todo_app_gsheet_1.4.py:41-46 | The nested `get` on a row's record reads the cell ColumnValue finds. |
| Codec.EncodeRow | todo_app_gsheet_1.4.py:55-60 | One cell per header column. |
| Codec.EncodeSheet | todo_app_gsheet_1.4.py:51-60 | The saved sheet is the header タスク/締切日/完了/属性 followed by one row per task, in list order. |
| Codec.SaveData | todo_app_gsheet_1.4.py:51-60 | After clear and append_row calls, the sheet holds exactly EncodeSheet of the list. |
| Codec.DoneRoundTrip | todo_app_gsheet_1.4.py:44 | `str(bool)` written to the sheet reads back as the same flag. |
| Codec.DecodeEncodedRow | todo_app_gsheet_1.4.py:38-60 | A row that save_data wrote loads back as the same task. |
| Codec.LoadAfterSave | todo_app_gsheet_1.4.py:38-60 | Loading what save_data wrote gives back the same list: every field, every task, same order. |
| Sorting.KeyLessIrreflexive | todo_app_gsheet_1.4.py:157-159 | No key sorts before itself. |
| Sorting.KeyLessTransitive | todo_app_gsheet_1.4.py:157-159 | The tuple order on `(blank, text)` keys is transitive. |
| Sorting.KeyLessTotal | todo_app_gsheet_1.4.py:157-159 | Of two different keys, one sorts before the other. |
| Sorting.KeyNotLessTransitive | todo_app_gsheet_1.4.py:157-159 | "Not before" is transitive. |
| Sorting.DueKey | todo_app_gsheet_1.4.py:157-159 | The key's text is the stripped due. The key is marked blank exactly when the due is all whitespace. |
| Sorting.RawDueKey | todo_app_gsheet_1.2.py:72 | The 1.2 key is the raw due text and never counts as blank. |
| Sorting.Insert | todo_app_gsheet_1.4.py:196 | One step of `list.sort`: the task is placed before the first task whose key is not smaller; the list grows by one. |
| Sorting.SortBy | todo_app_gsheet_1.4.py:196 | `list.sort(key=...)` as insertion sort; it keeps the length (the lemmas below state permutation, order and stability). |
| Sorting.InsertPermutation | todo_app_gsheet_1.4.py:196 | One insertion step adds exactly the inserted task and loses nothing. |
| Sorting.InsertSorted | todo_app_gsheet_1.4.py:196 | Inserting into a sorted list keeps it sorted. |
| Sorting.InsertWithKey | todo_app_gsheet_1.4.py:196 | Among the tasks with a given key, the inserted one comes first and the others keep their order. |
| Sorting.SortByPermutation | todo_app_gsheet_1.4.py:196 | `list.sort` returns a permutation of the list. |
| Sorting.SortBySorted | todo_app_gsheet_1.4.py:196 | After `list.sort` no task has a smaller key than one before it. |
| Sorting.SortByStable | todo_app_gsheet_1.4.py:196 | The sort is stable: tasks with equal keys keep their relative order. |
| Sorting.SortByDueOrder | todo_app_gsheet_1.4.py:196 | After "sort by due", tasks without a due come last, and stripped dues are in ascending string order. |
| Sorting.IsoDueNotEarlier | todo_app_gsheet_1.4.py:157-159 | For ISO dates, a due that does not sort before another is not an earlier day. |
| Sorting.SortByDueChronological | todo_app_gsheet_1.4.py:196 | When every due is an ISO date, the sorted list is in calendar order. |
| Sorting.SortByRawDueEmptyFirst | todo_app_gsheet_1.2.py:72 | 1.2's sort puts every task with an empty due before every task that has one. |
| Restore.AliasesRenamed | todo_app_gsheet_1.4.py:124-134 | Each Japanese and English column name is renamed to its Japanese name. |
| Restore.PaddedAliasRenamed | todo_app_gsheet_1.4.py:126 | Names are matched after stripping: " done " is renamed to 完了. |
| Restore.OtherHeaderKept | todo_app_gsheet_1.4.py:124-136 | A column whose stripped name is not an alias keeps its name. |
| Restore.RenamedColumns | todo_app_gsheet_1.4.py:136 | `df.rename` renames every column position independently, so duplicates are kept. |
| Restore.ColumnMap | todo_app_gsheet_1.4.py:124-134 | The rename map has exactly the columns whose stripped name is an alias, each mapped to its Japanese name. |
| Restore.NormalizeDone | todo_app_gsheet_1.4.py:141-143 | A done cell becomes a boolean that is true exactly when its lower-cased text is one of true/1/t/y/yes/真/完了. |
| Restore.NormalizeDue | todo_app_gsheet_1.4.py:144-146 | A due cell becomes text. A cell reading "NaT" or "nan" (a missing value after `astype(str)`) becomes ""; text without either is kept as it was; text containing either comes out strictly shorter. |
| Restore.Normalized | todo_app_gsheet_1.4.py:123-147 | The intended result: exactly the four Japanese columns, one row per input row, a boolean done cell and a text due cell in each row. |
| Restore.NormalizedDone | todo_app_gsheet_1.4.py:141-143 | A normalised row is done exactly when there is a column renamed to 完了 and the first such column holds a truthy word in any letter case. With no such column, no row is done. |
| Restore.NormalizedFill | todo_app_gsheet_1.4.py:137-139 | A missing column is filled with False for 完了 and "" for the others. |
| Restore.FillAll | todo_app_gsheet_1.4.py:137-139 | Adding missing columns keeps the table rectangular and the row count unchanged. |
| Restore.FillAllExtends | todo_app_gsheet_1.4.py:137-139 | Filling only appends columns: the original columns and cells are untouched, and the column set gains exactly the missing names. |
| Restore.FillAllDefault | todo_app_gsheet_1.4.py:137-139 | A filled column holds the default cell in every row. |
| Restore.FillAllPositions | todo_app_gsheet_1.4.py:137-139 | Filling never creates or removes a duplicated column name. |
| Restore.FillAllPresent | todo_app_gsheet_1.4.py:137-139 | When all four names are present, nothing is added. |
| Restore.MapColumn | todo_app_gsheet_1.4.py:141-146 | Converting a column keeps the column names and the row count. |
| Restore.Project | todo_app_gsheet_1.4.py:147 | `df[[...]]` gives one column per selected position and keeps the rows. |
| Restore.Selection | todo_app_gsheet_1.4.py:147 | Every position that label selection picks is a valid column position holding one of the four names. |
| Restore.RenamedAndFilled | todo_app_gsheet_1.4.py:136-139 | After renaming and filling, all four Japanese names are present. |
| Restore.ConvertDoneDue | todo_app_gsheet_1.4.py:141-146 | The conversions keep the column names and the row count. |
| Restore.NormalizedAsWritten | todo_app_gsheet_1.4.py:123-147 | `_normalize_restored_df` as written: on success, a rectangular table with one row per input row whose every column is one of the four names. |
| Restore.NormalizeRestoredDf | todo_app_gsheet_1.4.py:123-147 | The loop-based normalisation yields NormalizedAsWritten: an error when 完了 or 締切日 is duplicated after renaming, otherwise the selected table. |
| Restore.AsWrittenIsNormalized | todo_app_gsheet_1.4.py:123-147 | When no two columns rename to the same name, the as-written normalisation yields exactly the intended table. |
| Restore.AsWrittenColumns | todo_app_gsheet_1.4.py:147 | Without clashes, the final selection yields the four names in order. |
| Restore.AsWrittenRows | todo_app_gsheet_1.4.py:137-147 | Without clashes, each selected row equals the intended row. |
| Restore.PositionsDistinct | todo_app_gsheet_1.4.py:147 | In a header without repeated names, no label selects more than one column. |
| Restore.AsWrittenFailsOnClash | todo_app_gsheet_1.4.py:136-146 | Whenever the rename gives two columns the name 完了 or 締切日, the normalisation raises, whatever the rows hold. |
| Restore.AsWrittenKeepsDuplicateTaskColumns | todo_app_gsheet_1.4.py:127-147 | A table headed タスク, task, 締切日, 完了, 属性, with any rows, comes out with five columns, two named タスク, and each row keeps both task cells. |
| Restore.AsWrittenFailsOnDuplicateDoneColumns | todo_app_gsheet_1.4.py:131-141 | Any table with both a 完了 and a done column, whatever its other columns and rows, makes the normalisation raise. |
| Restore.AsDataFrame | todo_app_gsheet_1.4.py:64-77 | The backup table has the four Japanese columns and one row per task, an empty list included. |
| Restore.SheetRows | todo_app_gsheet_1.4.py:154 | The sheet written by restore has the column names as its header and one row per table row. |
| Restore.HeaderRenamesToItself | todo_app_gsheet_1.4.py:124-136 | The header of a backup is renamed to itself. |
| Restore.DoneFlagKept | todo_app_gsheet_1.4.py:141-143 | A boolean done cell normalises to itself. |
| Restore.BackupIsAsWritten | todo_app_gsheet_1.4.py:64-147 | A backup table goes through the as-written normalisation without error and yields exactly the intended table. |
| Restore.DecodeRestoredRow | todo_app_gsheet_1.4.py:38-48 | A restored row, with TRUE/FALSE in the done column, loads back as that task. |
| Restore.BackupRestoreRoundTrip | todo_app_gsheet_1.4.py:64-154 | Backup, then restore as the script runs it, then load: the normalisation succeeds and gives the same number of tasks. Each task is unchanged except that "NaT" and "nan" are removed from its due. |
| Restore.BackupRestoreExact | todo_app_gsheet_1.4.py:64-154 | When no due contains "NaT" or "nan", backup, then restore as the script runs it, then load gives back exactly the list. |
| ListOps.Added | todo_app_gsheet_1.4.py:219-229 | Blank text adds nothing. Otherwise exactly one not-done task is appended: the stripped text, the picked due and tag, and a task text that is non-empty and starts with a non-space. |
| ListOps.Removed | todo_app_gsheet_1.4.py:281 | `pop(i)` shifts the later rows down by one and removes exactly one copy of row i. |
| ListOps.Swapped | todo_app_gsheet_1.4.py:288-294 | Two neighbouring rows trade places, and the list is a permutation of the old one. |
| ListOps.MovedUp | todo_app_gsheet_1.4.py:287-288 | "Up" on any row but the first swaps it with the row above. On the first row nothing changes. |
| ListOps.MovedDown | todo_app_gsheet_1.4.py:293-294 | "Down" on any row but the last swaps it with the row below. On the last row nothing changes. |
| ListOps.Edited | todo_app_gsheet_1.4.py:268-270 | The edited row takes the new text, due and tag and keeps its done flag; no other row changes. |
| ListOps.Checked | todo_app_gsheet_1.4.py:263 | Only the done flag of that row changes. |
| ListOps.RemoveAdded | todo_app_gsheet_1.4.py:219-285 | Deleting a task just added restores the list. |
| ListOps.UpThenDown | todo_app_gsheet_1.4.py:287-297 | "Up" on row i, then "Down" on row i-1, restores the list. |
| ListOps.DownThenUp | todo_app_gsheet_1.4.py:287-297 | "Down" on row i, then "Up" on row i+1, restores the list. |
| ListOps.EditUnchanged | todo_app_gsheet_1.4.py:268-270 | Saving an edit with the row's own values changes nothing. |
| App.TodoApp.constructor | todo_app_gsheet_1.4.py:165-167 | A first run loads the list from the sheet; no row is in edit mode. |
| App.TodoApp.Reload | todo_app_gsheet_1.4.py:165-167 | A rerun reloads the list and keeps the edit row. After a save the reloaded list is the one that was saved. |
| App.TodoApp.Add | todo_app_gsheet_1.4.py:219-232 | Returns whether a task was added, which happens exactly when the text is not blank. The list becomes Added; the sheet is saved only when something was added. |
| App.TodoApp.Delete | todo_app_gsheet_1.4.py:280-284 | The row is removed, edit mode ends, and the sheet holds the new list. |
| App.TodoApp.MoveUp | todo_app_gsheet_1.4.py:287-290 | The list becomes MovedUp. It is saved only when a swap happened; the edit row index is unchanged. |
| App.TodoApp.MoveDown | todo_app_gsheet_1.4.py:293-296 | The list becomes MovedDown. It is saved only when a swap happened; the edit row index is unchanged. |
| App.TodoApp.StartEdit | todo_app_gsheet_1.4.py:275-277 | Row i enters edit mode; the list is unchanged. |
| App.TodoApp.SaveEdit | todo_app_gsheet_1.4.py:267-273 | The edited row is replaced as in Edited, edit mode ends, and the sheet holds the new list. |
| App.TodoApp.SetDone | todo_app_gsheet_1.4.py:263 | The row's done flag is set; the sheet is not written. |
| App.TodoApp.SortByDue | todo_app_gsheet_1.4.py:195-199 | The list is stable-sorted by due, and the sheet holds the sorted list. |
| App.TodoApp.RestoreFromBackup | todo_app_gsheet_1.4.py:150-154 | The result is the as-written normalisation. When it raises, the sheet is left unchanged (the error is shown); otherwise the sheet is cleared and holds the normalised table. |
| Legacy.TagDefault | todo_app_gsheet_1.2.py:30 | The 1.1 default tag is an option; the 1.2 default "未設定" is not. |
| Legacy.DecodeLegacy | todo_app_gsheet_1.2.py:26-30 | Only the Japanese keys are read: task, due and tag are the cells under タスク, 締切日 and 属性, done is true exactly when the 完了 cell is "true" ignoring case; a missing key gives "" for task and due, not done, and the version's default tag. |
| Legacy.LoadLegacy | todo_app_gsheet_1.2.py:24-31 | One task per data row. |
| Legacy.LoadDataLegacy | todo_app_gsheet_1.2.py:24-31 | The record loop produces exactly LoadLegacy of the sheet. |
| Legacy.LegacyLoadAfterSave | todo_app_gsheet_1.1.py:27-40 | In 1.1 and 1.2, loading what save_data wrote gives back the same list. |
| Legacy.LegacyAgreesOnJapaneseHeader | todo_app_gsheet_1.2.py:24-31 | On a sheet with all four Japanese columns, the 1.1/1.2 loader and the 1.4 loader give the same list. |
| Legacy.EnglishRecordLegacy | todo_app_gsheet_1.2.py:26-30 | A record keyed by English names loads as an empty, not-done task with the default tag. |
| Legacy.LegacyIgnoresEnglishHeader | todo_app_gsheet_1.2.py:24-31 | On a sheet with the English header, 1.1/1.2 load every row as a blank, not-done task with the default tag. |
| Legacy.CurrentReadsEnglishHeader | todo_app_gsheet_1.4.py:38-48 | On the same sheet, 1.4 reads each task's text from the first column. |
| Legacy.TagIndexFallback | todo_app_gsheet_1.1.py:81-87 | The 1.1 preselected option is always valid. A tag that is an option selects itself; any other tag selects "その他". |
| Legacy.TagIndexAsWritten | todo_app_gsheet_1.2.py:93 | The 1.2 lookup succeeds exactly when the tag is an option, and then finds that option. |
| Legacy.UntaggedTaskNotEditable | todo_app_gsheet_1.2.py:30-93 | Every task loaded by 1.2 from a sheet without a 属性 column has tag 未設定, so its edit form raises. 1.4's TagIndex picks option 0 instead. |
| Legacy.EditDueAsWritten | todo_app_gsheet_1.2.py:92 | The 1.1/1.2 edit form opens exactly when the due parses; an empty due never parses. |
| Legacy.UndatedTaskNotEditable | todo_app_gsheet_1.1.py:27-80 | A task loaded from a sheet without a 締切日 column has an empty due, so its 1.1/1.2 edit form raises. 1.4's EditDueInit starts it from today. |
| Legacy.SortByRawDue | todo_app_gsheet_1.2.py:71-74 | The 1.2 sort button stable-sorts by the raw due and saves the sorted list. |
| V10.DecodeItem | todo_app_gsheet_1.0.py:32-35 | Only the Japanese keys are read: task and due are the cells under タスク and 締切日, done is true exactly when the 完了 cell is "true" ignoring case; a missing key gives "" for task and due, and not done. |
| V10.LoadItems | todo_app_gsheet_1.0.py:30-36 | One entry per data row. |
| V10.LoadData10 | todo_app_gsheet_1.0.py:30-36 | The record loop produces exactly LoadItems of the sheet. |
| V10.EncodeItem | todo_app_gsheet_1.0.py:43 | Each row has the three columns of the 1.0 header. |
| V10.EncodeSheet10 | todo_app_gsheet_1.0.py:39-43 | The saved sheet is the header タスク/締切日/完了 followed by one row per entry. |
| V10.SaveData10 | todo_app_gsheet_1.0.py:39-43 | After clear and append_row calls, the sheet holds exactly EncodeSheet10 of the list. |
| V10.LoadItemsAfterSave | todo_app_gsheet_1.0.py:30-43 | Loading what 1.0's save_data wrote gives back the same list. |
| V10.DecodeItemRow | todo_app_gsheet_1.0.py:39-43 | A row 1.0 wrote loads in 1.4 as the same task with tag 未設定. |
| V10.CurrentReadsV10Sheet | todo_app_gsheet_1.0.py:39-43 | 1.4 opening a sheet saved by 1.0 keeps every entry and gives each the tag 未設定. |
| V10.V10ReadsCurrentSheet | todo_app_gsheet_1.0.py:30-36 | 1.0 opening a sheet saved by 1.4 reads text, due and done of every task. |
| V10.V10SaveDropsTags | todo_app_gsheet_1.0.py:30-43 | After 1.0 loads and saves a 1.4 sheet, every tag is lost: 1.4 reads back each task with tag 未設定 and everything else unchanged. |
| V10.Ticked | todo_app_gsheet_1.0.py:65-70 | The first n rows take the drawn checkbox states; the rest are unchanged. |
| V10.AddedItem | todo_app_gsheet_1.0.py:59-60 | Blank text adds nothing. Otherwise the stripped text is appended as a not-done entry whose text starts with a non-space. |
| V10.TodoApp10.constructor | todo_app_gsheet_1.0.py:48-50 | A run starts by loading the list from the sheet. |
| V10.TodoApp10.Add | todo_app_gsheet_1.0.py:59-63 | Returns whether an entry was added, which happens exactly when the text is not blank. The sheet is saved only then. |
| V10.TodoApp10.RenderList | todo_app_gsheet_1.0.py:65-78 | When row k's delete is pressed, rows up to k take their checkbox states, row k is removed, and the sheet is saved. Otherwise every row takes its checkbox state and the final save writes the list. Either way the sheet ends up holding the list. |
| V10.QuietRunKeepsList | todo_app_gsheet_1.0.py:65-78 | A run with no clicks leaves the list as loaded, and the next run loads the same list again. |
| V10.Flags | todo_app_gsheet_1.0.py:69 | The checkbox states start from the done flags of the list. |

## Left out

- Credentials, `get_worksheet` and the creation of a missing worksheet are network set-up and are not modelled.
- `get_all_records` is modelled as older gspread releases built it, with `dict(zip(header, row))`, so a repeated header name lets the later column win. Recent gspread releases check the header for repeated names and raise instead; with them, a sheet that a restore wrote with two タスク columns makes the next `load_data` fail and the app stop (todo_app_gsheet_1.4.py:163-168).
- `get_all_records` turns numeric-looking cells into numbers. The model keeps every cell as text, so `str(cell)` is the cell itself.
- Text.Lower: folds ASCII letters only. Python's `str.lower` also folds non-ASCII capitals, which is irrelevant to the words compared here.
- The Excel file is not modelled. `backup_to_xlsx` and `pd.read_excel` are taken to round-trip the table unchanged, and backup file naming, the Downloads folder, `_open_folder` and the download button are I/O.
- `astype(str)` of a missing cell ("nan"/"NaT") is modelled through the cell text only. Reading an empty Excel cell as NaN is not modelled.
- Streamlit's rerun, `time.sleep`, `st.success`/`st.error` messages, the session keys of the add form (1.2 and later) and the page layout are UI and are not modelled. Each handler is one method, and a rerun is `App.TodoApp.Reload`.
- 1.3 is not modelled separately: its load, save, sort, restore and handlers are 1.4's, with only comments and docstrings added. The GUI part is at lines two lower (sort 194, add 217, overdue 241); `load_data` is at line 37, `_as_dataframe` at 65, `_normalize_restored_df` at 114 and `restore_from_excel` at 147.
- The 1.1 and 1.2 list handlers (add, delete, up, down, edit, checkbox) are 1.4's and are covered by `App.TodoApp`. `Legacy` models only what differs.
- The try/except around the initial load, which shows an error and stops, is not modelled: a worksheet is always given.
- `RenderList` in 1.0 takes at most one pressed delete button per run, as Streamlit reports one click per run.

## Findings

| source | as written | input that shows it | evidently intended | confidence | as-written member | corrected member |
|---|---|---|---|---|---|---|
| todo_app_gsheet_1.4.py:127-147 | Two columns that rename to the same name (タスク and task) are both kept, and `df[[...]]` returns both | an Excel table with columns タスク, task, 締切日, 完了, 属性 | one column per Japanese name, four columns in all | not executed | Restore.AsWrittenKeepsDuplicateTaskColumns | Restore.Normalized |
| todo_app_gsheet_1.4.py:131-141 | With two columns renamed to 完了, `df["完了"]` is a table and `.str` raises AttributeError | an Excel table with columns 完了 and done | one done column, converted | not executed | Restore.AsWrittenFailsOnDuplicateDoneColumns | Restore.Normalized |
| todo_app_gsheet_1.2.py:30-93 | The load default tag 未設定 is not a selectbox option, so `.index(item["tag"])` raises ValueError when such a task is edited | a sheet without a 属性 column, then "Edit" on any row | preselect the first option | not executed | Legacy.UntaggedTaskNotEditable | Tasks.TagIndex |
| todo_app_gsheet_1.1.py:80 | `date.fromisoformat(item["due"])` raises ValueError for an empty due | a sheet without a 締切日 column, then "Edit" on any row | start the edit form from today | not executed | Legacy.UndatedTaskNotEditable | Tasks.EditDueInit |
