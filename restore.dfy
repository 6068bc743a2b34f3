/**
 * Backup and restore (versions 1.3 and 1.4).  _as_dataframe turns the
 * list of tasks into a four-column table for the backup file; _normalize_restored_df
 * takes the table read back from a file, maps header variants onto the
 * Japanese column names, fills missing columns, normalises the done and due
 * columns and fixes the column order; restore_from_excel writes the result
 * over the sheet.
 *
 * A table is a list of column names and rows of cells.  A cell is text (its
 * str() form; pandas' NaN and NaT read as "nan" and "NaT") or a bool.
 */
module Restore {
  import opened Wrappers
  import opened Text
  import opened Tasks
  import opened Sheet
  import opened Codec

  datatype Cell = Str(s: string) | Flag(b: bool)

  datatype Frame = Frame(columns: seq<string>, rows: seq<seq<Cell>>)

  /** Every row has one cell per column, as in any DataFrame. */
  predicate Rectangular(f: Frame)
  {
    forall i :: 0 <= i < |f.rows| ==> |f.rows[i]| == |f.columns|
  }

  /** astype(str) of one cell. */
  function CellText(c: Cell): string
  {
    match c
    case Str(s) => s
    case Flag(b) => BoolText(b)
  }

  /** The lower-cased texts that restore reads as done. */
  const TruthyWords: seq<string> := ["true", "1", "t", "y", "yes", "真", "完了"]

  // ---------------------------------------------------------------------
  // Column names
  // ---------------------------------------------------------------------

  /** The alias table of the col_map loop, on a stripped header: each of
      the four names and its English alias map to the name. */
  function AliasTarget(s: string): Option<string>
  {
    if s == "タスク" || s == "task" then Some("タスク")
    else if s == "締切日" || s == "due" then Some("締切日")
    else if s == "完了" || s == "done" then Some("完了")
    else if s == "属性" || s == "tag" then Some("属性")
    else None
  }

  /** A header that, once stripped, is one of the four names or an alias. */
  predicate IsAlias(col: string)
  {
    AliasTarget(Strip(col)).Some?
  }

  /** The name a column has after df.rename(columns=col_map): the target of
      its stripped header, or the header unchanged. */
  function Canonical(col: string): string
  {
    match AliasTarget(Strip(col))
    case Some(name) => name
    case None => col
  }

  /** The table maps each name to itself and each English alias to its
      name. */
  lemma AliasTable()
    ensures AliasTarget("タスク") == Some("タスク")
    ensures AliasTarget("task") == Some("タスク")
    ensures AliasTarget("締切日") == Some("締切日")
    ensures AliasTarget("due") == Some("締切日")
    ensures AliasTarget("完了") == Some("完了")
    ensures AliasTarget("done") == Some("完了")
    ensures AliasTarget("属性") == Some("属性")
    ensures AliasTarget("tag") == Some("属性")
  {
  }

  /** None of the names has surrounding space. */
  lemma NameStripped(s: string)
    requires s in ["タスク", "task", "締切日", "due", "完了", "done", "属性", "tag"]
    ensures Strip(s) == s
  {
    StripUnchanged(s);
  }

  /** So a column headed with a name keeps it, and one headed with an alias
      is renamed to its name. */
  lemma AliasesRenamed()
    ensures Canonical("タスク") == "タスク"
    ensures Canonical("task") == "タスク"
    ensures Canonical("締切日") == "締切日"
    ensures Canonical("due") == "締切日"
    ensures Canonical("完了") == "完了"
    ensures Canonical("done") == "完了"
    ensures Canonical("属性") == "属性"
    ensures Canonical("tag") == "属性"
  {
    AliasTable();
    NameStripped("タスク");
    NameStripped("task");
    NameStripped("締切日");
    NameStripped("due");
    NameStripped("完了");
    NameStripped("done");
    NameStripped("属性");
    NameStripped("tag");
  }
  /** Surrounding space is stripped before the lookup. */
  lemma PaddedAliasRenamed()
    ensures Canonical(" done ") == "完了"
  {
    assert Strip(" done ") == "done" by {
      assert " done "[1..] == "done ";
      assert "done "[..4] == "done";
      StripUnchanged("done");
    }
  }

  /** Any other header keeps its name. */
  lemma OtherHeaderKept(col: string)
    requires !IsAlias(col)
    ensures Canonical(col) == col
  {
  }

  function RenamedColumns(cols: seq<string>): (r: seq<string>)
    ensures |r| == |cols|
    ensures forall j :: 0 <= j < |cols| ==> r[j] == Canonical(cols[j])
  {
    seq(|cols|, j requires 0 <= j < |cols| => Canonical(cols[j]))
  }

  /** The col_map loop: one entry per column whose stripped name is a known
      name or alias. */
  method ColumnMap(cols: seq<string>) returns (colMap: map<string, string>)
    ensures forall col :: col in colMap <==> col in cols && IsAlias(col)
    ensures forall col :: col in colMap ==> colMap[col] == Canonical(col)
  {
    colMap := map[];
    for i := 0 to |cols|
      invariant forall col :: col in colMap <==> col in cols[..i] && IsAlias(col)
      invariant forall col :: col in colMap ==> colMap[col] == Canonical(col)
    {
      match AliasTarget(Strip(cols[i])) {
        case Some(name) => colMap := colMap[cols[i] := name];
        case None =>
      }
      assert cols[..i + 1] == cols[..i] + [cols[i]];
    }
    assert cols[..|cols|] == cols;
  }

  // ---------------------------------------------------------------------
  // Cells
  // ---------------------------------------------------------------------

  /** The value a missing column is filled with: False for 完了, "" else. */
  function DefaultCell(c: string): Cell
  {
    if c == "完了" then Flag(false) else Str("")
  }

  /** The done column becomes a bool: its lower-cased text is a truthy word. */
  function NormalizeDone(cell: Cell): (r: Cell)
    ensures r.Flag? && (r.b <==> Lower(CellText(cell)) in TruthyWords)
  {
    Flag(Lower(CellText(cell)) in TruthyWords)
  }

  /** The due column becomes text with "NaT", then "nan", deleted. */
  function NormalizeDue(cell: Cell): (r: Cell)
    ensures r.Str?
    ensures !Occurs("NaT", CellText(cell)) && !Occurs("nan", CellText(cell)) ==> r == Str(CellText(cell))
    ensures Occurs("NaT", CellText(cell)) || Occurs("nan", CellText(cell)) ==> |r.s| < |CellText(cell)|
    ensures CellText(cell) == "NaT" || CellText(cell) == "nan" ==> r == Str("")
  {
    var s := CellText(cell);
    assert s == "NaT" ==> RemoveAll(RemoveAll(s, "NaT"), "nan") == "" by {
      if s == "NaT" {
        RemoveAllLeading("NaT", "");
        assert "NaT" + "" == "NaT";
      }
    }
    assert s == "nan" ==> RemoveAll(RemoveAll(s, "NaT"), "nan") == "" by {
      if s == "nan" {
        assert "nan"[..3] != "NaT";
        assert !Occurs("NaT", "nan"[1..]);
        RemoveAllAbsent("nan", "NaT");
        RemoveAllLeading("nan", "");
        assert "nan" + "" == "nan";
      }
    }
    assert !Occurs("NaT", s) ==> RemoveAll(s, "NaT") == s by {
      if !Occurs("NaT", s) {
        RemoveAllAbsent(s, "NaT");
      }
    }
    assert !Occurs("NaT", s) && !Occurs("nan", s) ==> RemoveAll(RemoveAll(s, "NaT"), "nan") == s by {
      if !Occurs("NaT", s) && !Occurs("nan", s) {
        RemoveAllAbsent(s, "NaT");
        RemoveAllAbsent(s, "nan");
      }
    }
    Str(RemoveAll(RemoveAll(s, "NaT"), "nan"))
  }

  /** What normalisation does to a cell of column c. */
  function NormalizeCell(c: string, cell: Cell): Cell
  {
    if c == "完了" then NormalizeDone(cell)
    else if c == "締切日" then NormalizeDue(cell)
    else cell
  }

  // ---------------------------------------------------------------------
  // The intended result
  // ---------------------------------------------------------------------

  /** The cell of row i that feeds column c: the first column renamed to c,
      or the fill value when there is none. */
  function Pick(df: Frame, i: nat, c: string): Cell
    requires Rectangular(df) && i < |df.rows|
  {
    var rc := RenamedColumns(df.columns);
    if c in rc then df.rows[i][IndexOf(rc, c)] else DefaultCell(c)
  }

  /** Restore normalisation as intended: exactly the four columns タスク,
      締切日, 完了, 属性 in that order, one row per input row, the done column
      a bool and the due column text. */
  function Normalized(df: Frame): (r: Frame)
    requires Rectangular(df)
    ensures r.columns == Header && Rectangular(r) && |r.rows| == |df.rows|
    ensures forall i :: 0 <= i < |r.rows| ==> r.rows[i][2].Flag? && r.rows[i][1].Str?
  {
    Frame(Header, seq(|df.rows|, i requires 0 <= i < |df.rows| =>
      seq(|Header|, k requires 0 <= k < |Header| => NormalizeCell(Header[k], Pick(df, i, Header[k])))))
  }

  /** A restored task is done exactly when the text of its done (or
      "done") cell, lower-cased, is one of the truthy words; without such a
      column no task is done. */
  lemma NormalizedDone(df: Frame, i: nat)
    requires Rectangular(df) && i < |df.rows|
    ensures Normalized(df).rows[i][2].b <==>
      var rc := RenamedColumns(df.columns);
      "完了" in rc && Lower(CellText(df.rows[i][IndexOf(rc, "完了")])) in TruthyWords
  {
    var rc := RenamedColumns(df.columns);
    if "完了" !in rc {
      var l := Lower("False");
      assert l[0] == 'f';
      assert l !in TruthyWords;
    }
  }

  /** A column missing from the file is filled: empty text for task, due and
      tag, not done for the done column. */
  lemma NormalizedFill(df: Frame, i: nat, k: nat)
    requires Rectangular(df) && i < |df.rows| && k < |Header|
    requires Header[k] !in RenamedColumns(df.columns)
    ensures Normalized(df).rows[i][k] == (if k == 2 then Flag(false) else Str(""))
  {
    var l := Lower("False");
    assert l[0] == 'f';
    assert l !in TruthyWords;
  }

  // ---------------------------------------------------------------------
  // The pandas steps as the script performs them
  // ---------------------------------------------------------------------

  /** The positions j >= from with s[j] == c, in increasing order. */
  function PositionsFrom(s: seq<string>, c: string, from: nat): (r: seq<nat>)
    requires from <= |s|
    ensures forall k :: 0 <= k < |r| ==> from <= r[k] < |s| && s[r[k]] == c
    decreases |s| - from
  {
    if from == |s| then []
    else (if s[from] == c then [from] else []) + PositionsFrom(s, c, from + 1)
  }

  /** Every position of column label c: df[c] selects all of them. */
  function Positions(s: seq<string>, c: string): seq<nat>
  {
    PositionsFrom(s, c, 0)
  }

  /** The label c names more than one column. */
  predicate Duplicated(s: seq<string>, c: string)
  {
    |Positions(s, c)| > 1
  }

  /** df[c] = value for a column that is not there: a new last column. */
  function AddIfMissing(f: Frame, c: string): Frame
    requires Rectangular(f)
  {
    if c in f.columns then f
    else Frame(f.columns + [c], seq(|f.rows|, i requires 0 <= i < |f.rows| => f.rows[i] + [DefaultCell(c)]))
  }

  /** The fill loop over the names, in order. */
  function FillAll(f: Frame, names: seq<string>): (g: Frame)
    requires Rectangular(f)
    ensures Rectangular(g) && |g.rows| == |f.rows|
    decreases |names|
  {
    if names == [] then f
    else AddIfMissing(FillAll(f, names[..|names| - 1]), names[|names| - 1])
  }

  /** df[c] = <normalised column>, for the one column j labelled c. */
  function MapColumn(f: Frame, j: nat, c: string): (g: Frame)
    requires Rectangular(f) && j < |f.columns|
    ensures Rectangular(g) && g.columns == f.columns && |g.rows| == |f.rows|
  {
    Frame(f.columns, seq(|f.rows|, i requires 0 <= i < |f.rows| => f.rows[i][j := NormalizeCell(c, f.rows[i][j])]))
  }

  /** df[[...]]: the columns at the given positions, in that order. */
  function Project(f: Frame, idx: seq<nat>): (g: Frame)
    requires Rectangular(f)
    requires forall k :: 0 <= k < |idx| ==> idx[k] < |f.columns|
    ensures Rectangular(g) && |g.columns| == |idx| && |g.rows| == |f.rows|
  {
    Frame(seq(|idx|, k requires 0 <= k < |idx| => f.columns[idx[k]]),
          seq(|f.rows|, i requires 0 <= i < |f.rows| => seq(|idx|, k requires 0 <= k < |idx| => f.rows[i][idx[k]])))
  }

  /** The positions df[["タスク", "締切日", "完了", "属性"]] selects. */
  function Selection(cols: seq<string>): (idx: seq<nat>)
    ensures forall k :: 0 <= k < |idx| ==> idx[k] < |cols| && cols[idx[k]] in Header
  {
    Positions(cols, Header[0]) + Positions(cols, Header[1]) + Positions(cols, Header[2]) + Positions(cols, Header[3])
  }

  /** The table after renaming and filling, before the two columns are
      normalised. */
  function RenamedAndFilled(df: Frame): (f: Frame)
    requires Rectangular(df)
    ensures Rectangular(f) && |f.rows| == |df.rows|
    ensures forall d :: d in Header ==> d in f.columns
  {
    FillAllHasHeader(Frame(RenamedColumns(df.columns), df.rows), Header);
    FillAll(Frame(RenamedColumns(df.columns), df.rows), Header)
  }

  /** The two conversions, df["完了"] = ... then df["締切日"] = ..., on
      the column each label names. */
  function ConvertDoneDue(f: Frame): (g: Frame)
    requires Rectangular(f) && "完了" in f.columns && "締切日" in f.columns
    ensures Rectangular(g) && g.columns == f.columns && |g.rows| == |f.rows|
  {
    MapColumn(MapColumn(f, IndexOf(f.columns, "完了"), "完了"), IndexOf(f.columns, "締切日"), "締切日")
  }

  /** _normalize_restored_df as written.  When two columns end up with the
      same name, df["完了"] or df["締切日"] is a table rather than a column
      and .str raises; two タスク or 属性 columns are both kept. */
  function NormalizedAsWritten(df: Frame): (r: Result<Frame>)
    requires Rectangular(df)
    ensures r.Ok? ==> Rectangular(r.value) && |r.value.rows| == |df.rows|
    ensures r.Ok? ==> forall k :: 0 <= k < |r.value.columns| ==> r.value.columns[k] in Header
  {
    var f := RenamedAndFilled(df);
    if Duplicated(f.columns, "完了") || Duplicated(f.columns, "締切日") then
      Err("'DataFrame' object has no attribute 'str'")
    else
      var g := ConvertDoneDue(f);
      Ok(Project(g, Selection(g.columns)))
  }

  /** The method the script runs: the col_map loop, the rename, the fill
      loop, the two column conversions and the final selection. */
  method NormalizeRestoredDf(df: Frame) returns (r: Result<Frame>)
    requires Rectangular(df)
    ensures r == NormalizedAsWritten(df)
  {
    var colMap := ColumnMap(df.columns);
    var f := Frame(seq(|df.columns|, j requires 0 <= j < |df.columns| =>
      if df.columns[j] in colMap then colMap[df.columns[j]] else df.columns[j]), df.rows);
    assert f.columns == RenamedColumns(df.columns);
    ghost var renamed := f;
    for k := 0 to |Header|
      invariant Rectangular(f) && f == FillAll(renamed, Header[..k])
    {
      assert Header[..k + 1][..k] == Header[..k];
      if Header[k] !in f.columns {
        f := Frame(f.columns + [Header[k]], seq(|f.rows|, i requires 0 <= i < |f.rows| => f.rows[i] + [DefaultCell(Header[k])]));
      }
    }
    assert Header[..|Header|] == Header;
    if Duplicated(f.columns, "完了") || Duplicated(f.columns, "締切日") {
      return Err("'DataFrame' object has no attribute 'str'");
    }
    FillAllHasHeader(renamed, Header);
    ghost var filled := f;
    f := MapColumn(f, IndexOf(f.columns, "完了"), "完了");
    f := MapColumn(f, IndexOf(f.columns, "締切日"), "締切日");
    assert f == ConvertDoneDue(filled);
    r := Ok(Project(f, Selection(f.columns)));
  }

  // ---------------------------------------------------------------------
  // Lemmas relating the two
  // ---------------------------------------------------------------------

  /** g extends f: same rows, f's columns first, then possibly more. */
  ghost predicate Extends(g: Frame, f: Frame)
  {
    && |f.columns| <= |g.columns| && g.columns[..|f.columns|] == f.columns
    && |g.rows| == |f.rows|
    && forall i :: 0 <= i < |f.rows| ==> |f.columns| <= |g.rows[i]| && g.rows[i][..|f.columns|] == f.rows[i]
  }

  lemma ExtendsTransitive(h: Frame, g: Frame, f: Frame)
    requires Extends(h, g) && Extends(g, f)
    ensures Extends(h, f)
  {
    assert h.columns[..|f.columns|] == h.columns[..|g.columns|][..|f.columns|];
    forall i | 0 <= i < |f.rows|
      ensures h.rows[i][..|f.columns|] == f.rows[i]
    {
      assert h.rows[i][..|f.columns|] == h.rows[i][..|g.columns|][..|f.columns|];
    }
  }

  /** A column already present keeps its position and its cells. */
  lemma ExtendsPick(g: Frame, f: Frame, c: string, i: nat)
    requires Extends(g, f) && Rectangular(f) && c in f.columns && i < |f.rows|
    ensures c in g.columns && IndexOf(g.columns, c) == IndexOf(f.columns, c)
    ensures g.rows[i][IndexOf(g.columns, c)] == f.rows[i][IndexOf(f.columns, c)]
  {
    var p := IndexOf(f.columns, c);
    assert g.columns[p] == f.columns[p];
    assert g.columns[..p] == f.columns[..p];
    IndexOfUnique(g.columns, c, p);
    assert g.rows[i][p] == g.rows[i][..|f.columns|][p];
  }

  lemma IndexOfUnique(s: seq<string>, c: string, p: nat)
    requires p < |s| && s[p] == c && c !in s[..p]
    ensures c in s && IndexOf(s, c) == p
  {
  }

  lemma {:induction false} FillAllExtends(f: Frame, names: seq<string>)
    requires Rectangular(f)
    ensures Extends(FillAll(f, names), f)
    ensures forall d :: d in FillAll(f, names).columns <==> d in f.columns || d in names
    decreases |names|
  {
    if names != [] {
      var n := |names| - 1;
      var g := FillAll(f, names[..n]);
      FillAllExtends(f, names[..n]);
      var h := AddIfMissing(g, names[n]);
      AddIfMissingExtends(g, names[n]);
      ExtendsTransitive(h, g, f);
      assert names == names[..n] + [names[n]];
    }
  }

  /** One step of the fill loop only appends a column. */
  lemma AddIfMissingExtends(g: Frame, c: string)
    requires Rectangular(g)
    ensures Extends(AddIfMissing(g, c), g)
  {
    var h := AddIfMissing(g, c);
    if c !in g.columns {
      assert h.columns[..|g.columns|] == g.columns;
      forall i | 0 <= i < |g.rows|
        ensures h.rows[i][..|g.columns|] == g.rows[i]
      {
        assert h.rows[i] == g.rows[i] + [DefaultCell(c)];
      }
    }
  }

  lemma FillAllHasHeader(f: Frame, names: seq<string>)
    requires Rectangular(f)
    ensures forall d :: d in names ==> d in FillAll(f, names).columns
  {
    FillAllExtends(f, names);
  }

  /** A filled-in column holds the fill value. */
  lemma {:induction false} FillAllDefault(f: Frame, names: seq<string>, c: string, i: nat)
    requires Rectangular(f) && c in names && c !in f.columns && i < |f.rows|
    ensures c in FillAll(f, names).columns
    ensures FillAll(f, names).rows[i][IndexOf(FillAll(f, names).columns, c)] == DefaultCell(c)
    decreases |names|
  {
    var n := |names| - 1;
    var g := FillAll(f, names[..n]);
    var h := FillAll(f, names);
    FillAllExtends(f, names[..n]);
    FillAllExtends(f, names);
    if c in names[..n] {
      FillAllDefault(f, names[..n], c, i);
      AddIfMissingExtends(g, names[n]);
      ExtendsPick(h, g, c, i);
    } else {
      assert names == names[..n] + [names[n]];
      assert c == names[n];
      assert c !in g.columns;
      IndexOfUnique(h.columns, c, |g.columns|);
      assert h.columns[..|g.columns|] == g.columns;
    }
  }

  lemma {:induction false} PositionsAppend(s: seq<string>, x: string, c: string, from: nat)
    requires from <= |s|
    ensures PositionsFrom(s + [x], c, from) == PositionsFrom(s, c, from) + (if x == c then [|s|] else [])
    decreases |s| - from
  {
    var t := s + [x];
    var tail: seq<nat> := if x == c then [|s|] else [];
    if from < |s| {
      PositionsAppend(s, x, c, from + 1);
      assert t[from] == s[from];
      var head: seq<nat> := if s[from] == c then [from] else [];
      assert PositionsFrom(t, c, from) == head + PositionsFrom(t, c, from + 1);
      assert PositionsFrom(s, c, from) == head + PositionsFrom(s, c, from + 1);
      assert head + (PositionsFrom(s, c, from + 1) + tail) == (head + PositionsFrom(s, c, from + 1)) + tail;
    } else {
      assert t[|s|] == x;
      assert PositionsFrom(t, c, |s|) == tail + PositionsFrom(t, c, |s| + 1);
    }
  }

  lemma {:induction false} PositionsAbsent(s: seq<string>, c: string, from: nat)
    requires from <= |s| && c !in s
    ensures PositionsFrom(s, c, from) == []
    decreases |s| - from
  {
    if from < |s| {
      PositionsAbsent(s, c, from + 1);
    }
  }

  /** Filling never duplicates a label: it only adds labels that are absent. */
  lemma {:induction false} FillAllPositions(f: Frame, names: seq<string>, c: string)
    requires Rectangular(f)
    ensures Duplicated(FillAll(f, names).columns, c) <==> Duplicated(f.columns, c)
    decreases |names|
  {
    if names != [] {
      var n := |names| - 1;
      var g := FillAll(f, names[..n]);
      FillAllPositions(f, names[..n], c);
      if names[n] !in g.columns {
        PositionsAppend(g.columns, names[n], c, 0);
        PositionsAbsent(g.columns, names[n], 0);
      }
    }
  }

  /** A label that appears once is selected once, at its position. */
  lemma {:induction false} PositionsSingle(s: seq<string>, c: string, from: nat)
    requires c in s && from <= IndexOf(s, c) && |PositionsFrom(s, c, from)| <= 1
    ensures PositionsFrom(s, c, from) == [IndexOf(s, c)]
    decreases |s| - from
  {
    var p := IndexOf(s, c);
    if from < p {
      assert s[from] != c by {
        assert s[..p][from] == s[from];
      }
      PositionsSingle(s, c, from + 1);
    } else {
      var rest := PositionsFrom(s, c, p + 1);
      assert PositionsFrom(s, c, from) == [p] + rest;
    }
  }

  /** No label appears twice. */
  predicate Distinct(s: seq<string>)
  {
    forall i, j :: 0 <= i < j < |s| ==> s[i] != s[j]
  }

  /** In a header without repeated labels no label is duplicated. */
  lemma {:induction false} PositionsDistinct(s: seq<string>, c: string, from: nat)
    requires Distinct(s) && from <= |s|
    ensures |PositionsFrom(s, c, from)| <= 1
    decreases |s| - from
  {
    if from < |s| {
      var rest := PositionsFrom(s, c, from + 1);
      PositionsDistinct(s, c, from + 1);
      if s[from] == c {
        PositionsNone(s, c, from + 1);
      }
    }
  }

  /** A label absent from s[from..] has no positions there. */
  lemma {:induction false} PositionsNone(s: seq<string>, c: string, from: nat)
    requires from <= |s| && forall j :: from <= j < |s| ==> s[j] != c
    ensures PositionsFrom(s, c, from) == []
    decreases |s| - from
  {
    if from < |s| {
      PositionsNone(s, c, from + 1);
    }
  }

  /** The rename maps no two columns onto the same one of the four names. */
  predicate NoClashes(df: Frame)
  {
    forall k :: 0 <= k < |Header| ==> !Duplicated(RenamedColumns(df.columns), Header[k])
  }

  /** A position holding c is among the positions of c. */
  lemma {:induction false} PositionsComplete(s: seq<string>, c: string, from: nat, j: nat)
    requires from <= j < |s| && s[j] == c
    ensures j in PositionsFrom(s, c, from)
    decreases |s| - from
  {
    if from < j {
      PositionsComplete(s, c, from + 1, j);
    }
  }

  /** A label that is not duplicated names one column only. */
  lemma SingleColumn(s: seq<string>, c: string, j: nat)
    requires j < |s| && s[j] == c && !Duplicated(s, c)
    ensures IndexOf(s, c) == j
  {
    PositionsComplete(s, c, 0, j);
    PositionsComplete(s, c, 0, IndexOf(s, c));
  }

  /** Without duplicates, the conversions touch exactly the done and due
      columns. */
  lemma ConvertDoneDueCell(f: Frame, i: nat, j: nat)
    requires Rectangular(f) && "完了" in f.columns && "締切日" in f.columns
    requires !Duplicated(f.columns, "完了") && !Duplicated(f.columns, "締切日")
    requires i < |f.rows| && j < |f.columns|
    ensures ConvertDoneDue(f).rows[i][j] == NormalizeCell(f.columns[j], f.rows[i][j])
  {
    if f.columns[j] == "完了" {
      SingleColumn(f.columns, "完了", j);
    } else if f.columns[j] == "締切日" {
      SingleColumn(f.columns, "締切日", j);
    }
  }

  /** The cell the filled table holds under one of the four names is the
      one Pick chooses. */
  lemma FilledPick(df: Frame, i: nat, k: nat)
    requires Rectangular(df) && i < |df.rows| && k < |Header|
    ensures Header[k] in RenamedAndFilled(df).columns
    ensures
      var f := RenamedAndFilled(df);
      f.rows[i][IndexOf(f.columns, Header[k])] == Pick(df, i, Header[k])
  {
    var r := Frame(RenamedColumns(df.columns), df.rows);
    FillAllExtends(r, Header);
    FillAllHasHeader(r, Header);
    if Header[k] in r.columns {
      ExtendsPick(RenamedAndFilled(df), r, Header[k], i);
    } else {
      FillAllDefault(r, Header, Header[k], i);
    }
  }

  /** After the fill, each name labels exactly one column. */
  lemma FilledSingle(df: Frame)
    requires Rectangular(df) && NoClashes(df)
    ensures forall k :: 0 <= k < |Header| ==>
      Header[k] in RenamedAndFilled(df).columns && !Duplicated(RenamedAndFilled(df).columns, Header[k])
  {
    var r := Frame(RenamedColumns(df.columns), df.rows);
    FillAllHasHeader(r, Header);
    forall k | 0 <= k < |Header|
      ensures !Duplicated(RenamedAndFilled(df).columns, Header[k])
    {
      FillAllPositions(r, Header, Header[k]);
    }
  }

  /** The selection picks, for each name, its one column. */
  lemma SelectionOfSingles(cols: seq<string>)
    requires forall k :: 0 <= k < |Header| ==> Header[k] in cols && !Duplicated(cols, Header[k])
    ensures Selection(cols) == [IndexOf(cols, Header[0]), IndexOf(cols, Header[1]),
                                IndexOf(cols, Header[2]), IndexOf(cols, Header[3])]
  {
    forall k | 0 <= k < |Header|
      ensures Positions(cols, Header[k]) == [IndexOf(cols, Header[k])]
    {
      PositionsSingle(cols, Header[k], 0);
    }
  }

  /** Cell by cell, the projected conversion is the intended table. */
  lemma AsWrittenCell(df: Frame, i: nat, k: nat)
    requires Rectangular(df) && NoClashes(df) && i < |df.rows| && k < |Header|
    ensures
      var f := RenamedAndFilled(df);
      && k < |Selection(f.columns)|
      && Project(ConvertDoneDue(f), Selection(f.columns)).rows[i][k] == Normalized(df).rows[i][k]
  {
    var f := RenamedAndFilled(df);
    FilledSingle(df);
    SelectionOfSingles(f.columns);
    var j := IndexOf(f.columns, Header[k]);
    assert Selection(f.columns)[k] == j;
    ConvertDoneDueCell(f, i, j);
    FilledPick(df, i, k);
  }

  /** Without clashes the duplicate check passes and the selection runs. */
  lemma AsWrittenSucceeds(df: Frame)
    requires Rectangular(df) && NoClashes(df)
    ensures "完了" in RenamedAndFilled(df).columns && "締切日" in RenamedAndFilled(df).columns
    ensures NormalizedAsWritten(df) ==
      Ok(Project(ConvertDoneDue(RenamedAndFilled(df)), Selection(RenamedAndFilled(df).columns)))
  {
    var f := RenamedAndFilled(df);
    FilledSingle(df);
    assert !Duplicated(f.columns, Header[1]) && !Duplicated(f.columns, Header[2]);
  }

  /** When no two columns are renamed onto the same name, the script's
      pipeline computes exactly the intended table. */
  lemma AsWrittenIsNormalized(df: Frame)
    requires Rectangular(df) && NoClashes(df)
    ensures NormalizedAsWritten(df) == Ok(Normalized(df))
  {
    var f := RenamedAndFilled(df);
    AsWrittenSucceeds(df);
    var p := Project(ConvertDoneDue(f), Selection(f.columns));
    var want := Normalized(df);
    AsWrittenColumns(df);
    AsWrittenRows(df);
    assert p.rows == want.rows;
  }

  /** The selection yields the four names in order. */
  lemma AsWrittenColumns(df: Frame)
    requires Rectangular(df) && NoClashes(df)
    ensures
      var f := RenamedAndFilled(df);
      && (forall k :: 0 <= k < |Selection(f.columns)| ==> Selection(f.columns)[k] < |f.columns|)
      && "完了" in f.columns && "締切日" in f.columns
      && Project(ConvertDoneDue(f), Selection(f.columns)).columns == Header
  {
    var f := RenamedAndFilled(df);
    FilledSingle(df);
    SelectionOfSingles(f.columns);
    SinglesProjected(ConvertDoneDue(f));
  }

  /** Selecting the one column of each name yields the four names. */
  lemma SinglesProjected(g: Frame)
    requires Rectangular(g)
    requires forall k :: 0 <= k < |Header| ==> Header[k] in g.columns
    requires Selection(g.columns) == [IndexOf(g.columns, Header[0]), IndexOf(g.columns, Header[1]),
                                      IndexOf(g.columns, Header[2]), IndexOf(g.columns, Header[3])]
    ensures Project(g, Selection(g.columns)).columns == Header
  {
    var idx := Selection(g.columns);
    var p := Project(g, idx);
    assert p.columns == [g.columns[idx[0]], g.columns[idx[1]], g.columns[idx[2]], g.columns[idx[3]]];
  }

  /** Row by row, the selection is the intended table. */
  lemma AsWrittenRows(df: Frame)
    requires Rectangular(df) && NoClashes(df)
    ensures
      var f := RenamedAndFilled(df);
      && "完了" in f.columns && "締切日" in f.columns
      && forall i :: 0 <= i < |df.rows| ==>
        Project(ConvertDoneDue(f), Selection(f.columns)).rows[i] == Normalized(df).rows[i]
  {
    var f := RenamedAndFilled(df);
    AsWrittenSucceeds(df);
    FilledSingle(df);
    SelectionOfSingles(f.columns);
    var p := Project(ConvertDoneDue(f), Selection(f.columns));
    var want := Normalized(df);
    forall i | 0 <= i < |df.rows|
      ensures p.rows[i] == want.rows[i]
    {
      forall k | 0 <= k < |Header|
        ensures p.rows[i][k] == want.rows[i][k]
      {
        AsWrittenCell(df, i, k);
      }
    }
  }

  /** Filling adds nothing when every name is already there. */
  lemma {:induction false} FillAllPresent(f: Frame, names: seq<string>)
    requires Rectangular(f)
    requires forall d :: d in names ==> d in f.columns
    ensures FillAll(f, names) == f
    decreases |names|
  {
    if names != [] {
      var n := |names| - 1;
      assert forall d :: d in names[..n] ==> d in names;
      FillAllPresent(f, names[..n]);
      assert names[n] in names;
    }
  }

  /** The columns of the example below after the rename. */
  lemma DuplicateTaskRenamed()
    ensures RenamedColumns(["タスク", "task", "締切日", "完了", "属性"]) == ["タスク", "タスク", "締切日", "完了", "属性"]
  {
    var cols := ["タスク", "task", "締切日", "完了", "属性"];
    var renamed := RenamedColumns(cols);
    NameKept(cols[0]);
    TaskAliasRenamed();
    NameKept(cols[2]);
    NameKept(cols[3]);
    NameKept(cols[4]);
  }

  lemma TaskAliasRenamed()
    ensures Canonical("task") == "タスク"
  {
    NameStripped("task");
  }

  lemma DoneAliasRenamed()
    ensures Canonical("done") == "完了"
  {
    NameStripped("done");
  }

  lemma DuplicateTaskPositions0()
    ensures Positions(["タスク", "タスク", "締切日", "完了", "属性"], "タスク") == [0, 1]
  {
    var s := ["タスク", "タスク", "締切日", "完了", "属性"];
    assert PositionsFrom(s, "タスク", 4) == [];
    assert PositionsFrom(s, "タスク", 3) == [];
    assert PositionsFrom(s, "タスク", 2) == [];
    assert PositionsFrom(s, "タスク", 1) == [1];
    assert PositionsFrom(s, "タスク", 0) == [0, 1];
  }

  lemma DuplicateTaskPositions1()
    ensures Positions(["タスク", "タスク", "締切日", "完了", "属性"], "締切日") == [2]
  {
    var s := ["タスク", "タスク", "締切日", "完了", "属性"];
    assert PositionsFrom(s, "締切日", 4) == [];
    assert PositionsFrom(s, "締切日", 3) == [];
    assert PositionsFrom(s, "締切日", 2) == [2];
    assert PositionsFrom(s, "締切日", 1) == [2];
    assert PositionsFrom(s, "締切日", 0) == [2];
  }

  lemma DuplicateTaskPositions2()
    ensures Positions(["タスク", "タスク", "締切日", "完了", "属性"], "完了") == [3]
  {
    var s := ["タスク", "タスク", "締切日", "完了", "属性"];
    assert PositionsFrom(s, "完了", 4) == [];
    assert PositionsFrom(s, "完了", 3) == [3];
    assert PositionsFrom(s, "完了", 2) == [3];
    assert PositionsFrom(s, "完了", 1) == [3];
    assert PositionsFrom(s, "完了", 0) == [3];
  }

  lemma DuplicateTaskPositions3()
    ensures Positions(["タスク", "タスク", "締切日", "完了", "属性"], "属性") == [4]
  {
    var s := ["タスク", "タスク", "締切日", "完了", "属性"];
    assert PositionsFrom(s, "属性", 4) == [4];
    assert PositionsFrom(s, "属性", 3) == [4];
    assert PositionsFrom(s, "属性", 2) == [4];
    assert PositionsFrom(s, "属性", 1) == [4];
    assert PositionsFrom(s, "属性", 0) == [4];
  }

  /** All four names are already there, so the fill adds nothing. */
  lemma DuplicateTaskFilled(rc: seq<string>, rows: seq<seq<Cell>>)
    requires rc == ["タスク", "タスク", "締切日", "完了", "属性"]
    requires Rectangular(Frame(rc, rows))
    ensures FillAll(Frame(rc, rows), Header) == Frame(rc, rows)
  {
    assert Header[0] == rc[0] && Header[1] == rc[2] && Header[2] == rc[3] && Header[3] == rc[4];
    FillAllPresent(Frame(rc, rows), Header);
  }

  lemma DuplicateTaskIndexes(rc: seq<string>)
    requires rc == ["タスク", "タスク", "締切日", "完了", "属性"]
    ensures IndexOf(rc, "完了") == 3 && IndexOf(rc, "締切日") == 2
  {
    IndexOfUnique(rc, "完了", 3);
    IndexOfUnique(rc, "締切日", 2);
  }

  lemma DuplicateTaskSelection(rc: seq<string>)
    requires rc == ["タスク", "タスク", "締切日", "完了", "属性"]
    ensures Selection(rc) == [0, 1, 2, 3, 4]
  {
    DuplicateTaskPositions0();
    DuplicateTaskPositions1();
    DuplicateTaskPositions2();
    DuplicateTaskPositions3();
  }

  /** The conversions touch the 完了 and 締切日 columns only: both task
      columns keep their cells. */
  lemma DuplicateTaskColumns(rc: seq<string>, rows: seq<seq<Cell>>)
    requires rc == ["タスク", "タスク", "締切日", "完了", "属性"]
    requires Rectangular(Frame(rc, rows))
    ensures ConvertDoneDue(Frame(rc, rows)).columns == rc
    ensures forall i :: 0 <= i < |rows| ==>
      ConvertDoneDue(Frame(rc, rows)).rows[i][0] == rows[i][0] &&
      ConvertDoneDue(Frame(rc, rows)).rows[i][1] == rows[i][1]
  {
    DuplicateTaskIndexes(rc);
  }

  lemma DuplicateTaskPipeline(df: Frame, rc: seq<string>)
    requires rc == ["タスク", "タスク", "締切日", "完了", "属性"]
    requires Rectangular(df) && RenamedAndFilled(df) == Frame(rc, df.rows)
    ensures NormalizedAsWritten(df) == Ok(Project(ConvertDoneDue(Frame(rc, df.rows)), Selection(rc)))
  {
    DuplicateTaskPositions1();
    DuplicateTaskPositions2();
  }

  /** A file with both "タスク" and "task" columns: the script keeps both,
      so the restored table has five columns, two of them named タスク, and
      each row keeps both task cells. */
  lemma AsWrittenKeepsDuplicateTaskColumns(df: Frame)
    requires Rectangular(df) && df.columns == ["タスク", "task", "締切日", "完了", "属性"]
    ensures NormalizedAsWritten(df).Ok?
    ensures
      var g := NormalizedAsWritten(df).value;
      && g.columns == ["タスク", "タスク", "締切日", "完了", "属性"]
      && |g.rows| == |df.rows|
      && forall i :: 0 <= i < |df.rows| ==> g.rows[i][0] == df.rows[i][0] && g.rows[i][1] == df.rows[i][1]
  {
    var rc := ["タスク", "タスク", "締切日", "完了", "属性"];
    DuplicateTaskRenamed();
    DuplicateTaskFilled(rc, df.rows);
    DuplicateTaskPipeline(df, rc);
    DuplicateTaskProjected(rc, df.rows);
  }

  /** The selection keeps all five columns and both task cells. */
  lemma DuplicateTaskProjected(rc: seq<string>, rows: seq<seq<Cell>>)
    requires rc == ["タスク", "タスク", "締切日", "完了", "属性"]
    requires Rectangular(Frame(rc, rows))
    ensures forall k :: 0 <= k < |Selection(rc)| ==> Selection(rc)[k] < |rc|
    ensures
      var g := Project(ConvertDoneDue(Frame(rc, rows)), Selection(rc));
      && g.columns == rc && |g.rows| == |rows|
      && forall i :: 0 <= i < |rows| ==> g.rows[i][0] == rows[i][0] && g.rows[i][1] == rows[i][1]
  {
    DuplicateTaskColumns(rc, rows);
    DuplicateTaskSelection(rc);
    ProjectFive(ConvertDoneDue(Frame(rc, rows)));
  }

  /** Selecting all five columns of a five-column table, in order, gives
      the table back. */
  lemma ProjectFive(c: Frame)
    requires Rectangular(c) && |c.columns| == 5
    ensures Project(c, [0, 1, 2, 3, 4]) == c
  {
    var g := Project(c, [0, 1, 2, 3, 4]);
    assert g.columns == c.columns;
    forall i | 0 <= i < |c.rows|
      ensures g.rows[i] == c.rows[i]
    {
    }
  }

  /** When the rename gives two columns the name 完了 or two the name
      締切日, restoring fails: df["完了"] (or df["締切日"]) is then a table
      and .str raises, whatever the rows hold. */
  lemma AsWrittenFailsOnClash(df: Frame)
    requires Rectangular(df)
    requires Duplicated(RenamedColumns(df.columns), "完了") || Duplicated(RenamedColumns(df.columns), "締切日")
    ensures NormalizedAsWritten(df).Err?
  {
    var r := Frame(RenamedColumns(df.columns), df.rows);
    FillAllPositions(r, Header, "完了");
    FillAllPositions(r, Header, "締切日");
  }

  /** Two positions holding c make c a duplicated label. */
  lemma TwoPositions(s: seq<string>, c: string, p: nat, q: nat)
    requires p < q < |s| && s[p] == c && s[q] == c
    ensures Duplicated(s, c)
  {
    PositionsComplete(s, c, 0, p);
    PositionsComplete(s, c, 0, q);
    var ps := Positions(s, c);
  }

  /** A file with both a "完了" and a "done" column: restoring it fails,
      whatever the other columns and the rows hold. */
  lemma AsWrittenFailsOnDuplicateDoneColumns(df: Frame)
    requires Rectangular(df) && "完了" in df.columns && "done" in df.columns
    ensures NormalizedAsWritten(df).Err?
  {
    var p, q := IndexOf(df.columns, "完了"), IndexOf(df.columns, "done");
    var rc := RenamedColumns(df.columns);
    NameKept("完了");
    DoneAliasRenamed();
    assert rc[p] == "完了" && rc[q] == "完了";
    if p < q {
      TwoPositions(rc, "完了", p, q);
    } else {
      TwoPositions(rc, "完了", q, p);
    }
    AsWrittenFailsOnClash(df);
  }

  // ---------------------------------------------------------------------
  // Backup and restore
  // ---------------------------------------------------------------------

  /** _as_dataframe: the four columns, one row per task (zero rows for an
      empty list), done as a bool. */
  function AsDataFrame(data: seq<Task>): (f: Frame)
    ensures f.columns == Header && Rectangular(f) && |f.rows| == |data|
  {
    Frame(Header, seq(|data|, i requires 0 <= i < |data| =>
      [Str(data[i].task), Str(data[i].due), Flag(data[i].done), Str(data[i].tag)]))
  }

  /** How the spreadsheet shows a written cell: a bool as TRUE or FALSE. */
  function SheetCell(c: Cell): string
  {
    match c
    case Str(s) => s
    case Flag(b) => if b then "TRUE" else "FALSE"
  }

  /** ws.update([df.columns] + df.values): the header row, then the rows. */
  function SheetRows(f: Frame): (rows: seq<seq<string>>)
    ensures |rows| == |f.rows| + 1 && rows[0] == f.columns
  {
    [f.columns] + seq(|f.rows|, i requires 0 <= i < |f.rows| =>
      seq(|f.rows[i]|, k requires 0 <= k < |f.rows[i]| => SheetCell(f.rows[i][k])))
  }

  /** The due as it comes back from a backup: markers deleted. */
  function RestoredDue(due: string): string
  {
    NormalizeDue(Str(due)).s
  }

  lemma HeaderRenamesToItself()
    ensures RenamedColumns(Header) == Header
  {
    var r := RenamedColumns(Header);
    forall k | 0 <= k < |Header|
      ensures r[k] == Header[k]
    {
      NameKept(Header[k]);
    }
  }

  /** A column headed with one of the four names keeps it. */
  lemma NameKept(s: string)
    requires s in Header
    ensures Canonical(s) == s
  {
    NameStripped(s);
  }

  /** In a backup table every name is found in its own column. */
  lemma BackupPick(data: seq<Task>, i: nat, k: nat)
    requires i < |data| && k < |Header|
    ensures Pick(AsDataFrame(data), i, Header[k]) == AsDataFrame(data).rows[i][k]
  {
    HeaderRenamesToItself();
    IndexOfUnique(Header, Header[k], k);
  }

  /** The done flag survives astype(str), lower() and the truthy test. */
  lemma DoneFlagKept(b: bool)
    ensures NormalizeDone(Flag(b)) == Flag(b)
  {
    if b {
      assert Lower("True") == "true";
    } else {
      assert Lower("False")[0] == 'f';
    }
  }

  /** One row of a restored backup. */
  lemma NormalizedBackupRow(data: seq<Task>, i: nat)
    requires i < |data|
    ensures Normalized(AsDataFrame(data)).rows[i] ==
      [Str(data[i].task), Str(RestoredDue(data[i].due)), Flag(data[i].done), Str(data[i].tag)]
  {
    var row := Normalized(AsDataFrame(data)).rows[i];
    var want := [Str(data[i].task), Str(RestoredDue(data[i].due)), Flag(data[i].done), Str(data[i].tag)];
    forall k | 0 <= k < 4
      ensures row[k] == want[k]
    {
      BackupCell(data, i, k);
    }
  }

  /** Each cell of a normalised backup row: text cells are kept, the due
      loses its markers and the done flag is kept. */
  lemma BackupCell(data: seq<Task>, i: nat, k: nat)
    requires i < |data| && k < |Header|
    ensures Normalized(AsDataFrame(data)).rows[i][k] ==
      [Str(data[i].task), Str(RestoredDue(data[i].due)), Flag(data[i].done), Str(data[i].tag)][k]
  {
    BackupPick(data, i, k);
    if k == 2 {
      DoneFlagKept(data[i].done);
    }
  }

  /** The sheet row the restore writes for task i. */
  lemma RestoredSheetRow(data: seq<Task>, i: nat)
    requires i < |data|
    ensures
      var t := data[i];
      SheetRows(Normalized(AsDataFrame(data)))[i + 1] ==
        [t.task, RestoredDue(t.due), if t.done then "TRUE" else "FALSE", t.tag]
  {
    NormalizedBackupRow(data, i);
    SheetRowCells(Normalized(AsDataFrame(data)), i);
  }

  lemma SheetRowCells(f: Frame, i: nat)
    requires i < |f.rows| && |f.rows[i]| == 4
    ensures SheetRows(f)[i + 1] ==
      [SheetCell(f.rows[i][0]), SheetCell(f.rows[i][1]), SheetCell(f.rows[i][2]), SheetCell(f.rows[i][3])]
  {
  }

  /** Reading back a row the restore wrote, with the done cell shown as
      TRUE or FALSE. */
  lemma DecodeRestoredRow(t: Task)
    ensures DecodeRecord(RowRecord(Header, [t.task, t.due, if t.done then "TRUE" else "FALSE", t.tag])) == t
  {
    var row := [t.task, t.due, if t.done then "TRUE" else "FALSE", t.tag];
    RowRecordAt(Header, row, 0);
    RowRecordAt(Header, row, 1);
    RowRecordAt(Header, row, 2);
    RowRecordAt(Header, row, 3);
    assert IsTrueText("TRUE") by {
      assert Lower("TRUE") == "true";
    }
    assert !IsTrueText("FALSE") by {
      assert Lower("FALSE")[0] == 'f';
    }
  }

  /** A backup table goes through the script's normalisation without
      error and comes out as the intended table: its four names are
      distinct and already canonical, so no two columns clash. */
  lemma BackupIsAsWritten(data: seq<Task>)
    ensures NormalizedAsWritten(AsDataFrame(data)) == Ok(Normalized(AsDataFrame(data)))
  {
    var df := AsDataFrame(data);
    HeaderRenamesToItself();
    assert Distinct(Header);
    forall k | 0 <= k < |Header|
      ensures !Duplicated(RenamedColumns(df.columns), Header[k])
    {
      PositionsDistinct(Header, Header[k], 0);
    }
    AsWrittenIsNormalized(df);
  }

  /** Restoring a backup of the list, as restore_from_excel does it, and
      loading the sheet gives back every task with the same text, done flag
      and tag, in the same order; only "NaT" and "nan" are deleted from the
      dues. */
  lemma BackupRestoreRoundTrip(data: seq<Task>)
    ensures NormalizedAsWritten(AsDataFrame(data)).Ok?
    ensures |LoadData(SheetRows(NormalizedAsWritten(AsDataFrame(data)).value))| == |data|
    ensures forall i :: 0 <= i < |data| ==>
      LoadData(SheetRows(NormalizedAsWritten(AsDataFrame(data)).value))[i] == data[i].(due := RestoredDue(data[i].due))
  {
    BackupIsAsWritten(data);
    NormalizedBackupLoads(data);
  }

  /** Loading the sheet written from the intended table of a backup. */
  lemma NormalizedBackupLoads(data: seq<Task>)
    ensures |LoadData(SheetRows(Normalized(AsDataFrame(data))))| == |data|
    ensures forall i :: 0 <= i < |data| ==>
      LoadData(SheetRows(Normalized(AsDataFrame(data))))[i] == data[i].(due := RestoredDue(data[i].due))
  {
    var rows := SheetRows(Normalized(AsDataFrame(data)));
    forall i | 0 <= i < |data|
      ensures LoadData(rows)[i] == data[i].(due := RestoredDue(data[i].due))
    {
      var t := data[i].(due := RestoredDue(data[i].due));
      var row := [t.task, t.due, if t.done then "TRUE" else "FALSE", t.tag];
      RestoredSheetRow(data, i);
      assert rows[0] == Header;
      assert LoadData(rows)[i] == DecodeRecord(RowRecord(Header, row));
      DecodeRestoredRow(t);
    }
  }

  /** For dues without the markers (every ISO date), the round trip is
      exact. */
  lemma BackupRestoreExact(data: seq<Task>)
    requires forall t :: t in data ==> !Occurs("NaT", t.due) && !Occurs("nan", t.due)
    ensures NormalizedAsWritten(AsDataFrame(data)).Ok?
    ensures LoadData(SheetRows(NormalizedAsWritten(AsDataFrame(data)).value)) == data
  {
    BackupRestoreRoundTrip(data);
    var loaded := LoadData(SheetRows(NormalizedAsWritten(AsDataFrame(data)).value));
    forall i | 0 <= i < |data|
      ensures loaded[i] == data[i]
    {
      assert data[i] in data;
    }
  }
}
