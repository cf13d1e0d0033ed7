/** What converting one loaded table does, stated as functions of the table:
    which rows are skipped, the file each other row writes, and the
    directory contents after the first n rows (the row loop of
    process_csv_file). */
module Conversion {
  import opened Tables
  import opened Sanitize
  import opened Naming
  import opened Jobs

  /** A directory: file name to the descriptor that file holds. */
  type Directory = map<string, Descriptor>

  /** One file written: its name and what it holds. */
  datatype Write = Write(file: string, descriptor: Descriptor)

  const FallbackPrefix: string := "sequence_"
  const JsonSuffix: string := ".json"

  /** A row is skipped when its target or its guide sequence is NaN. */
  predicate IsSkipped(t: Table, i: nat)
    requires i < |t.rows|
    ensures !IsSkipped(t, i) ==> TargetColumn in t.columns && GuideColumn in t.columns
  {
    CellAt(t, i, TargetColumn).None? || CellAt(t, i, GuideColumn).None?
  }

  /** The job name of the row at position i: its cleaned id, or
      "sequence_<i+1>" when cleaning leaves nothing. */
  function RowName(t: Table, i: nat): (name: string)
    requires i < |t.rows|
    ensures name != [] && NoForbidden(name)
    ensures CleanGuideId(CellAt(t, i, IdColumn)) != [] ==> name == CleanGuideId(CellAt(t, i, IdColumn))
    ensures CleanGuideId(CellAt(t, i, IdColumn)) == [] ==> name == FallbackPrefix + Decimal(i + 1)
  {
    var cleaned := CleanGuideId(CellAt(t, i, IdColumn));
    if cleaned != [] then cleaned
    else
      FallbackNameClean(i + 1);
      FallbackPrefix + Decimal(i + 1)
  }

  /** The fallback name "sequence_<n>" has no forbidden character. */
  lemma FallbackNameClean(n: nat)
    ensures NoForbidden(FallbackPrefix + Decimal(n))
  {
    var digits := Decimal(n);
    var r := FallbackPrefix + digits;
    assert forall k :: |FallbackPrefix| <= k < |r| ==> r[k] == digits[k - |FallbackPrefix|];
  }

  /** The file the row at position i writes, or None when it is skipped. */
  function RowWrite(t: Table, i: nat): (w: Option<Write>)
    requires i < |t.rows|
    ensures w.None? <==> IsSkipped(t, i)
    ensures w.Some? ==> && IsJob(w.value.descriptor)
                        && w.value.file == w.value.descriptor.name + JsonSuffix
                        && w.value.descriptor.name != []
                        && w.value.descriptor.name == RowName(t, i)
                        && TargetOf(w.value.descriptor) == CellAt(t, i, TargetColumn).value
                        && GuideOf(w.value.descriptor) == CellAt(t, i, GuideColumn).value
  {
    if IsSkipped(t, i) then None
    else
      var name := RowName(t, i);
      Some(Write(name + JsonSuffix, Build(name, CellAt(t, i, TargetColumn).value, CellAt(t, i, GuideColumn).value)))
  }

  /** The outcome of every row, in row order. */
  function Plan(t: Table): (ws: seq<Option<Write>>)
    ensures |ws| == |t.rows|
    ensures forall i :: 0 <= i < |t.rows| ==> ws[i] == RowWrite(t, i)
  {
    seq(|t.rows|, i requires 0 <= i < |t.rows| => RowWrite(t, i))
  }

  /** ws lists the outcome of every row of t, in row order: the pointwise
      form of ws == Plan(t), used by the contracts of the row loop so that
      they need not unfold the comprehension. */
  ghost predicate IsPlanOf(t: Table, ws: seq<Option<Write>>) {
    |ws| == |t.rows| && forall i {:trigger RowWrite(t, i)} :: 0 <= i < |t.rows| ==> ws[i] == RowWrite(t, i)
  }

  /** Whether the outcome at position i writes the file f. */
  predicate Writes(ws: seq<Option<Write>>, i: nat, f: string)
    requires i < |ws|
  {
    ws[i].Some? && ws[i].value.file == f
  }

  /** The directory after the first n outcomes, starting from before. */
  function FilesAfter(ws: seq<Option<Write>>, n: nat, before: Directory): (files: Directory)
    requires n <= |ws|
    ensures before.Keys <= files.Keys
  {
    if n == 0 then before
    else
      var d := FilesAfter(ws, n - 1, before);
      match ws[n - 1]
      case None => d
      case Some(w) => d[w.file := w.descriptor]
  }

  /** json_count after the first n outcomes. */
  function WrittenCount(ws: seq<Option<Write>>, n: nat): (c: nat)
    requires n <= |ws|
    ensures c <= n
  {
    if n == 0 then 0 else WrittenCount(ws, n - 1) + (if ws[n - 1].None? then 0 else 1)
  }

  /** skipped_count after the first n outcomes. */
  function SkippedCount(ws: seq<Option<Write>>, n: nat): (c: nat)
    requires n <= |ws|
    ensures c <= n
  {
    if n == 0 then 0 else SkippedCount(ws, n - 1) + (if ws[n - 1].None? then 1 else 0)
  }

  /** The names of the files the first n outcomes write. */
  function NamesWritten(ws: seq<Option<Write>>, n: nat): set<string>
    requires n <= |ws|
  {
    if n == 0 then {}
    else
      match ws[n - 1]
      case None => NamesWritten(ws, n - 1)
      case Some(w) => NamesWritten(ws, n - 1) + {w.file}
  }

  /** The position of the last of the first n outcomes that writes f. */
  function LastWriter(ws: seq<Option<Write>>, n: nat, f: string): (r: Option<nat>)
    requires n <= |ws|
    ensures r.Some? ==> r.value < n && Writes(ws, r.value, f)
    ensures r.Some? ==> forall j :: r.value < j < n ==> !Writes(ws, j, f)
    ensures r.None? ==> forall j :: 0 <= j < n ==> !Writes(ws, j, f)
  {
    if n == 0 then None
    else if Writes(ws, n - 1, f) then Some(n - 1)
    else LastWriter(ws, n - 1, f)
  }

  /** Every row is either written or skipped, so the two counters together
      count the rows processed. */
  lemma {:induction false} CountsAddUp(ws: seq<Option<Write>>, n: nat)
    requires n <= |ws|
    ensures WrittenCount(ws, n) + SkippedCount(ws, n) == n
  {
    if n > 0 {
      CountsAddUp(ws, n - 1);
    }
  }

  /** json_count stays 0 exactly while every row so far was skipped. */
  lemma {:induction false} WrittenCountZero(ws: seq<Option<Write>>, n: nat)
    requires n <= |ws|
    ensures WrittenCount(ws, n) == 0 <==> forall j :: 0 <= j < n ==> ws[j].None?
  {
    if n > 0 {
      WrittenCountZero(ws, n - 1);
    }
  }

  /** skipped_count stays 0 exactly while every row so far was written. */
  lemma {:induction false} SkippedCountZero(ws: seq<Option<Write>>, n: nat)
    requires n <= |ws|
    ensures SkippedCount(ws, n) == 0 <==> forall j :: 0 <= j < n ==> ws[j].Some?
  {
    if n > 0 {
      SkippedCountZero(ws, n - 1);
    }
  }

  /** The names written are exactly the files of the outcomes that write. */
  lemma {:induction false} NamesWrittenExactly(ws: seq<Option<Write>>, n: nat, f: string)
    requires n <= |ws|
    ensures f in NamesWritten(ws, n) <==> exists j :: 0 <= j < n && Writes(ws, j, f)
  {
    if n > 0 {
      NamesWrittenExactly(ws, n - 1, f);
      if Writes(ws, n - 1, f) {
        assert f in NamesWritten(ws, n);
      }
    }
  }

  /** A file present afterwards was present before or written by a valid
      row; its content is the descriptor of the LAST valid row bearing its
      name (later rows overwrite earlier ones), and it is the untouched old
      content when no row wrote it. */
  lemma {:induction false} LastWriterWins(ws: seq<Option<Write>>, n: nat, before: Directory, f: string)
    requires n <= |ws|
    ensures f in FilesAfter(ws, n, before) <==> f in before || LastWriter(ws, n, f).Some?
    ensures LastWriter(ws, n, f).Some? ==>
              FilesAfter(ws, n, before)[f] == ws[LastWriter(ws, n, f).value].value.descriptor
    ensures LastWriter(ws, n, f).None? && f in before ==> FilesAfter(ws, n, before)[f] == before[f]
  {
    if n > 0 {
      LastWriterWins(ws, n - 1, before, f);
    }
  }

  /** The directory afterwards holds the old files and the written names,
      and nothing else. */
  lemma {:induction false} KeysAfter(ws: seq<Option<Write>>, n: nat, before: Directory)
    requires n <= |ws|
    ensures FilesAfter(ws, n, before).Keys == before.Keys + NamesWritten(ws, n)
  {
    if n > 0 {
      KeysAfter(ws, n - 1, before);
    }
  }

  /** The number of distinct names written is at most json_count; it is
      smaller exactly when names collide. */
  lemma {:induction false} DistinctNamesBound(ws: seq<Option<Write>>, n: nat)
    requires n <= |ws|
    ensures |NamesWritten(ws, n)| <= WrittenCount(ws, n)
  {
    if n > 0 {
      DistinctNamesBound(ws, n - 1);
    }
  }

  /** Every file a row of the table wrote holds a descriptor of the fixed
      shape whose name is the file's base name. */
  lemma WrittenFilesWellFormed(t: Table, n: nat, before: Directory, f: string)
    requires n <= |t.rows| && f in NamesWritten(Plan(t), n)
    ensures f in FilesAfter(Plan(t), n, before)
    ensures IsJob(FilesAfter(Plan(t), n, before)[f])
    ensures FilesAfter(Plan(t), n, before)[f].name + JsonSuffix == f
  {
    var ws := Plan(t);
    NamesWrittenExactly(ws, n, f);
    LastWriterWins(ws, n, before, f);
    var k := LastWriter(ws, n, f).value;
    assert ws[k] == RowWrite(t, k);
  }

  /** A two-row table: the first row has the id "g:1", the second a blank id. */
  const TwoRows: Table := Table([TargetColumn, GuideColumn, IdColumn],
                                [[Some("ACGUACGU"), Some("ACGU"), Some("g:1")],
                                 [Some("GGGG"), Some("UUUU"), None]])

  lemma TwoRowsColumns()
    ensures ColumnIndex(TwoRows.columns, TargetColumn) == 0
    ensures ColumnIndex(TwoRows.columns, GuideColumn) == 1
    ensures ColumnIndex(TwoRows.columns, IdColumn) == 2
  {
    var cs := TwoRows.columns;
    assert ColumnIndex(cs, GuideColumn) == 1 by {
      assert cs[0] != GuideColumn;
      assert ColumnIndex(cs[1..], GuideColumn) == 0;
    }
    assert ColumnIndex(cs, IdColumn) == 2 by {
      assert cs[0] != IdColumn && cs[1] != IdColumn;
      assert ColumnIndex(cs[1..][1..], IdColumn) == 0;
    }
  }

  lemma TwoRowsSequences()
    ensures CellAt(TwoRows, 0, TargetColumn) == Some("ACGUACGU") && CellAt(TwoRows, 0, GuideColumn) == Some("ACGU")
    ensures CellAt(TwoRows, 1, TargetColumn) == Some("GGGG") && CellAt(TwoRows, 1, GuideColumn) == Some("UUUU")
  {
    TwoRowsColumns();
  }

  lemma TwoRowsIds()
    ensures CellAt(TwoRows, 0, IdColumn) == Some("g:1") && CellAt(TwoRows, 1, IdColumn) == None
  {
    TwoRowsColumns();
  }

  /** "g:1" is cleaned to "g_1". */
  lemma CleanExampleId()
    ensures CleanGuideId(Some("g:1")) == "g_1"
  {
    assert SubForbidden("g:1") == "g_1";
    assert StrippedAt("g_1", "g_1", 0);
    CleanIsStripOfMapped("g:1", "g_1", 0);
  }

  lemma TwoRowsFirstName()
    ensures RowName(TwoRows, 0) == "g_1"
  {
    TwoRowsIds();
    CleanExampleId();
  }

  /** A row whose target and guide are present writes the file of its name. */
  lemma RowWriteOf(t: Table, i: nat, target: string, guide: string, name: string)
    requires i < |t.rows|
    requires CellAt(t, i, TargetColumn) == Some(target) && CellAt(t, i, GuideColumn) == Some(guide)
    requires RowName(t, i) == name
    ensures RowWrite(t, i) == Some(Write(name + JsonSuffix, Build(name, target, guide)))
  {
  }

  lemma TwoRowsFirst()
    ensures RowWrite(TwoRows, 0) == Some(Write("g_1" + JsonSuffix, Build("g_1", "ACGUACGU", "ACGU")))
  {
    TwoRowsSequences();
    TwoRowsFirstName();
    RowWriteOf(TwoRows, 0, "ACGUACGU", "ACGU", "g_1");
  }

  lemma TwoRowsSecond()
    ensures RowWrite(TwoRows, 1) == Some(Write("sequence_2" + JsonSuffix, Build("sequence_2", "GGGG", "UUUU")))
  {
    TwoRowsSequences();
    assert RowName(TwoRows, 1) == "sequence_2" by {
      TwoRowsIds();
      assert Decimal(2) == "2";
    }
    RowWriteOf(TwoRows, 1, "GGGG", "UUUU", "sequence_2");
  }

  lemma TwoRowsPlan()
    ensures Plan(TwoRows) == [Some(Write("g_1" + JsonSuffix, Build("g_1", "ACGUACGU", "ACGU"))),
                              Some(Write("sequence_2" + JsonSuffix, Build("sequence_2", "GGGG", "UUUU")))]
  {
    TwoRowsFirst();
    TwoRowsSecond();
    PlanOfTwo(TwoRows);
  }

  lemma PlanOfTwo(t: Table)
    requires |t.rows| == 2
    ensures Plan(t) == [RowWrite(t, 0), RowWrite(t, 1)]
  {
  }

  /** Two writes of different files into an empty directory leave exactly
      those two files. */
  lemma TwoWrites(ws: seq<Option<Write>>, f0: string, d0: Descriptor, f1: string, d1: Descriptor)
    requires ws == [Some(Write(f0, d0)), Some(Write(f1, d1))] && f0 != f1
    ensures WrittenCount(ws, 2) == 2
    ensures FilesAfter(ws, 2, map[]) == map[f0 := d0, f1 := d1]
  {
    assert WrittenCount(ws, 1) == 1;
    assert FilesAfter(ws, 1, map[]) == map[f0 := d0];
  }

  lemma ExampleFileNames()
    ensures "g_1" + JsonSuffix == "g_1.json" && "sequence_2" + JsonSuffix == "sequence_2.json"
  {
  }

  /** The two-row example: the id "g:1" becomes g_1.json, the blank id of the
      second row becomes sequence_2.json, and the directory holds exactly these. */
  lemma TwoRowExample()
    ensures WrittenCount(Plan(TwoRows), 2) == 2
    ensures FilesAfter(Plan(TwoRows), 2, map[]).Keys == {"g_1.json", "sequence_2.json"}
    ensures FilesAfter(Plan(TwoRows), 2, map[])["g_1.json"] == Build("g_1", "ACGUACGU", "ACGU")
    ensures FilesAfter(Plan(TwoRows), 2, map[])["sequence_2.json"] == Build("sequence_2", "GGGG", "UUUU")
  {
    TwoRowsPlan();
    ExampleFileNames();
    TwoWrites(Plan(TwoRows), "g_1.json", Build("g_1", "ACGUACGU", "ACGU"),
              "sequence_2.json", Build("sequence_2", "GGGG", "UUUU"));
  }
}
