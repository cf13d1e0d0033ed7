/** The driver: converting one source into its output directory
    (process_csv_file), a single source on its own (process_single_file) and
    the batch over the fixed list of input files (main). */
module Driver {
  import opened Tables
  import opened Sanitize
  import opened Naming
  import opened Jobs
  import opened Conversion

  /** The part of the filesystem the program touches: the input files that
      exist, each with the table it loads to, and the directories that exist,
      each with the descriptors of its files. */
  class FileSystem {
    var sources: map<string, Table>
    var dirs: map<string, Directory>

    constructor (sources: map<string, Table>, dirs: map<string, Directory>)
      ensures this.sources == sources && this.dirs == dirs
    {
      this.sources := sources;
      this.dirs := dirs;
    }

    /** os.makedirs(dir, exist_ok=True): an existing directory is kept as it is. */
    method MakeDirs(dir: string)
      modifies this
      ensures sources == old(sources)
      ensures dirs == if dir in old(dirs) then old(dirs) else old(dirs)[dir := map[]]
    {
      if dir !in dirs {
        dirs := dirs[dir := map[]];
      }
    }

    /** Opens dir/file for writing and dumps d into it, replacing any file of
      that name. */
    method WriteFile(dir: string, file: string, d: Descriptor)
      requires dir in dirs
      modifies this
      ensures sources == old(sources)
      ensures dirs == old(dirs)[dir := old(dirs)[dir][file := d]]
    {
      dirs := dirs[dir := dirs[dir][file := d]];
    }
  }

  /** A source is converted when its file exists and its table has every
      required column. */
  predicate Convertible(sources: map<string, Table>, path: string)
    ensures Convertible(sources, path) <==>
              && path in sources
              && TargetColumn in sources[path].columns
              && GuideColumn in sources[path].columns
              && IdColumn in sources[path].columns
  {
    path in sources && MissingColumns(sources[path].columns) == []
  }

  /** What the output directory holds before a source is converted into it. */
  function Existing(dirs: map<string, Directory>, outDir: string): Directory {
    if outDir in dirs then dirs[outDir] else map[]
  }

  /** The number of descriptors converting a source writes: zero for a
      missing file or missing columns, json_count otherwise. */
  function SourceCount(sources: map<string, Table>, path: string): (n: nat)
    ensures n <= (if path in sources then |sources[path].rows| else 0)
    ensures !Convertible(sources, path) ==> n == 0
  {
    if Convertible(sources, path) then
      var t := sources[path];
      CountsAddUp(Plan(t), |t.rows|);
      WrittenCount(Plan(t), |t.rows|)
    else 0
  }

  /** The directories after converting a source into outDir: unchanged for a
      missing file or missing columns; otherwise outDir exists and holds its
      old files overwritten by the rows' writes. */
  function DirsAfterSource(sources: map<string, Table>, dirs: map<string, Directory>,
                           path: string, outDir: string): (r: map<string, Directory>)
    ensures !Convertible(sources, path) ==> r == dirs
    ensures Convertible(sources, path) ==>
              && r.Keys == dirs.Keys + {outDir}
              && Existing(dirs, outDir).Keys <= r[outDir].Keys
    ensures forall d :: d in dirs && d != outDir ==> d in r && r[d] == dirs[d]
  {
    if Convertible(sources, path) then
      var t := sources[path];
      dirs[outDir := FilesAfter(Plan(t), |t.rows|, Existing(dirs, outDir))]
    else dirs
  }

  /** The body of the row loop: a row lacking the target or the guide is
      skipped; otherwise the cleaned identifier, or sequence_<row number>
      when it cleans to nothing, names the job built from the row. */
  method ConvertRow(t: Table, ghost ws: seq<Option<Write>>, i: nat) returns (w: Option<Write>)
    requires i < |t.rows| && IsPlanOf(t, ws)
    ensures w == ws[i]
  {
    assert ws[i] == RowWrite(t, i);
    var target := CellAt(t, i, TargetColumn);
    var guide := CellAt(t, i, GuideColumn);
    if target.None? || guide.None? {
      return None;
    }
    var name := CleanGuideId(CellAt(t, i, IdColumn));
    if name == [] {
      name := FallbackPrefix + Decimal(i + 1);
    }
    var d := Build(name, target.value, guide.value);
    return Some(Write(name + JsonSuffix, d));
  }

  /** process_csv_file: converts the table of path into outDir, returning
      json_count and skipped_count. */
  method ProcessCsvFile(fs: FileSystem, path: string, outDir: string) returns (jsonCount: nat, skippedCount: nat)
    modifies fs
    ensures fs.sources == old(fs.sources)
    ensures fs.dirs == DirsAfterSource(old(fs.sources), old(fs.dirs), path, outDir)
    ensures jsonCount == SourceCount(old(fs.sources), path)
    ensures Convertible(old(fs.sources), path) ==>
              && skippedCount == SkippedCount(Plan(old(fs.sources)[path]), |old(fs.sources)[path].rows|)
              && jsonCount + skippedCount == |old(fs.sources)[path].rows|
    ensures !Convertible(old(fs.sources), path) ==> skippedCount == 0
  {
    if path !in fs.sources {
      return 0, 0;
    }
    var t := fs.sources[path];
    var missing := MissingColumns(t.columns);
    if missing != [] {
      return 0, 0;
    }
    ghost var before := Existing(fs.dirs, outDir);
    fs.MakeDirs(outDir);
    assert fs.dirs[outDir] == before;
    ghost var made := fs.dirs;
    ghost var ws := Plan(t);
    jsonCount, skippedCount := ConvertRows(fs, t, ws, outDir);
    ReplaceAfterMake(old(fs.dirs), made, outDir, FilesAfter(ws, |ws|, before));
    CountsAddUp(ws, |ws|);
  }

  /** Replacing the output directory after creating it gives the same
      directories as replacing it outright. */
  lemma ReplaceAfterMake(dirs: map<string, Directory>, made: map<string, Directory>, dir: string, files: Directory)
    requires made == if dir in dirs then dirs else dirs[dir := map[]]
    ensures made[dir := files] == dirs[dir := files]
  {
  }

  /** The row loop of process_csv_file, once the output directory exists. */
  method ConvertRows(fs: FileSystem, t: Table, ghost ws: seq<Option<Write>>, outDir: string)
      returns (jsonCount: nat, skippedCount: nat)
    requires IsPlanOf(t, ws)
    requires outDir in fs.dirs
    modifies fs
    ensures fs.sources == old(fs.sources)
    ensures fs.dirs == old(fs.dirs)[outDir := FilesAfter(ws, |ws|, old(fs.dirs)[outDir])]
    ensures jsonCount == WrittenCount(ws, |ws|) && skippedCount == SkippedCount(ws, |ws|)
  {
    ghost var before := fs.dirs[outDir];
    jsonCount, skippedCount := 0, 0;
    for i := 0 to |t.rows|
      invariant fs.sources == old(fs.sources)
      invariant fs.dirs == old(fs.dirs)[outDir := FilesAfter(ws, i, before)]
      invariant jsonCount == WrittenCount(ws, i) && skippedCount == SkippedCount(ws, i)
    {
      var w := ConvertRow(t, ws, i);
      if w.None? {
        skippedCount := skippedCount + 1;
      } else {
        fs.WriteFile(outDir, w.value.file, w.value.descriptor);
        jsonCount := jsonCount + 1;
      }
    }
  }

  /** process_single_file: a source processed on its own is written to the
      directory named after its base name. */
  method ProcessSingleFile(fs: FileSystem, path: string) returns (jsonCount: nat)
    modifies fs
    ensures fs.sources == old(fs.sources)
    ensures fs.dirs == DirsAfterSource(old(fs.sources), old(fs.dirs), path, SingleOutputDirName(path))
    ensures jsonCount == SourceCount(old(fs.sources), path)
  {
    if path !in fs.sources {
      return 0;
    }
    var outDir := SingleOutputDirName(path);
    var skippedCount;
    jsonCount, skippedCount := ProcessCsvFile(fs, path, outDir);
  }

  /** The run total over a list of input files: the sum of their counts. */
  function TotalCount(sources: map<string, Table>, files: seq<string>): (n: nat)
    ensures (forall k :: 0 <= k < |files| ==> !Convertible(sources, files[k])) ==> n == 0
  {
    if files == [] then 0
    else TotalCount(sources, files[..|files| - 1]) + SourceCount(sources, files[|files| - 1])
  }

  /** The directories after converting each file in turn into its own
      output directory. */
  function DirsAfterBatch(sources: map<string, Table>, dirs: map<string, Directory>, files: seq<string>): (r: map<string, Directory>)
    ensures dirs.Keys <= r.Keys
    ensures forall d :: d in dirs && (forall k :: 0 <= k < |files| ==> OutputDirName(files[k]) != d) ==> r[d] == dirs[d]
  {
    if files == [] then dirs
    else
      var last := files[|files| - 1];
      DirsAfterSource(sources, DirsAfterBatch(sources, dirs, files[..|files| - 1]), last, OutputDirName(last))
  }

  /** The loop of main over a list of input files: each is converted into
      json_output_<name without extension>, and the counts are summed. */
  method RunBatch(fs: FileSystem, files: seq<string>) returns (total: nat)
    modifies fs
    ensures fs.sources == old(fs.sources)
    ensures fs.dirs == DirsAfterBatch(old(fs.sources), old(fs.dirs), files)
    ensures total == TotalCount(old(fs.sources), files)
  {
    total := 0;
    for i := 0 to |files|
      invariant fs.sources == old(fs.sources)
      invariant fs.dirs == DirsAfterBatch(old(fs.sources), old(fs.dirs), files[..i])
      invariant total == TotalCount(old(fs.sources), files[..i])
    {
      BatchStep(old(fs.sources), old(fs.dirs), files, i);
      var outDir := OutputDirName(files[i]);
      var jsonCount, skippedCount := ProcessCsvFile(fs, files[i], outDir);
      total := total + jsonCount;
    }
    assert files[..|files|] == files;
  }

  /** One more file of the batch: its directory update and its count come
      after those of the files before it. */
  lemma BatchStep(sources: map<string, Table>, dirs: map<string, Directory>, files: seq<string>, i: nat)
    requires i < |files|
    ensures DirsAfterBatch(sources, dirs, files[..i + 1])
         == DirsAfterSource(sources, DirsAfterBatch(sources, dirs, files[..i]), files[i], OutputDirName(files[i]))
    ensures TotalCount(sources, files[..i + 1]) == TotalCount(sources, files[..i]) + SourceCount(sources, files[i])
  {
    var p := files[..i + 1];
    assert p[..|p| - 1] == files[..i] && p[|p| - 1] == files[i];
  }

  /** The input files main processes. */
  const InputFiles: seq<string> := [
    "guide_sequences_CD.fasta_filtered_by_seq.csv",
    "guide_sequences_CI.fasta_filtered_by_seq.csv",
    "guide_sequences_DD.fasta_filtered_by_seq.csv",
    "guide_sequences_DI.fasta_filtered_by_seq.csv",
    "guide_sequences_PM.fasta_filtered_by_seq.csv",
    "guide_sequences_DM.fasta_filtered_by_seq.csv",
    "guide_sequences_RDM.fasta_filtered_by_seq.csv",
    "guide_sequences_RTM.fasta_filtered_by_seq.csv",
    "guide_sequences_SD.fasta_filtered_by_seq.csv",
    "guide_sequences_SI.fasta_filtered_by_seq.csv",
    "guide_sequences_SM.fasta_filtered_by_seq.csv",
    "guide_sequences_TM.fasta_filtered_by_seq.csv"
  ]

  /** Every fixed input file ends in "q.csv": the stem
      "guide_sequences_<code>.fasta_filtered_by_seq" and the extension ".csv". */
  lemma InputFilesShape()
    ensures |InputFiles| == 12
    ensures forall k :: 0 <= k < |InputFiles| ==>
              |InputFiles[k]| > 5 && InputFiles[k][|InputFiles[k]| - 4..] == ".csv" && InputFiles[k][|InputFiles[k]| - 5] == 'q'
  {
  }

  /** Every fixed input file is <stem>.csv, and its output directory is
      json_output_<stem>, keeping the ".fasta_filtered_by_seq" inside the stem. */
  lemma InputOutputDirs()
    ensures forall k :: 0 <= k < |InputFiles| ==>
              OutputDirName(InputFiles[k]) == OutputPrefix + InputFiles[k][..|InputFiles[k]| - 4]
  {
    InputFilesShape();
    forall k | 0 <= k < |InputFiles|
      ensures OutputDirName(InputFiles[k]) == OutputPrefix + InputFiles[k][..|InputFiles[k]| - 4]
    {
      var f := InputFiles[k];
      CsvOutputDir(f);
    }
  }

  /** main: the batch over the fixed input files. */
  method RunInputFiles(fs: FileSystem) returns (total: nat)
    modifies fs
    ensures fs.sources == old(fs.sources)
    ensures fs.dirs == DirsAfterBatch(old(fs.sources), old(fs.dirs), InputFiles)
    ensures total == TotalCount(old(fs.sources), InputFiles)
  {
    total := RunBatch(fs, InputFiles);
  }

  /** The total over two runs of files is the sum of their totals. */
  lemma {:induction false} TotalAdditive(sources: map<string, Table>, a: seq<string>, b: seq<string>)
    ensures TotalCount(sources, a + b) == TotalCount(sources, a) + TotalCount(sources, b)
    decreases |b|
  {
    if b == [] {
      assert a + b == a;
    } else {
      var b' := b[..|b| - 1];
      assert (a + b)[..|a + b| - 1] == a + b';
      TotalAdditive(sources, a, b');
    }
  }

  /** A missing source, or one lacking a required column, adds nothing to
      the run total, and the other sources count as they would without it. */
  lemma FailedSourceAddsNothing(sources: map<string, Table>, a: seq<string>, f: string, b: seq<string>)
    requires !Convertible(sources, f)
    ensures TotalCount(sources, a + [f] + b) == TotalCount(sources, a) + TotalCount(sources, b)
  {
    TotalAdditive(sources, a + [f], b);
    TotalAdditive(sources, a, [f]);
    assert [f][..0] == [];
  }

  /** The run total never exceeds the number of rows of the files that exist. */
  lemma {:induction false} TotalAtMostRows(sources: map<string, Table>, files: seq<string>)
    ensures TotalCount(sources, files) <= RowsOf(sources, files)
  {
    if files != [] {
      TotalAtMostRows(sources, files[..|files| - 1]);
    }
  }

  /** The number of rows of the listed files that exist. */
  function RowsOf(sources: map<string, Table>, files: seq<string>): nat {
    if files == [] then 0
    else
      var last := files[|files| - 1];
      RowsOf(sources, files[..|files| - 1]) + (if last in sources then |sources[last].rows| else 0)
  }
}
