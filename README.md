# get_json: AlphaFold3 job files from guide/target CSV tables

`get_json.py` reads CSV tables of guide RNA / target RNA pairs and writes one
AlphaFold3 job descriptor (a JSON file) per usable row. This project models, in
Dafny, the logic of that script:

- **`clean_guide_id`** (module `Sanitize`): a missing id becomes `""`; `:` and `|`
  become `_`; every character of the class `[<>:"/\\|?*]` becomes `_`; and the
  result is stripped of leading and trailing dots and spaces.
- **The table** (module `Tables`): a header of column labels and rows of cells. A
  cell is `None` where pandas holds NaN, which is what an empty CSV field reads
  as. This module also holds the required-column check of `process_csv_file`.
- **The job descriptor** (module `Jobs`): the three chains are protein `A` with
  the fixed protein sequence, RNA `B` with the target and RNA `C` with the guide.
  The descriptor also has `modelSeeds = [1]`, dialect `"alphafold3"` and version 1.
- **The row loop of `process_csv_file`**, stated as functions of the table (module
  `Conversion`):
  - which rows are skipped;
  - the name and descriptor each other row writes, with the `sequence_<n>` fallback;
  - the directory after the first n rows, where later rows overwrite earlier ones;
  - `json_count` and `skipped_count`.
- **The driver** (module `Driver`): the filesystem is a class `FileSystem` with two
  map fields.
  - `sources` maps the input files that exist to their loaded tables.
  - `dirs` maps the directories that exist to their files.

  `ProcessCsvFile` is the imperative row loop that writes into `dirs` one file at a
  time. `ProcessSingleFile` and `RunBatch` / `RunInputFiles` model
  `process_single_file` and the loop of `main`, including the output-directory
  naming (module `Naming`: `os.path.splitext`, `os.path.basename`, `str(int)`).

Reading a CSV file and all other I/O are abstracted: a loaded table is an input,
and a written JSON file is its descriptor value stored under its file name.

A row is skipped only when its target or guide is NaN (`pd.isna`), not when it
is some other kind of empty. Since an empty CSV field loads as NaN, this covers
empty fields; a field holding only whitespace reads as a non-NaN string and is
converted.

## Model

| member | source | states |
|---|---|---|
| `Sanitize.IsForbidden` | get_json.py:38 | holds exactly for the nine characters of the regular expression's class: `<`, `>`, `:`, `"`, `/`, `\`, the vertical bar, `?` and `*`; none of them is `_`, a dot or a space |
| `Sanitize.ReplaceChar` | get_json.py:35 | same length; each position is `b` where the input had `a`, and the input character elsewhere |
| `Sanitize.SubForbidden` | get_json.py:38 | same length; each forbidden character becomes `_` and every other character is kept; the result has no forbidden character |
| `Sanitize.KeptFrom` | get_json.py:41 | the first position at or after i that is not a dot or space; everything in between is a dot or space |
| `Sanitize.KeptUntil` | get_json.py:41 | the end of the kept part: everything from it up to j is a dot or space, and the character before it is kept |
| `Sanitize.Strip` | get_json.py:41 | the result is a slice of the input; everything outside the slice is a dot or space; the result's ends are clean |
| `Sanitize.StrippedUnique` | get_json.py:41 | the strip is unique: any two slices with the strip property are equal |
| `Sanitize.StripCleanIsIdentity` | get_json.py:41 | stripping a string whose ends are clean returns it unchanged |
| `Sanitize.StripKeepsNoForbidden` | get_json.py:38-41 | stripping a string without forbidden characters leaves none |
| `Sanitize.PreReplaceRedundant` | get_json.py:35-38 | replacing the colon and the vertical bar before the regular expression does not change its result |
| `Sanitize.CleanString` | get_json.py:31-43 | no forbidden character, clean ends, a stripped slice of the character-wise mapped input, and no longer than the input |
| `Sanitize.CleanGuideId` | get_json.py:25-43 | a missing id gives `""`; otherwise as `CleanString`; the result never has a forbidden character or an unclean end |
| `Sanitize.SubForbiddenIdentity` | get_json.py:38 | a string without forbidden characters passes the substitution unchanged |
| `Sanitize.CleanIdempotent` | get_json.py:25-43 | cleaning an already-cleaned id returns it unchanged |
| `Sanitize.CleanIsStripOfMapped` | get_json.py:35-41 | the cleaned id is exactly the strip of the mapped input: any slice with the strip property is the result |
| `Tables.Absent` | get_json.py:113 | holds exactly the wanted labels that the header lacks, and is no longer than the wanted list |
| `Tables.MissingColumns` | get_json.py:112-113 | empty exactly when all three required columns are present; holds exactly the required columns absent from the header |
| `Tables.MissingColumnsInOrder` | get_json.py:112-113 | the missing columns are listed in the order full_target_sequence, guide_seq, guide_id |
| `Tables.ColumnIndex` | get_json.py:129-131 | the first position holding the label, or the header length exactly when the label is absent |
| `Tables.CellAt` | get_json.py:129-131 | the cell under the first column with the label, or None when the row is shorter than that column; None when no column has the label |
| `Naming.Decimal` | get_json.py:142 | non-empty decimal digits whose value is n, with no leading zero |
| `Naming.DecimalInjective` | get_json.py:142 | different row numbers give different digit strings |
| `Naming.LastIndex` | get_json.py:208 | the last position of the character, or -1; nothing after it is that character |
| `Naming.StripExtension` | get_json.py:208 | a prefix of the path; when something is removed, it starts at a dot and contains no further dot or `/`; something is removed exactly when a character other than a dot lies between the last `/` and the last dot (so a leading-dot name keeps its dot) |
| `Naming.LeadingDotKept` | get_json.py:208 | a name without `/` whose only dot is its first character, such as `.csv`, has no extension and is returned unchanged |
| `Naming.BaseName` | get_json.py:238 | a suffix of the path without `/`, preceded by a `/` when shorter than the path |
| `Naming.OutputDirName` | get_json.py:208-209 | starts with `json_output_` |
| `Naming.SingleOutputDirName` | get_json.py:238-239 | starts with `json_output_`, and no `/` follows the prefix |
| `Naming.BaseNameOfPlain` | get_json.py:238 | a path without `/` is its own base name |
| `Naming.BaseNameAfterSlash` | get_json.py:238 | the base name of `dir/name` is `name` when `name` has no `/` |
| `Naming.SingleOutputDirOfCsv` | get_json.py:238-239 | a source `dir/<stem>.csv` processed on its own, whose stem has no `/` and is not all dots, is written to `json_output_<stem>`, whatever the directory |
| `Naming.SingleOutputDirOfPlainCsv` | get_json.py:238-239 | a source `<stem>.csv` without a directory part, whose stem is not all dots, is written to `json_output_<stem>` |
| `Naming.StripExtensionOfAppended` | get_json.py:208 | only the last extension is removed: `stem + "." + ext` loses exactly `"." + ext` |
| `Naming.LastIndexOfPrefix` | get_json.py:208 | when nothing after a prefix is c, the last c of the whole string is the last c of the prefix |
| `Naming.LastIndexAbsent` | get_json.py:208 | a string without c has no last c |
| `Naming.OutputDirOfCsv` | get_json.py:206-209 | an input file `<stem>.csv`, whose stem has no `/` and is not all dots, is written to `json_output_<stem>`, keeping inner dots of the stem |
| `Naming.CsvOutputDir` | get_json.py:206-209 | a file name ending in `.csv` after a character that is neither a dot nor `/` is written to the directory named after it without `.csv` |
| `Jobs.Build` | get_json.py:145-170 | the descriptor has the fixed shape, with the given name, target (chain B) and guide (chain C) |
| `Jobs.BuildComplete` | get_json.py:145-170 | every descriptor of the fixed shape is the one built from its name, target and guide |
| `Jobs.BuildInjective` | get_json.py:145-170 | name, target and guide are recovered from the descriptor |
| `Conversion.IsSkipped` | get_json.py:134-137 | a row that is not skipped has both a target and a guide column in the header |
| `Conversion.RowName` | get_json.py:139-142 | the name is never empty and has no forbidden character; it is the cleaned id, or `sequence_<index+1>` when that is empty |
| `Conversion.FallbackNameClean` | get_json.py:142 | the fallback name `sequence_<n>` has no forbidden character |
| `Conversion.RowWrite` | get_json.py:133-177 | None exactly for a row whose target or guide is NaN; otherwise the written descriptor has the fixed shape, is named `RowName`, carries the row's target and guide, and the file is its name plus `.json` |
| `Conversion.Plan` | get_json.py:127-177 | one outcome per row, in row order; the outcome at i is the row's `RowWrite` |
| `Conversion.FilesAfter` | get_json.py:172-177 | the row loop never removes a file from the directory |
| `Conversion.WrittenCount` | get_json.py:179 | json_count never exceeds the number of rows processed |
| `Conversion.SkippedCount` | get_json.py:136 | skipped_count never exceeds the number of rows processed |
| `Conversion.WrittenCountZero` | get_json.py:179 | json_count is 0 exactly when every processed row was skipped |
| `Conversion.SkippedCountZero` | get_json.py:136 | skipped_count is 0 exactly when every processed row was written |
| `Conversion.LastWriter` | get_json.py:172-177 | the last of the first n rows that writes the file, or None when none does |
| `Conversion.CountsAddUp` | get_json.py:123-179 | json_count + skipped_count equals the number of rows processed |
| `Conversion.NamesWrittenExactly` | get_json.py:172-177 | a name is written exactly when some processed row writes it |
| `Conversion.LastWriterWins` | get_json.py:172-177 | a file is present after the loop iff it was present before or a row wrote it; it holds the last writer's descriptor; untouched old files keep their content |
| `Conversion.KeysAfter` | get_json.py:172-177 | the directory afterwards holds the old file names plus the written names, and nothing else |
| `Conversion.DistinctNamesBound` | get_json.py:173-179 | the number of distinct names written is at most json_count |
| `Conversion.WrittenFilesWellFormed` | get_json.py:145-177 | every written file holds a descriptor of the fixed shape whose name plus `.json` is the file name |
| `Conversion.TwoRowExample` | get_json.py:127-179 | a two-row table with ids `g:1` and NaN writes exactly `g_1.json` and `sequence_2.json`, each holding the descriptor built from its row |
| `Driver.FileSystem.MakeDirs` | get_json.py:121 | creates the directory if absent and keeps an existing one as it is |
| `Driver.FileSystem.WriteFile` | get_json.py:173-177 | stores the descriptor under the file name in the directory, replacing any earlier file of that name |
| `Driver.Convertible` | get_json.py:102-118 | a source is converted exactly when its file exists and its header has full_target_sequence, guide_seq and guide_id |
| `Driver.DirsAfterSource` | get_json.py:119-179 | a source that is not converted changes nothing; otherwise the output directory exists afterwards, keeps every file it had, and no other directory changes |
| `Driver.SourceCount` | get_json.py:102-118 | at most the number of rows; 0 for a missing file or missing columns |
| `Driver.ConvertRow` | get_json.py:129-173 | the row's outcome is exactly the planned one (`RowWrite`) |
| `Driver.ConvertRows` | get_json.py:123-183 | after the loop, the directory is the old one overwritten by the rows' writes, and the counters are the written and skipped counts |
| `Driver.ProcessCsvFile` | get_json.py:94-191 | a missing file or missing columns change nothing and return 0; otherwise the directory exists afterwards and holds the result of the row loop; json_count + skipped_count equals the row count |
| `Driver.ProcessSingleFile` | get_json.py:231-242 | converts into `json_output_<base name without extension>` and returns the same count |
| `Driver.TotalCount` | get_json.py:203-213 | the total is 0 when no file of the run is converted |
| `Driver.DirsAfterBatch` | get_json.py:206-213 | no directory disappears, and a directory that is not the output directory of any file of the run is unchanged |
| `Driver.RunBatch` | get_json.py:203-213 | each file is converted, in order, into `json_output_<name without extension>`; the total is the sum of the per-file counts |
| `Driver.InputFilesShape` | get_json.py:10-23 | twelve input files, each ending in `q.csv` |
| `Driver.InputOutputDirs` | get_json.py:206-209 | each input file `<stem>.csv` is written to `json_output_<stem>`, for example `json_output_guide_sequences_CD.fasta_filtered_by_seq` |
| `Driver.RunInputFiles` | get_json.py:199-213 | the batch over the twelve fixed input files |
| `Driver.BatchStep` | get_json.py:206-213 | one more file adds its directory update and its count after those of the earlier files |
| `Driver.TotalAdditive` | get_json.py:203-213 | the total over two runs of files is the sum of their totals |
| `Driver.FailedSourceAddsNothing` | get_json.py:102-118 | a missing file, or one lacking a required column, contributes 0 to the total |
| `Driver.TotalAtMostRows` | get_json.py:203-213 | the run total never exceeds the number of rows of the files that exist |

## Left out

- `read_csv_with_auto_delimiter` (get_json.py:45-92) is pandas parsing, and pandas is not part of this model. A loaded table is an input: `sources` maps each existing file to its table. A file that exists but fails to parse is not modelled.
- The `except` branch (get_json.py:193-197) returns 0 after any exception, for example a failed write. The modelled operations cannot fail, so that branch is not modelled.
- Driver.FileSystem.MakeDirs: records only the directory itself; the missing parent directories that `os.makedirs` also creates for a path containing `/` are not created or recorded. The output directories the program uses are `json_output_<name>` built from a name with no `/` (the twelve fixed inputs, or a base name), so they have no parent to create.
- Paths follow POSIX `os.path` (posixpath): only `/` separates directories. On Windows, ntpath would also split at `\` and at a drive colon; that is not modelled.
- `os.path.exists`, `os.makedirs` and `open` are the two maps of `FileSystem`. `os.path.join` is not modelled as a path: a written file is keyed by its name inside its directory.
- The directory listing at the end of `main` (get_json.py:221-228) only prints, so it is not modelled.
- All printing and the progress message every 100 rows (get_json.py:181-183) are diagnostic only, so they are not modelled.
- The text form of `json.dump` (indentation, `ensure_ascii`, UTF-8) is not modelled. A written file holds a `Jobs.Descriptor` value.
- `str()` coercion of non-string cells (get_json.py:31, 157, 163) is not modelled. Cells are already strings.
- Duplicate column labels are not modelled; `Tables.CellAt` reads the first column with the label.
- Index labels other than a default 0-based RangeIndex are not modelled. `index` is the row position.
- Unicode normalisation is not modelled. Strings are sequences of characters.
- The source only prints skipped_count. `ProcessCsvFile` also returns it, so that its contract can state that json_count + skipped_count equals the row count.
