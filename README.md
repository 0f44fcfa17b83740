# SRSD-Feynman dataset export, modelled in Dafny

The script `archive/load_datasets_hugging_face.py` downloads the three
SRSD-Feynman benchmark datasets (tiers easy, medium and hard) and splits them
into one CSV file per equation and partition. Every partition (train,
validation, test) of a tier's dataset holds the rows of all the tier's
equations one after another. Equation number `ds_num` owns 8000 training rows
and 1000 validation and test rows each, at offset `ds_num` times that count.
Each text row is cut into whitespace-separated tokens, and every token is
read as a float. The three converted chunks are written to
`resources/<id>_train.csv`, `resources/<id>_valid.csv` and
`resources/<id>_test.csv`.

The model has seven modules:

- `Catalog` (`catalog.dfy`): the tiers, the partitions, the identifier lists
  (30, 40 and 50 entries), the repository paths and the row counts.
- `Slicer` (`slicer.dfy`): the range `[ds_num * count, (ds_num + 1) * count)`
  of an equation and Python's clamping slice.
- `Tokenizer` (`tokenizer.dfy`): `str.split()` with no argument, over the
  whitespace set of `str.isspace`.
- `Parser` (`parser.dfy`): the comprehension
  `[[float(pp) for pp in p.split()] for p in rows]`. `float` is a parameter
  `numeric` that says which tokens it accepts. A value is recorded as the
  literal it was read from. The first failing token ends the conversion with
  an error.
- `Files` (`files.dfy`): `os.path.join`, the output path, and the disk as a
  map from path to table. A write replaces what the path held.
- `Export` (`export.dfy`): `extract_dataset_by_ds_num` and the nested driver
  loops as methods.
  - The fetch `load_dataset` is a parameter `hub`, from repository path to
    dataset.
  - The specification of a run is `Progress`, which is generic in the
    extraction.
- `Run` (`run.dfy`): what a run leaves behind, completed or stopped. It
  covers 360 writes, one file per equation and partition, and that no file is
  written twice and no other file is touched. A stopped run is described the
  same way for the equations before the one that failed. It also states when
  the run completes, and that running the export again on what it left
  changes nothing.

A conversion error raises an exception that ends the script. It is modelled
as a `Failure` result and an `Aborted` run status that carries the error.

## Model

| member | source | states |
|---|---|---|
| Catalog.RowCount | archive/load_datasets_hugging_face.py:37 | every partition gives each equation a positive number of rows (8000, 1000, 1000) |
| Catalog.RepoPath | archive/load_datasets_hugging_face.py:31-35 | a tier's repository is `yoshitomo-matsubara/srsd-feynman_` followed by the tier's key |
| Catalog.EquationIds | archive/load_datasets_hugging_face.py:8-29 | the easy, medium and hard lists hold 30, 40 and 50 identifiers, none repeated, each a non-empty name not starting with `/` |
| Catalog.AllIds | archive/load_datasets_hugging_face.py:8-29 | the three lists together hold 120 identifiers and no identifier appears in two tiers |
| Slicer.ClampIndex | archive/load_datasets_hugging_face.py:45 | a slice bound is clamped into `[0, n]`: kept when inside it, cut to `n` when past the end, and a negative bound counts from the end (0 when it reaches before the start) |
| Slicer.PySlice | archive/load_datasets_hugging_face.py:45 | a slice never fails, is never longer than the sequence, and is the ordinary subsequence when the bounds are in range |
| Slicer.ChunkRange | archive/load_datasets_hugging_face.py:43-44 | the range of equation `ds_num` is ordered and exactly `count` rows wide |
| Slicer.RangeBoundaries | archive/load_datasets_hugging_face.py:43-44 | equation 0 starts at row 0 and equation `N-1` ends at row `N * count` |
| Slicer.RangesAdjacent | archive/load_datasets_hugging_face.py:43-44 | each range ends where the next equation's range starts |
| Slicer.RangesDisjoint | archive/load_datasets_hugging_face.py:43-44 | no row lies in the ranges of two different equations |
| Slicer.ChunkIsSlice | archive/load_datasets_hugging_face.py:43-45 | a chunk is the part of its range `[ds_num * count, (ds_num + 1) * count)` that lies inside the partition |
| Slicer.ChunkContents | archive/load_datasets_hugging_face.py:43-45 | a chunk holds `count` rows, a shorter tail or nothing, and row `k` of it is row `ds_num * count + k` |
| Slicer.ChunkFullIff | archive/load_datasets_hugging_face.py:43-45 | a chunk holds exactly `count` rows if and only if the partition has at least `(ds_num + 1) * count` rows |
| Slicer.ShortPartitionGivesEmptyChunk | archive/load_datasets_hugging_face.py:43-45 | a partition ending before an equation's range gives an empty chunk, not an error |
| Slicer.ChunksTilePrefix | archive/load_datasets_hugging_face.py:43-45 | the chunks of equations `0 .. N-1`, concatenated, are the first `N * count` rows (or the whole partition when shorter) |
| Slicer.ChunksTileExactly | archive/load_datasets_hugging_face.py:43-45 | with at least `N * count` rows the chunks reproduce exactly the first `N * count` rows |
| Tokenizer.IsSpace | archive/load_datasets_hugging_face.py:46 | the separators of `str.split()`: exactly the characters `str.isspace` accepts (ASCII tab to carriage return, the four information separators, space, and the Unicode space and line separators); `Split`, `SplitThenWeave` and `WeaveThenSplit` state what splitting at them gives |
| Tokenizer.Split | archive/load_datasets_hugging_face.py:46 | every token is non-empty and free of whitespace |
| Tokenizer.SplitThenWeave | archive/load_datasets_hugging_face.py:46 | the row is exactly its whitespace gaps and its tokens interleaved, left to right, so no character is lost and the order is kept |
| Tokenizer.WeaveThenSplit | archive/load_datasets_hugging_face.py:46 | words separated by non-empty whitespace and surrounded by any whitespace split back into exactly those words |
| Tokenizer.OuterBlanksIgnored | archive/load_datasets_hugging_face.py:46 | leading and trailing whitespace produce no tokens and change none |
| Tokenizer.SplitJoinWithSpaces | archive/load_datasets_hugging_face.py:46 | words joined with single spaces split back into the same words |
| Parser.ConvertTokens | archive/load_datasets_hugging_face.py:46 | the inner comprehension `[float(pp) for pp in ...]`: by `ConvertTokensMeaning`, it succeeds if and only if every token is numeric, one value per token in order, and otherwise fails with the first non-numeric token |
| Parser.ConvertTokensMeaning | archive/load_datasets_hugging_face.py:46 | tokens convert if and only if all are numeric, then one value per token in order, and otherwise fail with the first non-numeric token |
| Parser.ParseRowMeaning | archive/load_datasets_hugging_face.py:46 | a row converts if and only if all its tokens are numeric, into one value per token, in token order |
| Parser.ParseRows | archive/load_datasets_hugging_face.py:46 | the outer comprehension over a chunk's rows: by `ParseRowsMeaning`, it succeeds if and only if every row converts, one output row per input row in order, and otherwise fails with the first failing row's error |
| Parser.ParseRowsMeaning | archive/load_datasets_hugging_face.py:46 | a chunk converts if and only if every row does, into exactly one output row per input row, in order, and otherwise fails with the first failing row's error |
| Parser.BadTokenFailsChunk | archive/load_datasets_hugging_face.py:46 | one non-numeric token anywhere makes the whole chunk fail, with a non-numeric token as the error |
| Parser.ConvertNumericTokens | archive/load_datasets_hugging_face.py:46 | all-numeric tokens convert to their values, position by position |
| Parser.ParseSpaceJoinedRow | archive/load_datasets_hugging_face.py:46 | a row of numeric literals separated by single spaces converts to those literals' values, in order |
| Parser.Collect | archive/load_datasets_hugging_face.py:41-48 | results taken in order succeed if and only if all succeed, with every value at its position, and otherwise fail with the first failure's error |
| Files.PathJoin | archive/load_datasets_hugging_face.py:64 | `os.path.join` with POSIX rules; by `PathJoinMeaning` the result always ends with the name, starts with the directory when the name is relative, and is the name itself when the name is absolute |
| Files.PathJoinMeaning | archive/load_datasets_hugging_face.py:64 | a joined path ends with the name, begins with the directory for a relative name, and is the name alone for an absolute one |
| Files.OutputPathShape | archive/load_datasets_hugging_face.py:64 | the path of a relative identifier is `resources/<id>_<suffix>.csv` |
| Files.OutputPathDecodes | archive/load_datasets_hugging_face.py:64 | the identifier and the suffix can both be read back from an output path |
| Files.OutputPathInjective | archive/load_datasets_hugging_face.py:63-64 | different (identifier, suffix) pairs give different output files |
| Files.ApplyKeys | archive/load_datasets_hugging_face.py:65 | after a sequence of writes a path exists if and only if it existed before or some write named it |
| Files.ApplyLastWriteWins | archive/load_datasets_hugging_face.py:65 | a path holds the table of the last write that named it |
| Files.ApplyUntouched | archive/load_datasets_hugging_face.py:65 | a path no write names keeps its content |
| Files.ApplyTwice | archive/load_datasets_hugging_face.py:65 | making the same writes a second time changes no file: writing is idempotent |
| Export.ExtractionMeaning | archive/load_datasets_hugging_face.py:40-49 | extraction yields exactly three tables, the train, validation and test chunks converted in this order; it fails if and only if a chunk fails, with the first failing chunk's error |
| Export.ExtractDatasetByDsNum | archive/load_datasets_hugging_face.py:40-49 | the partition loop, appending one converted chunk per partition, returns what `Extraction` specifies |
| Export.EquationWrites | archive/load_datasets_hugging_face.py:63 | the `zip` of the tables with `train`, `valid`, `test` gives as many writes as the shorter of the two |
| Export.EquationWritesLand | archive/load_datasets_hugging_face.py:63-65 | after one equation's writes, its file with suffix number `k` holds table `k`, since the three paths differ |
| Export.EquationWritesLeaveOthers | archive/load_datasets_hugging_face.py:63-65 | one equation's writes leave every path other than its three files as it was |
| Export.Progress | archive/load_datasets_hugging_face.py:52-65 | the run over the equations in order: each successful extraction appends its writes, and the first failure stops the run with its error; `AbortedRunStaysAborted`, `CompletedRun`, `AbortedRun` and `StoppedRun` state what it gives |
| Export.WriteEquation | archive/load_datasets_hugging_face.py:63-65 | the inner loop leaves the disk as the writes of the tables paired with `train`, `valid`, `test` |
| Export.ExportTier | archive/load_datasets_hugging_face.py:53-65 | one tier's loop, with the dataset fetched once, extends the run by the tier's equations in list order, with status and disk as `Progress` specifies |
| Export.DownloadAll | archive/load_datasets_hugging_face.py:52-65 | the whole driver ends with the status and disk that the run over every equation of every tier specifies |
| Export.AbortedRunStaysAborted | archive/load_datasets_hugging_face.py:52-65 | once a conversion error has stopped the run, later equations write nothing |
| Run.JobExtractionGivesThreeTables | archive/load_datasets_hugging_face.py:42-49 | every successful extraction yields three tables |
| Run.CompletedRun | archive/load_datasets_hugging_face.py:52-65 | a run completes if and only if every equation extracts; it then makes three writes per equation, write `n` being partition `n % 3` of equation `n / 3` |
| Run.AbortedRun | archive/load_datasets_hugging_face.py:52-65 | a stopped run stopped at the first equation that does not extract, with its error, after exactly the writes of the equations before it |
| Run.CompletedRunNeedsExtraction | archive/load_datasets_hugging_face.py:52-65 | every equation of a completed run extracted |
| Run.AllJobsByTier | archive/load_datasets_hugging_face.py:52-58 | the run visits the easy, then medium, then hard equations, 120 in all |
| Run.JobAt | archive/load_datasets_hugging_face.py:56-59 | job `n` of the run is equation `n - offset` of its tier, and its identifier is identifier `n` of the catalog |
| Run.JobOf | archive/load_datasets_hugging_face.py:56-59 | equation `i` of tier `t` is job `offset(t) + i` of the run, with position `i` |
| Run.CompletedRunPath | archive/load_datasets_hugging_face.py:59-64 | write `n` of a completed run goes to the file of identifier `n / 3` with suffix number `n % 3` |
| Run.CompletedRunPathsDistinct | archive/load_datasets_hugging_face.py:59-64 | two different writes of a completed run never name the same file |
| Run.CompletedRunFile | archive/load_datasets_hugging_face.py:52-65 | after a completed run the file of equation `i` and suffix `k` holds table `k` of that equation's extraction |
| Run.CompletedRunLeavesOthers | archive/load_datasets_hugging_face.py:52-65 | a file that is not an output path of the catalog is as it was before the run |
| Run.CompletedRunLength | archive/load_datasets_hugging_face.py:52-65 | a completed run makes 360 writes |
| Run.JobExtractionMeaning | archive/load_datasets_hugging_face.py:40-49 | a job's extraction from its tier's dataset succeeds if and only if its three chunks convert, and then yields them in order |
| Run.RunCompletesIff | archive/load_datasets_hugging_face.py:40-65 | the script runs to the end if and only if every chunk of every equation converts |
| Run.CompletedExportFile | archive/load_datasets_hugging_face.py:52-65 | after a completed run each output file holds its own equation's chunk of its own partition, converted |
| Run.JobRows | archive/load_datasets_hugging_face.py:43-59 | equation `i` of tier `t` has position `i` and identifier `i` of the list, and the chunk it converts from partition `p` is rows `[i * count, (i + 1) * count)` of the partition, cut short where the partition ends |
| Run.RerunGivesSameFiles | archive/load_datasets_hugging_face.py:52-65 | applying a run's writes to the files that run left changes nothing |
| Run.DownloadTwice | archive/load_datasets_hugging_face.py:52-65 | running the whole driver again on what it left gives the same files and the same status |
| Run.ExtractingRunCompletes | archive/load_datasets_hugging_face.py:52-65 | a run in which every equation extracts completes |
| Run.StoppedRun | archive/load_datasets_hugging_face.py:52-65 | when equation `j` is the first that does not extract, the run over the equations before it completes, and the whole run ends with exactly its writes and the error of equation `j` |
| Run.PrefixWritePath | archive/load_datasets_hugging_face.py:59-64 | write `n` of the first `j` equations goes to the file of equation `n / 3` with suffix number `n % 3` |
| Run.PrefixPathsDistinct | archive/load_datasets_hugging_face.py:59-64 | no two writes of the first `j` equations name the same file |
| Run.PrefixRunFile | archive/load_datasets_hugging_face.py:52-65 | after the writes of the first `j` equations, the file of equation `m < j` and suffix `k` holds table `k` of that equation |
| Run.PrefixRunLeavesOthers | archive/load_datasets_hugging_face.py:52-65 | the writes of the first `j` equations leave every path that is not one of their files as it was |
| Run.StoppedExportFile | archive/load_datasets_hugging_face.py:40-65 | after a run stopped at equation `j`, the file of an equation `m < j` and suffix `k` holds that equation's converted chunk of partition `k` |
| Run.AbortedRunOutput | archive/load_datasets_hugging_face.py:40-65 | a run stopped at equation `j` ends with that equation's error, the files of the equations before `j` hold their converted chunks, and every other path is as it was before the run |
| Run.CompletedRunOutput | archive/load_datasets_hugging_face.py:52-65 | a completed run makes 360 writes, leaves `resources/<id>_<suffix>.csv` holding that equation's converted chunk of the matching partition, and changes no other file |

## Left out

- `load_dataset` (line 54) is a parameter `hub` from repository path to the
  dataset's three `text` columns. Network access, caching and fetch errors
  are not modelled, and the fetch is assumed to return the same data for the
  same path.
- Slicing a fetched dataset and then taking its `text` column is modelled as
  a clamped Python slice of that column.
- `pd.DataFrame` and `to_csv` (lines 47, 65) are not modelled. A write
  records the converted table under its path, and the CSV text is not
  produced. In particular, padding ragged rows and writing an empty row are
  not modelled.
- Floating-point values are not modelled. `float` is the parameter
  `numeric`, and a value is the literal it was read from.
- Errors raised by the file system (a missing `resources` directory,
  permissions) are not modelled. Only conversion errors stop a run.
- Dictionary lookups with a missing key cannot happen. The keys the script
  uses are exactly those its tables define, so tiers and partitions are
  datatypes and the lookups are total functions.
- `os.path.join` is modelled with POSIX rules. The identifiers are relative
  names, so the branch where an absolute second argument replaces the
  directory is never taken.
- The commented-out YAML loading at the end of the file is not modelled; it
  is dead code.
- Catalog.EquationIds: its contract states the lengths, distinctness and
  shape of the lists. The identifiers themselves are the constants in
  `catalog.dfy`, copied from lines 9-28 and cut into blocks of at most twenty
  entries.
