/** The export itself: for every tier, fetch the tier's dataset once; for
    every equation of the tier, cut its rows out of the three partitions,
    convert them, and write one CSV file per partition. The fetch is a
    parameter (`hub`, from repository path to dataset), `float` is the
    `numeric` predicate, and the disk is a map from path to table. */
module Export {
  import opened Catalog
  import opened Slicer
  import opened Parser
  import opened Files

  /** The `text` column of the three partitions of a fetched dataset. */
  datatype Dataset = Dataset(train: seq<string>, validation: seq<string>, test: seq<string>)
  {
    function Rows(p: Partition): seq<string>
    {
      match p
      case Train => train
      case Validation => validation
      case Test => test
    }
  }

  /** The text rows of partition `p` that belong to equation `dsNum`. */
  function PartitionChunk(ds: Dataset, p: Partition, dsNum: nat): seq<string>
  {
    Chunk(ds.Rows(p), dsNum, RowCount(p))
  }

  lemma TakeWhole<T>(s: seq<T>)
    ensures s[..|s|] == s
  {
  }

  lemma TakeOneMore<T>(s: seq<T>, j: nat)
    requires j < |s|
    ensures s[..j + 1] == s[..j] + [s[j]]
    ensures s[..j + 1] <= s
  {
  }

  lemma ConcatTakeNone<T>(a: seq<T>, b: seq<T>)
    ensures a + b[..0] == a
  {
  }

  lemma ConcatTakeStep<T>(a: seq<T>, b: seq<T>, i: nat)
    requires i < |b|
    ensures a + b[..i + 1] == (a + b[..i]) + [b[i]]
  {
  }

  lemma ConcatTakePrefix<T>(a: seq<T>, b: seq<T>, i: nat)
    requires i <= |b|
    ensures a + b[..i] <= a + b
  {
  }

  /** The conversion of each partition's chunk for equation `dsNum`, in the
      order train, validation, test. */
  function PartitionTables(ds: Dataset, dsNum: nat, numeric: string -> bool): seq<Result<Table>>
  {
    seq(|PartitionOrder|, k requires 0 <= k < |PartitionOrder| =>
      ParseRows(PartitionChunk(ds, PartitionOrder[k], dsNum), numeric))
  }

  /** What extracting equation `dsNum` yields. */
  function Extraction(ds: Dataset, dsNum: nat, numeric: string -> bool): Result<seq<Table>>
  {
    Collect(PartitionTables(ds, dsNum, numeric))
  }

  /** Extracting an equation yields exactly three tables, the conversions of
      its train, validation and test chunks in this order; it fails exactly
      when one of the chunks does not convert, and then with the error of the
      first one that does not. */
  lemma ExtractionMeaning(ds: Dataset, dsNum: nat, numeric: string -> bool)
    ensures Extraction(ds, dsNum, numeric).Success? <==>
              forall k :: 0 <= k < 3 ==> ParseRows(PartitionChunk(ds, PartitionOrder[k], dsNum), numeric).Success?
    ensures var r := Extraction(ds, dsNum, numeric);
            r.Success? ==> |r.value| == 3 && forall k :: 0 <= k < 3 ==>
              r.value[k] == ParseRows(PartitionChunk(ds, PartitionOrder[k], dsNum), numeric).value
    ensures var r := Extraction(ds, dsNum, numeric);
            r.Failure? ==>
              exists k :: 0 <= k < 3
                && ParseRows(PartitionChunk(ds, PartitionOrder[k], dsNum), numeric) == Failure(r.error)
                && forall j :: 0 <= j < k ==> ParseRows(PartitionChunk(ds, PartitionOrder[j], dsNum), numeric).Success?
  {
    var results := PartitionTables(ds, dsNum, numeric);
    assert |results| == 3;
    assert forall k :: 0 <= k < 3 ==> results[k] == ParseRows(PartitionChunk(ds, PartitionOrder[k], dsNum), numeric);
  }

  /** `extract_dataset_by_ds_num`: for train, validation and test in this
      order, slice out equation `dsNum`'s rows, convert them, and collect the
      tables, stopping at the first partition that does not convert. */
  method ExtractDatasetByDsNum(dataset: Dataset, dsNum: nat, numeric: string -> bool)
    returns (r: Result<seq<Table>>)
    ensures r == Extraction(dataset, dsNum, numeric)
  {
    ghost var results := PartitionTables(dataset, dsNum, numeric);
    var dfTrainValidTest: seq<Table> := [];
    for i := 0 to |PartitionOrder|
      invariant Collect(results[..i]) == Success(dfTrainValidTest)
    {
      var partition := PartitionOrder[i];
      var range := ChunkRange(dsNum, RowCount(partition));
      var listOfStrings := PySlice(dataset.Rows(partition), range.start, range.stop);
      var converted := ParseRows(listOfStrings, numeric);
      assert converted == results[i];
      CollectStep(results, i);
      if converted.Failure? {
        CollectFailureSticks(results, i + 1);
        return Failure(converted.error);
      }
      dfTrainValidTest := dfTrainValidTest + [converted.value];
    }
    TakeWhole(results);
    return Success(dfTrainValidTest);
  }

  /** The writes of one equation: its tables paired, by position, with the
      suffixes train, valid and test (Python's `zip` stops at the shorter). */
  function EquationWrites(id: string, tables: seq<Table>): (ws: seq<Write>)
    ensures |ws| == Min(|tables|, |FileSuffixes|)
  {
    seq(Min(|tables|, |FileSuffixes|),
        k requires 0 <= k < Min(|tables|, |FileSuffixes|) => Write(OutputPath(id, FileSuffixes[k]), tables[k]))
  }

  /** One equation to export: its tier, its position in the tier's list and
      its identifier. */
  datatype Job = Job(tier: Tier, dsNum: nat, id: string)

  /** The equations of a tier in list order; an equation's position is its
      `dsNum`, and so fixes its rows. */
  function TierJobs(t: Tier): (jobs: seq<Job>)
    ensures |jobs| == |EquationIds(t)|
    ensures forall i :: 0 <= i < |jobs| ==> jobs[i] == Job(t, i, EquationIds(t)[i])
  {
    var ids := EquationIds(t);
    seq(|ids|, i requires 0 <= i < |ids| => Job(t, i, ids[i]))
  }

  /** The equations of the given tiers, tier after tier. */
  function JobsOf(tiers: seq<Tier>): seq<Job>
  {
    if tiers == [] then [] else JobsOf(tiers[..|tiers| - 1]) + TierJobs(tiers[|tiers| - 1])
  }

  /** Every equation of the catalog, in the order the driver visits them. */
  function AllJobs(): seq<Job>
  {
    JobsOf(TierOrder)
  }

  /** How far a run has got: the writes done so far and whether it is still
      going or stopped on a conversion error. */
  datatype Status = Completed | Aborted(error: ParseError)
  datatype RunState = RunState(writes: seq<Write>, status: Status)

  /** What extracting a job's equation yields, its tier's dataset fetched
      through `hub`. */
  function JobExtraction(hub: string -> Dataset, numeric: string -> bool): Job -> Result<seq<Table>>
  {
    (job: Job) => Extraction(hub(RepoPath(job.tier)), job.dsNum, numeric)
  }

  /** The run over `jobs`, one equation after the other, `extract` giving
      what each equation's extraction yields. An equation whose extraction
      fails stops the run before any of its files is written; files written
      before stay in place. */
  function Progress(extract: Job -> Result<seq<Table>>, jobs: seq<Job>): RunState
  {
    if jobs == [] then RunState([], Completed)
    else
      var before := Progress(extract, jobs[..|jobs| - 1]);
      var job := jobs[|jobs| - 1];
      if before.status.Aborted? then before
      else
        match extract(job)
        case Failure(e) => RunState(before.writes, Aborted(e))
        case Success(tables) => RunState(before.writes + EquationWrites(job.id, tables), Completed)
  }

  lemma ProgressAppend(extract: Job -> Result<seq<Table>>, jobs: seq<Job>, job: Job)
    ensures var before := Progress(extract, jobs);
            Progress(extract, jobs + [job])
            == if before.status.Aborted? then before
               else match extract(job)
                 case Failure(e) => RunState(before.writes, Aborted(e))
                 case Success(tables) => RunState(before.writes + EquationWrites(job.id, tables), Completed)
  {
    assert (jobs + [job])[..|jobs|] == jobs;
  }

  /** A run that has stopped stays stopped, with the same writes, however
      many equations follow. */
  lemma {:induction false} AbortedRunStaysAborted(extract: Job -> Result<seq<Table>>, jobs: seq<Job>, all: seq<Job>)
    requires jobs <= all
    requires Progress(extract, jobs).status.Aborted?
    ensures Progress(extract, all) == Progress(extract, jobs)
    decreases |all|
  {
    if |all| > |jobs| {
      assert jobs <= all[..|all| - 1];
      AbortedRunStaysAborted(extract, jobs, all[..|all| - 1]);
    } else {
      assert jobs == all;
    }
  }

  lemma JobsOfStep(tiers: seq<Tier>, i: nat)
    requires i < |tiers|
    ensures JobsOf(tiers[..i + 1]) == JobsOf(tiers[..i]) + TierJobs(tiers[i])
  {
    assert tiers[..i + 1][..i] == tiers[..i];
  }

  /** The equations of the first tiers come first among all equations. */
  lemma {:induction false} JobsOfPrefix(tiers: seq<Tier>, i: nat)
    requires i <= |tiers|
    ensures JobsOf(tiers[..i]) <= JobsOf(tiers)
    decreases |tiers| - i
  {
    if i < |tiers| {
      JobsOfPrefix(tiers, i + 1);
      JobsOfStep(tiers, i);
    } else {
      assert tiers[..i] == tiers;
    }
  }

  /** The inner loop of the driver: the tables of one equation written, in
      order, to resources/<id>_train.csv, _valid.csv and _test.csv. */
  method WriteEquation(files0: FileSystem, id: string, tables: seq<Table>) returns (files: FileSystem)
    ensures files == Apply(files0, EquationWrites(id, tables))
  {
    files := files0;
    ghost var ws := EquationWrites(id, tables);
    var k := 0;
    while k < |tables| && k < |FileSuffixes|
      invariant 0 <= k <= Min(|tables|, |FileSuffixes|)
      invariant files == Apply(files0, ws[..k])
    {
      var path := OutputPath(id, FileSuffixes[k]);
      assert ws[..k + 1] == ws[..k] + [Write(path, tables[k])];
      ApplyAppend(files0, ws[..k], Write(path, tables[k]));
      files := files[path := tables[k]];
      k := k + 1;
    }
    assert ws[..k] == ws;
  }

  /** After one equation's writes, the file with suffix number `k` holds
      table `k`: the three files are different, so no write replaces
      another. */
  lemma EquationWritesLand(fs: FileSystem, id: string, tables: seq<Table>, k: nat)
    requires RelativeName(id) && k < |tables| && k < |FileSuffixes|
    ensures var files := Apply(fs, EquationWrites(id, tables));
            OutputPath(id, FileSuffixes[k]) in files && files[OutputPath(id, FileSuffixes[k])] == tables[k]
  {
    var ws := EquationWrites(id, tables);
    forall m | k < m < |ws|
      ensures ws[m].path != ws[k].path
    {
      OutputPathInjective(id, FileSuffixes[k], id, FileSuffixes[m]);
    }
    ApplyLastWriteWins(fs, ws, k);
  }

  /** One equation's writes touch no file but its own three. */
  lemma EquationWritesLeaveOthers(fs: FileSystem, id: string, tables: seq<Table>, p: string)
    requires forall k :: 0 <= k < |FileSuffixes| ==> p != OutputPath(id, FileSuffixes[k])
    ensures var files := Apply(fs, EquationWrites(id, tables));
            (p in files <==> p in fs) && (p in fs ==> files[p] == fs[p])
  {
    ApplyUntouched(fs, EquationWrites(id, tables), p);
  }

  /** One tier of the driver: its dataset fetched once, then each of its
      equations extracted and written, in list order, until one fails.
      `base` and `done` describe the run so far: the files before it began
      and the equations already exported. */
  method ExportTier(files0: FileSystem, hub: string -> Dataset, numeric: string -> bool,
                    ghost base: FileSystem, ghost done: seq<Job>, t: Tier)
    returns (files: FileSystem, status: Status)
    requires Progress(JobExtraction(hub, numeric), done).status == Completed
    requires files0 == Apply(base, Progress(JobExtraction(hub, numeric), done).writes)
    ensures status == Progress(JobExtraction(hub, numeric), done + TierJobs(t)).status
    ensures files == Apply(base, Progress(JobExtraction(hub, numeric), done + TierJobs(t)).writes)
  {
    var dataset := hub(RepoPath(t));
    var ids := EquationIds(t);
    ghost var jobs := TierJobs(t);
    files := files0;
    ConcatTakeNone(done, jobs);
    var dsNum := 0;
    while dsNum < |ids|
      invariant 0 <= dsNum <= |ids|
      invariant Progress(JobExtraction(hub, numeric), done + jobs[..dsNum]).status == Completed
      invariant files == Apply(base, Progress(JobExtraction(hub, numeric), done + jobs[..dsNum]).writes)
    {
      var dsName := ids[dsNum];
      var listOfDfs := ExtractDatasetByDsNum(dataset, dsNum, numeric);
      ghost var before := done + jobs[..dsNum];
      ghost var job := Job(t, dsNum, dsName);
      ConcatTakeStep(done, jobs, dsNum);
      assert JobExtraction(hub, numeric)(job) == listOfDfs;
      ProgressAppend(JobExtraction(hub, numeric), before, job);
      if listOfDfs.Failure? {
        status := Aborted(listOfDfs.error);
        ConcatTakePrefix(done, jobs, dsNum + 1);
        AbortedRunStaysAborted(JobExtraction(hub, numeric), before + [job], done + jobs);
        return;
      }
      ApplyConcat(base, Progress(JobExtraction(hub, numeric), before).writes, EquationWrites(dsName, listOfDfs.value));
      files := WriteEquation(files, dsName, listOfDfs.value);
      dsNum := dsNum + 1;
    }
    assert dsNum == |jobs|;
    TakeWhole(jobs);
    ghost var run := Progress(JobExtraction(hub, numeric), done + jobs[..dsNum]);
    assert done + jobs[..dsNum] == done + jobs;
    assert run == Progress(JobExtraction(hub, numeric), done + TierJobs(t));
    status := Completed;
  }

  /** The top-level loop: tiers in order easy, medium, hard. A conversion
      error stops the run. The result is the run `Progress` describes over
      every equation of the catalog, applied to the files there before. */
  method DownloadAll(files0: FileSystem, hub: string -> Dataset, numeric: string -> bool)
    returns (files: FileSystem, status: Status)
    ensures status == Progress(JobExtraction(hub, numeric), AllJobs()).status
    ensures files == Apply(files0, Progress(JobExtraction(hub, numeric), AllJobs()).writes)
  {
    files := files0;
    status := Completed;
    var ti := 0;
    while ti < |TierOrder|
      invariant 0 <= ti <= |TierOrder|
      invariant status == Completed
      invariant Progress(JobExtraction(hub, numeric), JobsOf(TierOrder[..ti])).status == Completed
      invariant files == Apply(files0, Progress(JobExtraction(hub, numeric), JobsOf(TierOrder[..ti])).writes)
    {
      JobsOfStep(TierOrder, ti);
      files, status := ExportTier(files, hub, numeric, files0, JobsOf(TierOrder[..ti]), TierOrder[ti]);
      if status.Aborted? {
        JobsOfPrefix(TierOrder, ti + 1);
        AbortedRunStaysAborted(JobExtraction(hub, numeric), JobsOf(TierOrder[..ti + 1]), AllJobs());
        return;
      }
      ti := ti + 1;
    }
    TakeWhole(TierOrder);
  }
}
