/** What a run of the export leaves behind. A completed run writes three
    files per equation, 360 in all, each holding the converted chunk of its
    own equation and partition; a stopped run has written the files of the
    equations before the one that failed and nothing after. The run lemmas
    hold for any extraction that yields three tables when it succeeds; the
    last two lemmas apply them to the script's own extraction. */
module Run {
  import opened Catalog
  import opened Slicer
  import opened Parser
  import opened Files
  import opened Export

  /** Every successful extraction yields three tables. */
  ghost predicate ThreeTables(extract: Job -> Result<seq<Table>>)
  {
    forall job :: extract(job).Success? ==> |extract(job).value| == 3
  }

  /** The script's extraction yields train, validation and test tables. */
  lemma JobExtractionGivesThreeTables(hub: string -> Dataset, numeric: string -> bool)
    ensures ThreeTables(JobExtraction(hub, numeric))
  {
    forall job | JobExtraction(hub, numeric)(job).Success?
      ensures |JobExtraction(hub, numeric)(job).value| == 3
    {
      ExtractionMeaning(hub(RepoPath(job.tier)), job.dsNum, numeric);
    }
  }

  /** Write number `n` of a run in which every equation extracts: the
      partition `n % 3` of equation `n / 3`. */
  function ExpectedWrite(extract: Job -> Result<seq<Table>>, jobs: seq<Job>, n: nat): Write
    requires n < 3 * |jobs|
    requires extract(jobs[n / 3]).Success? && |extract(jobs[n / 3]).value| == 3
  {
    var job := jobs[n / 3];
    Write(OutputPath(job.id, FileSuffixes[n % 3]), extract(job).value[n % 3])
  }

  lemma DivBelow(n: nat, m: nat)
    requires n < 3 * m
    ensures n / 3 < m
  {
  }

  lemma DivModThree(n: nat, m: nat)
    requires 3 * m <= n < 3 * m + 3
    ensures n / 3 == m && n % 3 == n - 3 * m
  {
  }

  /** A run completes exactly when every equation extracts. It then has
      made three writes per equation, in equation order and, within an
      equation, in the order train, valid, test. */
  lemma {:induction false} CompletedRun(extract: Job -> Result<seq<Table>>, jobs: seq<Job>)
    requires ThreeTables(extract)
    ensures Progress(extract, jobs).status == Completed <==>
              forall j :: 0 <= j < |jobs| ==> extract(jobs[j]).Success?
    ensures Progress(extract, jobs).status == Completed ==>
              && |Progress(extract, jobs).writes| == 3 * |jobs|
              && forall n :: 0 <= n < 3 * |jobs| ==>
                   Progress(extract, jobs).writes[n] == ExpectedWrite(extract, jobs, n)
    decreases |jobs|
  {
    if jobs != [] {
      var front, job := jobs[..|jobs| - 1], jobs[|jobs| - 1];
      CompletedRun(extract, front);
      assert forall j :: 0 <= j < |front| ==> front[j] == jobs[j];
      var run := Progress(extract, jobs);
      if run.status == Completed {
        var before := Progress(extract, front).writes;
        var tables := extract(job).value;
        assert run.writes == before + EquationWrites(job.id, tables);
        forall n | 0 <= n < 3 * |jobs|
          ensures run.writes[n] == ExpectedWrite(extract, jobs, n)
        {
          if n < 3 * |front| {
            DivBelow(n, |front|);
            assert run.writes[n] == before[n];
          } else {
            DivModThree(n, |front|);
            assert run.writes[n] == EquationWrites(job.id, tables)[n - 3 * |front|];
          }
        }
      }
    }
  }

  /** A run that stops does so at the first equation that does not extract,
      with that equation's error; it has then made exactly the writes of the
      equations before that one. */
  lemma {:induction false} AbortedRun(extract: Job -> Result<seq<Table>>, jobs: seq<Job>)
    requires Progress(extract, jobs).status.Aborted?
    ensures exists j :: 0 <= j < |jobs|
              && (forall i :: 0 <= i < j ==> extract(jobs[i]).Success?)
              && extract(jobs[j]).Failure?
              && Progress(extract, jobs) == RunState(Progress(extract, jobs[..j]).writes, Aborted(extract(jobs[j]).error))
    decreases |jobs|
  {
    var front, job := jobs[..|jobs| - 1], jobs[|jobs| - 1];
    var before := Progress(extract, front);
    assert forall i :: 0 <= i < |front| ==> front[i] == jobs[i];
    if before.status.Aborted? {
      assert Progress(extract, jobs) == before;
      AbortedRun(extract, front);
      var j :| 0 <= j < |front|
               && (forall i :: 0 <= i < j ==> extract(front[i]).Success?)
               && extract(front[j]).Failure?
               && before == RunState(Progress(extract, front[..j]).writes, Aborted(extract(front[j]).error));
      assert front[..j] == jobs[..j];
      assert front[j] == jobs[j];
    } else {
      CompletedRunNeedsExtraction(extract, front);
      assert jobs[..|front|] == front;
      assert Progress(extract, jobs) == RunState(before.writes, Aborted(extract(job).error));
    }
  }

  /** Every equation of a completed run extracted. */
  lemma {:induction false} CompletedRunNeedsExtraction(extract: Job -> Result<seq<Table>>, jobs: seq<Job>)
    requires Progress(extract, jobs).status == Completed
    ensures forall j :: 0 <= j < |jobs| ==> extract(jobs[j]).Success?
    decreases |jobs|
  {
    if jobs != [] {
      var front := jobs[..|jobs| - 1];
      CompletedRunNeedsExtraction(extract, front);
      assert forall j :: 0 <= j < |front| ==> front[j] == jobs[j];
    }
  }

  /** Where a tier's equations start in the run. */
  function TierOffset(t: Tier): nat
  {
    match t
    case Easy => 0
    case Medium => 30
    case Hard => 70
  }

  lemma JobsOfThree(a: Tier, b: Tier, c: Tier)
    ensures JobsOf([a, b, c]) == TierJobs(a) + TierJobs(b) + TierJobs(c)
  {
    var tiers := [a, b, c];
    assert tiers[..0] == [];
    JobsOfStep(tiers, 0);
    JobsOfStep(tiers, 1);
    JobsOfStep(tiers, 2);
    assert tiers[..3] == tiers;
    assert JobsOf(tiers[..1]) == [] + TierJobs(a) == TierJobs(a);
  }

  /** The run's jobs are the tiers' jobs one after the other. */
  lemma AllJobsByTier()
    ensures AllJobs() == TierJobs(Easy) + TierJobs(Medium) + TierJobs(Hard)
    ensures |AllJobs()| == 120
  {
    JobsOfThree(Easy, Medium, Hard);
  }

  lemma AtInThree<T>(a: seq<T>, b: seq<T>, c: seq<T>, n: nat)
    requires n < |a| + |b| + |c|
    ensures (a + b + c)[n] == if n < |a| then a[n] else if n < |a| + |b| then b[n - |a|] else c[n - |a| - |b|]
  {
  }

  /** Job number `n` of the run: its tier, its position in the tier and its
      identifier, which is also identifier number `n` of the catalog. */
  lemma JobAt(n: nat)
    requires n < 120
    ensures |AllJobs()| == 120
    ensures var job := AllJobs()[n];
            && job.dsNum < |EquationIds(job.tier)|
            && n == TierOffset(job.tier) + job.dsNum
            && job.id == EquationIds(job.tier)[job.dsNum]
            && job.id == AllIds()[n]
  {
    AllJobsByTier();
    var e, m, h := EquationIds(Easy), EquationIds(Medium), EquationIds(Hard);
    assert AllIds() == e + m + h;
    AtInThree(TierJobs(Easy), TierJobs(Medium), TierJobs(Hard), n);
    AtInThree(e, m, h, n);
  }

  /** The equation at position `i` of tier `t` is job TierOffset(t) + i of
      the run, and extracts rows by its position `i`. */
  lemma JobOf(t: Tier, i: nat)
    requires i < |EquationIds(t)|
    ensures |AllJobs()| == 120 && TierOffset(t) + i < 120
    ensures AllJobs()[TierOffset(t) + i] == Job(t, i, EquationIds(t)[i])
  {
    AllJobsByTier();
    AtInThree(TierJobs(Easy), TierJobs(Medium), TierJobs(Hard), TierOffset(t) + i);
  }

  /** The output paths of the catalog: three per equation. */
  function CatalogPaths(): set<string>
  {
    set n, k | 0 <= n < 120 && 0 <= k < 3 :: OutputPath(AllIds()[n], FileSuffixes[k])
  }

  /** Write `n` of a completed run goes to the file of identifier `n / 3` of
      the catalog, with suffix `n % 3`. */
  lemma CompletedRunPath(extract: Job -> Result<seq<Table>>, n: nat)
    requires ThreeTables(extract) && Progress(extract, AllJobs()).status == Completed
    requires n < 360
    ensures |Progress(extract, AllJobs()).writes| == 360
    ensures Progress(extract, AllJobs()).writes[n].path == OutputPath(AllIds()[n / 3], FileSuffixes[n % 3])
  {
    AllJobsByTier();
    CompletedRun(extract, AllJobs());
    JobAt(n / 3);
  }

  /** Two different writes of a completed run never name the same file. */
  lemma CompletedRunPathsDistinct(extract: Job -> Result<seq<Table>>, n: nat, m: nat)
    requires ThreeTables(extract) && Progress(extract, AllJobs()).status == Completed
    requires n < m < 360
    ensures |Progress(extract, AllJobs()).writes| == 360
    ensures Progress(extract, AllJobs()).writes[n].path != Progress(extract, AllJobs()).writes[m].path
  {
    CompletedRunPath(extract, n);
    CompletedRunPath(extract, m);
    var ids := AllIds();
    assert n / 3 != m / 3 || n % 3 != m % 3;
    OutputPathInjective(ids[n / 3], FileSuffixes[n % 3], ids[m / 3], FileSuffixes[m % 3]);
  }

  /** The file of equation `i` of tier `t` with suffix `k` holds, after a
      completed run, table `k` of that equation's extraction: the run writes
      it once and never again. */
  lemma CompletedRunFile(files0: FileSystem, extract: Job -> Result<seq<Table>>, t: Tier, i: nat, k: nat)
    requires ThreeTables(extract) && Progress(extract, AllJobs()).status == Completed
    requires i < |EquationIds(t)| && k < 3
    ensures var files := Apply(files0, Progress(extract, AllJobs()).writes);
            var job := Job(t, i, EquationIds(t)[i]);
            var path := OutputPath(EquationIds(t)[i], FileSuffixes[k]);
            && extract(job).Success? && |extract(job).value| == 3
            && path in files && files[path] == extract(job).value[k]
  {
    var jobs := AllJobs();
    var ws := Progress(extract, jobs).writes;
    CompletedRun(extract, jobs);
    JobOf(t, i);
    var n := 3 * (TierOffset(t) + i) + k;
    DivModThree(n, TierOffset(t) + i);
    assert ws[n] == ExpectedWrite(extract, jobs, n);
    forall m | n < m < |ws|
      ensures ws[m].path != ws[n].path
    {
      CompletedRunPathsDistinct(extract, n, m);
    }
    ApplyLastWriteWins(files0, ws, n);
  }

  /** A file outside the catalog's output paths is left as it was. */
  lemma CompletedRunLeavesOthers(files0: FileSystem, extract: Job -> Result<seq<Table>>, p: string)
    requires ThreeTables(extract) && Progress(extract, AllJobs()).status == Completed
    requires p !in CatalogPaths()
    ensures var files := Apply(files0, Progress(extract, AllJobs()).writes);
            (p in files <==> p in files0) && (p in files0 ==> files[p] == files0[p])
  {
    var ws := Progress(extract, AllJobs()).writes;
    CompletedRun(extract, AllJobs());
    AllJobsByTier();
    forall n | 0 <= n < |ws|
      ensures ws[n].path != p
    {
      CompletedRunPath(extract, n);
    }
    ApplyUntouched(files0, ws, p);
  }

  /** What the script's extraction of one job means in terms of the three
      chunk conversions. */
  lemma JobExtractionMeaning(hub: string -> Dataset, numeric: string -> bool, job: Job)
    ensures JobExtraction(hub, numeric)(job).Success? <==>
              forall k :: 0 <= k < 3 ==>
                ParseRows(PartitionChunk(hub(RepoPath(job.tier)), PartitionOrder[k], job.dsNum), numeric).Success?
    ensures JobExtraction(hub, numeric)(job).Success? ==>
              && |JobExtraction(hub, numeric)(job).value| == 3
              && forall k :: 0 <= k < 3 ==>
                   JobExtraction(hub, numeric)(job).value[k]
                   == ParseRows(PartitionChunk(hub(RepoPath(job.tier)), PartitionOrder[k], job.dsNum), numeric).value
  {
    ExtractionMeaning(hub(RepoPath(job.tier)), job.dsNum, numeric);
  }

  /** Every chunk of every equation converts. */
  ghost predicate AllChunksConvert(hub: string -> Dataset, numeric: string -> bool)
  {
    forall t: Tier, i, k :: 0 <= i < |EquationIds(t)| && 0 <= k < 3 ==>
      ParseRows(PartitionChunk(hub(RepoPath(t)), PartitionOrder[k], i), numeric).Success?
  }

  lemma ConvertingChunksCompleteTheRun(hub: string -> Dataset, numeric: string -> bool)
    requires AllChunksConvert(hub, numeric)
    ensures Progress(JobExtraction(hub, numeric), AllJobs()).status == Completed
  {
    var extract, jobs := JobExtraction(hub, numeric), AllJobs();
    JobExtractionGivesThreeTables(hub, numeric);
    CompletedRun(extract, jobs);
    AllJobsByTier();
    forall j | 0 <= j < |jobs|
      ensures extract(jobs[j]).Success?
    {
      JobAt(j);
      JobExtractionMeaning(hub, numeric, jobs[j]);
    }
  }

  lemma CompletedRunConvertsChunks(hub: string -> Dataset, numeric: string -> bool)
    requires Progress(JobExtraction(hub, numeric), AllJobs()).status == Completed
    ensures AllChunksConvert(hub, numeric)
  {
    var extract, jobs := JobExtraction(hub, numeric), AllJobs();
    CompletedRunNeedsExtraction(extract, jobs);
    forall t: Tier, i, k | 0 <= i < |EquationIds(t)| && 0 <= k < 3
      ensures ParseRows(PartitionChunk(hub(RepoPath(t)), PartitionOrder[k], i), numeric).Success?
    {
      JobOf(t, i);
      JobExtractionMeaning(hub, numeric, Job(t, i, EquationIds(t)[i]));
    }
  }

  /** The export completes exactly when every chunk of every equation
      converts. */
  lemma RunCompletesIff(hub: string -> Dataset, numeric: string -> bool)
    ensures Progress(JobExtraction(hub, numeric), AllJobs()).status == Completed <==> AllChunksConvert(hub, numeric)
  {
    if AllChunksConvert(hub, numeric) {
      ConvertingChunksCompleteTheRun(hub, numeric);
    }
    if Progress(JobExtraction(hub, numeric), AllJobs()).status == Completed {
      CompletedRunConvertsChunks(hub, numeric);
    }
  }

  lemma CompletedRunLength(extract: Job -> Result<seq<Table>>)
    requires ThreeTables(extract) && Progress(extract, AllJobs()).status == Completed
    ensures |Progress(extract, AllJobs()).writes| == 360
  {
    CompletedRun(extract, AllJobs());
    AllJobsByTier();
  }

  /** The file of partition `k` of equation `i` of tier `t` holds that
      partition's chunk, converted, once `files0` has received the writes of
      the whole run. */
  ghost predicate ExportFileHolds(files0: FileSystem, hub: string -> Dataset, numeric: string -> bool, t: Tier, i: nat, k: nat)
  {
    && i < |EquationIds(t)| && k < 3
    && var files := Apply(files0, Progress(JobExtraction(hub, numeric), AllJobs()).writes);
       var path := OutputPath(EquationIds(t)[i], FileSuffixes[k]);
       var chunk := ParseRows(PartitionChunk(hub(RepoPath(t)), PartitionOrder[k], i), numeric);
       path in files && chunk.Success? && files[path] == chunk.value
  }

  /** A file outside the catalog's outputs is as it was in `files0`. */
  ghost predicate LeftAlone(files0: FileSystem, hub: string -> Dataset, numeric: string -> bool, p: string)
  {
    var files := Apply(files0, Progress(JobExtraction(hub, numeric), AllJobs()).writes);
    (p in files <==> p in files0) && (p in files0 ==> files[p] == files0[p])
  }

  /** One output file of a completed export holds its converted chunk. */
  lemma CompletedExportFile(files0: FileSystem, hub: string -> Dataset, numeric: string -> bool, t: Tier, i: nat, k: nat)
    requires Progress(JobExtraction(hub, numeric), AllJobs()).status == Completed
    requires i < |EquationIds(t)| && k < 3
    ensures ExportFileHolds(files0, hub, numeric, t, i, k)
  {
    JobExtractionGivesThreeTables(hub, numeric);
    CompletedRunFile(files0, JobExtraction(hub, numeric), t, i, k);
    JobExtractionMeaning(hub, numeric, Job(t, i, EquationIds(t)[i]));
  }

  /** After a completed export, resources/<id>_train.csv, _valid.csv and
      _test.csv of every equation hold its train, validation and test chunks,
      converted; no other file has changed. */
  lemma CompletedRunOutput(files0: FileSystem, hub: string -> Dataset, numeric: string -> bool)
    requires Progress(JobExtraction(hub, numeric), AllJobs()).status == Completed
    ensures |Progress(JobExtraction(hub, numeric), AllJobs()).writes| == 360
    ensures forall t: Tier, i: nat, k: nat :: i < |EquationIds(t)| && k < 3 ==> ExportFileHolds(files0, hub, numeric, t, i, k)
    ensures forall p :: p !in CatalogPaths() ==> LeftAlone(files0, hub, numeric, p)
  {
    JobExtractionGivesThreeTables(hub, numeric);
    CompletedRunLength(JobExtraction(hub, numeric));
    forall t: Tier, i: nat, k: nat | i < |EquationIds(t)| && k < 3
      ensures ExportFileHolds(files0, hub, numeric, t, i, k)
    {
      CompletedExportFile(files0, hub, numeric, t, i, k);
    }
    forall p | p !in CatalogPaths()
      ensures LeftAlone(files0, hub, numeric, p)
    {
      CompletedRunLeavesOthers(files0, JobExtraction(hub, numeric), p);
    }
  }

  /** Equation `i` of tier `t` is job `i` of its tier, and the chunk it
      converts from partition `p` of the tier's dataset is the rows in the
      range [i * count, (i + 1) * count), cut short where the partition ends:
      its position in the list alone fixes its rows. */
  lemma JobRows(ds: Dataset, t: Tier, i: nat, p: Partition)
    requires i < |EquationIds(t)|
    ensures var job := TierJobs(t)[i];
            var rows := ds.Rows(p);
            var r := ChunkRange(i, RowCount(p));
            && job.dsNum == i && job.id == EquationIds(t)[i]
            && PartitionChunk(ds, p, job.dsNum) == rows[Min(r.start, |rows|)..Min(r.stop, |rows|)]
  {
    ChunkIsSlice(ds.Rows(p), i, RowCount(p));
  }

  /** Running the export a second time, on the files the first run left,
      leaves the same files: every run makes the same writes, whatever the
      disk holds. */
  lemma RerunGivesSameFiles(files0: FileSystem, hub: string -> Dataset, numeric: string -> bool)
    ensures var ws := Progress(JobExtraction(hub, numeric), AllJobs()).writes;
            Apply(Apply(files0, ws), ws) == Apply(files0, ws)
  {
    ApplyTwice(files0, Progress(JobExtraction(hub, numeric), AllJobs()).writes);
  }

  /** The driver run twice, the second time on what the first left: same
      status, same files. */
  method DownloadTwice(files0: FileSystem, hub: string -> Dataset, numeric: string -> bool)
    returns (files1: FileSystem, status1: Status, files2: FileSystem, status2: Status)
    ensures files2 == files1 && status2 == status1
  {
    files1, status1 := DownloadAll(files0, hub, numeric);
    files2, status2 := DownloadAll(files1, hub, numeric);
    RerunGivesSameFiles(files0, hub, numeric);
  }

  /** A run in which every job extracts completes. */
  lemma {:induction false} ExtractingRunCompletes(extract: Job -> Result<seq<Table>>, jobs: seq<Job>)
    requires forall i :: 0 <= i < |jobs| ==> extract(jobs[i]).Success?
    ensures Progress(extract, jobs).status == Completed
    decreases |jobs|
  {
    if jobs != [] {
      var front := jobs[..|jobs| - 1];
      assert forall i :: 0 <= i < |front| ==> front[i] == jobs[i];
      ExtractingRunCompletes(extract, front);
    }
  }

  /** A run whose jobs before `j` extract and whose job `j` does not stops
      there, with job `j`'s error, after the writes of the jobs before it. */
  lemma StoppedRun(extract: Job -> Result<seq<Table>>, jobs: seq<Job>, j: nat)
    requires j < |jobs| && extract(jobs[j]).Failure?
    requires forall i :: 0 <= i < j ==> extract(jobs[i]).Success?
    ensures Progress(extract, jobs[..j]).status == Completed
    ensures Progress(extract, jobs) == RunState(Progress(extract, jobs[..j]).writes, Aborted(extract(jobs[j]).error))
  {
    var pre, next := jobs[..j], jobs[..j + 1];
    assert forall i :: 0 <= i < |pre| ==> pre[i] == jobs[i];
    ExtractingRunCompletes(extract, pre);
    TakeOneMore(jobs, j);
    ProgressAppend(extract, pre, jobs[j]);
    AbortedRunStaysAborted(extract, next, jobs);
  }

  /** The output paths of the first `j` jobs of the run. */
  function PathsBefore(j: nat): set<string>
  {
    set n, k | 0 <= n < j && n < |AllJobs()| && 0 <= k < 3 :: OutputPath(AllJobs()[n].id, FileSuffixes[k])
  }

  /** Write `n` of the run over the first `j` jobs, when they all extract,
      goes to the file of job `n / 3` with suffix number `n % 3`. */
  lemma PrefixWritePath(extract: Job -> Result<seq<Table>>, j: nat, n: nat)
    requires ThreeTables(extract) && j <= |AllJobs()|
    requires Progress(extract, AllJobs()[..j]).status == Completed
    requires n < 3 * j
    ensures n / 3 < j && |Progress(extract, AllJobs()[..j]).writes| == 3 * j
    ensures Progress(extract, AllJobs()[..j]).writes[n].path == OutputPath(AllJobs()[n / 3].id, FileSuffixes[n % 3])
  {
    var pre := AllJobs()[..j];
    CompletedRun(extract, pre);
    DivBelow(n, j);
    assert pre[n / 3] == AllJobs()[n / 3];
  }

  /** Two different writes of the run over the first `j` jobs never name the
      same file. */
  lemma PrefixPathsDistinct(extract: Job -> Result<seq<Table>>, j: nat, n: nat, n': nat)
    requires ThreeTables(extract) && j <= |AllJobs()|
    requires Progress(extract, AllJobs()[..j]).status == Completed
    requires n < n' < 3 * j
    ensures |Progress(extract, AllJobs()[..j]).writes| == 3 * j
    ensures Progress(extract, AllJobs()[..j]).writes[n].path != Progress(extract, AllJobs()[..j]).writes[n'].path
  {
    PrefixWritePath(extract, j, n);
    PrefixWritePath(extract, j, n');
    AllJobsByTier();
    JobAt(n / 3);
    JobAt(n' / 3);
    var ids := AllIds();
    assert n / 3 != n' / 3 || n % 3 != n' % 3;
    OutputPathInjective(ids[n / 3], FileSuffixes[n % 3], ids[n' / 3], FileSuffixes[n' % 3]);
  }

  /** The file of job `m < j` holds, after the run over the first `j` jobs,
      table `k` of that job's extraction. */
  lemma PrefixRunFile(files0: FileSystem, extract: Job -> Result<seq<Table>>, j: nat, m: nat, k: nat)
    requires ThreeTables(extract) && j <= |AllJobs()|
    requires Progress(extract, AllJobs()[..j]).status == Completed
    requires m < j && k < 3
    ensures var files := Apply(files0, Progress(extract, AllJobs()[..j]).writes);
            var job := AllJobs()[m];
            var path := OutputPath(job.id, FileSuffixes[k]);
            && extract(job).Success? && |extract(job).value| == 3
            && path in files && files[path] == extract(job).value[k]
  {
    var pre := AllJobs()[..j];
    var ws := Progress(extract, pre).writes;
    CompletedRun(extract, pre);
    var n := 3 * m + k;
    DivModThree(n, m);
    assert pre[m] == AllJobs()[m];
    assert ws[n] == ExpectedWrite(extract, pre, n);
    forall n' | n < n' < |ws|
      ensures ws[n'].path != ws[n].path
    {
      PrefixPathsDistinct(extract, j, n, n');
    }
    ApplyLastWriteWins(files0, ws, n);
  }

  /** A file that is none of the first `j` jobs' outputs is, after the run
      over those jobs, as it was. */
  lemma PrefixRunLeavesOthers(files0: FileSystem, extract: Job -> Result<seq<Table>>, j: nat, p: string)
    requires ThreeTables(extract) && j <= |AllJobs()|
    requires Progress(extract, AllJobs()[..j]).status == Completed
    requires p !in PathsBefore(j)
    ensures var files := Apply(files0, Progress(extract, AllJobs()[..j]).writes);
            (p in files <==> p in files0) && (p in files0 ==> files[p] == files0[p])
  {
    var ws := Progress(extract, AllJobs()[..j]).writes;
    CompletedRun(extract, AllJobs()[..j]);
    forall n | 0 <= n < |ws|
      ensures ws[n].path != p
    {
      PrefixWritePath(extract, j, n);
      assert OutputPath(AllJobs()[n / 3].id, FileSuffixes[n % 3]) in PathsBefore(j);
    }
    ApplyUntouched(files0, ws, p);
  }

  /** After the run, the file of job `m` with suffix number `k` holds that
      job's chunk of partition `k`, converted. */
  ghost predicate StoppedFileHolds(files0: FileSystem, hub: string -> Dataset, numeric: string -> bool, m: nat, k: nat)
  {
    && m < |AllJobs()| && k < 3
    && var job := AllJobs()[m];
       var files := Apply(files0, Progress(JobExtraction(hub, numeric), AllJobs()).writes);
       var path := OutputPath(job.id, FileSuffixes[k]);
       var chunk := ParseRows(PartitionChunk(hub(RepoPath(job.tier)), PartitionOrder[k], job.dsNum), numeric);
       path in files && chunk.Success? && files[path] == chunk.value
  }

  /** One output file of an export that stopped at job `j`, for a job
      before `j`. */
  lemma StoppedExportFile(files0: FileSystem, hub: string -> Dataset, numeric: string -> bool, j: nat, m: nat, k: nat)
    requires j < |AllJobs()| && JobExtraction(hub, numeric)(AllJobs()[j]).Failure?
    requires forall i :: 0 <= i < j ==> JobExtraction(hub, numeric)(AllJobs()[i]).Success?
    requires m < j && k < 3
    ensures StoppedFileHolds(files0, hub, numeric, m, k)
  {
    var extract := JobExtraction(hub, numeric);
    JobExtractionGivesThreeTables(hub, numeric);
    StoppedRun(extract, AllJobs(), j);
    PrefixRunFile(files0, extract, j, m, k);
    JobExtractionMeaning(hub, numeric, AllJobs()[m]);
  }

  /** An export that stops at job `j`, the first whose chunks do not all
      convert, ends with that job's error. The files of the jobs before `j`
      hold their converted chunks, and every other file is as it was: the
      files of job `j` and of the jobs after it are not written. */
  lemma AbortedRunOutput(files0: FileSystem, hub: string -> Dataset, numeric: string -> bool, j: nat)
    requires j < |AllJobs()| && JobExtraction(hub, numeric)(AllJobs()[j]).Failure?
    requires forall i :: 0 <= i < j ==> JobExtraction(hub, numeric)(AllJobs()[i]).Success?
    ensures Progress(JobExtraction(hub, numeric), AllJobs()).status == Aborted(JobExtraction(hub, numeric)(AllJobs()[j]).error)
    ensures forall m: nat, k: nat :: m < j && k < 3 ==> StoppedFileHolds(files0, hub, numeric, m, k)
    ensures forall p :: p !in PathsBefore(j) ==> LeftAlone(files0, hub, numeric, p)
  {
    var extract := JobExtraction(hub, numeric);
    JobExtractionGivesThreeTables(hub, numeric);
    StoppedRun(extract, AllJobs(), j);
    forall m: nat, k: nat | m < j && k < 3
      ensures StoppedFileHolds(files0, hub, numeric, m, k)
    {
      StoppedExportFile(files0, hub, numeric, j, m, k);
    }
    forall p | p !in PathsBefore(j)
      ensures LeftAlone(files0, hub, numeric, p)
    {
      PrefixRunLeavesOthers(files0, extract, j, p);
    }
  }
}
