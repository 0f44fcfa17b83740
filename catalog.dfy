/** The static catalog of the export script: the three difficulty tiers, the
    ordered equation identifiers of each tier, the dataset repository of each
    tier, and the fixed number of rows every equation owns in each partition. */
module Catalog {

  /** A difficulty tier of the benchmark. */
  datatype Tier = Easy | Medium | Hard

  /** The order in which the driver visits the tiers. */
  const TierOrder: seq<Tier> := [Easy, Medium, Hard]

  /** The dictionary key under which a tier appears in the catalog. */
  function TierName(t: Tier): string
  {
    match t
    case Easy => "easy"
    case Medium => "medium"
    case Hard => "hard"
  }

  /** One of the three partitions of a fetched dataset. */
  datatype Partition = Train | Validation | Test

  /** The order in which an equation's partitions are extracted. */
  const PartitionOrder: seq<Partition> := [Train, Validation, Test]

  /** The file-name suffixes that the driver pairs, position by position, with
      the extracted partitions. */
  const FileSuffixes: seq<string> := ["train", "valid", "test"]

  /** The dictionary key of a partition, in the fetched dataset and in the
      row-count table. */
  function PartitionName(p: Partition): string
  {
    match p
    case Train => "train"
    case Validation => "validation"
    case Test => "test"
  }

  /** Rows owned by one equation in a partition. The table is the same for
      every tier and every equation. */
  function RowCount(p: Partition): (n: nat)
    ensures n > 0
  {
    match p
    case Train => 8000
    case Validation => 1000
    case Test => 1000
  }

  /** The dataset repository that holds a tier's rows: one naming scheme,
      suffixed with the tier's key. */
  function RepoPath(t: Tier): (path: string)
    ensures path == "yoshitomo-matsubara/srsd-feynman_" + TierName(t)
  {
    match t
    case Easy => "yoshitomo-matsubara/srsd-feynman_easy"
    case Medium => "yoshitomo-matsubara/srsd-feynman_medium"
    case Hard => "yoshitomo-matsubara/srsd-feynman_hard"
  }

  /** No identifier repeats within a list. */
  predicate Distinct(ids: seq<string>)
  {
    forall i, j :: 0 <= i < j < |ids| ==> ids[i] != ids[j]
  }

  /** No identifier of one list occurs in the other. */
  predicate Disjoint(a: seq<string>, b: seq<string>)
  {
    forall i, j :: 0 <= i < |a| && 0 <= j < |b| ==> a[i] != b[j]
  }

  /** An identifier can be the first component of a relative file name: it is
      not empty and does not start with the path separator. */
  predicate RelativeName(id: string)
  {
    id != [] && id[0] != '/'
  }

  // The identifier lists are written as blocks of at most twenty entries so
  // that the verifier compares the literals of one or two blocks at a time.

  const EasyIdsA: seq<string> :=
    ["I.12.1", "I.12.4", "I.12.5", "I.14.3", "I.14.4", "I.18.12", "I.18.16",
     "I.25.13", "I.26.2", "I.27.6", "I.30.5", "I.43.16", "I.47.23", "II.2.42",
     "II.3.24"]

  const EasyIdsB: seq<string> :=
    ["II.4.23", "II.8.31", "II.10.9", "II.13.17", "II.15.4", "II.15.5", "II.27.16",
     "II.27.18", "II.34.11", "II.34.29b", "II.38.3", "II.38.14", "III.7.38",
     "III.12.43", "III.15.27"]

  const MediumIdsA: seq<string> :=
    ["I.8.14", "I.10.7", "I.11.19", "I.12.2", "I.12.11", "I.13.4", "I.13.12",
     "I.15.10", "I.16.6", "I.18.4", "I.24.6", "I.29.4", "I.32.5", "I.34.8",
     "I.34.10", "I.34.27", "I.38.12", "I.39.10", "I.39.11", "I.43.31"]

  const MediumIdsB: seq<string> :=
    ["I.43.43", "I.48.2", "II.6.11", "II.8.7", "II.11.3", "II.21.32", "II.34.2",
     "II.34.2a", "II.34.29a", "II.37.1", "III.4.32", "III.8.54", "III.13.18",
     "III.14.14", "III.15.12", "III.15.14", "III.17.37", "III.19.51", "B8",
     "B18"]

  const HardIdsA: seq<string> :=
    ["I.6.20", "I.6.20a", "I.6.20b", "I.9.18", "I.15.3t", "I.15.3x", "I.29.16",
     "I.30.3", "I.32.17", "I.34.14", "I.37.4", "I.39.22", "I.40.1", "I.41.16",
     "I.44.4", "I.50.26", "II.6.15a"]

  const HardIdsB: seq<string> :=
    ["II.6.15b", "II.11.17", "II.11.20", "II.11.27", "II.11.28", "II.13.23",
     "II.13.34", "II.24.17", "II.35.18", "II.35.21", "II.36.38", "III.4.33",
     "III.9.52", "III.10.19", "III.21.20", "B1", "B2"]

  const HardIdsC: seq<string> :=
    ["B3", "B4", "B5", "B6", "B7", "B9", "B10", "B11", "B12", "B13", "B14",
     "B15", "B16", "B17", "B19", "B20"]

  /** The blocks of each tier, in list order. */
  function TierBlocks(t: Tier): seq<seq<string>>
  {
    match t
    case Easy => [EasyIdsA, EasyIdsB]
    case Medium => [MediumIdsA, MediumIdsB]
    case Hard => [HardIdsA, HardIdsB, HardIdsC]
  }

  /** The blocks of the whole catalog, tier after tier. */
  const IdBlocks: seq<seq<string>> :=
    [EasyIdsA, EasyIdsB, MediumIdsA, MediumIdsB, HardIdsA, HardIdsB, HardIdsC]

  /** The blocks one after the other. */
  function Flatten(blocks: seq<seq<string>>): seq<string>
  {
    if blocks == [] then [] else Flatten(blocks[..|blocks| - 1]) + blocks[|blocks| - 1]
  }

  /** Every block is duplicate-free and holds relative names only, and no
      two blocks share an identifier. */
  predicate SeparateBlocks(blocks: seq<seq<string>>)
  {
    && (forall i :: 0 <= i < |blocks| ==> Distinct(blocks[i]))
    && (forall i :: 0 <= i < |blocks| ==> forall k :: 0 <= k < |blocks[i]| ==> RelativeName(blocks[i][k]))
    && (forall i, j :: 0 <= i < j < |blocks| ==> Disjoint(blocks[i], blocks[j]))
  }

  /** The equation identifiers of a tier, in the order in which their rows are
      laid out in the tier's dataset: 30 easy, 40 medium and 50 hard ones, no
      identifier repeated and each usable as a relative file name. */
  function EquationIds(t: Tier): (ids: seq<string>)
    ensures |ids| == match t case Easy => 30 case Medium => 40 case Hard => 50
    ensures Distinct(ids)
    ensures forall i :: 0 <= i < |ids| ==> RelativeName(ids[i])
  {
    CatalogBlocksSeparate();
    TierBlocksInCatalog(t);
    FlattenSeparate(TierBlocks(t));
    Flatten(TierBlocks(t))
  }

  /** Every identifier of the catalog, tier after tier in driver order: 120
      identifiers, none repeated. */
  function AllIds(): (ids: seq<string>)
    ensures |ids| == 120
    ensures Distinct(ids)
    ensures forall i :: 0 <= i < |ids| ==> RelativeName(ids[i])
  {
    var e, m, h := EquationIds(Easy), EquationIds(Medium), EquationIds(Hard);
    CatalogBlocksSeparate();
    FlattenSeparate(IdBlocks);
    FlattenAppend(TierBlocks(Easy), TierBlocks(Medium));
    FlattenAppend(TierBlocks(Easy) + TierBlocks(Medium), TierBlocks(Hard));
    assert IdBlocks == TierBlocks(Easy) + TierBlocks(Medium) + TierBlocks(Hard);
    e + m + h
  }

  lemma {:induction false} FlattenAppend(a: seq<seq<string>>, b: seq<seq<string>>)
    ensures Flatten(a + b) == Flatten(a) + Flatten(b)
    decreases |b|
  {
    if b == [] {
      assert a + b == a;
    } else {
      var front := b[..|b| - 1];
      assert (a + b)[..|a + b| - 1] == a + front;
      FlattenAppend(a, front);
    }
  }

  /** Two duplicate-free lists with no common identifier concatenate to a
      duplicate-free list. */
  lemma DistinctConcat(a: seq<string>, b: seq<string>)
    requires Distinct(a) && Distinct(b) && Disjoint(a, b)
    ensures Distinct(a + b)
  {
    forall i, j | 0 <= i < j < |a + b|
      ensures (a + b)[i] != (a + b)[j]
    {
      if j < |a| {
      } else if i >= |a| {
        assert (a + b)[i] == b[i - |a|] && (a + b)[j] == b[j - |a|];
      } else {
        assert (a + b)[j] == b[j - |a|];
      }
    }
  }

  lemma DisjointConcatLeft(a: seq<string>, b: seq<string>, c: seq<string>)
    requires Disjoint(a, c) && Disjoint(b, c)
    ensures Disjoint(a + b, c)
  {
    forall i, j | 0 <= i < |a + b| && 0 <= j < |c|
      ensures (a + b)[i] != c[j]
    {
      if i >= |a| {
        assert (a + b)[i] == b[i - |a|];
      }
    }
  }

  /** A list none of whose blocks meets `c` does not meet `c`. */
  lemma {:induction false} FlattenDisjoint(blocks: seq<seq<string>>, c: seq<string>)
    requires forall i :: 0 <= i < |blocks| ==> Disjoint(blocks[i], c)
    ensures Disjoint(Flatten(blocks), c)
  {
    if blocks != [] {
      FlattenDisjoint(blocks[..|blocks| - 1], c);
      DisjointConcatLeft(Flatten(blocks[..|blocks| - 1]), blocks[|blocks| - 1], c);
    }
  }

  /** Separate blocks flatten to a duplicate-free list of relative names. */
  lemma {:induction false} FlattenSeparate(blocks: seq<seq<string>>)
    requires SeparateBlocks(blocks)
    ensures Distinct(Flatten(blocks))
    ensures forall k :: 0 <= k < |Flatten(blocks)| ==> RelativeName(Flatten(blocks)[k])
  {
    if blocks != [] {
      var front, last := blocks[..|blocks| - 1], blocks[|blocks| - 1];
      assert SeparateBlocks(front);
      FlattenSeparate(front);
      FlattenDisjoint(front, last);
      DistinctConcat(Flatten(front), last);
      forall k | 0 <= k < |Flatten(blocks)|
        ensures RelativeName(Flatten(blocks)[k])
      {
        if k >= |Flatten(front)| {
          assert Flatten(blocks)[k] == last[k - |Flatten(front)|];
        } else {
          assert Flatten(blocks)[k] == Flatten(front)[k];
        }
      }
    }
  }

  /** A tier's blocks are a run of the catalog's blocks, so they are separate
      when the catalog's are. */
  lemma TierBlocksInCatalog(t: Tier)
    requires SeparateBlocks(IdBlocks)
    ensures SeparateBlocks(TierBlocks(t))
    ensures |Flatten(TierBlocks(t))| == match t case Easy => 30 case Medium => 40 case Hard => 50
  {
    var lo, hi := match t case Easy => 0 case Medium => 2 case Hard => 4,
                  match t case Easy => 2 case Medium => 4 case Hard => 7;
    assert TierBlocks(t) == IdBlocks[lo..hi];
    var tb := TierBlocks(t);
    assert forall i :: 0 <= i < |tb| ==> tb[i] == IdBlocks[lo + i];
    match t
    case Easy => FlattenTwo(EasyIdsA, EasyIdsB);
    case Medium => FlattenTwo(MediumIdsA, MediumIdsB);
    case Hard => FlattenThree(HardIdsA, HardIdsB, HardIdsC);
  }

  lemma FlattenTwo(a: seq<string>, b: seq<string>)
    ensures Flatten([a, b]) == a + b
  {
    assert [a, b][..1] == [a];
    assert [a][..0] == [];
    assert Flatten([a]) == [] + a == a;
  }

  lemma FlattenThree(a: seq<string>, b: seq<string>, c: seq<string>)
    ensures Flatten([a, b, c]) == a + b + c
  {
    assert [a, b, c][..2] == [a, b];
    FlattenTwo(a, b);
  }

  /** The blocks of the catalog are separate: each one duplicate-free and
      of relative names, and no two sharing an identifier. */
  lemma CatalogBlocksSeparate()
    ensures SeparateBlocks(IdBlocks)
  {
    EasyIdsAWellFormed();
    EasyIdsBWellFormed();
    MediumIdsAWellFormed();
    MediumIdsBWellFormed();
    HardIdsAWellFormed();
    HardIdsBWellFormed();
    HardIdsCWellFormed();
    EasyIdsAVersusEasyIdsB();
    EasyIdsAVersusMediumIdsA();
    EasyIdsAVersusMediumIdsB();
    EasyIdsAVersusHardIdsA();
    EasyIdsAVersusHardIdsB();
    EasyIdsAVersusHardIdsC();
    EasyIdsBVersusMediumIdsA();
    EasyIdsBVersusMediumIdsB();
    EasyIdsBVersusHardIdsA();
    EasyIdsBVersusHardIdsB();
    EasyIdsBVersusHardIdsC();
    MediumIdsAVersusMediumIdsB();
    MediumIdsAVersusHardIdsA();
    MediumIdsAVersusHardIdsB();
    MediumIdsAVersusHardIdsC();
    MediumIdsBVersusHardIdsA();
    MediumIdsBVersusHardIdsB();
    MediumIdsBVersusHardIdsC();
    HardIdsAVersusHardIdsB();
    HardIdsAVersusHardIdsC();
    HardIdsBVersusHardIdsC();
  }

  lemma EasyIdsAWellFormed()
    ensures Distinct(EasyIdsA)
    ensures forall k :: 0 <= k < |EasyIdsA| ==> RelativeName(EasyIdsA[k])
  {
  }

  lemma EasyIdsBWellFormed()
    ensures Distinct(EasyIdsB)
    ensures forall k :: 0 <= k < |EasyIdsB| ==> RelativeName(EasyIdsB[k])
  {
  }

  lemma MediumIdsAWellFormed()
    ensures Distinct(MediumIdsA)
    ensures forall k :: 0 <= k < |MediumIdsA| ==> RelativeName(MediumIdsA[k])
  {
  }

  lemma MediumIdsBWellFormed()
    ensures Distinct(MediumIdsB)
    ensures forall k :: 0 <= k < |MediumIdsB| ==> RelativeName(MediumIdsB[k])
  {
  }

  lemma HardIdsAWellFormed()
    ensures Distinct(HardIdsA)
    ensures forall k :: 0 <= k < |HardIdsA| ==> RelativeName(HardIdsA[k])
  {
  }

  lemma HardIdsBWellFormed()
    ensures Distinct(HardIdsB)
    ensures forall k :: 0 <= k < |HardIdsB| ==> RelativeName(HardIdsB[k])
  {
  }

  lemma HardIdsCWellFormed()
    ensures Distinct(HardIdsC)
    ensures forall k :: 0 <= k < |HardIdsC| ==> RelativeName(HardIdsC[k])
  {
  }

  lemma EasyIdsAVersusEasyIdsB()
    ensures Disjoint(EasyIdsA, EasyIdsB)
  {
  }

  lemma EasyIdsAVersusMediumIdsA()
    ensures Disjoint(EasyIdsA, MediumIdsA)
  {
  }

  lemma EasyIdsAVersusMediumIdsB()
    ensures Disjoint(EasyIdsA, MediumIdsB)
  {
  }

  lemma EasyIdsAVersusHardIdsA()
    ensures Disjoint(EasyIdsA, HardIdsA)
  {
  }

  lemma EasyIdsAVersusHardIdsB()
    ensures Disjoint(EasyIdsA, HardIdsB)
  {
  }

  lemma EasyIdsAVersusHardIdsC()
    ensures Disjoint(EasyIdsA, HardIdsC)
  {
  }

  lemma EasyIdsBVersusMediumIdsA()
    ensures Disjoint(EasyIdsB, MediumIdsA)
  {
  }

  lemma EasyIdsBVersusMediumIdsB()
    ensures Disjoint(EasyIdsB, MediumIdsB)
  {
  }

  lemma EasyIdsBVersusHardIdsA()
    ensures Disjoint(EasyIdsB, HardIdsA)
  {
  }

  lemma EasyIdsBVersusHardIdsB()
    ensures Disjoint(EasyIdsB, HardIdsB)
  {
  }

  lemma EasyIdsBVersusHardIdsC()
    ensures Disjoint(EasyIdsB, HardIdsC)
  {
  }

  lemma MediumIdsAVersusMediumIdsB()
    ensures Disjoint(MediumIdsA, MediumIdsB)
  {
  }

  lemma MediumIdsAVersusHardIdsA()
    ensures Disjoint(MediumIdsA, HardIdsA)
  {
  }

  lemma MediumIdsAVersusHardIdsB()
    ensures Disjoint(MediumIdsA, HardIdsB)
  {
  }

  lemma MediumIdsAVersusHardIdsC()
    ensures Disjoint(MediumIdsA, HardIdsC)
  {
  }

  lemma MediumIdsBVersusHardIdsA()
    ensures Disjoint(MediumIdsB, HardIdsA)
  {
  }

  lemma MediumIdsBVersusHardIdsB()
    ensures Disjoint(MediumIdsB, HardIdsB)
  {
  }

  lemma MediumIdsBVersusHardIdsC()
    ensures Disjoint(MediumIdsB, HardIdsC)
  {
  }

  lemma HardIdsAVersusHardIdsB()
    ensures Disjoint(HardIdsA, HardIdsB)
  {
  }

  lemma HardIdsAVersusHardIdsC()
    ensures Disjoint(HardIdsA, HardIdsC)
  {
  }

  lemma HardIdsBVersusHardIdsC()
    ensures Disjoint(HardIdsB, HardIdsC)
  {
  }
}
