/** Row-range arithmetic of the export script. Each partition of a tier's
    dataset holds the rows of all the tier's equations one after another;
    equation number `dsNum` owns the half-open range
    [dsNum * count, (dsNum + 1) * count) of it, and the rows are taken with a
    Python slice, which clamps bounds past the end instead of failing. */
module Slicer {

  /** Python's normalisation of one bound of a step-1 slice over a sequence
      of length n: a negative bound counts from the end, and the result is
      clamped into [0, n]. */
  function ClampIndex(i: int, n: nat): (k: nat)
    ensures k <= n
    ensures 0 <= i <= n ==> k == i
    ensures i > n ==> k == n
    ensures i < 0 ==> k == if i + n < 0 then 0 else i + n
  {
    if i < 0 then (if i + n < 0 then 0 else i + n)
    else if i > n then n
    else i
  }

  /** `s[start:stop]` in Python: never fails; an empty result when the
      normalised bounds cross. */
  function PySlice<T>(s: seq<T>, start: int, stop: int): (r: seq<T>)
    ensures |r| <= |s|
    ensures 0 <= start <= stop <= |s| ==> r == s[start..stop]
  {
    var lo, hi := ClampIndex(start, |s|), ClampIndex(stop, |s|);
    if lo < hi then s[lo..hi] else []
  }

  /** A half-open range of row numbers. */
  datatype RowRange = RowRange(start: nat, stop: nat)

  /** The range of rows owned by equation `dsNum` when every equation owns
      `count` rows (the `i_st` and `i_en` of the script). */
  function ChunkRange(dsNum: nat, count: nat): (r: RowRange)
    ensures r.start <= r.stop && r.stop - r.start == count
  {
    RowRange(dsNum * count, (dsNum + 1) * count)
  }

  /** The rows of a partition that the script assigns to equation `dsNum`. */
  function Chunk<T>(rows: seq<T>, dsNum: nat, count: nat): seq<T>
  {
    var r := ChunkRange(dsNum, count);
    PySlice(rows, r.start, r.stop)
  }

  /** The chunks of equations 0 .. n-1, concatenated in order. */
  function FirstChunks<T>(rows: seq<T>, count: nat, n: nat): seq<T>
  {
    if n == 0 then [] else FirstChunks(rows, count, n - 1) + Chunk(rows, n - 1, count)
  }

  function Min(a: int, b: int): int
  {
    if a <= b then a else b
  }

  lemma MulMonotone(a: nat, b: nat, c: nat)
    requires a <= b
    ensures a * c <= b * c
  {
  }

  /** The first equation's range starts at row 0 and the range of equation
      n-1 ends at n * count: the n ranges cover exactly [0, n * count). */
  lemma RangeBoundaries(n: nat, count: nat)
    requires n > 0
    ensures ChunkRange(0, count).start == 0
    ensures ChunkRange(n - 1, count).stop == n * count
  {
  }

  /** Each range ends where the next one starts: no gap, no overlap. */
  lemma RangesAdjacent(dsNum: nat, count: nat)
    ensures ChunkRange(dsNum, count).stop == ChunkRange(dsNum + 1, count).start
  {
  }

  /** Ranges of two different equations share no row. */
  lemma RangesDisjoint(i: nat, j: nat, count: nat, row: int)
    requires i != j
    ensures !(ChunkRange(i, count).start <= row < ChunkRange(i, count).stop
              && ChunkRange(j, count).start <= row < ChunkRange(j, count).stop)
  {
    if i < j {
      MulMonotone(i + 1, j, count);
    } else {
      MulMonotone(j + 1, i, count);
    }
  }

  /** A chunk is the part of its range that lies inside the partition. */
  lemma ChunkIsSlice<T>(rows: seq<T>, dsNum: nat, count: nat)
    ensures var r := ChunkRange(dsNum, count);
            Chunk(rows, dsNum, count) == rows[Min(r.start, |rows|)..Min(r.stop, |rows|)]
  {
  }

  /** How many rows a chunk holds and which: the full `count` rows when the
      partition reaches the end of the range, a shorter tail when the
      partition ends inside the range, and none when the partition ends
      before the range starts; row `k` of the chunk is row
      `dsNum * count + k` of the partition. */
  lemma ChunkContents<T>(rows: seq<T>, dsNum: nat, count: nat)
    ensures |Chunk(rows, dsNum, count)|
            == if |rows| >= (dsNum + 1) * count then count
               else if |rows| <= dsNum * count then 0
               else |rows| - dsNum * count
    ensures forall k :: 0 <= k < |Chunk(rows, dsNum, count)| ==>
              Chunk(rows, dsNum, count)[k] == rows[dsNum * count + k]
  {
    ChunkIsSlice(rows, dsNum, count);
  }

  /** A chunk holds exactly `count` rows if and only if the partition has at
      least (dsNum + 1) * count rows; nothing in the script checks this. */
  lemma ChunkFullIff<T>(rows: seq<T>, dsNum: nat, count: nat)
    ensures |Chunk(rows, dsNum, count)| == count <==> |rows| >= (dsNum + 1) * count
  {
    ChunkContents(rows, dsNum, count);
  }

  /** A partition that ends before an equation's range yields an empty chunk
      for it, not an error. */
  lemma ShortPartitionGivesEmptyChunk<T>(rows: seq<T>, dsNum: nat, count: nat)
    requires |rows| <= dsNum * count
    ensures Chunk(rows, dsNum, count) == []
  {
    ChunkContents(rows, dsNum, count);
  }

  /** The chunks of equations 0 .. n-1, concatenated, are the first n * count
      rows of the partition (or all of it, when it is shorter): the chunks
      tile the partition's prefix with no gap and no overlap. */
  lemma {:induction false} ChunksTilePrefix<T>(rows: seq<T>, count: nat, n: nat)
    ensures FirstChunks(rows, count, n) == rows[..Min(n * count, |rows|)]
  {
    if n > 0 {
      ChunksTilePrefix(rows, count, n - 1);
      ChunkIsSlice(rows, n - 1, count);
      NextRange(n, count);
      PrefixThenSlice(rows, Min((n - 1) * count, |rows|), Min(n * count, |rows|));
    }
  }

  lemma NextRange(n: nat, count: nat)
    requires n > 0
    ensures ChunkRange(n - 1, count) == RowRange((n - 1) * count, n * count)
    ensures (n - 1) * count <= n * count
  {
  }

  lemma PrefixThenSlice<T>(rows: seq<T>, a: int, b: int)
    requires 0 <= a <= b <= |rows|
    ensures rows[..a] + rows[a..b] == rows[..b]
  {
  }

  /** When the partition holds at least n * count rows, the n chunks
      reproduce exactly its first n * count rows. */
  lemma ChunksTileExactly<T>(rows: seq<T>, count: nat, n: nat)
    requires |rows| >= n * count
    ensures FirstChunks(rows, count, n) == rows[..n * count]
    ensures |FirstChunks(rows, count, n)| == n * count
  {
    ChunksTilePrefix(rows, count, n);
  }
}
