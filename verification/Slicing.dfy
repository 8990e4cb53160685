/** The index arithmetic of `download_partition`, with Python's slicing. */
module Slicing {
  /** Where a slice bound lands in a sequence of length `n`: negative bounds count from the
      end, and every bound is clamped. */
  function Clamp(i: int, n: nat): (k: nat)
    ensures k <= n
  {
    if i < 0 then (if i + n < 0 then 0 else i + n) else if i > n then n else i
  }

  /** `s[start:end]` in Python. */
  function PySlice<T>(s: seq<T>, start: int, end: int): seq<T> {
    var lo, hi := Clamp(start, |s|), Clamp(end, |s|);
    if lo < hi then s[lo..hi] else []
  }

  function RowsPerPartition(rows: nat, partitions: nat): nat
    requires partitions >= 1
  {
    if rows / partitions > 1 then rows / partitions else 1
  }

  function Start(rows: nat, partitions: nat, index: nat): nat
    requires partitions >= 1
  {
    index * RowsPerPartition(rows, partitions)
  }

  function End(rows: nat, partitions: nat, index: nat): nat
    requires partitions >= 1
  {
    if index < partitions - 1 then Start(rows, partitions, index) + RowsPerPartition(rows, partitions) else rows
  }

  function DownloadPartition<T>(df: seq<T>, index: nat, partitions: nat): seq<T>
    requires partitions >= 1
  {
    PySlice(df, Start(|df|, partitions, index), End(|df|, partitions, index))
  }

  /** The first `k` slices, one after the other. */
  function Slices<T>(df: seq<T>, partitions: nat, k: nat): seq<T>
    requires partitions >= 1
  {
    if k == 0 then [] else Slices(df, partitions, k - 1) + DownloadPartition(df, k - 1, partitions)
  }

  /** Consecutive pieces of a prefix. */
  lemma PrefixGrows<T>(df: seq<T>, lo: int, hi: int)
    requires 0 <= lo <= hi
    ensures df[..Clamp(lo, |df|)] + PySlice(df, lo, hi) == df[..Clamp(hi, |df|)]
  {
    var a, b := Clamp(lo, |df|), Clamp(hi, |df|);
    assert df[..a] + df[a..b] == df[..b];
  }

  /** Every slice but the last ends where the next one starts. */
  lemma SlicesMeet(rows: nat, partitions: nat, index: nat)
    requires partitions >= 1 && index < partitions - 1
    ensures End(rows, partitions, index) == Start(rows, partitions, index + 1) >= Start(rows, partitions, index) >= 0
  {
    var size := RowsPerPartition(rows, partitions);
    assert (index + 1) * size == index * size + size;
    assert index * size >= 0;
  }

  lemma {:induction false} SlicesArePrefix<T>(df: seq<T>, partitions: nat, k: nat)
    requires partitions >= 1 && k <= partitions - 1
    ensures Slices(df, partitions, k) == df[..Clamp(Start(|df|, partitions, k), |df|)]
  {
    if k > 0 {
      SlicesArePrefix(df, partitions, k - 1);
      SlicesMeet(|df|, partitions, k - 1);
      PrefixGrows(df, Start(|df|, partitions, k - 1), Start(|df|, partitions, k));
    }
  }

  /** The last slice starts within the frame exactly when there are enough rows. */
  lemma LastStart(rows: nat, partitions: nat)
    requires partitions >= 1
    ensures partitions <= rows ==> Start(rows, partitions, partitions - 1) <= rows
    ensures rows < partitions ==> Start(rows, partitions, partitions - 1) == partitions - 1 >= rows
  {
    var q := rows / partitions;
    if partitions <= rows {
      QuotientIsPositive(rows, partitions);
      assert (partitions - 1) * q == partitions * q - q;
    }
  }

  lemma QuotientIsPositive(rows: nat, partitions: nat)
    requires 1 <= partitions <= rows
    ensures rows / partitions >= 1 && partitions * (rows / partitions) <= rows
    ensures rows < partitions * (rows / partitions) + partitions
    ensures RowsPerPartition(rows, partitions) == rows / partitions
  {
    var q := rows / partitions;
    assert rows == partitions * q + rows % partitions;
  }

  /** Tiling: for every frame and every number of partitions the slices, in order, put
      together exactly the frame, also when there are fewer rows than partitions. */
  lemma SlicesTile<T>(df: seq<T>, partitions: nat)
    requires partitions >= 1
    ensures Slices(df, partitions, partitions) == df
  {
    SlicesArePrefix(df, partitions, partitions - 1);
    LastStart(|df|, partitions);
    var lo := Clamp(Start(|df|, partitions, partitions - 1), |df|);
    assert df[..lo] + df[lo..] == df;
  }

  /** The partition that reads row `j`. */
  function OwnerOf(rows: nat, partitions: nat, j: nat): nat
    requires partitions >= 1
  {
    var k := j / RowsPerPartition(rows, partitions);
    if k < partitions - 1 then k else partitions - 1
  }

  lemma DivBounds(j: nat, size: nat, i: nat)
    requires size >= 1
    ensures i * size <= j <==> i <= j / size
  {
    var q := j / size;
    assert j == q * size + j % size;
    if i <= q {
      MulMonotone(i, q, size);
    } else {
      MulMonotone(q + 1, i, size);
      assert (q + 1) * size == q * size + size;
    }
  }

  lemma MulMonotone(a: nat, b: nat, c: nat)
    requires a <= b
    ensures a * c <= b * c
  {
    assert b * c == a * c + (b - a) * c;
  }

  /** Row `j` lies between the bounds of exactly one slice. */
  lemma EachRowInOneSlice(rows: nat, partitions: nat, j: nat, i: nat)
    requires partitions >= 1 && j < rows && i < partitions
    ensures Start(rows, partitions, i) <= j < End(rows, partitions, i) <==> i == OwnerOf(rows, partitions, j)
  {
    var size := RowsPerPartition(rows, partitions);
    DivBounds(j, size, i);
    DivBounds(j, size, i + 1);
    assert (i + 1) * size == i * size + size;
  }

  /** With at least one row per partition, every slice but the last has `rows / partitions`
      rows, and the last has fewer than that plus `partitions`. */
  lemma SliceSizes<T>(df: seq<T>, partitions: nat, i: nat)
    requires 1 <= partitions <= |df| && i < partitions
    ensures i < partitions - 1 ==> |DownloadPartition(df, i, partitions)| == |df| / partitions
    ensures i == partitions - 1 ==>
              |df| / partitions <= |DownloadPartition(df, i, partitions)| < |df| / partitions + partitions
  {
    var q := |df| / partitions;
    QuotientIsPositive(|df|, partitions);
    MulMonotone(i + 1, partitions, q);
    assert (i + 1) * q == i * q + q;
  }
}
