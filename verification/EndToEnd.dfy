/** From the rows of a dataset to the artifacts of a completed run. */
module EndToEnd {
  import opened Tables
  import opened Protocol
  import opened Invariant
  import opened Preservation
  import opened History
  import opened Completion
  import opened Agreement
  import opened Slicing

  /** The rows that the subprocess behind artifact `a` was given. */
  function InputOf<T>(df: seq<T>, a: Artifact): seq<T> {
    if a.total == 0 then [] else DownloadPartition(df, a.partition, a.total)
  }

  function InputsOf<T>(df: seq<T>, arts: seq<Artifact>): seq<T> {
    if arts == [] then [] else InputsOf(df, arts[..|arts| - 1]) + InputOf(df, arts[|arts| - 1])
  }

  /** No `CreateArtifact` of the run was lost (a loss is only logged). */
  predicate AllRegistered(s: World, r: nat)
    requires |s.hist| == |s.tasks|
  {
    forall t :: 0 <= t < |s.tasks| && s.tasks[t].run == r && s.hist[t].filed ==> s.hist[t].artifact.Some?
  }

  lemma {:induction false} InputsAreSlices<T>(df: seq<T>, arts: seq<Artifact>, n: nat)
    requires n >= 1
    requires forall p :: 0 <= p < |arts| ==> arts[p].partition == p && arts[p].total == n
    ensures InputsOf(df, arts) == Slices(df, n, |arts|)
  {
    if arts != [] {
      InputsAreSlices(df, arts[..|arts| - 1], n);
    }
  }

  /** `ks` lists the artifacts of run `r`, one for each of `n` partitions, in order. */
  ghost predicate Catalogue(s: World, r: nat, ks: seq<nat>) {
    && |ks| == s.n
    && (forall p :: 0 <= p < |ks| ==>
          ks[p] < |s.artifacts| && s.artifacts[ks[p]].run == r && s.artifacts[ks[p]].partition == p)
    && (forall k :: 0 <= k < |s.artifacts| && s.artifacts[k].run == r ==> k in ks)
  }

  /** The run was completed as SUCCEEDED, not on 0 of 0. */
  ghost predicate TrulySucceeded(s: World, r: nat) {
    && r < |s.runs| == |s.runHist| && RunCompleted(r, RunSucceeded) in s.log
    && (Settled(s, r) || Sound(s, r))
  }

  /** A run that was completed as SUCCEEDED, but not on 0 of 0, has registered exactly one artifact
      for every partition, unless an insert was lost. */
  lemma SucceededRunIsCatalogued(s: World, r: nat) returns (ks: seq<nat>)
    requires Reachable(s) && TrulySucceeded(s, r)
    requires |s.hist| == |s.tasks| && AllRegistered(s, r)
    ensures Catalogue(s, r, ks)
    ensures !s.runHist[r].eager ==> forall p :: 0 <= p < |ks| ==> s.artifacts[ks[p]].total == s.n
  {
    ReachableInv(s);
    ReachableAgrees(s);
    assert EventOk(s, RunCompleted(r, RunSucceeded)) && EventFounded(s, RunCompleted(r, RunSucceeded)) && RunOk(s, r);
    if Orphaned(s, r) { OrphanIsNotSettled(s, r); }
    SettledTasks(s, r);
    var ids := s.runHist[r].ids;
    forall p | 0 <= p < |ids| ensures ids[p] < |s.hist| && s.hist[ids[p]].artifact.Some? {
      assert TaskOk(s, ids[p]);
    }
    ks := seq(|ids|, p requires 0 <= p < |ids| && ids[p] < |s.hist| && s.hist[ids[p]].artifact.Some? =>
                       s.hist[ids[p]].artifact.value);
    forall p | 0 <= p < |ks|
      ensures ks[p] < |s.artifacts| && s.artifacts[ks[p]].run == r && s.artifacts[ks[p]].partition == p
      ensures !s.runHist[r].eager ==> s.artifacts[ks[p]].total == s.n
    {
      assert TaskOk(s, ids[p]);
      assert ArtifactOk(s, ks[p]);
    }
    forall k | 0 <= k < |s.artifacts| && s.artifacts[k].run == r ensures k in ks {
      assert ArtifactOk(s, k);
      assert ks[s.artifacts[k].partition] == k;
    }
  }

  /** The artifacts at `ks`. */
  ghost function Registered(s: World, ks: seq<nat>): (arts: seq<Artifact>)
    requires forall p :: 0 <= p < |ks| ==> ks[p] < |s.artifacts|
    ensures |arts| == |ks| && forall p :: 0 <= p < |arts| ==> arts[p] == s.artifacts[ks[p]]
  {
    seq(|ks|, p requires 0 <= p < |ks| => s.artifacts[ks[p]])
  }

  /** Every artifact at `ks` was computed with the partition count `n`. */
  ghost predicate FullySliced(arts: seq<Artifact>, n: nat) {
    forall p :: 0 <= p < |arts| ==> arts[p].total == n
  }

  ghost predicate CoversAll<T(!new)>(arts: seq<Artifact>) {
    forall df: seq<T> :: InputsOf(df, arts) == df
  }

  // -- when the artifacts cover the dataset --------------------------------------------

  /** The count a subprocess slices by is the number of tasks that exist when it is read. */
  lemma CountedPartitions(s: World, w: nat)
    requires Reachable(s) && Busy(s, w) && s.workers[w].AtProcess?
    ensures Shaped(s)
    ensures var p := Next(s, Work(w, GetRunTaskCount)).workers[w];
            p.AtSubprocess? && (p.partitions == s.n <==> |s.runHist[RunOf(s, w)].ids| == s.n)
  {
    ReachableInv(s);
    CountInRun(s, RunOf(s, w));
  }

  function Factorial(n: nat): (f: nat)
    ensures f >= 1
  {
    if n == 0 then 1 else n * Factorial(n - 1)
  }

  lemma {:induction false} Divides(n: nat, d: nat)
    requires 1 <= d <= n
    ensures Factorial(n) / d * d == Factorial(n)
  {
    if d < n {
      Divides(n - 1, d);
      var q := Factorial(n - 1) / d;
      assert n * (q * d) == n * q * d;
      ExactQuotient(n * q, d);
    } else {
      assert Factorial(n) == Factorial(n - 1) * d;
      ExactQuotient(Factorial(n - 1), d);
    }
  }

  lemma ExactQuotient(q: nat, d: nat)
    requires d >= 1
    ensures q * d / d == q
  {
    DivBounds(q * d, d, q);
    DivBounds(q * d, d, q + 1);
    assert (q + 1) * d == q * d + d;
  }

  /** A frame whose length the partition count divides is cut into equal slices. */
  lemma EqualSlices<T>(df: seq<T>, index: nat, total: nat)
    requires index < total && |df| >= 1 && |df| / total * total == |df|
    ensures |DownloadPartition(df, index, total)| == |df| / total >= 1
  {
    var q := |df| / total;
    assert q >= 1;
    assert RowsPerPartition(|df|, total) == q;
    MulMonotone(index + 1, total, q);
    assert (index + 1) * q == index * q + q;
    if index == total - 1 { assert End(|df|, total, index) == |df|; }
  }

  lemma SliceLength<T>(df: seq<T>, a: Artifact, n: nat)
    requires n >= 1 && |df| == Factorial(n) && a.partition < a.total <= n
    ensures |InputOf(df, a)| >= |df| / n
    ensures a.total < n ==> |InputOf(df, a)| > |df| / n
  {
    Divides(n, a.total);
    Divides(n, n);
    EqualSlices(df, a.partition, a.total);
    SmallerCount(|df|, a.total, n);
  }

  function SumOf(lengths: seq<nat>): nat {
    if lengths == [] then 0 else SumOf(lengths[..|lengths| - 1]) + lengths[|lengths| - 1]
  }

  lemma {:induction false} SumAtLeast(lengths: seq<nat>, q: nat)
    requires forall p :: 0 <= p < |lengths| ==> lengths[p] >= q
    ensures SumOf(lengths) >= |lengths| * q
    ensures SumOf(lengths) == |lengths| * q ==> forall p :: 0 <= p < |lengths| ==> lengths[p] == q
  {
    if lengths != [] {
      var front := lengths[..|lengths| - 1];
      SumAtLeast(front, q);
      assert |lengths| * q == |front| * q + q;
      assert forall p :: 0 <= p < |front| ==> front[p] == lengths[p];
    }
  }

  lemma {:induction false} InputsLength<T>(df: seq<T>, arts: seq<Artifact>, lengths: seq<nat>)
    requires |lengths| == |arts| && forall p :: 0 <= p < |arts| ==> lengths[p] == |InputOf(df, arts[p])|
    ensures |InputsOf(df, arts)| == SumOf(lengths)
  {
    if arts != [] { InputsLength(df, arts[..|arts| - 1], lengths[..|arts| - 1]); }
  }

  lemma SliceLengths<T>(df: seq<T>, arts: seq<Artifact>, n: nat, q: nat) returns (lengths: seq<nat>)
    requires n >= 1 && |df| == Factorial(n) == n * q
    requires forall p :: 0 <= p < |arts| ==> arts[p].partition < arts[p].total <= n
    ensures |lengths| == |arts| && SumOf(lengths) == |InputsOf(df, arts)|
    ensures forall p :: 0 <= p < |arts| ==> lengths[p] >= q && (arts[p].total < n ==> lengths[p] > q)
  {
    lengths := seq(|arts|, p requires 0 <= p < |arts| => |InputOf(df, arts[p])|);
    InputsLength(df, arts, lengths);
    ExactQuotient(q, n);
    assert |df| / n == q;
    forall p | 0 <= p < |arts| ensures lengths[p] >= q && (arts[p].total < n ==> lengths[p] > q) {
      SliceLength(df, arts[p], n);
    }
  }

  lemma EqualLengths(arts: seq<Artifact>, n: nat, lengths: seq<nat>, q: nat)
    requires |lengths| == |arts| && SumOf(lengths) == |lengths| * q
    requires forall p :: 0 <= p < |arts| ==>
               arts[p].total <= n && lengths[p] >= q && (arts[p].total < n ==> lengths[p] > q)
    ensures FullySliced(arts, n)
  {
    SumAtLeast(lengths, q);
  }

  /** Too small a partition count makes the slices overlap. */
  lemma OverlapIsTooLong<T>(df: seq<T>, arts: seq<Artifact>, n: nat)
    requires n >= 1 && |df| == Factorial(n) && |arts| == n && |InputsOf(df, arts)| == |df|
    requires forall p :: 0 <= p < |arts| ==> arts[p].partition < arts[p].total <= n
    ensures FullySliced(arts, n)
  {
    var q := Factorial(n - 1);
    var lengths := SliceLengths(df, arts, n, q);
    EqualLengths(arts, n, lengths, q);
  }

  lemma SmallerCount(rows: nat, d: nat, n: nat)
    requires 1 <= d <= n && rows >= 1 && rows / d * d == rows && rows / n * n == rows
    ensures rows / d >= rows / n && (d < n ==> rows / d > rows / n)
  {
    var p, q := rows / d, rows / n;
    if p <= q {
      MulMonotone(p, q, d);
      assert q * n == q * d + q * (n - d);
      assert q >= 1;
      if d < n { MulMonotone(1, n - d, q); }
    }
  }

  lemma FullSlicesCover<T(!new)>(arts: seq<Artifact>, n: nat)
    requires n >= 1 && |arts| == n && FullySliced(arts, n)
    requires forall p :: 0 <= p < |arts| ==> arts[p].partition == p
    ensures CoversAll<T>(arts)
  {
    forall df: seq<T> ensures InputsOf(df, arts) == df {
      InputsAreSlices(df, arts, n);
      SlicesTile(df, n);
    }
  }

  /** Exactly when the registered slices make up the dataset, whatever its rows are: when each
      of them was cut with the full partition count. */
  lemma CoversIffFullySliced<T(!new, 00)>(s: World, r: nat, ks: seq<nat>)
    requires Reachable(s) && Catalogue(s, r, ks)
    ensures CoversAll<T>(Registered(s, ks)) <==> FullySliced(Registered(s, ks), s.n)
  {
    ReachableInv(s);
    var arts := Registered(s, ks);
    forall p | 0 <= p < |arts| ensures arts[p].partition < arts[p].total <= s.n { assert ArtifactOk(s, ks[p]); }
    if FullySliced(arts, s.n) {
      FullSlicesCover<T>(arts, s.n);
    } else if CoversAll<T>(arts) {
      var x: T :| true;
      var df := seq(Factorial(s.n), i => x);
      assert InputsOf(df, arts) == df;
      OverlapIsTooLong(df, arts, s.n);
    }
  }

  /** End to end: a run that was completed as SUCCEEDED, but not on 0 of 0, and has all its
      artifacts registered covers its dataset, each row once, iff every slice was cut with the
      full partition count; and that is so for every run that was scheduled first. */
  lemma SucceededRunCoversDataset<T(!new, 00)>(s: World, r: nat) returns (ks: seq<nat>)
    requires Reachable(s) && TrulySucceeded(s, r)
    requires |s.hist| == |s.tasks| && AllRegistered(s, r)
    ensures Catalogue(s, r, ks)
    ensures CoversAll<T>(Registered(s, ks)) <==> FullySliced(Registered(s, ks), s.n)
    ensures !s.runHist[r].eager ==> CoversAll<T>(Registered(s, ks))
  {
    ks := SucceededRunIsCatalogued(s, r);
    CoversIffFullySliced<T>(s, r, ks);
  }
}
