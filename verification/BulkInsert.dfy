/** The parallel preparation and ordered execution of a bulk insert (gtfsdb/helpers.go). */
module BulkInsert {
  import opened Collections
  import Pipeline = WorkerPipeline

  const SQLITE_MAX_VARIABLES: nat := 32766

  /** Rows per INSERT; a stop time binds 10 fields and a shape point 5. The source panics when
      fieldsPerRow is not positive. */
  function SafeBatchSize(fieldsPerRow: nat): (size: nat)
    requires fieldsPerRow > 0
    ensures size * fieldsPerRow <= SQLITE_MAX_VARIABLES < (size + 1) * fieldsPerRow
  {
    SQLITE_MAX_VARIABLES / fieldsPerRow
  }

  function NumBatches(rows: nat, size: nat): (n: nat)
    requires size > 0
  {
    (rows + size - 1) / size
  }

  lemma NumBatchesRoundsUp(rows: nat, size: nat)
    requires size > 0
    ensures NumBatches(rows, size) * size >= rows
    ensures NumBatches(rows, size) > 0 ==> (NumBatches(rows, size) - 1) * size < rows
  {
    var n := NumBatches(rows, size);
    assert rows + size - 1 == n * size + (rows + size - 1) % size;
    assert (n - 1) * size == n * size - size;
  }

  lemma BatchStart(rows: nat, size: nat, index: nat)
    requires size > 0 && index < NumBatches(rows, size)
    ensures index * size < rows
  {
    NumBatchesRoundsUp(rows, size);
  }

  datatype Batch<T> = Batch(index: nat, rows: seq<T>)

  /** What a worker builds from a batch index. */
  function Prepare<T>(rows: seq<T>, size: nat, index: nat): (b: Batch<T>)
    requires size > 0 && index < NumBatches(|rows|, size)
    ensures b.index == index && 1 <= |b.rows| <= size
  {
    BatchStart(|rows|, size, index);
    var start := index * size;
    Batch(index, rows[start..if start + size > |rows| then |rows| else start + size])
  }

  function AllBatches<T>(rows: seq<T>, size: nat): (r: seq<Batch<T>>)
    requires size > 0
  {
    seq(NumBatches(|rows|, size), i requires 0 <= i < NumBatches(|rows|, size) => Prepare(rows, size, i))
  }

  /** The batches a finished run of the pipeline hands to the sort, in the order they arrived. */
  function PreparedBatches<T>(rows: seq<T>, size: nat, collected: seq<Pipeline.Output>): (r: seq<Batch<T>>)
    requires size > 0
    requires forall i :: 0 <= i < |collected| ==> collected[i].index < NumBatches(|rows|, size)
    ensures |r| == |collected|
  {
    seq(|collected|, i requires 0 <= i < |collected| => Prepare(rows, size, collected[i].index))
  }

  function RowsOf<T>(batches: seq<Batch<T>>): seq<T> {
    if batches == [] then [] else RowsOf(batches[..|batches| - 1]) + batches[|batches| - 1].rows
  }

  /* ---------- The batches partition the rows in order ---------- */

  /** Where the first k batches end. */
  function Covered(rows: nat, size: nat, k: nat): (n: nat)
    ensures n <= rows
  {
    if k * size <= rows then k * size else rows
  }

  lemma CoveredNext<T>(rows: seq<T>, size: nat, k: nat)
    requires size > 0 && k < NumBatches(|rows|, size)
    ensures Covered(|rows|, size, k) <= Covered(|rows|, size, k + 1)
    ensures Prepare(rows, size, k).rows == rows[Covered(|rows|, size, k)..Covered(|rows|, size, k + 1)]
  {
    BatchStart(|rows|, size, k);
    assert (k + 1) * size == k * size + size;
  }

  lemma {:induction false} FirstBatchesAreAPrefix<T>(rows: seq<T>, size: nat, k: nat)
    requires size > 0 && k <= NumBatches(|rows|, size)
    ensures RowsOf(AllBatches(rows, size)[..k]) == rows[..Covered(|rows|, size, k)]
  {
    var first := AllBatches(rows, size)[..k];
    if k > 0 {
      FirstBatchesAreAPrefix(rows, size, k - 1);
      CoveredNext(rows, size, k - 1);
      assert first[..k - 1] == AllBatches(rows, size)[..k - 1];
      assert first[k - 1] == Prepare(rows, size, k - 1);
    }
  }

  lemma AllBatchesCoverRows<T>(rows: seq<T>, size: nat)
    requires size > 0
    ensures RowsOf(AllBatches(rows, size)) == rows
  {
    var all := AllBatches(rows, size);
    FirstBatchesAreAPrefix(rows, size, |all|);
    NumBatchesRoundsUp(|rows|, size);
    assert all[..|all|] == all && rows[..|rows|] == rows;
  }

  /** Every statement binds at least one row and no more parameters than SQLite accepts. */
  lemma BatchesFitOneStatement<T>(rows: seq<T>, fieldsPerRow: nat, index: nat)
    requires 0 < fieldsPerRow <= SQLITE_MAX_VARIABLES
    requires SafeBatchSize(fieldsPerRow) > 0
    requires index < NumBatches(|rows|, SafeBatchSize(fieldsPerRow))
    ensures var batch := Prepare(rows, SafeBatchSize(fieldsPerRow), index);
            1 <= |batch.rows| && |batch.rows| * fieldsPerRow <= SQLITE_MAX_VARIABLES
  {
    var size := SafeBatchSize(fieldsPerRow);
  }

  /* ---------- Sorting restores the order ---------- */

  function BatchIndex<T>(b: Batch<T>): int { b.index }

  lemma {:induction false} EachIndexOnce(collected: seq<Pipeline.Output>, n: nat)
    requires forall item: nat :: Pipeline.Occurrences(Pipeline.Indices(collected), item) == Pipeline.One(item < n)
    ensures Distinct(Pipeline.Indices(collected))
    ensures forall i :: 0 <= i < |collected| ==> collected[i].index < n
    ensures forall item: nat :: item < n ==> item in Pipeline.Indices(collected)
  {
    var indices := Pipeline.Indices(collected);
    forall x: nat ensures multiset(indices)[x] <= 1 {
      assert Pipeline.Occurrences(indices, x) <= 1;
    }
    SingleCountsAreDistinct(indices);
    forall i | 0 <= i < |collected| ensures collected[i].index < n {
      assert indices[i] in multiset(indices);
      assert Pipeline.Occurrences(indices, indices[i]) > 0;
    }
    forall item: nat | item < n ensures item in indices {
      assert Pipeline.Occurrences(indices, item) == 1;
    }
  }

  lemma PreparedIsAllBatches<T(!new)>(rows: seq<T>, size: nat, collected: seq<Pipeline.Output>)
    requires size > 0
    requires forall item: nat ::
      Pipeline.Occurrences(Pipeline.Indices(collected), item) == Pipeline.One(item < NumBatches(|rows|, size))
    ensures forall i :: 0 <= i < |collected| ==> collected[i].index < NumBatches(|rows|, size)
    ensures multiset(PreparedBatches(rows, size, collected)) == multiset(AllBatches(rows, size))
  {
    EachIndexOnce(collected, NumBatches(|rows|, size));
    var prepared, all := PreparedBatches(rows, size, collected), AllBatches(rows, size);
    BatchesDistinct(prepared, Pipeline.Indices(collected));
    BatchesDistinct(all, seq(|all|, i => i));
    PreparedInAll(rows, size, collected);
    DistinctSameElements(prepared, all);
  }

  lemma BatchesDistinct<T>(batches: seq<Batch<T>>, indices: seq<nat>)
    requires |batches| == |indices| && Distinct(indices)
    requires forall i :: 0 <= i < |batches| ==> batches[i].index == indices[i]
    ensures Distinct(batches)
  {
  }

  lemma PreparedInAll<T(!new)>(rows: seq<T>, size: nat, collected: seq<Pipeline.Output>)
    requires size > 0
    requires forall i :: 0 <= i < |collected| ==> collected[i].index < NumBatches(|rows|, size)
    requires forall item: nat :: item < NumBatches(|rows|, size) ==> item in Pipeline.Indices(collected)
    ensures forall b :: b in PreparedBatches(rows, size, collected) <==> b in AllBatches(rows, size)
  {
    forall b | b in PreparedBatches(rows, size, collected) ensures b in AllBatches(rows, size) {
      var i :| 0 <= i < |collected| && PreparedBatches(rows, size, collected)[i] == b;
      BatchInAll(rows, size, collected[i].index);
    }
    forall b | b in AllBatches(rows, size) ensures b in PreparedBatches(rows, size, collected) {
      var k :| 0 <= k < |AllBatches(rows, size)| && AllBatches(rows, size)[k] == b;
      BatchInPrepared(rows, size, collected, k);
    }
  }

  lemma BatchInAll<T>(rows: seq<T>, size: nat, k: nat)
    requires size > 0 && k < NumBatches(|rows|, size)
    ensures Prepare(rows, size, k) in AllBatches(rows, size)
  {
    assert AllBatches(rows, size)[k] == Prepare(rows, size, k);
  }

  lemma BatchInPrepared<T>(rows: seq<T>, size: nat, collected: seq<Pipeline.Output>, k: nat)
    requires size > 0 && k < NumBatches(|rows|, size)
    requires forall i :: 0 <= i < |collected| ==> collected[i].index < NumBatches(|rows|, size)
    requires k in Pipeline.Indices(collected)
    ensures Prepare(rows, size, k) in PreparedBatches(rows, size, collected)
  {
    var i :| 0 <= i < |collected| && Pipeline.Indices(collected)[i] == k;
    assert PreparedBatches(rows, size, collected)[i] == Prepare(rows, size, k);
  }

  /** End to end: whatever the schedule, if the context is live after collection then any
      ordered permutation of the prepared batches inserts exactly the input rows, in order. */
  lemma SortedBatchesAreTheRows<T(!new)>(
      rows: seq<T>, fieldsPerRow: nat, c: Pipeline.Config, steps: seq<Pipeline.Step>, sorted: seq<Batch<T>>)
    requires 0 < fieldsPerRow && SafeBatchSize(fieldsPerRow) > 0
    requires Pipeline.ValidConfig(c) && c.feederWatches && !c.workersDrain
    requires c.items == NumBatches(|rows|, SafeBatchSize(fieldsPerRow))
    requires Pipeline.IsRun(c, steps)
    requires Pipeline.Finished(Pipeline.After(c, steps)) && !Pipeline.After(c, steps).cancelled
    ensures forall i :: 0 <= i < |Pipeline.After(c, steps).collected| ==>
              Pipeline.After(c, steps).collected[i].index < c.items
    ensures SortedBy(BatchIndex, sorted) &&
            multiset(sorted) == multiset(PreparedBatches(rows, SafeBatchSize(fieldsPerRow),
                                                         Pipeline.After(c, steps).collected)) ==>
              RowsOf(sorted) == rows && sorted == AllBatches(rows, SafeBatchSize(fieldsPerRow))
  {
    var size := SafeBatchSize(fieldsPerRow);
    Pipeline.CollectedExactlyOnce(c, steps);
    PreparedIsAllBatches(rows, size, Pipeline.After(c, steps).collected);
    AllBatchesCoverRows(rows, size);
    if SortedBy(BatchIndex, sorted) && multiset(sorted) == multiset(AllBatches(rows, size)) {
      SortedPermutationUnique(BatchIndex, AllBatches(rows, size), sorted);
    }
  }

  /* ---------- Sequential execution inside the transaction ---------- */

  /** Orders the prepared batches in place, as slices.SortFunc does: ties may end up either way. */
  method SortBatches<T(!new, ==)>(batches: array<Batch<T>>)
    modifies batches
    ensures SortedBy(BatchIndex, batches[..])
    ensures multiset(batches[..]) == multiset(old(batches[..]))
  {
    var ordered := SortByKey(BatchIndex, batches[..]);
    assert |ordered| == |multiset(ordered)| == |multiset(batches[..])| == batches.Length;
    for i := 0 to batches.Length
      invariant batches[..i] == ordered[..i]
    {
      batches[i] := ordered[i];
      assert batches[..i + 1] == batches[..i] + [ordered[i]];
    }
    assert batches[..] == ordered;
  }

  /** A table written inside an open transaction. */
  class TransactionTable<T(==, !new)> {
    var rows: seq<T>

    constructor (rows: seq<T>)
      ensures this.rows == rows
    {
      this.rows := rows;
    }

    /** Runs the sorted batches. `failsAt` is the first batch before which the context is found
        cancelled or whose statement fails, if any. */
    method Execute(batches: array<Batch<T>>, failsAt: Option<nat>) returns (ok: bool)
      modifies this
      ensures ok <==> failsAt.None? || failsAt.value >= batches.Length
      ensures rows == old(rows) + RowsOf(if ok then batches[..] else batches[..failsAt.value])
    {
      assert batches[..0] == [];
      for i := 0 to batches.Length
        invariant failsAt.Some? ==> failsAt.value >= i
        invariant rows == old(rows) + RowsOf(batches[..i])
      {
        if failsAt == Some(i) {
          return false;
        }
        rows := rows + batches[i].rows;
        assert batches[..i + 1][..i] == batches[..i];
      }
      assert batches[..batches.Length] == batches[..];
      return true;
    }

    /** Sort and execute: on success the table gains exactly `input`, in order, whatever order the
        batches arrived in; on failure a prefix of it, for the caller to roll back. */
    method InsertPrepared(prepared: array<Batch<T>>, input: seq<T>, size: nat, failsAt: Option<nat>) returns (ok: bool)
      requires size > 0
      requires multiset(prepared[..]) == multiset(AllBatches(input, size))
      modifies this, prepared
      ensures ok ==> rows == old(rows) + input
      ensures exists part :: part <= input && rows == old(rows) + part
      ensures ok <==> failsAt.None? || failsAt.value >= prepared.Length
    {
      SortBatches(prepared);
      SortedPermutationUnique(BatchIndex, AllBatches(input, size), prepared[..]);
      ok := Execute(prepared, failsAt);
      AllBatchesCoverRows(input, size);
      if !ok {
        FirstBatchesAreAPrefix(input, size, failsAt.value);
        assert input[..Covered(|input|, size, failsAt.value)] <= input;
      } else {
        assert input <= input;
      }
    }
  }
}
