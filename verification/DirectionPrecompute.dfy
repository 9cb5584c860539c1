/** The startup precomputation of stop directions (internal/gtfs/direction_precomputer.go):
    the shared worker pipeline with draining workers, then batched writes. */
module DirectionPrecompute {
  import opened Collections
  import Pipeline = WorkerPipeline

  const BATCH_SIZE: nat := 500

  datatype Result = Result(stopID: string, direction: string)

  /** The pipeline over a list of stops: the feeder ignores the context, workers drain. */
  function Workload(stops: seq<string>, workers: nat): Pipeline.Config {
    Pipeline.Config(|stops|, workers, workers, workers * 10, false, true)
  }

  /** What a worker reports for an output: the empty direction once cancelled. */
  function ResultOf(stops: seq<string>, compute: string -> string, o: Pipeline.Output): Result
    requires o.index < |stops|
  {
    Result(stops[o.index], if o.computed then compute(stops[o.index]) else "")
  }

  function Results(stops: seq<string>, compute: string -> string, collected: seq<Pipeline.Output>): (r: seq<Result>)
    requires forall i :: 0 <= i < |collected| ==> collected[i].index < |stops|
    ensures |r| == |collected|
  {
    seq(|collected|, i requires 0 <= i < |collected| => ResultOf(stops, compute, collected[i]))
  }

  lemma CollectedInRange(c: Pipeline.Config, steps: seq<Pipeline.Step>)
    requires Pipeline.ValidConfig(c) && Pipeline.IsRun(c, steps)
    ensures forall i :: 0 <= i < |Pipeline.After(c, steps).collected| ==>
              Pipeline.After(c, steps).collected[i].index < c.items
  {
    var collected := Pipeline.After(c, steps).collected;
    forall i | 0 <= i < |collected| ensures collected[i].index < c.items {
      Pipeline.NeverCollectedTwice(c, steps, collected[i].index);
      assert Pipeline.Indices(collected)[i] in multiset(Pipeline.Indices(collected));
    }
  }

  /** Cancelled or not, the run finishes; if it was not cancelled there is exactly one result
      per stop, and it carries the computed direction. */
  lemma OneResultPerStop(stops: seq<string>, compute: string -> string, workers: nat, steps: seq<Pipeline.Step>)
    requires workers >= 1 && Distinct(stops)
    requires Pipeline.IsRun(Workload(stops, workers), steps)
    ensures !Pipeline.Stuck(Workload(stops, workers), Pipeline.After(Workload(stops, workers), steps))
    ensures var s := Pipeline.After(Workload(stops, workers), steps);
            && (forall i :: 0 <= i < |s.collected| ==> s.collected[i].index < |stops|)
            && (Pipeline.Finished(s) && !s.cancelled ==>
                CoversStops(stops, compute, Results(stops, compute, s.collected)))
  {
    var c := Workload(stops, workers);
    var s := Pipeline.After(c, steps);
    Pipeline.NeverStuck(c, steps);
    CollectedInRange(c, steps);
    if Pipeline.Finished(s) && !s.cancelled {
      Pipeline.CollectedExactlyOnce(c, steps);
      ExactlyOnceCovers(stops, compute, s.collected);
    }
  }

  /** Exactly one result for each stop, carrying its computed direction. */
  ghost predicate CoversStops(stops: seq<string>, compute: string -> string, results: seq<Result>) {
    && DistinctIDs(results)
    && (forall i :: 0 <= i < |results| ==>
          results[i].stopID in stops && results[i].direction == compute(results[i].stopID))
    && (forall stop :: stop in stops ==> Result(stop, compute(stop)) in results)
  }

  ghost predicate DistinctIDs(results: seq<Result>) {
    forall i, j :: 0 <= i < j < |results| ==> results[i].stopID != results[j].stopID
  }

  lemma ExactlyOnceCovers(stops: seq<string>, compute: string -> string, collected: seq<Pipeline.Output>)
    requires Distinct(stops) && Pipeline.AllComputed(collected)
    requires forall i :: 0 <= i < |collected| ==> collected[i].index < |stops|
    requires forall item: nat :: Pipeline.Occurrences(Pipeline.Indices(collected), item) == Pipeline.One(item < |stops|)
    ensures CoversStops(stops, compute, Results(stops, compute, collected))
  {
    var indices, results := Pipeline.Indices(collected), Results(stops, compute, collected);
    forall x: nat ensures multiset(indices)[x] <= 1 {
      assert Pipeline.Occurrences(indices, x) <= 1;
    }
    SingleCountsAreDistinct(indices);
    forall i, j | 0 <= i < j < |results| ensures results[i].stopID != results[j].stopID {
      assert indices[i] != indices[j];
    }
    forall stop | stop in stops ensures Result(stop, compute(stop)) in results {
      var k :| 0 <= k < |stops| && stops[k] == stop;
      assert Pipeline.Occurrences(indices, k) == 1;
      var i :| 0 <= i < |indices| && indices[i] == k;
      assert results[i] == Result(stop, compute(stop));
    }
  }

  /* ---------- Batched writes ---------- */

  /** The direction column, row by row; "" stands for NULL. */
  type Column = map<string, string>

  function WrittenOne(column: Column, r: Result, rejected: set<string>): Column {
    if r.direction != "" && r.stopID in column && r.stopID !in rejected then column[r.stopID := r.direction] else column
  }

  /** The column after every result has been written once, in order. */
  function Written(column: Column, results: seq<Result>, rejected: set<string>): Column {
    if results == [] then column
    else WrittenOne(Written(column, results[..|results| - 1], rejected), results[|results| - 1], rejected)
  }

  datatype Counters = Counters(successful: nat, skipped: nat, errors: nat)

  datatype Report =
    | Completed(counters: Counters)
    | Aborted

  /** What has been counted over the given results: those without a direction, those whose UPDATE
      fails, and the rest. */
  ghost predicate Counts(results: seq<Result>, rejected: set<string>, c: Counters) {
    && c.skipped == |Filter((r: Result) => r.direction == "", results)|
    && c.errors == |Filter((r: Result) => r.direction != "" && r.stopID in rejected, results)|
    && c.successful + c.skipped + c.errors == |results|
  }

  function Counted(c: Counters, r: Result, rejected: set<string>): Counters {
    if r.direction == "" then c.(skipped := c.skipped + 1)
    else if r.stopID in rejected then c.(errors := c.errors + 1)
    else c.(successful := c.successful + 1)
  }

  /** The column and the counters when the first k results have been written. */
  ghost predicate WrittenUpTo(start: Column, results: seq<Result>, k: nat, rejected: set<string>,
                              column: Column, counters: Counters)
    requires k <= |results|
  {
    column == Written(start, results[..k], rejected) && Counts(results[..k], rejected, counters)
  }

  lemma WrittenNext(start: Column, results: seq<Result>, k: nat, rejected: set<string>, column: Column,
                    counters: Counters)
    requires k < |results| && WrittenUpTo(start, results, k, rejected, column, counters)
    ensures var r := results[k];
      WrittenUpTo(start, results, k + 1, rejected, WrittenOne(column, r, rejected), Counted(counters, r, rejected))
  {
    assert results[..k + 1] == results[..k] + [results[k]];
    assert results[..k + 1][..k] == results[..k];
    FilterSnoc((r: Result) => r.direction == "", results[..k], results[k]);
    FilterSnoc((r: Result) => r.direction != "" && r.stopID in rejected, results[..k], results[k]);
  }

  /** One batch's results, written into its transaction. */
  method WriteBatch(results: seq<Result>, from: nat, end: nat, rejected: set<string>, column: Column,
                    counters: Counters, ghost start: Column)
    returns (tx: Column, counters': Counters)
    requires from <= end <= |results| && WrittenUpTo(start, results, from, rejected, column, counters)
    ensures WrittenUpTo(start, results, end, rejected, tx, counters')
  {
    tx, counters' := column, counters;
    for k := from to end
      invariant WrittenUpTo(start, results, k, rejected, tx, counters')
    {
      WrittenNext(start, results, k, rejected, tx, counters');
      if results[k].direction == "" {
        counters' := counters'.(skipped := counters'.skipped + 1);
      } else if results[k].stopID in rejected {
        counters' := counters'.(errors := counters'.errors + 1);
      } else {
        tx := if results[k].stopID in tx then tx[results[k].stopID := results[k].direction] else tx;
        counters' := counters'.(successful := counters'.successful + 1);
      }
    }
  }

  class StopsTable {
    var direction: Column

    constructor (direction: Column)
      ensures this.direction == direction
    {
      this.direction := direction;
    }

    /** `rejected` are the stops whose UPDATE fails, `batchFails` the first batch whose start,
        begin or commit fails, if any. A failed batch leaves no trace, earlier batches stay. */
    method WriteBatches(results: seq<Result>, rejected: set<string>, batchFails: Option<nat>) returns (report: Report)
      modifies this
      ensures report.Completed? <==> batchFails.None? || batchFails.value * BATCH_SIZE >= |results|
      ensures report.Completed? ==>
                && direction == Written(old(direction), results, rejected)
                && Counts(results, rejected, report.counters)
      ensures report.Aborted? ==>
                direction == Written(old(direction), results[..batchFails.value * BATCH_SIZE], rejected)
    {
      var i, batch, counters := 0, 0, Counters(0, 0, 0);
      assert results[..0] == [];
      while i < |results|
        invariant 0 <= i <= |results| && 0 <= batch
        invariant i == batch * BATCH_SIZE || (i == |results| && i < batch * BATCH_SIZE)
        invariant batchFails.Some? ==> batchFails.value >= batch
        invariant WrittenUpTo(old(direction), results, i, rejected, direction, counters)
      {
        if batchFails == Some(batch) {
          return Aborted;
        }
        var end := if i + BATCH_SIZE > |results| then |results| else i + BATCH_SIZE;
        var tx;
        tx, counters := WriteBatch(results, i, end, rejected, direction, counters, old(direction));
        direction := tx;
        i := end;
        batch := batch + 1;
      }
      assert results[..|results|] == results;
      return Completed(counters);
    }
  }

  /* ---------- What the column holds afterwards ---------- */

  lemma {:induction false} WrittenAt(column: Column, results: seq<Result>, rejected: set<string>, stop: string)
    requires DistinctIDs(results) && stop in column
    ensures Written(column, results, rejected).Keys == column.Keys
    ensures (exists i :: 0 <= i < |results| && results[i].stopID == stop && results[i].direction != ""
               && stop !in rejected
               && Written(column, results, rejected)[stop] == results[i].direction)
         || ((forall i :: 0 <= i < |results| && results[i].stopID == stop ==>
                results[i].direction == "" || stop in rejected)
               && Written(column, results, rejected)[stop] == column[stop])
  {
    if results != [] {
      var last := |results| - 1;
      WrittenAt(column, results[..last], rejected, stop);
      if results[last].stopID == stop {
        assert forall i :: 0 <= i < last ==> results[..last][i].stopID != stop;
      } else if exists i :: 0 <= i < last && results[..last][i].stopID == stop
                            && results[..last][i].direction != "" && stop !in rejected {
        var i :| 0 <= i < last && results[..last][i].stopID == stop && results[..last][i].direction != ""
                 && stop !in rejected;
        assert results[i].stopID == stop;
      }
    }
  }

  /** After a completed, uncancelled precomputation every stop whose direction can be computed has
      it, and every other stop keeps what it had, in whatever order the results arrived. */
  lemma ColumnHoldsComputedDirections(
      stops: seq<string>, compute: string -> string, column: Column, results: seq<Result>, stop: string)
    requires CoversStops(stops, compute, results)
    requires stop in stops && stop in column
    ensures Written(column, results, {}).Keys == column.Keys
    ensures Written(column, results, {})[stop] == if compute(stop) != "" then compute(stop) else column[stop]
  {
    WrittenAt(column, results, {}, stop);
    assert Result(stop, compute(stop)) in results;
  }
}
