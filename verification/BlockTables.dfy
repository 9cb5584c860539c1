/** The block indexes and layovers of a committed database, read against its own trips and stop
    times (gtfsdb/helpers.go). The import computes them from the feed's trip list instead. */
module BlockTables {
  import opened Collections
  import opened GtfsFeed
  import opened BlockIndex
  import opened StaticImport

  /* ---------- Reading a trip back from the tables ---------- */

  function Sequence(): StopTime -> int { (s: StopTime) => s.sequence }

  ghost predicate InSequence(stopTimes: seq<StopTime>) {
    forall i, j :: 0 <= i < j < |stopTimes| ==> stopTimes[i].sequence < stopTimes[j].sequence
  }

  predicate HoldsStopTime(row: StopTimeRow, id: string, s: StopTime) {
    && row.tripID == id && row.sequence == s.sequence && row.stopID == s.stopID
    && row.arrival == s.arrival && row.departure == s.departure
  }

  /** The stop times are exactly the rows stored for the trip, by ascending sequence number. */
  ghost predicate HoldsStopTimes(table: map<(string, int), StopTimeRow>, id: string, stopTimes: seq<StopTime>) {
    && InSequence(stopTimes)
    && (forall i :: 0 <= i < |stopTimes| ==>
          (id, stopTimes[i].sequence) in table && HoldsStopTime(table[(id, stopTimes[i].sequence)], id, stopTimes[i]))
    && forall k :: k in table && k.0 == id ==> exists i :: 0 <= i < |stopTimes| && stopTimes[i].sequence == k.1
  }

  predicate HoldsTrip(row: TripRow, trip: ScheduledTrip) {
    && row.id == trip.id && row.routeID == trip.routeID && row.serviceID == trip.serviceID
    && row.blockID == trip.blockID && row.body == trip.body
  }

  /** The trip as its row and its stop time rows have it. */
  ghost predicate ReadsAs(t: Tables, trip: ScheduledTrip) {
    && trip.id in t.trips
    && HoldsTrip(t.trips[trip.id], trip)
    && HoldsStopTimes(t.stopTimes, trip.id, trip.stopTimes)
  }

  ghost predicate DistinctIDs(trips: seq<ScheduledTrip>) {
    forall i, j :: 0 <= i < j < |trips| ==> trips[i].id != trips[j].id
  }

  /** The trips of the database, each once, in any order. */
  ghost predicate StoredTrips(t: Tables, trips: seq<ScheduledTrip>) {
    && DistinctIDs(trips)
    && AllReadFrom(t, trips)
    && forall id :: id in t.trips ==> exists trip :: trip in trips && trip.id == id
  }

  /** Reading a trip back gives one answer. */
  lemma ReadsAsOne(t: Tables, a: ScheduledTrip, b: ScheduledTrip)
    requires ReadsAs(t, a) && ReadsAs(t, b) && a.id == b.id
    ensures a == b
  {
    forall s | s in a.stopTimes ensures s in b.stopTimes { SharedStopTime(t, a, b, s); }
    forall s | s in b.stopTimes ensures s in a.stopTimes { SharedStopTime(t, b, a, s); }
    InSequenceIsDistinct(a.stopTimes);
    InSequenceIsDistinct(b.stopTimes);
    DistinctSameElements(a.stopTimes, b.stopTimes);
    SortedPermutationUnique(Sequence(), a.stopTimes, b.stopTimes);
    assert TripRowOf()(a) == TripRowOf()(b);
  }

  lemma SharedStopTime(t: Tables, a: ScheduledTrip, b: ScheduledTrip, s: StopTime)
    requires ReadsAs(t, a) && ReadsAs(t, b) && a.id == b.id && s in a.stopTimes
    ensures s in b.stopTimes
  {
    var i :| 0 <= i < |a.stopTimes| && a.stopTimes[i] == s;
    assert (a.id, s.sequence) in t.stopTimes;
    var j :| 0 <= j < |b.stopTimes| && b.stopTimes[j].sequence == s.sequence;
    assert StopTimeRowOf(a.id)(s) == StopTimeRowOf(a.id)(b.stopTimes[j]);
  }

  lemma InSequenceIsDistinct(stopTimes: seq<StopTime>)
    requires InSequence(stopTimes)
    ensures Distinct(stopTimes) && SortedBy(Sequence(), stopTimes)
    ensures forall i, j :: 0 <= i < j < |stopTimes| ==> Sequence()(stopTimes[i]) != Sequence()(stopTimes[j])
  {
  }

  /* ---------- The block tables are those of the stored trips ---------- */

  /** The block-trip index and the layovers are the ones the stored trips and stop times define. */
  ghost predicate BlockTablesMatch(t: Tables, stored: seq<ScheduledTrip>) {
    && t.indices == Indices(TripMap(stored))
    && t.entries == Entries(TripMap(stored))
    && IsLayoverIndex(t.layovers, stored)
  }

  ghost predicate AllInSequence(trips: seq<ScheduledTrip>) {
    forall trip :: trip in trips ==> InSequence(trip.stopTimes)
  }

  /** A row inserted under a key that no other row has is the row stored. */
  lemma {:induction false} PutFinds<K, V>(keyOf: V -> K, rows: seq<V>, i: nat)
    requires i < |rows| && forall j :: 0 <= j < |rows| && j != i ==> keyOf(rows[j]) != keyOf(rows[i])
    ensures keyOf(rows[i]) in Put(keyOf, map[], rows) && Put(keyOf, map[], rows)[keyOf(rows[i])] == rows[i]
  {
    if i < |rows| - 1 {
      var before := rows[..|rows| - 1];
      assert before[i] == rows[i];
      PutFinds(keyOf, before, i);
    }
  }

  lemma {:induction false} InFlatten<T>(parts: seq<seq<T>>, x: T)
    ensures x in Flatten(parts) <==> exists i :: 0 <= i < |parts| && x in parts[i]
  {
    if parts != [] {
      InFlatten(parts[1..], x);
      if x in Flatten(parts[1..]) {
        var i :| 0 <= i < |parts[1..]| && x in parts[1..][i];
        assert x in parts[i + 1];
      }
      if i :| 0 < i < |parts| && x in parts[i] { assert x in parts[1..][i - 1]; }
    }
  }

  lemma RowOfTrip(f: Feed, row: StopTimeRow)
    ensures row in StopTimeRows(f)
            <==> exists trip, s :: trip in f.trips && s in trip.stopTimes && row == StopTimeRowOf(trip.id)(s)
  {
    var parts := Map(StopTimeRowsOf(), f.trips);
    InFlatten(parts, row);
    if row in StopTimeRows(f) {
      var i :| 0 <= i < |parts| && row in parts[i];
      var j :| 0 <= j < |parts[i]| && parts[i][j] == row;
      assert f.trips[i] in f.trips && f.trips[i].stopTimes[j] in f.trips[i].stopTimes;
    }
    if trip, s :| trip in f.trips && s in trip.stopTimes && row == StopTimeRowOf(trip.id)(s) {
      var i :| 0 <= i < |f.trips| && f.trips[i] == trip;
      var j :| 0 <= j < |trip.stopTimes| && trip.stopTimes[j] == s;
      assert parts[i][j] == row;
    }
  }

  lemma StopTimeIsStored(f: Feed, trip: ScheduledTrip, s: StopTime)
    requires Accepted(f) && trip in f.trips && s in trip.stopTimes
    ensures (trip.id, s.sequence) in StopTimeTable(f)
            && StopTimeTable(f)[(trip.id, s.sequence)] == StopTimeRowOf(trip.id)(s)
  {
    var row, rows := StopTimeRowOf(trip.id)(s), StopTimeRows(f);
    RowOfTrip(f, row);
    var i :| 0 <= i < |rows| && rows[i] == row;
    assert DistinctKeys(StopTimeKey(), rows);
    PutFinds(StopTimeKey(), rows, i);
  }

  lemma StoredStopTime(f: Feed, k: (string, int))
    requires k in StopTimeTable(f)
    ensures exists trip, s :: trip in f.trips && s in trip.stopTimes && trip.id == k.0 && s.sequence == k.1
  {
    PutKeys(StopTimeKey(), StopTimeRows(f), k);
    RowOfTrip(f, StopTimeTable(f)[k]);
  }

  lemma TripRowReadsBack(f: Feed, trip: ScheduledTrip)
    requires DistinctIDs(f.trips) && trip in f.trips
    ensures trip.id in TripTable(f) && TripTable(f)[trip.id] == TripRowOf()(trip)
  {
    var i :| 0 <= i < |f.trips| && f.trips[i] == trip;
    var rows := TripRows(f);
    assert forall j :: 0 <= j < |rows| ==> TripRowKey()(rows[j]) == f.trips[j].id;
    PutFinds(TripRowKey(), rows, i);
  }

  lemma SameTrip(trips: seq<ScheduledTrip>, a: ScheduledTrip, b: ScheduledTrip)
    requires DistinctIDs(trips) && a in trips && b in trips && a.id == b.id
    ensures a == b
  {
  }

  lemma StopTimesReadBack(f: Feed, trip: ScheduledTrip)
    requires Accepted(f) && DistinctIDs(f.trips) && trip in f.trips && InSequence(trip.stopTimes)
    ensures HoldsStopTimes(StopTimeTable(f), trip.id, trip.stopTimes)
  {
    forall j | 0 <= j < |trip.stopTimes|
      ensures (trip.id, trip.stopTimes[j].sequence) in StopTimeTable(f)
      ensures StopTimeTable(f)[(trip.id, trip.stopTimes[j].sequence)] == StopTimeRowOf(trip.id)(trip.stopTimes[j])
    {
      StopTimeIsStored(f, trip, trip.stopTimes[j]);
    }
    forall k | k in StopTimeTable(f) && k.0 == trip.id
      ensures exists j :: 0 <= j < |trip.stopTimes| && trip.stopTimes[j].sequence == k.1
    {
      StoredStopTime(f, k);
      var other, s :| other in f.trips && s in other.stopTimes && other.id == k.0 && s.sequence == k.1;
      SameTrip(f.trips, trip, other);
      var j :| 0 <= j < |trip.stopTimes| && trip.stopTimes[j] == s;
    }
  }

  lemma StoredTripIsInFeed(f: Feed, id: string)
    requires id in TripTable(f)
    ensures exists trip :: trip in f.trips && trip.id == id
  {
    PutKeys(TripRowKey(), TripRows(f), id);
    var i :| 0 <= i < |f.trips| && TripRowKey()(TripRows(f)[i]) == id;
    assert f.trips[i] in f.trips && f.trips[i].id == id;
  }

  /** Of a feed with the same trip and stop time tables, if no trip ID repeats and the stop times are
      in sequence, the trips are the stored ones. */
  lemma TripsReadBack(t: Tables, f: Feed, g: Feed)
    requires DerivedFrom(t, f) && Accepted(g) && TripTable(g) == TripTable(f) && StopTimeTable(g) == StopTimeTable(f)
    requires DistinctIDs(g.trips) && AllInSequence(g.trips)
    ensures StoredTrips(t, g.trips)
  {
    forall trip | trip in g.trips ensures ReadsAs(t, trip) {
      TripRowReadsBack(g, trip);
      StopTimesReadBack(g, trip);
      assert t.trips[trip.id] == WithBounds(TripTable(g)[trip.id], t.stopTimes);
    }
    forall id | id in t.trips ensures exists trip :: trip in g.trips && trip.id == id { StoredTripIsInFeed(g, id); }
  }

  lemma StoredTripsAgree(t: Tables, a: seq<ScheduledTrip>, b: seq<ScheduledTrip>)
    requires StoredTrips(t, a) && StoredTrips(t, b)
    ensures multiset(a) == multiset(b)
  {
    forall trip | trip in a ensures trip in b {
      var other :| other in b && other.id == trip.id;
      ReadsAsOne(t, trip, other);
    }
    forall trip | trip in b ensures trip in a {
      var other :| other in a && other.id == trip.id;
      ReadsAsOne(t, trip, other);
    }
    DistinctSameElements(a, b);
  }

  lemma {:induction false} TripMapHolds(trips: seq<ScheduledTrip>, trip: ScheduledTrip)
    requires DistinctIDs(trips) && trip in trips && trip.stopTimes != []
    ensures trip.id in TripMap(trips) && TripMap(trips)[trip.id] == InfoOf(trip)
  {
    var last := |trips| - 1;
    assert trips == trips[..last] + [trips[last]];
    if trip != trips[last] { TripMapHolds(trips[..last], trip); }
  }

  lemma TripMapIgnoresOrder(a: seq<ScheduledTrip>, b: seq<ScheduledTrip>)
    requires DistinctIDs(a) && DistinctIDs(b) && multiset(a) == multiset(b)
    ensures TripMap(a) == TripMap(b)
  {
    TripMapIsKeyed(a);
    TripMapIsKeyed(b);
    forall trip ensures trip in a <==> trip in b { assert trip in multiset(a) <==> trip in multiset(b); }
    forall id | id in TripMap(a) ensures TripMap(a)[id] == TripMap(b)[id] {
      var trip :| trip in a && trip.id == id && trip.stopTimes != [];
      TripMapHolds(a, trip);
      TripMapHolds(b, trip);
    }
  }

  lemma LayoversIgnoreOrder(rows: seq<Layover>, a: seq<ScheduledTrip>, b: seq<ScheduledTrip>)
    requires multiset(a) == multiset(b) && IsLayoverIndex(rows, a)
    ensures IsLayoverIndex(rows, b)
  {
    forall key ensures HasLayovers(rows, b, key) {
      assert HasLayovers(rows, a, key);
      var order :| IsSchedule(order, a, key) && AllRun(order) && Filter(InBlock(key), rows) == Layovers(key, order);
      assert multiset(BlockTrips(a, key)) == multiset(BlockTrips(b, key)) by {
        forall trip ensures multiset(BlockTrips(a, key))[trip] == multiset(BlockTrips(b, key))[trip] {
          FilterCount(KeyedBy(BlockOf, key), a, trip);
          FilterCount(KeyedBy(BlockOf, key), b, trip);
        }
      }
      assert IsSchedule(order, b, key);
    }
  }

  /** For a feed without repeated trip IDs and with stop times in sequence, the block tables are the
      ones that the stored trips and stop times define. */
  lemma BlockTablesFollowBaseTables(t: Tables, f: Feed, stored: seq<ScheduledTrip>)
    requires DerivedFrom(t, f) && DistinctIDs(f.trips) && AllInSequence(f.trips)
    requires StoredTrips(t, stored)
    ensures BlockTablesMatch(t, stored)
  {
    TripsReadBack(t, f, f);
    StoredTripsAgree(t, f.trips, stored);
    TripMapIgnoresOrder(f.trips, stored);
    LayoversIgnoreOrder(t.layovers, f.trips, stored);
  }

  /** So each block's layovers are exactly the windows between consecutive stored trips that meet in
      time, from the last stored departure of the one to the first stored arrival of the next. */
  lemma LayoversAreStoredMeetings(t: Tables, f: Feed, stored: seq<ScheduledTrip>, key: BlockKey)
    requires DerivedFrom(t, f) && DistinctIDs(f.trips) && AllInSequence(f.trips)
    requires StoredTrips(t, stored)
    ensures exists order :: IsSchedule(order, stored, key) && AllRun(order) && AllReadFrom(t, order)
                            && AreMeetings(t.layovers, key, order)
  {
    BlockTablesFollowBaseTables(t, f, stored);
    assert HasLayovers(t.layovers, stored, key);
    var order :| IsSchedule(order, stored, key) && AllRun(order)
                 && Filter(InBlock(key), t.layovers) == Layovers(key, order);
    ScheduleRuns(order, stored, key);
    RowsAreMeetings(t.layovers, key, order);
  }

  ghost predicate AllReadFrom(t: Tables, trips: seq<ScheduledTrip>) {
    forall trip :: trip in trips ==> ReadsAs(t, trip)
  }

  /** The block's rows are exactly the layovers between consecutive trips of the order. */
  ghost predicate AreMeetings(rows: seq<Layover>, key: BlockKey, order: seq<ScheduledTrip>)
    requires AllRun(order)
  {
    forall l: Layover :: l in rows && l.blockID == key.blockID && l.serviceID == key.serviceID <==>
      exists i :: IsMeeting(key, order, i, l)
  }

  lemma RowsAreMeetings(rows: seq<Layover>, key: BlockKey, order: seq<ScheduledTrip>)
    requires AllRun(order) && Filter(InBlock(key), rows) == Layovers(key, order)
    ensures AreMeetings(rows, key, order)
  {
    forall l: Layover
      ensures l in rows && l.blockID == key.blockID && l.serviceID == key.serviceID <==>
                exists i :: IsMeeting(key, order, i, l)
    {
      LayoverForEachMeeting(key, order, l);
      assert l in Filter(InBlock(key), rows) <==> l in rows && InBlock(key)(l);
    }
  }

  lemma StopTimesPass(f: Feed, trip: ScheduledTrip, s: StopTime)
    requires Accepted(f) && trip in f.trips && s in trip.stopTimes
    ensures s.arrival <= s.departure
  {
    var row, rows := StopTimeRowOf(trip.id)(s), StopTimeRows(f);
    RowOfTrip(f, row);
    var i :| 0 <= i < |rows| && rows[i] == row;
    assert StopTimePasses(TripTable(f), StopTable(f))(rows[i]);
  }

  /** In a committed database the arrival at a stop never follows the departure, so a block's windows
      are disjoint as soon as no trip leaves its first stop after its last. */
  lemma CommittedWindowsAreDisjoint(t: Tables, f: Feed, key: BlockKey)
    requires DerivedFrom(t, f)
    requires forall trip :: trip in f.trips && BlockOf(trip) == Some(key) ==>
               FirstDeparture(trip) <= LastDeparture(trip)
    ensures DisjointInOrder(Filter(InBlock(key), t.layovers))
  {
    forall trip | trip in f.trips && BlockOf(trip) == Some(key) ensures WellTimed(trip) {
      StopTimesPass(f, trip, trip.stopTimes[0]);
    }
    TableWindowsAreDisjoint(t.layovers, f.trips, key);
  }

  /* ---------- Where they differ ---------- */

  /** Both provisos are needed: the block tables follow the base tables for all admitted feeds exactly
      when neither a repeated trip ID nor stop times out of sequence are admitted. */
  lemma BlockTablesCondition(repeatedIDs: bool, outOfSequence: bool)
    ensures !repeatedIDs && !outOfSequence <==>
              forall t, f, stored :: Admitted(t, f, stored, repeatedIDs, outOfSequence) ==> BlockTablesMatch(t, stored)
  {
    if repeatedIDs {
      RepeatedIDMisleads();
      var t, f, stored :| Admitted(t, f, stored, true, false) && !BlockTablesMatch(t, stored);
      assert Admitted(t, f, stored, repeatedIDs, outOfSequence);
    } else if outOfSequence {
      WrongSequenceMisleads();
    } else {
      forall t, f, stored | Admitted(t, f, stored, false, false) ensures BlockTablesMatch(t, stored) {
        BlockTablesFollowBaseTables(t, f, stored);
      }
    }
  }

  ghost predicate Admitted(t: Tables, f: Feed, stored: seq<ScheduledTrip>, repeatedIDs: bool, outOfSequence: bool) {
    && DerivedFrom(t, f) && StoredTrips(t, stored)
    && (DistinctIDs(f.trips) || repeatedIDs)
    && (AllInSequence(f.trips) || outOfSequence)
  }

  const STOPS := [Stop("x", true, "", ""), Stop("y", true, "", "")]
  const BLOCK := BlockKey("b1", "s")
  const FIRST := Trip("p", "b1", [StopTime("x", 1, 0, 0)])

  function Trip(id: string, blockID: string, stopTimes: seq<StopTime>): ScheduledTrip {
    ScheduledTrip(id, "r", "s", blockID, stopTimes, "")
  }

  lemma StopsStored(f: Feed)
    requires f.stops == STOPS
    ensures "x" in StopTable(f) && "y" in StopTable(f) && ParentsPresent(StopTable(f))
  {
    assert STOPS[0] in STOPS && STOPS[1] in STOPS;
    StopIsInTable(STOPS, "x");
    StopIsInTable(STOPS, "y");
    ParentsPresentIff(f);
  }

  /** The three stop times of an example: of "p", and two of "t". */
  lemma ExampleAccepted(trips: seq<ScheduledTrip>, a: StopTimeRow, b: StopTimeRow)
    requires |trips| >= 2 && trips[0] == FIRST
    requires forall i :: 0 < i < |trips| ==> trips[i] == Trip("t", trips[i].blockID, trips[i].stopTimes)
    requires StopTimeRows(SmallFeed(STOPS, trips)) == [StopTimeRow("p", 1, "x", 0, 0), a, b]
    requires a.tripID == b.tripID == "t" && a.sequence != b.sequence && a.sequence >= 0 && b.sequence >= 0
    requires a.stopID in {"x", "y"} && b.stopID in {"x", "y"} && a.arrival <= a.departure && b.arrival <= b.departure
    ensures Accepted(SmallFeed(STOPS, trips))
  {
    var f := SmallFeed(STOPS, trips);
    StopsStored(f);
    TripIsStored(f, trips[0]);
    TripIsStored(f, trips[1]);
    SmallFeedPasses(STOPS, trips);
  }

  ghost predicate LeaveInTurn(order: seq<ScheduledTrip>) {
    forall i, j :: 0 <= i < j < |order| ==> FirstDeparture(order[i]) < FirstDeparture(order[j])
  }

  /** Two feeds with the same base tables whose trips make different layovers. */
  lemma SameTablesOtherLayovers(f: Feed, g: Feed) returns (t: Tables)
    requires Accepted(f) && Accepted(g) && TripTable(g) == TripTable(f) && StopTimeTable(g) == StopTimeTable(f)
    requires DistinctIDs(g.trips) && AllInSequence(g.trips)
    requires LeaveInTurn(BlockTrips(f.trips, BLOCK)) && LeaveInTurn(BlockTrips(g.trips, BLOCK))
    requires forall other :: other != BLOCK ==> |BlockTrips(f.trips, other)| <= 1
    requires Layovers(BLOCK, BlockTrips(f.trips, BLOCK)) != Layovers(BLOCK, BlockTrips(g.trips, BLOCK))
    ensures DerivedFrom(t, f) && StoredTrips(t, g.trips) && !BlockTablesMatch(t, g.trips)
  {
    OneBlockIsTable(BLOCK, f.trips);
    t := Derive(f, Layovers(BLOCK, BlockTrips(f.trips, BLOCK)));
    TripsReadBack(t, f, g);
    if IsLayoverIndex(t.layovers, g.trips) { TableOfDistinctDepartures(t.layovers, g.trips, BLOCK); }
  }

  lemma TripIsInBlock(id: string, blockID: string, stopTimes: seq<StopTime>)
    requires |blockID| == 2 && stopTimes != []
    ensures BlockOf(Trip(id, blockID, stopTimes)) == Some(BlockKey(blockID, "s"))
  {
  }

  lemma RowsOfOne(id: string, blockID: string, s: StopTime)
    ensures StopTimeRowsOf()(Trip(id, blockID, [s])) == [StopTimeRowOf(id)(s)]
  {
  }

  lemma RowsOfTwo(id: string, blockID: string, s: StopTime, u: StopTime)
    ensures StopTimeRowsOf()(Trip(id, blockID, [s, u])) == [StopTimeRowOf(id)(s), StopTimeRowOf(id)(u)]
  {
  }

  lemma PutThree<K, V>(keyOf: V -> K, a: V, b: V, c: V)
    ensures Put(keyOf, map[], [a, b]) == map[][keyOf(a) := a][keyOf(b) := b]
    ensures Put(keyOf, map[], [a, b, c]) == map[][keyOf(a) := a][keyOf(b) := b][keyOf(c) := c]
  {
    assert [a, b, c][..2] == [a, b] && [a, b][..1] == [a] && [a][..0] == [];
    assert Put(keyOf, map[], [a]) == map[][keyOf(a) := a];
  }

  lemma FlattenTwo<T>(a: seq<T>, b: seq<T>)
    ensures Flatten([a, b]) == a + b
  {
    assert [a, b][1..] == [b] && [b][1..] == [];
    assert Flatten([b]) == b + Flatten([]);
  }

  lemma FlattenThree<T>(a: seq<T>, b: seq<T>, c: seq<T>)
    ensures Flatten([a, b, c]) == a + b + c
  {
    assert [a, b, c][1..] == [b, c];
    FlattenTwo(b, c);
  }

  lemma PairLayovers(key: BlockKey, a: ScheduledTrip, b: ScheduledTrip)
    requires a.stopTimes != [] && b.stopTimes != []
    ensures Layovers(key, [a, b]) == Contributed(LayoverBetween(key, a, b))
  {
    assert [a, b][..1] == [a] && Layovers(key, [a]) == [];
  }

  /** A trip ID used twice: the layover of the first block names a trip stored in the second. */
  lemma RepeatedIDMisleads()
    ensures exists t, f, stored :: Admitted(t, f, stored, true, false) && !BlockTablesMatch(t, stored)
  {
    var f, g := RepeatedFeed(), RepeatedFeedAsStored();
    RepeatedTables();
    RepeatedLayovers();
    RepeatedSequences();
    var t := SameTablesOtherLayovers(f, g);
    assert Admitted(t, f, g.trips, true, false);
  }

  function RepeatedFeed(): Feed {
    SmallFeed(STOPS, [FIRST, Trip("t", "b1", [StopTime("x", 1, 10, 10)]), Trip("t", "b2", [StopTime("y", 2, 20, 20)])])
  }

  function RepeatedFeedAsStored(): Feed {
    SmallFeed(STOPS, [FIRST, Trip("t", "b2", [StopTime("x", 1, 10, 10), StopTime("y", 2, 20, 20)])])
  }

  lemma RepeatedSequences()
    ensures AllInSequence(RepeatedFeed().trips) && AllInSequence(RepeatedFeedAsStored().trips)
    ensures DistinctIDs(RepeatedFeedAsStored().trips)
  {
  }

  const P := StopTimeRow("p", 1, "x", 0, 0)

  lemma RepeatedStopTimes()
    ensures StopTimeRows(RepeatedFeed()) == [P, StopTimeRow("t", 1, "x", 10, 10), StopTimeRow("t", 2, "y", 20, 20)]
    ensures StopTimeRows(RepeatedFeedAsStored()) == StopTimeRows(RepeatedFeed())
  {
    var a, b := StopTimeRow("t", 1, "x", 10, 10), StopTimeRow("t", 2, "y", 20, 20);
    RowsOfOne("p", "b1", StopTime("x", 1, 0, 0));
    RowsOfOne("t", "b1", StopTime("x", 1, 10, 10));
    RowsOfOne("t", "b2", StopTime("y", 2, 20, 20));
    RowsOfTwo("t", "b2", StopTime("x", 1, 10, 10), StopTime("y", 2, 20, 20));
    assert Map(StopTimeRowsOf(), RepeatedFeed().trips) == [[P], [a], [b]];
    assert Map(StopTimeRowsOf(), RepeatedFeedAsStored().trips) == [[P], [a, b]];
    FlattenThree([P], [a], [b]);
    FlattenTwo([P], [a, b]);
  }

  lemma RepeatedTrips()
    ensures TripTable(RepeatedFeedAsStored()) == TripTable(RepeatedFeed())
  {
    var f, g, row := RepeatedFeed(), RepeatedFeedAsStored(), TripRowOf();
    var p, one, two := row(f.trips[0]), row(f.trips[1]), row(f.trips[2]);
    assert TripRows(f) == [p, one, two] && TripRows(g) == [p, two];
    PutThree(TripRowKey(), p, one, two);
    PutThree(TripRowKey(), p, two, two);
  }

  lemma RepeatedTables()
    ensures var f, g := RepeatedFeed(), RepeatedFeedAsStored();
      Accepted(f) && Accepted(g) && TripTable(g) == TripTable(f) && StopTimeTable(g) == StopTimeTable(f)
  {
    RepeatedStopTimes();
    RepeatedTrips();
    ExampleAccepted(RepeatedFeed().trips, StopTimeRow("t", 1, "x", 10, 10), StopTimeRow("t", 2, "y", 20, 20));
    ExampleAccepted(RepeatedFeedAsStored().trips, StopTimeRow("t", 1, "x", 10, 10), StopTimeRow("t", 2, "y", 20, 20));
  }

  lemma SplitBlocks(a: seq<ScheduledTrip>, k: BlockKey, b: seq<ScheduledTrip>, l: BlockKey, key: BlockKey)
    requires k != l
    requires forall trip :: trip in a ==> BlockOf(trip) == Some(k)
    requires forall trip :: trip in b ==> BlockOf(trip) == Some(l)
    ensures BlockTrips(a + b, key) == if key == k then a else if key == l then b else []
  {
    FilterConcat(KeyedBy(BlockOf, key), a, b);
    BlockAlone(a, k);
    BlockAlone(b, l);
    assert BlockTrips(a, key) == if key == k then a else [];
    assert BlockTrips(b, key) == if key == l then b else [];
    assert BlockTrips(a + b, key) == BlockTrips(a, key) + BlockTrips(b, key);
    assert a + [] == a && [] + b == b;
  }

  lemma RepeatedBlocks(key: BlockKey)
    ensures var f, g := RepeatedFeed().trips, RepeatedFeedAsStored().trips;
      && BlockTrips(f, key)
         == (if key == BLOCK then [f[0], f[1]] else if key == BlockKey("b2", "s") then [f[2]] else [])
      && BlockTrips(g, BLOCK) == [FIRST]
  {
    var f, g := RepeatedFeed().trips, RepeatedFeedAsStored().trips;
    TripIsInBlock("p", "b1", [StopTime("x", 1, 0, 0)]);
    TripIsInBlock("t", "b1", [StopTime("x", 1, 10, 10)]);
    TripIsInBlock("t", "b2", [StopTime("y", 2, 20, 20)]);
    TripIsInBlock("t", "b2", [StopTime("x", 1, 10, 10), StopTime("y", 2, 20, 20)]);
    assert f == [f[0], f[1]] + [f[2]] && g == [FIRST] + [g[1]];
    assert BLOCK.blockID[1] != BlockKey("b2", "s").blockID[1];
    SplitBlocks([f[0], f[1]], BLOCK, [f[2]], BlockKey("b2", "s"), key);
    SplitBlocks([FIRST], BLOCK, [g[1]], BlockKey("b2", "s"), BLOCK);
  }

  lemma RepeatedLayovers()
    ensures var f, g := RepeatedFeed(), RepeatedFeedAsStored();
      && LeaveInTurn(BlockTrips(f.trips, BLOCK)) && LeaveInTurn(BlockTrips(g.trips, BLOCK))
      && Layovers(BLOCK, BlockTrips(f.trips, BLOCK)) != Layovers(BLOCK, BlockTrips(g.trips, BLOCK))
      && forall other :: other != BLOCK ==> |BlockTrips(f.trips, other)| <= 1
  {
    var one := RepeatedFeed().trips[1];
    forall key ensures key != BLOCK ==> |BlockTrips(RepeatedFeed().trips, key)| <= 1 { RepeatedBlocks(key); }
    RepeatedBlocks(BLOCK);
    assert LayoverBetween(BLOCK, FIRST, one).Some?;
    PairLayovers(BLOCK, FIRST, one);
  }

  /** Stop times out of sequence: the layover ends at a stop that the stored trip does not start from. */
  lemma WrongSequenceMisleads()
    ensures exists t, f, stored :: Admitted(t, f, stored, false, true) && !BlockTablesMatch(t, stored)
  {
    var f, g := ReversedFeed(), ReversedFeedAsStored();
    ReversedTables();
    ReversedLayovers();
    ReversedSequences();
    var t := SameTablesOtherLayovers(f, g);
    assert Admitted(t, f, g.trips, false, true);
  }

  function ReversedFeed(): Feed {
    SmallFeed(STOPS, [FIRST, Trip("t", "b1", [StopTime("x", 2, 10, 10), StopTime("y", 1, 20, 20)])])
  }

  function ReversedFeedAsStored(): Feed {
    SmallFeed(STOPS, [FIRST, Trip("t", "b1", [StopTime("y", 1, 20, 20), StopTime("x", 2, 10, 10)])])
  }

  lemma ReversedSequences()
    ensures AllInSequence(ReversedFeedAsStored().trips)
    ensures DistinctIDs(ReversedFeed().trips) && DistinctIDs(ReversedFeedAsStored().trips)
  {
  }

  lemma ReversedStopTimes()
    ensures StopTimeRows(ReversedFeed()) == [P, StopTimeRow("t", 2, "x", 10, 10), StopTimeRow("t", 1, "y", 20, 20)]
    ensures StopTimeRows(ReversedFeedAsStored())
            == [P, StopTimeRow("t", 1, "y", 20, 20), StopTimeRow("t", 2, "x", 10, 10)]
  {
    var a, b := StopTimeRow("t", 2, "x", 10, 10), StopTimeRow("t", 1, "y", 20, 20);
    RowsOfOne("p", "b1", StopTime("x", 1, 0, 0));
    RowsOfTwo("t", "b1", StopTime("x", 2, 10, 10), StopTime("y", 1, 20, 20));
    RowsOfTwo("t", "b1", StopTime("y", 1, 20, 20), StopTime("x", 2, 10, 10));
    assert Map(StopTimeRowsOf(), ReversedFeed().trips) == [[P], [a, b]];
    assert Map(StopTimeRowsOf(), ReversedFeedAsStored().trips) == [[P], [b, a]];
    FlattenTwo([P], [a, b]);
    FlattenTwo([P], [b, a]);
  }

  lemma ReversedTrips()
    ensures TripTable(ReversedFeedAsStored()) == TripTable(ReversedFeed())
  {
    assert TripRows(ReversedFeedAsStored()) == TripRows(ReversedFeed());
  }

  lemma ReversedTables()
    ensures var f, g := ReversedFeed(), ReversedFeedAsStored();
      Accepted(f) && Accepted(g) && TripTable(g) == TripTable(f) && StopTimeTable(g) == StopTimeTable(f)
  {
    var f, g, a, b := ReversedFeed(), ReversedFeedAsStored(), StopTimeRow("t", 2, "x", 10, 10),
        StopTimeRow("t", 1, "y", 20, 20);
    ReversedStopTimes();
    ReversedTrips();
    ExampleAccepted(f.trips, a, b);
    ExampleAccepted(g.trips, b, a);
    SwapLast(a, b);
  }

  lemma SwapLast(a: StopTimeRow, b: StopTimeRow)
    requires StopTimeKey()(a) != StopTimeKey()(b)
    ensures Put(StopTimeKey(), map[], [P, a, b]) == Put(StopTimeKey(), map[], [P, b, a])
  {
    PutThree(StopTimeKey(), P, a, b);
    PutThree(StopTimeKey(), P, b, a);
  }

  /** Both trips of an example are in its one block. */
  lemma OneBlock(stopTimes: seq<StopTime>)
    requires stopTimes != []
    ensures var trips := [FIRST, Trip("t", "b1", stopTimes)];
      BlockTrips(trips, BLOCK) == trips && forall other :: other != BLOCK ==> BlockTrips(trips, other) == []
  {
    var trips := [FIRST, Trip("t", "b1", stopTimes)];
    TripIsInBlock("p", "b1", [StopTime("x", 1, 0, 0)]);
    TripIsInBlock("t", "b1", stopTimes);
    BlockAlone(trips, BLOCK);
  }

  lemma ReversedLayovers()
    ensures var f, g := ReversedFeed(), ReversedFeedAsStored();
      && LeaveInTurn(BlockTrips(f.trips, BLOCK)) && LeaveInTurn(BlockTrips(g.trips, BLOCK))
      && Layovers(BLOCK, BlockTrips(f.trips, BLOCK)) != Layovers(BLOCK, BlockTrips(g.trips, BLOCK))
      && forall other :: other != BLOCK ==> |BlockTrips(f.trips, other)| <= 1
  {
    var listed, read := ReversedFeed().trips[1], ReversedFeedAsStored().trips[1];
    OneBlock(listed.stopTimes);
    OneBlock(read.stopTimes);
    assert LayoverBetween(BLOCK, FIRST, listed).Some? && LayoverBetween(BLOCK, FIRST, read).None?;
    PairLayovers(BLOCK, FIRST, listed);
    PairLayovers(BLOCK, FIRST, read);
  }
}
