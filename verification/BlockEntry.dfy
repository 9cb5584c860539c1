/** Regrouping a block's rows by service and trip, with distances and slack along the way
    (internal/restapi/block_handler.go). Distances are reals from a given distance function. */
module BlockEntry {
  import opened Collections

  /** A stop time of the block; `place` stands for the stop's coordinates. */
  datatype Row = Row(
    serviceID: string, tripID: string, stopID: string, sequence: int, arrival: int, departure: int, place: int)

  type Distance = (int, int) -> real

  datatype BlockStop = BlockStop(row: Row, blockSequence: int, distanceAlongBlock: real, accumulatedSlack: int)

  datatype TripBlock = TripBlock(tripID: string, stops: seq<BlockStop>, distanceAlongBlock: real, accumulatedSlack: int)

  datatype Configuration = Configuration(serviceID: string, trips: seq<TripBlock>)

  function ServiceOf(): Row -> Option<string> { (r: Row) => Some(r.serviceID) }

  function TripOf(): Row -> Option<string> { (r: Row) => Some(r.tripID) }

  function SequenceOf(): Row -> int { (r: Row) => r.sequence }

  function RowsIn(stops: seq<BlockStop>): (r: seq<Row>)
    ensures |r| == |stops| && forall i {:trigger r[i]} :: 0 <= i < |r| ==> r[i] == stops[i].row
  {
    seq(|stops|, i requires 0 <= i < |stops| => stops[i].row)
  }

  function RowsOfTrip(t: TripBlock): seq<Row> { RowsIn(t.stops) }

  /* ---------- One trip ---------- */

  /** The distance along the first n rows. */
  function Length(order: seq<Row>, n: nat, d: Distance): real
    requires n <= |order|
  {
    if n < 2 then 0.0 else Length(order, n - 1, d) + d(order[n - 2].place, order[n - 1].place)
  }

  /** The time spent standing at the rows before position n. */
  function DwellBefore(order: seq<Row>, n: nat): int
    requires n <= |order|
  {
    if n == 0 then 0 else DwellBefore(order, n - 1) + (order[n - 1].departure - order[n - 1].arrival)
  }

  function StopWithoutSlack(order: seq<Row>, start: real, d: Distance, i: nat): BlockStop
    requires i < |order|
  {
    BlockStop(order[i], order[i].sequence - 1, start + Length(order, i + 1, d), 0)
  }

  function Dwell(s: BlockStop): int {
    s.row.departure - s.row.arrival
  }

  function SlackBefore(stops: seq<BlockStop>, n: nat): int
    requires n <= |stops|
  {
    if n == 0 then 0 else SlackBefore(stops, n - 1) + Dwell(stops[n - 1])
  }

  function SlackSet(s: BlockStop, slack: int): BlockStop {
    s.(accumulatedSlack := slack)
  }

  function WithSlack(stops: seq<BlockStop>): seq<BlockStop> {
    seq(|stops|, i requires 0 <= i < |stops| => SlackSet(stops[i], SlackBefore(stops, i)))
  }

  /** Stop i of a trip carries row i, with the distance so far and the slack of the earlier stops. */
  ghost predicate IsStopAt(stops: seq<BlockStop>, order: seq<Row>, start: real, d: Distance, i: nat)
    requires i < |stops| == |order|
  {
    stops[i] == SlackSet(StopWithoutSlack(order, start, d, i), DwellBefore(order, i))
  }

  /** The block of a trip that starts at a given distance, with its rows in order. */
  ghost predicate IsTripBlock(t: TripBlock, tripID: string, order: seq<Row>, start: real, d: Distance) {
    && t.tripID == tripID
    && |t.stops| == |order|
    && (forall i {:trigger IsStopAt(t.stops, order, start, d, i)} :: 0 <= i < |order| ==>
          IsStopAt(t.stops, order, start, d, i))
    && t.distanceAlongBlock == Length(order, |order|, d)
    && t.accumulatedSlack == if order == [] then 0 else DwellBefore(order, |order| - 1)
  }

  /** Walks the rows, adding up the distance from each to the next. */
  method WalkStops(order: seq<Row>, start: real, d: Distance) returns (stops: seq<BlockStop>, blockDistance: real)
    ensures |stops| == |order|
    ensures forall i {:trigger stops[i]} :: 0 <= i < |order| ==> stops[i] == StopWithoutSlack(order, start, d, i)
    ensures blockDistance == start + Length(order, |order|, d)
  {
    stops, blockDistance := [], start;
    for i := 0 to |order|
      invariant |stops| == i
      invariant forall j {:trigger stops[j]} :: 0 <= j < i ==> stops[j] == StopWithoutSlack(order, start, d, j)
      invariant blockDistance == start + Length(order, i, d)
    {
      if i > 0 {
        blockDistance := blockDistance + d(order[i - 1].place, order[i].place);
      }
      stops := stops + [BlockStop(order[i], order[i].sequence - 1, blockDistance, 0)];
    }
  }

  /** Overwrites each stop's slack with the running sum of the dwells before it. */
  method CalculateBlockSlackTimes(a: array<BlockStop>)
    modifies a
    ensures a[..] == WithSlack(old(a[..]))
  {
    ghost var was := a[..];
    var accumulated := 0;
    for i := 0 to a.Length
      invariant accumulated == SlackBefore(was, i)
      invariant forall j {:trigger a[j]} :: 0 <= j < i ==> a[j] == SlackSet(was[j], SlackBefore(was, j))
      invariant forall j :: i <= j < a.Length ==> a[j] == was[j]
    {
      var stop := a[i];
      a[i] := SlackSet(stop, accumulated);
      accumulated := accumulated + Dwell(stop);
    }
  }

  lemma {:induction false} SlackIsDwell(stops: seq<BlockStop>, order: seq<Row>, n: nat)
    requires |stops| == |order| && n <= |order| && forall i :: 0 <= i < |order| ==> stops[i].row == order[i]
    ensures SlackBefore(stops, n) == DwellBefore(order, n)
  {
    if n > 0 { SlackIsDwell(stops, order, n - 1); }
  }

  lemma WalkedWithSlack(walked: seq<BlockStop>, order: seq<Row>, start: real, d: Distance)
    requires |walked| == |order|
    requires forall i {:trigger walked[i]} :: 0 <= i < |order| ==> walked[i] == StopWithoutSlack(order, start, d, i)
    ensures RowsIn(WithSlack(walked)) == order
    ensures forall i {:trigger IsStopAt(WithSlack(walked), order, start, d, i)} :: 0 <= i < |order| ==>
              IsStopAt(WithSlack(walked), order, start, d, i)
  {
    forall i | 0 <= i < |order| ensures IsStopAt(WithSlack(walked), order, start, d, i) {
      SlackIsDwell(walked, order, i);
    }
  }

  lemma WalkedTrip(t: TripBlock, walked: seq<BlockStop>, order: seq<Row>, start: real, d: Distance)
    requires |walked| == |order|
    requires forall i {:trigger walked[i]} :: 0 <= i < |order| ==> walked[i] == StopWithoutSlack(order, start, d, i)
    requires t.stops == WithSlack(walked) && t.distanceAlongBlock == Length(order, |order|, d)
    requires t.accumulatedSlack == if order == [] then 0 else t.stops[|order| - 1].accumulatedSlack
    ensures RowsOfTrip(t) == order && IsTripBlock(t, t.tripID, order, start, d)
  {
    WalkedWithSlack(walked, order, start, d);
    if order != [] { assert IsStopAt(WithSlack(walked), order, start, d, |order| - 1); }
  }

  method BuildTrip(tripID: string, stops: seq<Row>, start: real, d: Distance)
    returns (t: TripBlock, blockDistance: real)
    ensures multiset(RowsOfTrip(t)) == multiset(stops) && SortedBy(SequenceOf(), RowsOfTrip(t))
    ensures IsTripBlock(t, tripID, RowsOfTrip(t), start, d)
    ensures blockDistance == start + t.distanceAlongBlock
  {
    var sorted := SortByKey(SequenceOf(), stops);
    var walked;
    walked, blockDistance := WalkStops(sorted, start, d);
    var a := new BlockStop[|walked|](i requires 0 <= i < |walked| => walked[i]);
    assert a[..] == walked;
    CalculateBlockSlackTimes(a);
    var slack := if a.Length > 0 then a[a.Length - 1].accumulatedSlack else 0;
    t := TripBlock(tripID, a[..], blockDistance - start, slack);
    WalkedTrip(t, walked, sorted, start, d);
  }

  /* ---------- One service ---------- */

  /** Where trip i of a configuration starts: after the trips before it. */
  function StartOf(trips: seq<TripBlock>, i: nat): real
    requires i <= |trips|
  {
    if i == 0 then 0.0 else StartOf(trips, i - 1) + trips[i - 1].distanceAlongBlock
  }

  /** The trip holds exactly the group's rows of its trip ID, in sequence order. */
  ghost predicate HoldsItsRows(t: TripBlock, group: seq<Row>) {
    && multiset(RowsOfTrip(t)) == multiset(Filter(KeyedBy(TripOf(), t.tripID), group))
    && SortedBy(SequenceOf(), RowsOfTrip(t))
  }

  /** Trip i starts where the trip before ended. */
  ghost predicate IsLaid(trips: seq<TripBlock>, i: nat, d: Distance)
    requires i < |trips|
  {
    IsTripBlock(trips[i], trips[i].tripID, RowsOfTrip(trips[i]), StartOf(trips, i), d)
  }

  ghost predicate AllHoldTheirRows(trips: seq<TripBlock>, group: seq<Row>) {
    forall i {:trigger HoldsItsRows(trips[i], group)} :: 0 <= i < |trips| ==> HoldsItsRows(trips[i], group)
  }

  ghost predicate AllLaid(trips: seq<TripBlock>, d: Distance) {
    forall i {:trigger IsLaid(trips, i, d)} :: 0 <= i < |trips| ==> IsLaid(trips, i, d)
  }

  function TripIDs(trips: seq<TripBlock>): seq<string> {
    seq(|trips|, i requires 0 <= i < |trips| => trips[i].tripID)
  }

  function TripIDsIn(group: seq<Row>): set<string> {
    set r | r in group :: r.tripID
  }

  ghost predicate IsConfiguration(c: Configuration, group: seq<Row>, d: Distance) {
    && TripIDs(c.trips) == SortedMembers(TripIDsIn(group))
    && AllHoldTheirRows(c.trips, group)
    && AllLaid(c.trips, d)
  }

  lemma StartOfPrefix(trips: seq<TripBlock>, t: TripBlock, i: nat)
    requires i <= |trips|
    ensures StartOf(trips + [t], i) == StartOf(trips, i)
  {
    if i > 0 { StartOfPrefix(trips, t, i - 1); }
  }

  lemma AppendTrip(trips: seq<TripBlock>, t: TripBlock, d: Distance)
    requires AllLaid(trips, d)
    requires IsTripBlock(t, t.tripID, RowsOfTrip(t), StartOf(trips, |trips|), d)
    ensures AllLaid(trips + [t], d)
    ensures StartOf(trips + [t], |trips| + 1) == StartOf(trips, |trips|) + t.distanceAlongBlock
  {
    forall i | 0 <= i <= |trips| ensures StartOf(trips + [t], i) == StartOf(trips, i) { StartOfPrefix(trips, t, i); }
    forall i | 0 <= i < |trips + [t]| ensures IsLaid(trips + [t], i, d) {
      if i < |trips| { assert IsLaid(trips, i, d) && (trips + [t])[i] == trips[i]; }
    }
  }

  /** The trips so far, and where the block has got to. */
  ghost predicate TripsSoFar(trips: seq<TripBlock>, blockDistance: real, tripIDs: seq<string>, group: seq<Row>,
                             d: Distance)
  {
    && TripIDs(trips) == tripIDs
    && blockDistance == StartOf(trips, |trips|)
    && AllHoldTheirRows(trips, group)
    && AllLaid(trips, d)
  }

  lemma TripsNext(trips: seq<TripBlock>, blockDistance: real, t: TripBlock, tripIDs: seq<string>, k: nat,
                  group: seq<Row>, d: Distance)
    requires k < |tripIDs| && TripsSoFar(trips, blockDistance, tripIDs[..k], group, d)
    requires t.tripID == tripIDs[k] && HoldsItsRows(t, group)
    requires IsTripBlock(t, t.tripID, RowsOfTrip(t), blockDistance, d)
    ensures TripsSoFar(trips + [t], blockDistance + t.distanceAlongBlock, tripIDs[..k + 1], group, d)
  {
    AppendTrip(trips, t, d);
    forall i | 0 <= i < |trips + [t]| ensures HoldsItsRows((trips + [t])[i], group) {
      if i < |trips| { assert HoldsItsRows(trips[i], group) && (trips + [t])[i] == trips[i]; }
    }
    assert TripIDs(trips + [t]) == tripIDs[..k + 1];
  }

  method AddTrip(trips: seq<TripBlock>, blockDistance: real, tripIDs: seq<string>, k: nat, stops: seq<Row>,
                 ghost group: seq<Row>, d: Distance)
    returns (trips': seq<TripBlock>, end: real)
    requires k < |tripIDs| && TripsSoFar(trips, blockDistance, tripIDs[..k], group, d)
    requires stops == Filter(KeyedBy(TripOf(), tripIDs[k]), group)
    ensures TripsSoFar(trips', end, tripIDs[..k + 1], group, d)
  {
    var t;
    t, end := BuildTrip(tripIDs[k], stops, blockDistance, d);
    TripsNext(trips, blockDistance, t, tripIDs, k, group, d);
    trips' := trips + [t];
  }

  /** The rows by trip, in arrival order, and the trips in ascending order. */
  method GroupTrips(group: seq<Row>) returns (tripStops: map<string, seq<Row>>, tripIDs: seq<string>)
    ensures tripIDs == SortedMembers(TripIDsIn(group)) && tripStops.Keys == TripIDsIn(group)
    ensures forall id :: id in tripStops ==> tripStops[id] == Filter(KeyedBy(TripOf(), id), group)
  {
    tripStops := GroupBy(TripOf(), group);
    tripIDs := SortStrings(tripStops.Keys);
    GroupKeys(TripOf(), group);
    assert tripStops.Keys == TripIDsIn(group);
    AscendingUnique(tripIDs, SortedMembers(TripIDsIn(group)));
    forall id | id in tripStops ensures tripStops[id] == Filter(KeyedBy(TripOf(), id), group) {
      GroupIsFilter(TripOf(), group, id);
    }
  }

  method BuildConfiguration(serviceID: string, group: seq<Row>, d: Distance) returns (c: Configuration)
    ensures c.serviceID == serviceID && IsConfiguration(c, group, d)
  {
    var tripStops, tripIDs := GroupTrips(group);
    var trips: seq<TripBlock>, blockDistance := [], 0.0;
    assert tripIDs[..0] == [] && tripIDs[..|tripIDs|] == tripIDs;
    for k := 0 to |tripIDs|
      invariant TripsSoFar(trips, blockDistance, tripIDs[..k], group, d)
    {
      assert tripIDs[k] in tripIDs;
      trips, blockDistance := AddTrip(trips, blockDistance, tripIDs, k, tripStops[tripIDs[k]], group, d);
    }
    c := Configuration(serviceID, trips);
  }

  /* ---------- The whole block ---------- */

  function ServiceIDsIn(rows: seq<Row>): set<string> {
    set r | r in rows :: r.serviceID
  }

  function ServiceIDs(configs: seq<Configuration>): seq<string> {
    seq(|configs|, i requires 0 <= i < |configs| => configs[i].serviceID)
  }

  /** One configuration a service, in ascending order, each made of exactly that service's rows. */
  ghost predicate IsEntry(configs: seq<Configuration>, rows: seq<Row>, d: Distance) {
    ConfigurationsSoFar(configs, SortedMembers(ServiceIDsIn(rows)), rows, d)
  }

  /** The configurations built for the first services. */
  ghost predicate ConfigurationsSoFar(configs: seq<Configuration>, serviceIDs: seq<string>, rows: seq<Row>,
                                      d: Distance)
  {
    && ServiceIDs(configs) == serviceIDs
    && forall i {:trigger OwnRows(configs[i], rows)} :: 0 <= i < |configs| ==>
         IsConfiguration(configs[i], OwnRows(configs[i], rows), d)
  }

  /** The block's rows of a configuration's service. */
  function OwnRows(c: Configuration, rows: seq<Row>): seq<Row> {
    Filter(KeyedBy(ServiceOf(), c.serviceID), rows)
  }

  method AddConfiguration(configs: seq<Configuration>, serviceIDs: seq<string>, k: nat, group: seq<Row>,
                          ghost rows: seq<Row>, d: Distance)
    returns (configs': seq<Configuration>)
    requires k < |serviceIDs| && ConfigurationsSoFar(configs, serviceIDs[..k], rows, d)
    requires group == Filter(KeyedBy(ServiceOf(), serviceIDs[k]), rows)
    ensures ConfigurationsSoFar(configs', serviceIDs[..k + 1], rows, d)
  {
    var c := BuildConfiguration(serviceIDs[k], group, d);
    assert OwnRows(c, rows) == group;
    assert ConfigurationsSoFar(configs + [c], serviceIDs[..k + 1], rows, d);
    configs' := configs + [c];
  }

  method TransformBlockToEntry(block: seq<Row>, d: Distance) returns (configs: seq<Configuration>)
    ensures IsEntry(configs, block, d)
  {
    var serviceGroups := GroupBy(ServiceOf(), block);
    var serviceIDs := SortStrings(serviceGroups.Keys);
    GroupKeys(ServiceOf(), block);
    AscendingUnique(serviceIDs, SortedMembers(ServiceIDsIn(block)));
    configs := [];
    assert serviceIDs[..0] == [] && serviceIDs[..|serviceIDs|] == serviceIDs;
    for k := 0 to |serviceIDs|
      invariant ConfigurationsSoFar(configs, serviceIDs[..k], block, d)
    {
      assert serviceIDs[k] in serviceIDs;
      GroupIsFilter(ServiceOf(), block, serviceIDs[k]);
      configs := AddConfiguration(configs, serviceIDs, k, serviceGroups[serviceIDs[k]], block, d);
    }
  }

  /* ---------- Conservation ---------- */

  function RowsOfConfiguration(c: Configuration): seq<Row> {
    Flatten(Map((t: TripBlock) => RowsOfTrip(t), c.trips))
  }

  function AllRows(configs: seq<Configuration>): seq<Row> {
    Flatten(Map((c: Configuration) => RowsOfConfiguration(c), configs))
  }

  lemma ConfigurationHoldsRow(c: Configuration, group: seq<Row>, d: Distance, r: Row)
    requires IsConfiguration(c, group, d)
    ensures multiset(RowsOfConfiguration(c))[r] == multiset(group)[r]
  {
    var rowsOf := (t: TripBlock) => RowsOfTrip(t);
    var parts, keys := Map(rowsOf, c.trips), TripIDs(c.trips);
    AscendingDistinct(keys);
    forall i | 0 <= i < |parts| ensures multiset(parts[i])[r] == if keys[i] == r.tripID then multiset(group)[r] else 0 {
      assert HoldsItsRows(c.trips[i], group);
      FilterCount(KeyedBy(TripOf(), keys[i]), group, r);
    }
    CountInParts(parts, keys, r, r.tripID, multiset(group)[r]);
    if r in group { assert r.tripID in TripIDsIn(group); } else { assert multiset(group)[r] == 0; }
  }

  /** Every row of the block appears exactly once in the entry, under its own service and trip. */
  lemma EveryRowOnce(configs: seq<Configuration>, rows: seq<Row>, d: Distance, r: Row)
    requires IsEntry(configs, rows, d)
    ensures multiset(AllRows(configs))[r] == multiset(rows)[r]
  {
    var rowsOf := (c: Configuration) => RowsOfConfiguration(c);
    var parts, keys := Map(rowsOf, configs), ServiceIDs(configs);
    AscendingDistinct(keys);
    forall i | 0 <= i < |parts|
      ensures multiset(parts[i])[r] == if keys[i] == r.serviceID then multiset(rows)[r] else 0
    {
      var group := OwnRows(configs[i], rows);
      assert IsConfiguration(configs[i], group, d);
      ConfigurationHoldsRow(configs[i], group, d, r);
      FilterCount(KeyedBy(ServiceOf(), keys[i]), rows, r);
    }
    CountInParts(parts, keys, r, r.serviceID, multiset(rows)[r]);
    if r in rows { assert r.serviceID in ServiceIDsIn(rows); } else { assert multiset(rows)[r] == 0; }
  }

  lemma RowSitsWithItsTrip(configs: seq<Configuration>, rows: seq<Row>, d: Distance, i: nat, j: nat, k: nat)
    requires IsEntry(configs, rows, d) && i < |configs| && j < |configs[i].trips| && k < |configs[i].trips[j].stops|
    ensures var t := configs[i].trips[j];
      && t.stops[k].row.serviceID == configs[i].serviceID && t.stops[k].row.tripID == t.tripID && t.stops[k].row in rows
      && (k > 0 ==> t.stops[k - 1].row.sequence <= t.stops[k].row.sequence)
  {
    var group := OwnRows(configs[i], rows);
    var t := configs[i].trips[j];
    assert IsConfiguration(configs[i], group, d) && HoldsItsRows(t, group);
    var own := RowsOfTrip(t);
    assert own[k] == t.stops[k].row;
    if k > 0 { assert own[k - 1] == t.stops[k - 1].row; }
    RowIsFiltered(own, t.tripID, group, k);
    assert KeyedBy(ServiceOf(), configs[i].serviceID)(own[k]);
  }

  lemma RowIsFiltered(own: seq<Row>, tripID: string, group: seq<Row>, k: nat)
    requires multiset(own) == multiset(Filter(KeyedBy(TripOf(), tripID), group)) && k < |own|
    ensures own[k] in group && own[k].tripID == tripID
  {
    assert own[k] in multiset(own);
    assert own[k] in Filter(KeyedBy(TripOf(), tripID), group);
    assert KeyedBy(TripOf(), tripID)(own[k]);
  }

  /* ---------- Distances and slack ---------- */

  ghost predicate NonNegative(d: Distance) {
    forall a, b :: d(a, b) >= 0.0
  }

  lemma {:induction false} LengthGrows(order: seq<Row>, d: Distance, i: nat, j: nat)
    requires NonNegative(d) && i <= j <= |order|
    ensures Length(order, i, d) <= Length(order, j, d)
  {
    if i < j {
      LengthGrows(order, d, i, j - 1);
      if j >= 2 { assert d(order[j - 2].place, order[j - 1].place) >= 0.0; }
    }
  }

  /** A stop's distance is its trip's start plus the way so far. */
  lemma StopDistance(trips: seq<TripBlock>, d: Distance, j: nat, k: nat)
    requires j < |trips| && IsLaid(trips, j, d) && k < |trips[j].stops|
    ensures trips[j].stops[k].distanceAlongBlock == StartOf(trips, j) + Length(RowsOfTrip(trips[j]), k + 1, d)
    ensures trips[j].distanceAlongBlock == Length(RowsOfTrip(trips[j]), |trips[j].stops|, d)
  {
    assert IsStopAt(trips[j].stops, RowsOfTrip(trips[j]), StartOf(trips, j), d, k);
  }

  lemma StopSlack(trips: seq<TripBlock>, d: Distance, j: nat, k: nat)
    requires j < |trips| && IsLaid(trips, j, d) && k < |trips[j].stops|
    ensures trips[j].stops[k].accumulatedSlack == DwellBefore(RowsOfTrip(trips[j]), k)
    ensures trips[j].accumulatedSlack == DwellBefore(RowsOfTrip(trips[j]), |trips[j].stops| - 1)
  {
    assert IsStopAt(trips[j].stops, RowsOfTrip(trips[j]), StartOf(trips, j), d, k);
  }

  lemma {:induction false} StartsGrow(trips: seq<TripBlock>, d: Distance, i: nat, j: nat)
    requires AllLaid(trips, d) && NonNegative(d) && i <= j <= |trips|
    ensures StartOf(trips, i) <= StartOf(trips, j)
  {
    if i < j {
      StartsGrow(trips, d, i, j - 1);
      assert IsLaid(trips, j - 1, d);
      LengthGrows(RowsOfTrip(trips[j - 1]), d, 0, |trips[j - 1].stops|);
    }
  }

  /** A stop lies between where its trip starts and where it ends. */
  lemma StopWithinTrip(trips: seq<TripBlock>, d: Distance, j: nat, k: nat)
    requires j < |trips| && IsLaid(trips, j, d) && NonNegative(d) && k < |trips[j].stops|
    ensures StartOf(trips, j) <= trips[j].stops[k].distanceAlongBlock <= StartOf(trips, j + 1)
  {
    StopDistance(trips, d, j, k);
    LengthGrows(RowsOfTrip(trips[j]), d, 0, k + 1);
    LengthGrows(RowsOfTrip(trips[j]), d, k + 1, |trips[j].stops|);
  }

  lemma WithinOneTrip(trips: seq<TripBlock>, d: Distance, j: nat, a: nat, b: nat)
    requires j < |trips| && IsLaid(trips, j, d) && NonNegative(d) && a <= b < |trips[j].stops|
    ensures trips[j].stops[a].distanceAlongBlock <= trips[j].stops[b].distanceAlongBlock
  {
    StopDistance(trips, d, j, a);
    StopDistance(trips, d, j, b);
    LengthGrows(RowsOfTrip(trips[j]), d, a + 1, b + 1);
  }

  /** Along a configuration, trip after trip and stop after stop, the distance never decreases. */
  lemma DistanceNeverDecreases(c: Configuration, group: seq<Row>, d: Distance, i: nat, a: nat, j: nat, b: nat)
    requires IsConfiguration(c, group, d) && NonNegative(d)
    requires i < |c.trips| && j < |c.trips| && a < |c.trips[i].stops| && b < |c.trips[j].stops|
    requires i < j || (i == j && a <= b)
    ensures c.trips[i].stops[a].distanceAlongBlock <= c.trips[j].stops[b].distanceAlongBlock
  {
    assert IsLaid(c.trips, i, d) && IsLaid(c.trips, j, d);
    if i == j {
      WithinOneTrip(c.trips, d, i, a, b);
    } else {
      StopWithinTrip(c.trips, d, i, a);
      StartsGrow(c.trips, d, i + 1, j);
      StopWithinTrip(c.trips, d, j, b);
    }
  }

  /** A trip starts at distance zero when it is the first, and where the trip before it ended when not. */
  lemma StartIsPreviousEnd(c: Configuration, group: seq<Row>, d: Distance, j: nat)
    requires IsConfiguration(c, group, d) && j < |c.trips|
    ensures j == 0 ==> StartOf(c.trips, j) == 0.0
    ensures j > 0 ==> var before := c.trips[j - 1].stops;
              before != [] && StartOf(c.trips, j) == before[|before| - 1].distanceAlongBlock
  {
    if j > 0 {
      var before := c.trips[j - 1].stops;
      TripHasRows(c, group, d, j - 1);
      assert IsLaid(c.trips, j - 1, d);
      StopDistance(c.trips, d, j - 1, |before| - 1);
    }
  }

  /** Each stop lies as far along the block as the stop before it on its trip plus the way between the
      two; a trip's first stop lies at zero or, on a later trip, where the trip before ended. The trip
      reports the way from its first stop to its last, and a stop the number before its sequence. */
  lemma DistanceIsTheWay(c: Configuration, group: seq<Row>, d: Distance, j: nat, k: nat)
    requires IsConfiguration(c, group, d) && j < |c.trips| && k < |c.trips[j].stops|
    ensures var stops := c.trips[j].stops;
      && stops[k].blockSequence == stops[k].row.sequence - 1
      && (k > 0 ==> stops[k].distanceAlongBlock
                    == stops[k - 1].distanceAlongBlock + d(stops[k - 1].row.place, stops[k].row.place))
      && c.trips[j].distanceAlongBlock == stops[|stops| - 1].distanceAlongBlock - stops[0].distanceAlongBlock
    ensures j == 0 ==> c.trips[j].stops[0].distanceAlongBlock == 0.0
    ensures j > 0 ==> var before := c.trips[j - 1].stops;
              before != [] && c.trips[j].stops[0].distanceAlongBlock == before[|before| - 1].distanceAlongBlock
  {
    var stops, order := c.trips[j].stops, RowsOfTrip(c.trips[j]);
    assert IsLaid(c.trips, j, d);
    assert IsStopAt(stops, order, StartOf(c.trips, j), d, k);
    StopDistance(c.trips, d, j, 0);
    StopDistance(c.trips, d, j, k);
    StopDistance(c.trips, d, j, |stops| - 1);
    StartIsPreviousEnd(c, group, d, j);
    if k > 0 { StopDistance(c.trips, d, j, k - 1); }
  }

  /** The trip distances of a configuration add up to the distance of its last stop. */
  lemma TripDistancesSum(c: Configuration, group: seq<Row>, d: Distance)
    requires IsConfiguration(c, group, d) && c.trips != []
    ensures var last := c.trips[|c.trips| - 1];
      last.stops != [] && last.stops[|last.stops| - 1].distanceAlongBlock == StartOf(c.trips, |c.trips|)
  {
    var n := |c.trips| - 1;
    var last := c.trips[n];
    TripHasRows(c, group, d, n);
    assert IsLaid(c.trips, n, d);
    StopDistance(c.trips, d, n, |last.stops| - 1);
  }

  lemma TripHasRows(c: Configuration, group: seq<Row>, d: Distance, n: nat)
    requires IsConfiguration(c, group, d) && n < |c.trips|
    ensures c.trips[n].stops != []
  {
    assert HoldsItsRows(c.trips[n], group);
    var id := c.trips[n].tripID;
    assert TripIDs(c.trips)[n] == id && id in TripIDsIn(group);
    var r :| r in group && r.tripID == id;
    assert KeyedBy(TripOf(), id)(r);
    assert r in Filter(KeyedBy(TripOf(), id), group);
    assert r in multiset(RowsOfTrip(c.trips[n]));
    assert |RowsOfTrip(c.trips[n])| == |c.trips[n].stops|;
  }

  /** The slack at a stop is the sum of the dwells at the earlier stops of its trip, and the trip
      reports the slack of its last stop, whose own dwell is left out. */
  lemma SlackIsEarlierDwell(c: Configuration, group: seq<Row>, d: Distance, j: nat, k: nat)
    requires IsConfiguration(c, group, d) && j < |c.trips| && k < |c.trips[j].stops|
    ensures var stops := c.trips[j].stops;
      && (k == 0 ==> stops[k].accumulatedSlack == 0)
      && (k > 0 ==> stops[k].accumulatedSlack
                    == stops[k - 1].accumulatedSlack + stops[k - 1].row.departure - stops[k - 1].row.arrival)
      && c.trips[j].accumulatedSlack == stops[|stops| - 1].accumulatedSlack
  {
    assert IsLaid(c.trips, j, d);
    StopSlack(c.trips, d, j, k);
    StopSlack(c.trips, d, j, |c.trips[j].stops| - 1);
    if k > 0 {
      StopSlack(c.trips, d, j, k - 1);
      assert DwellBefore(RowsOfTrip(c.trips[j]), k)
          == DwellBefore(RowsOfTrip(c.trips[j]), k - 1) + Dwell(c.trips[j].stops[k - 1]);
    }
  }
}
