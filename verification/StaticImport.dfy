/** Storing a static feed in one transaction (gtfsdb/helpers.go, gtfsdb/query.sql.go,
    gtfsdb/schema.sql). Tables are maps by primary key; a transaction is a copy that replaces the
    committed tables or is dropped. */
module StaticImport {
  import opened Collections
  import opened GtfsFeed
  import opened BlockIndex

  /* ---------- Tables ---------- */

  datatype CalendarRow = CalendarRow(id: string, days: set<DayOfWeek>, startDate: int, endDate: int)

  /** Type 1 adds the service on the date, type 2 removes it. */
  datatype ExceptionRow = ExceptionRow(serviceID: string, date: int, exceptionType: int)

  datatype TripRow = TripRow(
    id: string, routeID: string, serviceID: string, blockID: string, body: string,
    minArrival: Option<int>, maxDeparture: Option<int>)

  datatype StopTimeRow = StopTimeRow(tripID: string, sequence: int, stopID: string, arrival: int, departure: int)

  datatype Metadata = Metadata(hash: string, source: string, expiresAt: Option<int>)

  datatype Tables = Tables(
    agencies: map<string, Agency>,
    routes: map<string, Route>,
    stops: map<string, Stop>,
    calendar: map<string, CalendarRow>,
    trips: map<string, TripRow>,
    stopTimes: map<(string, int), StopTimeRow>,
    calendarDates: map<(string, int), ExceptionRow>,
    stopAgencies: set<(string, string)>,
    indices: set<IndexRow>,
    entries: set<EntryRow>,
    layovers: seq<Layover>,
    metadata: Option<Metadata>)

  const EMPTY: Tables := Tables(map[], map[], map[], map[], map[], map[], map[], {}, {}, {}, [], None)

  /** Everything but the metadata, which the import overwrites instead. */
  function Cleared(t: Tables): Tables {
    EMPTY.(metadata := t.metadata)
  }

  /* ---------- Writing rows ---------- */

  /** INSERT OR REPLACE: a later row with the same key wins. */
  function Put<K, V>(keyOf: V -> K, table: map<K, V>, rows: seq<V>): map<K, V> {
    if rows == [] then table
    else Put(keyOf, table, rows[..|rows| - 1])[keyOf(rows[|rows| - 1]) := rows[|rows| - 1]]
  }

  lemma {:induction false} PutKeys<K, V>(keyOf: V -> K, rows: seq<V>, k: K)
    ensures k in Put(keyOf, map[], rows) <==> exists i :: 0 <= i < |rows| && keyOf(rows[i]) == k
    ensures k in Put(keyOf, map[], rows) ==>
              keyOf(Put(keyOf, map[], rows)[k]) == k && Put(keyOf, map[], rows)[k] in rows
  {
    if rows != [] {
      var last := |rows| - 1;
      PutKeys(keyOf, rows[..last], k);
      assert rows == rows[..last] + [rows[last]];
      if i :| 0 <= i < |rows| && keyOf(rows[i]) == k && i != last {
        assert rows[..last][i] == rows[i];
      }
    }
  }

  lemma PutNext<K, V>(keyOf: V -> K, rows: seq<V>, row: V)
    ensures Put(keyOf, map[], rows + [row]) == Put(keyOf, map[], rows)[keyOf(row) := row]
  {
    assert (rows + [row])[..|rows|] == rows;
  }

  ghost predicate AllPass<V>(passes: V -> bool, rows: seq<V>) {
    forall i :: 0 <= i < |rows| ==> passes(rows[i])
  }

  ghost predicate DistinctKeys<K, V>(keyOf: V -> K, rows: seq<V>) {
    forall i, j :: 0 <= i < j < |rows| ==> keyOf(rows[i]) != keyOf(rows[j])
  }

  method ReplaceRows<K, V>(keyOf: V -> K, passes: V -> bool, rows: seq<V>) returns (ok: bool, table: map<K, V>)
    ensures ok <==> AllPass(passes, rows)
    ensures ok ==> table == Put(keyOf, map[], rows)
  {
    table := map[];
    assert rows[..0] == [];
    for i := 0 to |rows|
      invariant AllPass(passes, rows[..i])
      invariant table == Put(keyOf, map[], rows[..i])
    {
      assert rows[..i + 1][..i] == rows[..i] && rows[..i + 1][i] == rows[i];
      if !passes(rows[i]) {
        return false, table;
      }
      table := table[keyOf(rows[i]) := rows[i]];
    }
    assert rows[..|rows|] == rows;
    ok := true;
  }

  /** A plain INSERT also fails on a key that is already there. */
  method InsertRows<K(==), V>(keyOf: V -> K, passes: V -> bool, rows: seq<V>) returns (ok: bool, table: map<K, V>)
    ensures ok <==> AllPass(passes, rows) && DistinctKeys(keyOf, rows)
    ensures ok ==> table == Put(keyOf, map[], rows)
  {
    table := map[];
    assert rows[..0] == [];
    for i := 0 to |rows|
      invariant AllPass(passes, rows[..i]) && DistinctKeys(keyOf, rows[..i])
      invariant table == Put(keyOf, map[], rows[..i])
    {
      assert rows[..i + 1][..i] == rows[..i] && rows[..i + 1][i] == rows[i];
      PutKeys(keyOf, rows[..i], keyOf(rows[i]));
      if !passes(rows[i]) {
        return false, table;
      }
      if keyOf(rows[i]) in table {
        return false, table;
      }
      table := table[keyOf(rows[i]) := rows[i]];
    }
    assert rows[..|rows|] == rows;
    ok := true;
  }

  /** Appends the rows each item contributes. */
  method CollectRows<S, T>(rowsOf: S -> seq<T>, items: seq<S>) returns (rows: seq<T>)
    ensures rows == Flatten(Map(rowsOf, items))
  {
    rows := [];
    for i := 0 to |items|
      invariant rows == Flatten(Map(rowsOf, items[..i]))
    {
      assert Map(rowsOf, items[..i + 1]) == Map(rowsOf, items[..i]) + [rowsOf(items[i])];
      FlattenSnoc(Map(rowsOf, items[..i]), rowsOf(items[i]));
      rows := rows + rowsOf(items[i]);
    }
    assert items[..|items|] == items;
  }

  /* ---------- What each table is given ---------- */

  function AgencyKey(): Agency -> string { (a: Agency) => a.id }
  function RouteKey(): Route -> string { (r: Route) => r.id }
  function StopKey(): Stop -> string { (s: Stop) => s.id }
  function CalendarKey(): CalendarRow -> string { (c: CalendarRow) => c.id }
  function TripRowKey(): TripRow -> string { (t: TripRow) => t.id }
  function StopTimeKey(): StopTimeRow -> (string, int) { (r: StopTimeRow) => (r.tripID, r.sequence) }
  function ExceptionKey(): ExceptionRow -> (string, int) { (e: ExceptionRow) => (e.serviceID, e.date) }

  /** A route without an agency belongs to the feed's only agency. */
  function RouteRow(agencies: seq<Agency>): Route -> Route {
    var single := if |agencies| == 1 then agencies[0].id else "";
    (r: Route) => if r.agencyID != "" then r else r.(agencyID := single)
  }

  function HasCoordinates(): Stop -> bool { (s: Stop) => s.hasCoordinates }

  function CalendarRowOf(): Service -> CalendarRow {
    (s: Service) => CalendarRow(s.id, s.days, s.startDate, s.endDate)
  }

  /** The time bounds start out NULL. */
  function TripRowOf(): ScheduledTrip -> TripRow {
    (t: ScheduledTrip) => TripRow(t.id, t.routeID, t.serviceID, t.blockID, t.body, None, None)
  }

  function StopTimeRowOf(tripID: string): StopTime -> StopTimeRow {
    (s: StopTime) => StopTimeRow(tripID, s.sequence, s.stopID, s.arrival, s.departure)
  }

  function StopTimeRowsOf(): ScheduledTrip -> seq<StopTimeRow> {
    (t: ScheduledTrip) => Map(StopTimeRowOf(t.id), t.stopTimes)
  }

  function ExceptionOf(serviceID: string, exceptionType: int): int -> ExceptionRow {
    date => ExceptionRow(serviceID, date, exceptionType)
  }

  /** Removals come after additions, so a date listed both ways ends up removed. */
  function ExceptionRowsOf(): Service -> seq<ExceptionRow> {
    (s: Service) => Map(ExceptionOf(s.id, 1), s.addedDates) + Map(ExceptionOf(s.id, 2), s.removedDates)
  }

  /* ---------- The exceptions, by the date lists of their service ---------- */

  /** The feed's services have distinct IDs. */
  ghost predicate DistinctServices(services: seq<Service>) {
    forall i, j :: 0 <= i < j < |services| ==> services[i].id != services[j].id
  }

  lemma {:induction false} PutConcat<K, V>(keyOf: V -> K, table: map<K, V>, a: seq<V>, b: seq<V>)
    ensures Put(keyOf, table, a + b) == Put(keyOf, Put(keyOf, table, a), b)
  {
    if b == [] {
      assert a + b == a;
    } else {
      assert (a + b)[..|a + b| - 1] == a + b[..|b| - 1];
      PutConcat(keyOf, table, a, b[..|b| - 1]);
    }
  }

  lemma {:induction false} PutDates(table: map<(string, int), ExceptionRow>, id: string, exceptionType: int,
                                    dates: seq<int>, k: (string, int))
    ensures var r := Put(ExceptionKey(), table, Map(ExceptionOf(id, exceptionType), dates));
      if k.0 == id && k.1 in dates then k in r && r[k] == ExceptionRow(id, k.1, exceptionType)
      else (k in r <==> k in table) && (k in r ==> r[k] == table[k])
  {
    var rows := Map(ExceptionOf(id, exceptionType), dates);
    if dates != [] {
      var last := |dates| - 1;
      assert rows[..last] == Map(ExceptionOf(id, exceptionType), dates[..last]);
      PutDates(table, id, exceptionType, dates[..last], k);
      assert dates == dates[..last] + [dates[last]];
    }
  }

  lemma PutService(table: map<(string, int), ExceptionRow>, s: Service, k: (string, int))
    ensures var r := Put(ExceptionKey(), table, ExceptionRowsOf()(s));
      if k.0 == s.id && k.1 in s.removedDates then k in r && r[k] == ExceptionRow(k.0, k.1, 2)
      else if k.0 == s.id && k.1 in s.addedDates then k in r && r[k] == ExceptionRow(k.0, k.1, 1)
      else (k in r <==> k in table) && (k in r ==> r[k] == table[k])
  {
    var added, removed := Map(ExceptionOf(s.id, 1), s.addedDates), Map(ExceptionOf(s.id, 2), s.removedDates);
    PutConcat(ExceptionKey(), table, added, removed);
    PutDates(table, s.id, 1, s.addedDates, k);
    PutDates(Put(ExceptionKey(), table, added), s.id, 2, s.removedDates, k);
  }

  function ExceptionsOf(services: seq<Service>): map<(string, int), ExceptionRow> {
    Put(ExceptionKey(), map[], Flatten(Map(ExceptionRowsOf(), services)))
  }

  lemma ExceptionsNext(services: seq<Service>, s: Service)
    ensures ExceptionsOf(services + [s]) == Put(ExceptionKey(), ExceptionsOf(services), ExceptionRowsOf()(s))
  {
    var parts := Map(ExceptionRowsOf(), services);
    assert Map(ExceptionRowsOf(), services + [s]) == parts + [ExceptionRowsOf()(s)];
    FlattenSnoc(parts, ExceptionRowsOf()(s));
    PutConcat(ExceptionKey(), map[], Flatten(parts), ExceptionRowsOf()(s));
  }

  /** What the exceptions table holds for service s on date d. */
  ghost predicate HoldsDates(table: map<(string, int), ExceptionRow>, s: Service, d: int) {
    if d in s.removedDates then (s.id, d) in table && table[(s.id, d)] == ExceptionRow(s.id, d, 2)
    else if d in s.addedDates then (s.id, d) in table && table[(s.id, d)] == ExceptionRow(s.id, d, 1)
    else (s.id, d) !in table
  }

  lemma {:induction false} NoServiceNoException(services: seq<Service>, k: (string, int))
    requires forall s :: s in services ==> s.id != k.0
    ensures k !in ExceptionsOf(services)
  {
    if services != [] {
      var last := |services| - 1;
      assert services == services[..last] + [services[last]];
      NoServiceNoException(services[..last], k);
      ExceptionsNext(services[..last], services[last]);
      PutService(ExceptionsOf(services[..last]), services[last], k);
    } else {
      assert Map(ExceptionRowsOf(), services) == [];
    }
  }

  lemma {:induction false} ExceptionsHoldDates(services: seq<Service>, s: Service, d: int)
    requires DistinctServices(services) && s in services
    ensures HoldsDates(ExceptionsOf(services), s, d)
  {
    var last := |services| - 1;
    var before := services[..last];
    assert services == before + [services[last]];
    ExceptionsNext(before, services[last]);
    PutService(ExceptionsOf(before), services[last], (s.id, d));
    if s == services[last] {
      NoServiceNoException(before, (s.id, d));
    } else {
      ExceptionsHoldDates(before, s, d);
    }
  }

  ghost predicate AllHoldDates(table: map<(string, int), ExceptionRow>, services: seq<Service>) {
    forall s, d {:trigger HoldsDates(table, s, d)} :: s in services ==> HoldsDates(table, s, d)
  }

  lemma AllExceptionsHoldDates(services: seq<Service>)
    requires DistinctServices(services)
    ensures AllHoldDates(ExceptionsOf(services), services)
  {
    forall s, d | s in services ensures HoldsDates(ExceptionsOf(services), s, d) {
      ExceptionsHoldDates(services, s, d);
    }
  }

  /* ---------- Constraints of the schema ---------- */

  function AgencyPasses(): Agency -> bool { (a: Agency) => true }

  function RoutePasses(agencies: map<string, Agency>): Route -> bool { (r: Route) => r.agencyID in agencies }

  /** The foreign key on the parent station is deferred to the commit. */
  function StopPasses(): Stop -> bool { (s: Stop) => true }

  function CalendarPasses(): CalendarRow -> bool { (c: CalendarRow) => c.startDate <= c.endDate }

  function TripPasses(routes: map<string, Route>, calendar: map<string, CalendarRow>): TripRow -> bool {
    (t: TripRow) => t.routeID in routes && t.serviceID in calendar
  }

  function StopTimePasses(trips: map<string, TripRow>, stops: map<string, Stop>): StopTimeRow -> bool {
    (r: StopTimeRow) => r.tripID in trips && r.stopID in stops && r.sequence >= 0 && r.arrival <= r.departure
  }

  function ExceptionPasses(calendar: map<string, CalendarRow>): ExceptionRow -> bool {
    (e: ExceptionRow) => e.serviceID in calendar
  }

  predicate ParentsPresent(stops: map<string, Stop>) {
    forall id :: id in stops ==> stops[id].parent == "" || stops[id].parent in stops
  }

  /* ---------- The tables a feed defines ---------- */

  function RouteRows(f: Feed): seq<Route> { Map(RouteRow(f.agencies), f.routes) }
  function StopRows(f: Feed): seq<Stop> { Filter(HasCoordinates(), f.stops) }
  function CalendarRows(f: Feed): seq<CalendarRow> { Map(CalendarRowOf(), f.services) }
  function TripRows(f: Feed): seq<TripRow> { Map(TripRowOf(), f.trips) }
  function StopTimeRows(f: Feed): seq<StopTimeRow> { Flatten(Map(StopTimeRowsOf(), f.trips)) }
  function ExceptionRows(f: Feed): seq<ExceptionRow> { Flatten(Map(ExceptionRowsOf(), f.services)) }

  function AgencyTable(f: Feed): map<string, Agency> { Put(AgencyKey(), map[], f.agencies) }
  function RouteTable(f: Feed): map<string, Route> { Put(RouteKey(), map[], RouteRows(f)) }
  function StopTable(f: Feed): map<string, Stop> { Put(StopKey(), map[], StopRows(f)) }
  function CalendarTable(f: Feed): map<string, CalendarRow> { Put(CalendarKey(), map[], CalendarRows(f)) }
  function TripTable(f: Feed): map<string, TripRow> { Put(TripRowKey(), map[], TripRows(f)) }
  function StopTimeTable(f: Feed): map<(string, int), StopTimeRow> { Put(StopTimeKey(), map[], StopTimeRows(f)) }
  function ExceptionTable(f: Feed): map<(string, int), ExceptionRow> { ExceptionsOf(f.services) }

  /** The feed meets every constraint of the schema. */
  ghost predicate Accepted(f: Feed) {
    && BaseAccepted(f)
    && AllPass(ExceptionPasses(CalendarTable(f)), ExceptionRows(f))
    && !KeysCollide(TripMap(f.trips))
    && ParentsPresent(StopTable(f))
  }

  ghost predicate BaseAccepted(f: Feed) {
    && AllPass(RoutePasses(AgencyTable(f)), RouteRows(f))
    && AllPass(CalendarPasses(), CalendarRows(f))
    && AllPass(TripPasses(RouteTable(f), CalendarTable(f)), TripRows(f))
    && AllPass(StopTimePasses(TripTable(f), StopTable(f)), StopTimeRows(f))
    && DistinctKeys(StopTimeKey(), StopTimeRows(f))
  }

  /* ---------- Derived columns and tables ---------- */

  function ArrivalsOf(stopTimes: map<(string, int), StopTimeRow>, tripID: string): set<int> {
    set k | k in stopTimes && k.0 == tripID :: stopTimes[k].arrival
  }

  function DeparturesOf(stopTimes: map<(string, int), StopTimeRow>, tripID: string): set<int> {
    set k | k in stopTimes && k.0 == tripID :: stopTimes[k].departure
  }

  /** The bounds are computed for rows that lack one. */
  function WithBounds(row: TripRow, stopTimes: map<(string, int), StopTimeRow>): TripRow {
    if row.minArrival.None? || row.maxDeparture.None? then
      row.(minArrival := MinOf(ArrivalsOf(stopTimes, row.id)), maxDeparture := MaxOf(DeparturesOf(stopTimes, row.id)))
    else row
  }

  function UpdateTripTimeBounds(trips: map<string, TripRow>,
                                stopTimes: map<(string, int), StopTimeRow>): map<string, TripRow>
  {
    map id | id in trips :: WithBounds(trips[id], stopTimes)
  }

  /** The join of stop times, trips and routes. */
  function BuildStopAgencies(stopTimes: map<(string, int), StopTimeRow>, trips: map<string, TripRow>,
                             routes: map<string, Route>): set<(string, string)> {
    set k | k in stopTimes && stopTimes[k].tripID in trips && trips[stopTimes[k].tripID].routeID in routes ::
      (stopTimes[k].stopID, routes[trips[stopTimes[k].tripID].routeID].agencyID)
  }

  function ServiceDays(calendar: map<string, CalendarRow>, dates: map<(string, int), ExceptionRow>): set<int> {
    (set id | id in calendar :: calendar[id].endDate)
    + set k | k in dates && dates[k].exceptionType == 1 :: dates[k].date
  }

  /** The latest end date or added date. */
  function FeedEndDate(calendar: map<string, CalendarRow>, dates: map<(string, int), ExceptionRow>): Option<int> {
    MaxOf(ServiceDays(calendar, dates))
  }

  const DAY: int := 86400

  /** 23:59:59 of the feed end date, in seconds. */
  function ExpiresAt(calendar: map<string, CalendarRow>, dates: map<(string, int), ExceptionRow>): Option<int> {
    var end := FeedEndDate(calendar, dates);
    if end.Some? then Some(end.value * DAY + DAY - 1) else None
  }

  /* ---------- The whole database a feed defines ---------- */

  function BaseTables(f: Feed): Tables {
    EMPTY.(agencies := AgencyTable(f), routes := RouteTable(f), stops := StopTable(f), calendar := CalendarTable(f),
           trips := TripTable(f), stopTimes := StopTimeTable(f))
  }

  /** Everything the import computes from a feed, given the layover rows. */
  ghost function Derive(f: Feed, layovers: seq<Layover>): Tables {
    Tables(
      AgencyTable(f), RouteTable(f), StopTable(f), CalendarTable(f),
      UpdateTripTimeBounds(TripTable(f), StopTimeTable(f)),
      StopTimeTable(f), ExceptionTable(f),
      BuildStopAgencies(StopTimeTable(f), TripTable(f), RouteTable(f)),
      Indices(TripMap(f.trips)), Entries(TripMap(f.trips)), layovers,
      Some(Metadata(f.hash, f.source, ExpiresAt(CalendarTable(f), ExceptionTable(f)))))
  }

  /** Ties in departure time leave the layover rows of a block some freedom; nothing else is free. */
  ghost predicate DerivedFrom(t: Tables, f: Feed) {
    Accepted(f) && IsLayoverIndex(t.layovers, f.trips) && t == Derive(f, t.layovers)
  }

  /* ---------- One import ---------- */

  /** The points at which the environment (disk, context, a copied column) can make the import fail. */
  datatype Fault = AtMetadata | AtBegin | AtClear | AtBaseTables | AtDerivedTables | AtCommit | AtCounts

  datatype Result = Imported | Unchanged | Failed

  /** The metadata row already names this feed. */
  predicate UpToDate(t: Tables, f: Feed) {
    t.metadata.Some? && t.metadata.value.hash == f.hash && t.metadata.value.source == f.source
  }

  /** What the environment does not stop before the commit. */
  predicate Undisturbed(t: Tables, faults: set<Fault>) {
    && AtBegin !in faults && AtBaseTables !in faults && AtDerivedTables !in faults && AtCommit !in faults
    && (t.metadata.Some? ==> AtClear !in faults)
  }

  /** What one import may do to the committed tables. */
  ghost predicate ImportStep(t: Tables, f: Feed, faults: set<Fault>, t': Tables, r: Result) {
    if AtMetadata in faults then t' == t && r == Failed
    else if UpToDate(t, f) then t' == t && r == Unchanged
    else if Accepted(f) && Undisturbed(t, faults) then
      DerivedFrom(t', f) && r == (if AtCounts in faults then Failed else Imported)
    else t' == t && r == Failed
  }

  /** Without metadata there is nothing in the tables, so an import may skip the clearing. */
  ghost predicate Consistent(t: Tables) {
    t.metadata.None? ==> t == EMPTY
  }

  class Client {
    var committed: Tables

    constructor ()
      ensures committed == EMPTY
    {
      committed := EMPTY;
    }

    /** Fills the base tables of a transaction; constraint checks run row by row. */
    method InsertBaseTables(f: Feed, start: Tables) returns (ok: bool, tx: Tables)
      ensures ok <==> BaseAccepted(f)
      ensures ok ==> tx == start.(agencies := AgencyTable(f), routes := RouteTable(f), stops := StopTable(f),
                                  calendar := CalendarTable(f), trips := TripTable(f), stopTimes := StopTimeTable(f))
    {
      tx := start;
      var agencies, routes, stops, calendar, trips, stopTimes;
      ok, agencies := ReplaceRows(AgencyKey(), AgencyPasses(), f.agencies);
      ok, routes := ReplaceRows(RouteKey(), RoutePasses(agencies), RouteRows(f));
      if !ok { return; }
      var kept := StopRows(f);
      ok, stops := ReplaceRows(StopKey(), StopPasses(), kept);
      ok, calendar := ReplaceRows(CalendarKey(), CalendarPasses(), CalendarRows(f));
      if !ok { return; }
      ok, trips := ReplaceRows(TripRowKey(), TripPasses(routes, calendar), TripRows(f));
      if !ok { return; }
      var rows := CollectRows(StopTimeRowsOf(), f.trips);
      ok, stopTimes := InsertRows(StopTimeKey(), StopTimePasses(trips, stops), rows);
      if !ok { return; }
      tx := start.(agencies := agencies, routes := routes, stops := stops, calendar := calendar,
                   trips := trips, stopTimes := stopTimes);
    }

    /** Fills what is computed from the base tables, in the order the import does. */
    method InsertDerivedTables(f: Feed, base: Tables) returns (ok: bool, tx: Tables)
      requires base == BaseTables(f).(metadata := base.metadata)
      ensures ok <==> AllPass(ExceptionPasses(CalendarTable(f)), ExceptionRows(f)) && !KeysCollide(TripMap(f.trips))
      ensures ok ==> IsLayoverIndex(tx.layovers, f.trips) && tx == Derive(f, tx.layovers)
      ensures ok && DistinctServices(f.services) ==> AllHoldDates(tx.calendarDates, f.services)
    {
      if DistinctServices(f.services) { AllExceptionsHoldDates(f.services); }
      tx := base.(metadata := Some(Metadata(f.hash, f.source, None)));
      var rows := CollectRows(ExceptionRowsOf(), f.services);
      var dates, indices, entries;
      ok, dates := ReplaceRows(ExceptionKey(), ExceptionPasses(tx.calendar), rows);
      if !ok { return; }
      ok, indices, entries := BuildBlockTripIndex(f.trips);
      if !ok { return; }
      var trips := UpdateTripTimeBounds(tx.trips, tx.stopTimes);
      StopAgenciesIgnoreBounds(tx.stopTimes, tx.trips, tx.routes);
      var stopAgencies := BuildStopAgencies(tx.stopTimes, trips, tx.routes);
      var layovers := BuildBlockLayoverIndex(f.trips);
      var expires := ExpiresAt(tx.calendar, dates);
      tx := Tables(tx.agencies, tx.routes, tx.stops, tx.calendar, trips, tx.stopTimes, dates, stopAgencies,
                   indices, entries, layovers, Some(Metadata(f.hash, f.source, expires)));
    }

    /** The import. `faults` is what the environment does to it. */
    method StoreGtfsData(f: Feed, faults: set<Fault>) returns (r: Result)
      requires Consistent(committed)
      modifies this
      ensures ImportStep(old(committed), f, faults, committed, r)
      ensures Consistent(committed)
    {
      if AtMetadata in faults { return Failed; }
      if UpToDate(committed, f) { return Unchanged; }
      if AtBegin in faults { return Failed; }
      var tx := committed;
      if tx.metadata.Some? {
        if AtClear in faults { return Failed; }
        tx := Cleared(tx);
      }
      var ok;
      ok, tx := InsertBaseTables(f, tx);
      if !ok || AtBaseTables in faults { return Failed; }
      ok, tx := InsertDerivedTables(f, tx);
      if !ok || AtDerivedTables in faults { return Failed; }
      if AtCommit in faults || !ParentsPresent(tx.stops) { return Failed; }
      committed := tx;
      r := if AtCounts in faults then Failed else Imported;
    }
  }

  lemma StopAgenciesIgnoreBounds(stopTimes: map<(string, int), StopTimeRow>, trips: map<string, TripRow>,
                                 routes: map<string, Route>)
    ensures BuildStopAgencies(stopTimes, UpdateTripTimeBounds(trips, stopTimes), routes)
            == BuildStopAgencies(stopTimes, trips, routes)
  {
    var updated := UpdateTripTimeBounds(trips, stopTimes);
    assert forall id :: id in trips ==> updated[id].routeID == trips[id].routeID;
  }

  /* ---------- Runs of imports ---------- */

  datatype Attempt = Attempt(feed: Feed, faults: set<Fault>, result: Result)

  /** states[i] is committed before attempt i, states[i + 1] after it. */
  ghost predicate IsRun(states: seq<Tables>, attempts: seq<Attempt>) {
    && |states| == |attempts| + 1
    && states[0] == EMPTY
    && forall i :: 0 <= i < |attempts| ==>
         ImportStep(states[i], attempts[i].feed, attempts[i].faults, states[i + 1], attempts[i].result)
  }

  /** The committed tables are empty or all derived from one of the feeds, whatever failed. */
  ghost predicate Whole(t: Tables, attempts: seq<Attempt>) {
    t == EMPTY || exists a :: a in attempts && DerivedFrom(t, a.feed)
  }

  lemma {:induction false} CommittedIsWhole(states: seq<Tables>, attempts: seq<Attempt>)
    requires IsRun(states, attempts)
    ensures Whole(states[|attempts|], attempts)
  {
    if attempts != [] {
      var n := |attempts| - 1;
      var a := attempts[n];
      assert IsRun(states[..n + 1], attempts[..n]);
      CommittedIsWhole(states[..n + 1], attempts[..n]);
      assert attempts == attempts[..n] + [a];
    }
  }

  /** The caller finds the tables already derived from a feed with this hash and source. */
  ghost predicate AlreadyStored(t: Tables, earlier: seq<Attempt>, f: Feed) {
    exists a :: a in earlier && DerivedFrom(t, a.feed) && a.feed.hash == f.hash && a.feed.source == f.source
  }

  /** What the caller may conclude from a result, at any point of any run: "unchanged" means the
      tables are those derived from a feed with this hash and source, "imported" that they are now
      derived from this feed, and an error that they are wholly old or wholly new. */
  lemma ResultMeansWhatItSays(states: seq<Tables>, attempts: seq<Attempt>, k: nat)
    requires IsRun(states, attempts) && k < |attempts|
    ensures var t, t', a := states[k], states[k + 1], attempts[k];
      match a.result
      case Unchanged => t' == t && AlreadyStored(t, attempts[..k], a.feed)
      case Imported => DerivedFrom(t', a.feed)
      case Failed => t' == t || DerivedFrom(t', a.feed)
  {
    var a := attempts[k];
    if a.result.Unchanged? {
      assert IsRun(states[..k + 1], attempts[..k]);
      CommittedIsWhole(states[..k + 1], attempts[..k]);
    }
  }

  /** Importing a feed twice without a fault stores it once: the second attempt changes nothing. */
  lemma ReimportIsNoOp(t: Tables, f: Feed, t': Tables, r: Result)
    requires DerivedFrom(t, f) && ImportStep(t, f, {}, t', r)
    ensures t' == t && r == Unchanged
  {
  }

  /* ---------- What the derived tables promise ---------- */

  /** Every reference of the committed tables resolves. */
  ghost predicate References(t: Tables) {
    && (forall id :: id in t.routes ==> t.routes[id].agencyID in t.agencies)
    && (forall id :: id in t.trips ==> t.trips[id].routeID in t.routes && t.trips[id].serviceID in t.calendar)
    && (forall k :: k in t.stopTimes ==>
          t.stopTimes[k].tripID == k.0 && k.0 in t.trips && t.stopTimes[k].stopID in t.stops)
    && (forall k :: k in t.calendarDates ==> k.0 in t.calendar)
    && (forall e :: e in t.entries ==> e.tripID in t.trips)
    && (forall l :: l in t.layovers ==> l.nextTripID in t.trips)
    && (forall id :: id in t.stops ==> t.stops[id].parent == "" || t.stops[id].parent in t.stops)
  }

  /** Rows that pass a check row by row still pass it in the table. */
  lemma TablePasses<K, V>(keyOf: V -> K, passes: V -> bool, rows: seq<V>, k: K)
    requires AllPass(passes, rows) && k in Put(keyOf, map[], rows)
    ensures passes(Put(keyOf, map[], rows)[k]) && keyOf(Put(keyOf, map[], rows)[k]) == k
  {
    PutKeys(keyOf, rows, k);
  }

  lemma TripIsStored(f: Feed, trip: ScheduledTrip)
    requires trip in f.trips
    ensures trip.id in TripTable(f)
  {
    var i :| 0 <= i < |f.trips| && f.trips[i] == trip;
    assert TripRowKey()(TripRows(f)[i]) == trip.id;
    PutKeys(TripRowKey(), TripRows(f), trip.id);
  }

  lemma BlockRowsNameTrips(f: Feed, layovers: seq<Layover>)
    requires IsLayoverIndex(layovers, f.trips)
    ensures forall e :: e in Entries(TripMap(f.trips)) ==> e.tripID in TripTable(f)
    ensures forall l :: l in layovers ==> l.nextTripID in TripTable(f)
  {
    forall e | e in Entries(TripMap(f.trips)) ensures e.tripID in TripTable(f) {
      OneEntryPerTrip(f.trips, e.tripID);
      var trip :| trip in f.trips && trip.id == e.tripID && trip.stopTimes != [];
      TripIsStored(f, trip);
    }
    forall l | l in layovers ensures l.nextTripID in TripTable(f) {
      LayoverNamesTrip(layovers, f.trips, l);
      var trip :| trip in f.trips && trip.id == l.nextTripID && BlockOf(trip) == Some(BlockKey(l.blockID, l.serviceID));
      TripIsStored(f, trip);
    }
  }

  lemma BaseReferencesResolve(t: Tables, f: Feed)
    requires DerivedFrom(t, f)
    ensures forall id :: id in t.routes ==> t.routes[id].agencyID in t.agencies
    ensures forall id :: id in t.trips ==> t.trips[id].routeID in t.routes && t.trips[id].serviceID in t.calendar
    ensures forall k :: k in t.calendarDates ==> k.0 in t.calendar
  {
    forall id | id in t.routes ensures t.routes[id].agencyID in t.agencies {
      TablePasses(RouteKey(), RoutePasses(AgencyTable(f)), RouteRows(f), id);
    }
    forall id | id in t.trips ensures t.trips[id].routeID in t.routes && t.trips[id].serviceID in t.calendar {
      TablePasses(TripRowKey(), TripPasses(RouteTable(f), CalendarTable(f)), TripRows(f), id);
    }
    forall k | k in t.calendarDates ensures k.0 in t.calendar {
      TablePasses(ExceptionKey(), ExceptionPasses(CalendarTable(f)), ExceptionRows(f), k);
    }
  }

  lemma ReferencesResolve(t: Tables, f: Feed)
    requires DerivedFrom(t, f)
    ensures References(t)
  {
    BlockRowsNameTrips(f, t.layovers);
    BaseReferencesResolve(t, f);
    forall k | k in t.stopTimes
      ensures t.stopTimes[k].tripID == k.0 && k.0 in t.trips && t.stopTimes[k].stopID in t.stops
    {
      TablePasses(StopTimeKey(), StopTimePasses(TripTable(f), StopTable(f)), StopTimeRows(f), k);
    }
  }

  /** In every run of imports the committed tables are closed under their references. */
  lemma ReachableReferencesResolve(states: seq<Tables>, attempts: seq<Attempt>)
    requires IsRun(states, attempts)
    ensures References(states[|attempts|])
  {
    CommittedIsWhole(states, attempts);
    var t := states[|attempts|];
    if t != EMPTY {
      var a :| a in attempts && DerivedFrom(t, a.feed);
      ReferencesResolve(t, a.feed);
    }
  }

  /** A trip's bounds are the earliest arrival and latest departure of its stored stop times, both
      NULL exactly when it has none, and in order. */
  ghost predicate BoundsMatch(row: TripRow, stopTimes: map<(string, int), StopTimeRow>) {
    && (row.minArrival.None? <==> forall k :: k in stopTimes ==> k.0 != row.id)
    && (row.maxDeparture.None? <==> forall k :: k in stopTimes ==> k.0 != row.id)
    && (row.minArrival.Some? ==>
          && (exists k :: k in stopTimes && k.0 == row.id && stopTimes[k].arrival == row.minArrival.value)
          && forall k :: k in stopTimes && k.0 == row.id ==> row.minArrival.value <= stopTimes[k].arrival)
    && (row.maxDeparture.Some? ==>
          && (exists k :: k in stopTimes && k.0 == row.id && stopTimes[k].departure == row.maxDeparture.value)
          && forall k :: k in stopTimes && k.0 == row.id ==> stopTimes[k].departure <= row.maxDeparture.value)
    && (row.minArrival.Some? ==> row.minArrival.value <= row.maxDeparture.value)
  }

  lemma TripBoundsMatch(t: Tables, f: Feed, id: string)
    requires DerivedFrom(t, f) && id in t.trips
    ensures t.trips[id].id == id && BoundsMatch(t.trips[id], t.stopTimes)
  {
    TablePasses(TripRowKey(), TripPasses(RouteTable(f), CalendarTable(f)), TripRows(f), id);
    PutKeys(TripRowKey(), TripRows(f), id);
    var row := TripTable(f)[id];
    assert row.minArrival.None?;
    forall k | k in t.stopTimes ensures t.stopTimes[k].arrival <= t.stopTimes[k].departure {
      TablePasses(StopTimeKey(), StopTimePasses(TripTable(f), StopTable(f)), StopTimeRows(f), k);
    }
    FreshBoundsMatch(row, t.stopTimes);
  }

  lemma FreshBoundsMatch(row: TripRow, stopTimes: map<(string, int), StopTimeRow>)
    requires row.minArrival.None?
    requires forall k :: k in stopTimes ==> stopTimes[k].arrival <= stopTimes[k].departure
    ensures BoundsMatch(WithBounds(row, stopTimes), stopTimes)
  {
    forall k | k in stopTimes && k.0 == row.id
      ensures stopTimes[k].arrival in ArrivalsOf(stopTimes, row.id)
      ensures stopTimes[k].departure in DeparturesOf(stopTimes, row.id)
    { }
  }

  /** A stop has an agency exactly when some stored trip of a route of that agency calls there. */
  lemma StopAgenciesMatch(t: Tables, f: Feed, stopID: string, agencyID: string)
    requires DerivedFrom(t, f)
    ensures References(t)
    ensures (stopID, agencyID) in t.stopAgencies <==>
              exists k :: k in t.stopTimes && t.stopTimes[k].stopID == stopID
                          && t.routes[t.trips[k.0].routeID].agencyID == agencyID
    ensures (stopID, agencyID) in t.stopAgencies ==> stopID in t.stops && agencyID in t.agencies
  {
    ReferencesResolve(t, f);
    StopAgenciesIgnoreBounds(t.stopTimes, TripTable(f), t.routes);
    InStopAgencies(t, stopID, agencyID);
  }

  lemma InStopAgencies(t: Tables, stopID: string, agencyID: string)
    requires References(t)
    ensures (stopID, agencyID) in BuildStopAgencies(t.stopTimes, t.trips, t.routes) <==>
              exists k :: k in t.stopTimes && t.stopTimes[k].stopID == stopID
                          && t.routes[t.trips[k.0].routeID].agencyID == agencyID
    ensures (stopID, agencyID) in BuildStopAgencies(t.stopTimes, t.trips, t.routes) ==>
            stopID in t.stops && agencyID in t.agencies
  {
  }

  /** Every service of the feed has a calendar row, including one defined by exceptions alone. */
  lemma EveryServiceHasCalendarRow(t: Tables, f: Feed, s: Service)
    requires DerivedFrom(t, f) && s in f.services
    ensures s.id in t.calendar
  {
    var i :| 0 <= i < |f.services| && f.services[i] == s;
    assert CalendarKey()(CalendarRows(f)[i]) == s.id;
    PutKeys(CalendarKey(), CalendarRows(f), s.id);
  }

  /** The last second of the latest of the days, and nothing when there is none. */
  ghost predicate IsLastSecondOf(expires: Option<int>, days: set<int>) {
    && (expires.None? <==> days == {})
    && (expires.Some? ==>
        exists d :: d in days && expires.value == (d + 1) * DAY - 1 && forall e :: e in days ==> e <= d)
  }

  /** The expiry is the last second of the last day on which the calendar ends or a date is added. */
  lemma ExpiryMatches(t: Tables, f: Feed)
    requires DerivedFrom(t, f)
    ensures t.metadata.Some? && t.metadata.value.hash == f.hash && t.metadata.value.source == f.source
    ensures IsLastSecondOf(t.metadata.value.expiresAt, ServiceDays(t.calendar, t.calendarDates))
  {
    var end := FeedEndDate(t.calendar, t.calendarDates);
    if end.Some? {
      assert end.value in ServiceDays(t.calendar, t.calendarDates);
      assert end.value * DAY + DAY - 1 == (end.value + 1) * DAY - 1;
    }
  }

  /* ---------- Parent stations ---------- */

  ghost predicate HasStop(stops: seq<Stop>, id: string) {
    exists s :: s in stops && s.hasCoordinates && s.id == id
  }

  /** The stop is stored: it has coordinates, and no later stop with coordinates replaces it. */
  ghost predicate IsStored(stops: seq<Stop>, i: nat) {
    i < |stops| && stops[i].hasCoordinates
    && forall j :: i < j < |stops| && stops[j].hasCoordinates ==> stops[j].id != stops[i].id
  }

  function StoredStops(stops: seq<Stop>): map<string, Stop> {
    Put(StopKey(), map[], Filter(HasCoordinates(), stops))
  }

  lemma StoredStopsNext(stops: seq<Stop>, s: Stop)
    ensures StoredStops(stops + [s]) == if s.hasCoordinates then StoredStops(stops)[s.id := s] else StoredStops(stops)
  {
    var keep := HasCoordinates();
    FilterSnoc(keep, stops, s);
    if keep(s) {
      PutNext(StopKey(), Filter(keep, stops), s);
    } else {
      assert Filter(keep, stops) + [] == Filter(keep, stops);
    }
  }

  lemma {:induction false} StoredStop(stops: seq<Stop>, i: nat)
    requires IsStored(stops, i)
    ensures stops[i].id in StoredStops(stops) && StoredStops(stops)[stops[i].id] == stops[i]
  {
    var last := |stops| - 1;
    assert stops == stops[..last] + [stops[last]];
    StoredStopsNext(stops[..last], stops[last]);
    if i < last {
      assert IsStored(stops[..last], i);
      StoredStop(stops[..last], i);
    }
  }

  lemma {:induction false} LastStop(stops: seq<Stop>, id: string) returns (i: nat)
    requires HasStop(stops, id)
    ensures IsStored(stops, i) && stops[i].id == id
  {
    i := |stops| - 1;
    if !(stops[i].hasCoordinates && stops[i].id == id) {
      assert stops == stops[..i] + [stops[i]];
      i := LastStop(stops[..i], id);
    }
  }

  lemma StopIsInTable(stops: seq<Stop>, id: string)
    ensures id in StoredStops(stops) <==> HasStop(stops, id)
  {
    var kept := Filter(HasCoordinates(), stops);
    PutKeys(StopKey(), kept, id);
    if HasStop(stops, id) {
      var i := LastStop(stops, id);
      StoredStop(stops, i);
    }
    if j :| 0 <= j < |kept| && kept[j].id == id { assert kept[j] in kept; }
  }

  /** Every stored stop with a parent names a stop with coordinates. */
  ghost predicate ParentsStored(stops: seq<Stop>) {
    forall i: nat {:trigger IsStored(stops, i)} :: IsStored(stops, i) && stops[i].parent != "" ==>
        HasStop(stops, stops[i].parent)
  }

  lemma ParentsPresentIff(f: Feed)
    ensures ParentsPresent(StopTable(f)) <==> ParentsStored(f.stops)
  {
    var table := StopTable(f);
    if ParentsPresent(table) {
      forall i: nat | IsStored(f.stops, i) && f.stops[i].parent != "" ensures HasStop(f.stops, f.stops[i].parent) {
        StoredStop(f.stops, i);
        StopIsInTable(f.stops, f.stops[i].parent);
      }
    } else {
      var id :| id in table && table[id].parent != "" && table[id].parent !in table;
      StopIsInTable(f.stops, id);
      StopIsInTable(f.stops, table[id].parent);
      var i := LastStop(f.stops, id);
      StoredStop(f.stops, i);
    }
  }

  /** A feed whose rows pass every check is imported, undisturbed, exactly when the parents of its
      stored stops are stored; the deferred foreign key then fails at the commit. */
  lemma ImportNeedsStoredParents(t: Tables, f: Feed, t': Tables, r: Result)
    requires BaseAccepted(f) && AllPass(ExceptionPasses(CalendarTable(f)), ExceptionRows(f))
            && !KeysCollide(TripMap(f.trips))
    requires !UpToDate(t, f) && ImportStep(t, f, {}, t', r)
    ensures r == if ParentsStored(f.stops) then Imported else Failed
    ensures r == Failed ==> t' == t
  {
    ParentsPresentIff(f);
  }

  /** A small feed with one agency, route and daily service. */
  function SmallFeed(stops: seq<Stop>, trips: seq<ScheduledTrip>): Feed {
    Feed("e3b0c44298fc1c149afbf4c8996fb92427ae41e4649b934ca495991b7852b855", "feed.zip", [Agency("a", "UTC", "")],
         [Route("r", "a", "")], stops, [Service("s", {0, 1, 2, 3, 4, 5, 6}, 0, 30, [], [])], trips)
  }

  lemma SmallFeedTables(stops: seq<Stop>, trips: seq<ScheduledTrip>)
    ensures var f := SmallFeed(stops, trips);
      && "a" in AgencyTable(f) && "r" in RouteTable(f) && "s" in CalendarTable(f)
      && RouteRows(f) == f.routes && CalendarRows(f) == [CalendarRow("s", {0, 1, 2, 3, 4, 5, 6}, 0, 30)]
         && ExceptionRows(f) == []
  {
    var f := SmallFeed(stops, trips);
    assert AgencyKey()(f.agencies[0]) == "a" && RouteKey()(RouteRows(f)[0]) == "r"
        && CalendarKey()(CalendarRows(f)[0]) == "s";
    PutKeys(AgencyKey(), f.agencies, "a");
    PutKeys(RouteKey(), RouteRows(f), "r");
    PutKeys(CalendarKey(), CalendarRows(f), "s");
    var rows := Map(ExceptionRowsOf(), f.services);
    assert rows[0] == [] && Flatten(rows) == rows[0] + Flatten(rows[1..]);
  }

  /** What remains to be checked of such a feed. */
  lemma SmallFeedPasses(stops: seq<Stop>, trips: seq<ScheduledTrip>)
    requires forall trip :: trip in trips ==> trip.routeID == "r" && trip.serviceID == "s"
    requires AllPass(StopTimePasses(TripTable(SmallFeed(stops, trips)), StopTable(SmallFeed(stops, trips))),
                     StopTimeRows(SmallFeed(stops, trips)))
    requires DistinctKeys(StopTimeKey(), StopTimeRows(SmallFeed(stops, trips)))
    ensures var f := SmallFeed(stops, trips);
      BaseAccepted(f) && AllPass(ExceptionPasses(CalendarTable(f)), ExceptionRows(f)) && !KeysCollide(TripMap(f.trips))
  {
    SmallFeedTables(stops, trips);
    var f := SmallFeed(stops, trips);
    assert AllPass(TripPasses(RouteTable(f), CalendarTable(f)), TripRows(f)) by {
      forall i | 0 <= i < |trips|
        ensures TripRows(f)[i].routeID == "r" && TripRows(f)[i].serviceID == "s"
      {
        assert trips[i] in trips;
      }
    }
    TripServices(trips, "s");
    PlainServiceIDsNeverCollide(TripMap(trips));
  }

  lemma {:induction false} TripServices(trips: seq<ScheduledTrip>, serviceID: string)
    requires forall trip :: trip in trips ==> trip.serviceID == serviceID
    ensures forall id :: id in TripMap(trips) ==> TripMap(trips)[id].serviceID == serviceID
  {
    if trips != [] { TripServices(trips[..|trips| - 1], serviceID); }
  }

  const PLATFORM := Stop("platform", true, "station", "")
  const CALL := ScheduledTrip("t", "r", "s", "", [StopTime("platform", 1, 0, 0)], "")

  function OrphanFeed(): Feed {
    SmallFeed([PLATFORM, Stop("station", false, "", "")], [CALL])
  }

  lemma OrphanFeedPasses()
    ensures var f := OrphanFeed();
      BaseAccepted(f) && AllPass(ExceptionPasses(CalendarTable(f)), ExceptionRows(f)) && !KeysCollide(TripMap(f.trips))
  {
    var f := OrphanFeed();
    assert Map(StopTimeRowsOf(), f.trips)[1..] == [];
    assert StopTimeRows(f) == [StopTimeRow("t", 1, "platform", 0, 0)] + Flatten(Map(StopTimeRowsOf(), f.trips)[1..]);
    TripIsStored(f, CALL);
    assert PLATFORM in f.stops;
    StopIsInTable(f.stops, "platform");
    SmallFeedPasses(f.stops, f.trips);
  }

  lemma OrphanFeedLacksStation()
    ensures !ParentsStored(OrphanFeed().stops)
  {
    var stops := OrphanFeed().stops;
    assert IsStored(stops, 0) by { assert !stops[1].hasCoordinates; }
    forall s | s in stops && s.hasCoordinates ensures s.id != "station" {
      assert s == stops[0] && |"platform"| == 8 && |"station"| == 7;
    }
  }

  /** A stop whose parent station has no coordinates passes every row check, and still the import fails. */
  lemma ParentWithoutCoordinatesFailsImport(t: Tables, t': Tables, r: Result)
    requires !UpToDate(t, OrphanFeed()) && ImportStep(t, OrphanFeed(), {}, t', r)
    ensures BaseAccepted(OrphanFeed()) && r == Failed && t' == t
  {
    var f := OrphanFeed();
    OrphanFeedPasses();
    OrphanFeedLacksStation();
    ImportNeedsStoredParents(t, f, t', r);
  }
}
