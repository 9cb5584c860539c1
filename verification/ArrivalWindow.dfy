/** Collecting the stop times of one stop, or of many, that fall in a request's window
    (internal/restapi/arrivals_core.go, gtfsdb/query.sql.go). Zones are timezone names, days are
    day numbers, and instants and offsets are nanoseconds. */
module ArrivalWindow {
  import opened Collections

  /** A stop time joined with its trip. */
  datatype Row = Row(
    tripID: string, stopID: string, sequence: int, arrival: nat, departure: nat, routeID: string, serviceID: string)

  /** What the service-date library computes: the date of an instant in a zone, and the instant the
      stop-time offsets of a date start from. */
  datatype Clock = Clock(dateOf: (string, int) -> int, startOf: (string, int) -> int)

  /** The tables the queries read; an agency maps to its timezone, None when it is not loadable. */
  datatype Database = Database(
    rows: seq<Row>, routeAgency: map<string, string>, agencies: map<string, Option<string>>, active: int -> set<string>)

  datatype Request = Request(stopID: string, agencyID: string, zone: string, queryTime: int, before: int, after: int)

  datatype Window = Window(queryTime: int, before: int, after: int)

  /** What goes wrong: the route query, agency queries, and by group and day offset the services and
      window queries; and the days before which the request's context is found cancelled. A group goes by
      its zone in the single-stop pass and by its agency in the batched one. */
  datatype Faults = Faults(
    routes: bool, agencies: set<string>, services: set<(string, int)>, windows: set<(string, int)>,
    cancelled: set<(string, int)>)
  {
    /** The context is live before each of the first n days, from yesterday on. */
    predicate LiveFor(group: string, n: int) {
      && (n > 0 ==> (group, -1) !in cancelled)
      && (n > 1 ==> (group, 0) !in cancelled)
      && (n > 2 ==> (group, 1) !in cancelled)
    }
  }

  const NO_FAULTS: Faults := Faults(false, {}, {}, {}, {})

  /** A row on one service day of one zone. */
  datatype Active = Active(row: Row, date: int, zone: string)

  /* ---------- Discovering the agencies of a stop ---------- */

  /** The routes with a trip calling at the stop, with their agencies. */
  function RoutesForStop(db: Database, stopID: string): map<string, string> {
    map r | r in db.rows && r.stopID == stopID && r.routeID in db.routeAgency :: r.routeID := db.routeAgency[r.routeID]
  }

  /** Each agency's zone: the primary agency's comes with the request, an agency without a row has none. */
  function ZoneOfAgency(db: Database, req: Request, agencyID: string): Option<string> {
    if agencyID == req.agencyID then Some(req.zone)
    else if agencyID in db.agencies then db.agencies[agencyID]
    else None
  }

  function ServingAgencies(db: Database, req: Request): set<string> {
    RoutesForStop(db, req.stopID).Values + {req.agencyID}
  }

  function LocationsOf(db: Database, req: Request, agencies: set<string>): map<string, string> {
    map a | a in agencies && ZoneOfAgency(db, req, a).Some? :: ZoneOfAgency(db, req, a).value
  }

  function Locations(db: Database, req: Request): map<string, string> {
    LocationsOf(db, req, ServingAgencies(db, req))
  }

  lemma LocationsNext(db: Database, req: Request, agencies: set<string>, a: string)
    ensures var zone, known := ZoneOfAgency(db, req, a), LocationsOf(db, req, agencies);
      LocationsOf(db, req, agencies + {a}) == if zone.Some? then known[a := zone.value] else known
  {
  }

  predicate Unreadable(db: Database, faults: Faults, a: string) {
    a in faults.agencies || (a in db.agencies && db.agencies[a].None?)
  }

  /** Some serving agency's row or timezone cannot be read, and the request fails. */
  predicate DiscoveryFails(db: Database, req: Request, faults: Faults) {
    faults.routes || exists a :: a in ServingAgencies(db, req) && a != req.agencyID && Unreadable(db, faults, a)
  }

  datatype Discovery = Discovery(routeAgency: map<string, string>, locations: map<string, string>)

  /** Resolves the agencies in any order. */
  method DiscoverStopAgencies(db: Database, req: Request, faults: Faults) returns (r: Option<Discovery>)
    ensures r.None? <==> DiscoveryFails(db, req, faults)
    ensures r.Some? ==> r.value == Discovery(RoutesForStop(db, req.stopID), Locations(db, req))
  {
    if faults.routes { return None; }
    var routeAgency := RoutesForStop(db, req.stopID);
    var locations: map<string, string> := map[req.agencyID := req.zone];
    var serving := ServingAgencies(db, req);
    var rest := routeAgency.Values - {req.agencyID};
    while rest != {}
      invariant rest <= serving - {req.agencyID}
      invariant forall a :: a in serving && a != req.agencyID && a !in rest ==> !Unreadable(db, faults, a)
      invariant locations == LocationsOf(db, req, serving - rest)
      decreases rest
    {
      var a :| a in rest;
      if a in faults.agencies { return None; }
      LocationsNext(db, req, serving - rest, a);
      assert serving - (rest - {a}) == serving - rest + {a};
      rest := rest - {a};
      if a !in db.agencies { continue; }
      if db.agencies[a].None? { return None; }
      locations := locations[a := db.agencies[a].value];
    }
    assert serving - rest == serving;
    r := Some(Discovery(routeAgency, locations));
  }

  /** Discovery fails exactly when the route query does, or when some stop time at the stop is on a
      route of another agency whose row cannot be read or whose timezone cannot be loaded. */
  lemma DiscoveryFailsWhen(db: Database, req: Request, faults: Faults)
    ensures DiscoveryFails(db, req, faults) <==>
              faults.routes || exists r :: r in db.rows && r.stopID == req.stopID && r.routeID in db.routeAgency
                                           && AgencyUnreadable(db, req, faults, db.routeAgency[r.routeID])
  {
    var routes := RoutesForStop(db, req.stopID);
    if a :| a in ServingAgencies(db, req) && a != req.agencyID && Unreadable(db, faults, a) {
      var routeID :| routeID in routes && routes[routeID] == a;
      assert AgencyUnreadable(db, req, faults, db.routeAgency[routeID]);
    }
    if r :| r in db.rows && r.stopID == req.stopID && r.routeID in db.routeAgency
            && AgencyUnreadable(db, req, faults, db.routeAgency[r.routeID]) {
      assert r.routeID in routes && routes[r.routeID] in ServingAgencies(db, req);
    }
  }

  predicate AgencyUnreadable(db: Database, req: Request, faults: Faults, a: string) {
    a != req.agencyID && (a in faults.agencies || (a in db.agencies && db.agencies[a] == None))
  }

  /* ---------- Grouping agencies by timezone ---------- */

  function AgenciesIn(locations: map<string, string>, zone: string): set<string> {
    set a | a in locations && locations[a] == zone
  }

  /** The groups partition the agencies: each agency is in the group of its zone and in no other, and
      the keys come out in ascending order. */
  method GroupAgenciesByTimezone(locations: map<string, string>)
    returns (groups: map<string, set<string>>, keys: seq<string>)
    ensures forall zone :: zone in groups <==> exists a :: a in locations && locations[a] == zone
    ensures forall zone :: zone in groups ==> groups[zone] == AgenciesIn(locations, zone)
    ensures keys == SortedMembers(locations.Values)
  {
    groups := map[];
    var rest := locations.Keys;
    while rest != {}
      invariant rest <= locations.Keys
      invariant forall zone :: zone in groups <==> exists a :: a in locations.Keys - rest && locations[a] == zone
      invariant forall zone :: zone in groups ==> groups[zone] == AgenciesIn(locations, zone) - rest
      decreases rest
    {
      var a :| a in rest;
      var zone := locations[a];
      if zone !in groups {
        assert AgenciesIn(locations, zone) - rest == {};
      }
      groups := groups[zone := (if zone in groups then groups[zone] else {}) + {a}];
      rest := rest - {a};
    }
    keys := SortStrings(groups.Keys);
    assert groups.Keys == locations.Values;
    AscendingUnique(keys, SortedMembers(locations.Values));
  }

  /* ---------- One service day of one zone ---------- */

  function From(c: Clock, req: Request, zone: string, date: int): int {
    req.queryTime - req.before - c.startOf(zone, date)
  }

  function Until(c: Clock, req: Request, zone: string, date: int): int {
    req.queryTime + req.after - c.startOf(zone, date)
  }

  predicate InWindow(r: Row, from: int, until: int) {
    from <= r.arrival <= until || from <= r.departure <= until
  }

  /** The rows the window query returns. */
  function WindowRows(stops: set<string>, from: int, until: int): Row -> bool {
    (r: Row) => r.stopID in stops && InWindow(r, from, until)
  }

  /** Rows whose route has no known agency belong to the primary group. */
  predicate InGroup(routeAgency: map<string, string>, agencies: set<string>, primary: bool, r: Row) {
    if r.routeID in routeAgency then routeAgency[r.routeID] in agencies else primary
  }

  function RunsInGroup(routeAgency: map<string, string>, agencies: set<string>, primary: bool,
                       active: set<string>): Row -> bool
  {
    (r: Row) => InGroup(routeAgency, agencies, primary, r) && r.serviceID in active
  }

  function On(date: int, zone: string): Row -> Active {
    (r: Row) => Active(r, date, zone)
  }

  function DateAt(c: Clock, req: Request, zone: string, dayOffset: int): int {
    c.dateOf(zone, req.queryTime) + dayOffset
  }

  /** What one service day contributes; nothing is left of the day when the window ended before it. */
  function DayRows(c: Clock, db: Database, req: Request, d: Discovery, zone: string, dayOffset: int): seq<Active> {
    var date := DateAt(c, req, zone, dayOffset);
    if Until(c, req, zone, date) < 0 then []
    else
      Map(On(date, zone),
          Filter(RunsInGroup(d.routeAgency, AgenciesIn(d.locations, zone), zone == req.zone, db.active(date)),
                 Filter(WindowRows({req.stopID}, From(c, req, zone, date), Until(c, req, zone, date)), db.rows)))
  }

  /** The day's rows, or None when its services cannot be read. A failed window query yields no rows. */
  function Day(c: Clock, db: Database, req: Request, d: Discovery, zone: string, dayOffset: int,
               faults: Faults): Option<seq<Active>>
  {
    if (zone, dayOffset) in faults.services then None
    else if (zone, dayOffset) in faults.windows then Some([])
    else Some(DayRows(c, db, req, d, zone, dayOffset))
  }

  lemma NoServicesNoRows(c: Clock, db: Database, req: Request, d: Discovery, zone: string, dayOffset: int)
    requires db.active(DateAt(c, req, zone, dayOffset)) == {}
    ensures DayRows(c, db, req, d, zone, dayOffset) == []
  {
    var date := DateAt(c, req, zone, dayOffset);
    var runs := RunsInGroup(d.routeAgency, AgenciesIn(d.locations, zone), zone == req.zone, db.active(date));
    FilterNone(runs, Filter(WindowRows({req.stopID}, From(c, req, zone, date), Until(c, req, zone, date)), db.rows));
  }

  lemma KeepNext(keep: Row -> bool, found: seq<Row>, i: nat, date: int, zone: string)
    requires i < |found|
    ensures Map(On(date, zone), Filter(keep, found[..i + 1]))
            == Map(On(date, zone), Filter(keep, found[..i]))
                + (if keep(found[i]) then [Active(found[i], date, zone)] else [])
  {
    assert found[..i + 1] == found[..i] + [found[i]];
    FilterSnoc(keep, found[..i], found[i]);
  }

  /** The rows of the day that pass, in the order found. */
  method KeepRows(found: seq<Row>, keep: Row -> bool, date: int, zone: string) returns (rows: seq<Active>)
    ensures rows == Map(On(date, zone), Filter(keep, found))
  {
    rows := [];
    assert found[..0] == [];
    for i := 0 to |found|
      invariant rows == Map(On(date, zone), Filter(keep, found[..i]))
    {
      KeepNext(keep, found, i, date, zone);
      if !keep(found[i]) { continue; }
      rows := rows + [Active(found[i], date, zone)];
    }
    assert found[..|found|] == found;
  }

  method StopTimesForGroupServiceDay(c: Clock, db: Database, req: Request, d: Discovery, zone: string,
                                     agencies: set<string>,
                                     dayOffset: int, faults: Faults) returns (r: Option<seq<Active>>)
    requires agencies == AgenciesIn(d.locations, zone)
    ensures r == Day(c, db, req, d, zone, dayOffset, faults)
  {
    var date := c.dateOf(zone, req.queryTime) + dayOffset;
    var start := c.startOf(zone, date);
    if (zone, dayOffset) in faults.services { return None; }
    var active := db.active(date);
    if active == {} {
      NoServicesNoRows(c, db, req, d, zone, dayOffset);
      return Some([]);
    }
    var endOffset := req.queryTime + req.after - start;
    if endOffset < 0 { return Some([]); }
    if (zone, dayOffset) in faults.windows { return Some([]); }
    var found := Filter(WindowRows({req.stopID}, req.queryTime - req.before - start, endOffset), db.rows);
    var rows := KeepRows(found, RunsInGroup(d.routeAgency, agencies, zone == req.zone, active), date, zone);
    r := Some(rows);
  }

  /** The three days of a group. Of the queries only today's failure is fatal; a cancellation always is. */
  function GroupWindow(c: Clock, db: Database, req: Request, d: Discovery, zone: string,
                       faults: Faults): Option<seq<Active>>
  {
    var before, today, after :=
      Day(c, db, req, d, zone, -1, faults), Day(c, db, req, d, zone, 0, faults), Day(c, db, req, d, zone, 1, faults);
    if !faults.LiveFor(zone, 3) || today.None? then None else Some(OrEmpty(before) + today.value + OrEmpty(after))
  }

  function OrEmpty(day: Option<seq<Active>>): seq<Active> {
    if day.Some? then day.value else []
  }

  method CollectGroupWindow(c: Clock, db: Database, req: Request, d: Discovery, zone: string, agencies: set<string>,
                            faults: Faults)
    returns (r: Option<seq<Active>>)
    requires agencies == AgenciesIn(d.locations, zone)
    ensures r == GroupWindow(c, db, req, d, zone, faults)
  {
    var rows: seq<Active> := [];
    ghost var before, today := Day(c, db, req, d, zone, -1, faults), Day(c, db, req, d, zone, 0, faults);
    var dayOffset := -1;
    while dayOffset <= 1
      invariant -1 <= dayOffset <= 2
      invariant dayOffset >= 1 ==> today.Some?
      invariant faults.LiveFor(zone, dayOffset + 1)
      invariant rows == if dayOffset == -1 then [] else if dayOffset == 0 then OrEmpty(before)
                        else if dayOffset == 1 then OrEmpty(before) + OrEmpty(today)
                        else OrEmpty(before) + OrEmpty(today) + OrEmpty(Day(c, db, req, d, zone, 1, faults))
    {
      if (zone, dayOffset) in faults.cancelled { return None; }
      var day := StopTimesForGroupServiceDay(c, db, req, d, zone, agencies, dayOffset, faults);
      if day.None? {
        if dayOffset == 0 { return None; }
      } else {
        rows := rows + day.value;
      }
      dayOffset := dayOffset + 1;
    }
    r := Some(rows);
  }

  /* ---------- The whole request ---------- */

  function WindowOf(c: Clock, db: Database, req: Request, d: Discovery, faults: Faults): string -> Option<seq<Active>> {
    zone => GroupWindow(c, db, req, d, zone, faults)
  }

  /** The groups in key order; the first fatal group fails the request. */
  function AllGroups(windowOf: string -> Option<seq<Active>>, zones: seq<string>): Option<seq<Active>> {
    if zones == [] then Some([])
    else
      var before, last := AllGroups(windowOf, zones[..|zones| - 1]), windowOf(zones[|zones| - 1]);
      if before.None? || last.None? then None else Some(before.value + last.value)
  }

  ghost function Collected(c: Clock, db: Database, req: Request, faults: Faults): Option<seq<Active>> {
    if DiscoveryFails(db, req, faults) then None
    else
      var d := Discovery(RoutesForStop(db, req.stopID), Locations(db, req));
      AllGroups(WindowOf(c, db, req, d, faults), SortedMembers(d.locations.Values))
  }

  /** The scheduled arrival instant. */
  function ArrivalInstant(c: Clock): Active -> int {
    (a: Active) => c.startOf(a.zone, a.date) + a.row.arrival
  }

  /** Earlier arrival first, then trip ID, then stop sequence. */
  predicate ArrivesBefore(c: Clock, a: Active, b: Active) {
    var s, t := ArrivalInstant(c)(a), ArrivalInstant(c)(b);
    || s < t
    || (s == t && (StrLess(a.row.tripID, b.row.tripID)
                   || (a.row.tripID == b.row.tripID && a.row.sequence < b.row.sequence)))
  }

  function ArrivalOrder(c: Clock): (Active, Active) -> bool {
    (a, b) => ArrivesBefore(c, a, b)
  }

  lemma ArrivalOrderIsWeak(c: Clock)
    ensures WeakOrder(ArrivalOrder(c))
  {
    StrLessIsWeakOrder();
    forall x, y, z | !ArrivesBefore(c, y, x) && !ArrivesBefore(c, z, y) ensures !ArrivesBefore(c, z, x) {
      TiesAreEqualTrips(x, y);
      TiesAreEqualTrips(y, z);
    }
    forall x, y | ArrivesBefore(c, x, y) ensures !ArrivesBefore(c, y, x) { StrLessIrreflexive(x.row.tripID); }
  }

  lemma TiesAreEqualTrips(x: Active, y: Active)
    ensures StrLess(x.row.tripID, y.row.tripID) || StrLess(y.row.tripID, x.row.tripID) || x.row.tripID == y.row.tripID
    ensures !StrLess(x.row.tripID, x.row.tripID)
  {
    StrLessTotal(x.row.tripID, y.row.tripID);
    StrLessIrreflexive(x.row.tripID);
  }

  /** Ordered rows go by the instant they are scheduled to arrive, those of one instant by trip ID, and
      those of one trip by stop sequence. */
  lemma ArrivalOrderMeans(c: Clock, rows: seq<Active>, i: nat, j: nat)
    requires SortedWith(ArrivalOrder(c), rows) && i < j < |rows|
    ensures var x, y := rows[i], rows[j];
      var s, t := c.startOf(x.zone, x.date) + x.row.arrival, c.startOf(y.zone, y.date) + y.row.arrival;
      && s <= t
      && (s == t ==> x.row.tripID == y.row.tripID || StrLess(x.row.tripID, y.row.tripID))
      && (s == t && x.row.tripID == y.row.tripID ==> x.row.sequence <= y.row.sequence)
  {
    assert !ArrivalOrder(c)(rows[j], rows[i]);
    TiesAreEqualTrips(rows[i], rows[j]);
  }

  method CollectGroups(c: Clock, db: Database, req: Request, d: Discovery, groups: map<string, set<string>>,
                       keys: seq<string>, faults: Faults)
    returns (r: Option<seq<Active>>)
    requires forall i :: 0 <= i < |keys| ==> keys[i] in groups && groups[keys[i]] == AgenciesIn(d.locations, keys[i])
    ensures r == AllGroups(WindowOf(c, db, req, d, faults), keys)
  {
    var all: seq<Active> := [];
    ghost var windowOf := WindowOf(c, db, req, d, faults);
    assert keys[..0] == [] && keys[..|keys|] == keys;
    for i := 0 to |keys|
      invariant AllGroups(windowOf, keys[..i]) == Some(all)
    {
      assert keys[..i + 1][..i] == keys[..i];
      var rows := CollectGroupWindow(c, db, req, d, keys[i], groups[keys[i]], faults);
      if rows.None? {
        FailsForGood(windowOf, keys, i + 1);
        return None;
      }
      all := all + rows.value;
    }
    r := Some(all);
  }

  lemma {:induction false} FailsForGood(windowOf: string -> Option<seq<Active>>, zones: seq<string>, i: nat)
    requires i <= |zones| && AllGroups(windowOf, zones[..i]).None?
    ensures AllGroups(windowOf, zones).None?
    decreases |zones| - i
  {
    if i < |zones| {
      assert zones[..i + 1][..i] == zones[..i];
      FailsForGood(windowOf, zones, i + 1);
    } else {
      assert zones[..i] == zones;
    }
  }

  method ActiveStopTimesForWindow(c: Clock, db: Database, req: Request, faults: Faults) returns (r: Option<seq<Active>>)
    ensures r.None? <==> Collected(c, db, req, faults).None?
    ensures r.Some? ==> var all := Collected(c, db, req, faults).value;
              multiset(r.value) == multiset(all) && SortedWith(ArrivalOrder(c), r.value)
                  && SameTies(ArrivalOrder(c), r.value, all)
  {
    var discovered := DiscoverStopAgencies(db, req, faults);
    if discovered.None? { return None; }
    var d := discovered.value;
    var groups, keys := GroupAgenciesByTimezone(d.locations);
    assert forall i :: 0 <= i < |keys| ==> keys[i] in keys;
    var all := CollectGroups(c, db, req, d, groups, keys, faults);
    if all.None? { return None; }
    ArrivalOrderIsWeak(c);
    var sorted := StableSort(ArrivalOrder(c), all.value);
    r := Some(sorted);
  }

  /* ---------- Each stop time once, in its own agency's zone ---------- */

  /** The zone a row is judged in: that of its route's agency, the request's own zone for the request's
      agency and for a route without one. */
  function ZoneOfRow(db: Database, req: Request, r: Row): Option<string> {
    if r.routeID !in db.routeAgency || db.routeAgency[r.routeID] == req.agencyID then Some(req.zone)
    else if db.routeAgency[r.routeID] in db.agencies then db.agencies[db.routeAgency[r.routeID]]
    else None
  }

  /** The scheduled arrival or departure of the row on the date lies between the two instants. */
  predicate CallsWithin(c: Clock, first: int, last: int, r: Row, date: int, zone: string) {
    || first <= c.startOf(zone, date) + r.arrival <= last
    || first <= c.startOf(zone, date) + r.departure <= last
  }

  /** The row is due on the date, which is yesterday, today or tomorrow: its service is active, and it
      calls at most `before` ahead of the query time and at most `after` behind it. */
  predicate Due(c: Clock, db: Database, w: Window, r: Row, date: int, zone: string) {
    -1 <= date - c.dateOf(zone, w.queryTime) <= 1 && DueOn(c, db, w, r, date, zone)
  }

  predicate DueOn(c: Clock, db: Database, w: Window, r: Row, date: int, zone: string) {
    r.serviceID in db.active(date) && CallsWithin(c, w.queryTime - w.before, w.queryTime + w.after, r, date, zone)
  }

  predicate Wanted(c: Clock, db: Database, req: Request, a: Active) {
    && a.row.stopID == req.stopID && ZoneOfRow(db, req, a.row) == Some(a.zone)
    && Due(c, db, Window(req.queryTime, req.before, req.after), a.row, a.date, a.zone)
  }

  lemma InWindowMeans(c: Clock, req: Request, r: Row, date: int, zone: string)
    ensures InWindow(r, From(c, req, zone, date), Until(c, req, zone, date))
            <==> CallsWithin(c, req.queryTime - req.before, req.queryTime + req.after, r, date, zone)
  {
  }

  lemma {:induction false} MapCount(date: int, zone: string, rows: seq<Row>, a: Active)
    ensures multiset(Map(On(date, zone), rows))[a]
            == if a.date == date && a.zone == zone then multiset(rows)[a.row] else 0
  {
    if rows != [] {
      var first, rest := rows[0], rows[1..];
      MapCount(date, zone, rest, a);
      CountCons(rows, a.row);
      CountCons(Map(On(date, zone), rows), a);
      assert Map(On(date, zone), rows)[1..] == Map(On(date, zone), rest);
    }
  }

  lemma DayCount(c: Clock, db: Database, req: Request, d: Discovery, zone: string, dayOffset: int, a: Active)
    ensures var date := DateAt(c, req, zone, dayOffset);
      multiset(DayRows(c, db, req, d, zone, dayOffset))[a]
      == if a.date == date && a.zone == zone && a.row.stopID == req.stopID
            && DueOn(c, db, Window(req.queryTime, req.before, req.after), a.row, date, zone)
            && InGroup(d.routeAgency, AgenciesIn(d.locations, zone), zone == req.zone, a.row)
         then multiset(db.rows)[a.row] else 0
  {
    var date := DateAt(c, req, zone, dayOffset);
    InWindowMeans(c, req, a.row, date, zone);
    if Until(c, req, zone, date) >= 0 {
      var window := WindowRows({req.stopID}, From(c, req, zone, date), Until(c, req, zone, date));
      var runs := RunsInGroup(d.routeAgency, AgenciesIn(d.locations, zone), zone == req.zone, db.active(date));
      FilterCount(window, db.rows, a.row);
      FilterCount(runs, Filter(window, db.rows), a.row);
      MapCount(date, zone, Filter(runs, Filter(window, db.rows)), a);
    }
  }

  /** The group a stored row at the stop is collected by is the one of its zone. */
  lemma GroupOfRow(db: Database, req: Request, d: Discovery, zone: string, r: Row)
    requires d == Discovery(RoutesForStop(db, req.stopID), Locations(db, req))
    requires r in db.rows && r.stopID == req.stopID
    ensures InGroup(d.routeAgency, AgenciesIn(d.locations, zone), zone == req.zone, r)
            <==> ZoneOfRow(db, req, r) == Some(zone)
  {
    if r.routeID in db.routeAgency {
      assert r.routeID in d.routeAgency && d.routeAgency[r.routeID] == db.routeAgency[r.routeID];
      assert db.routeAgency[r.routeID] in ServingAgencies(db, req);
    }
  }

  /** The queries of the row's own day both succeed. */
  predicate DayIsRead(c: Clock, req: Request, faults: Faults, a: Active) {
    var day := (a.zone, a.date - c.dateOf(a.zone, req.queryTime));
    day !in faults.services && day !in faults.windows
  }

  ghost function WantedCount(c: Clock, db: Database, req: Request, faults: Faults, a: Active): nat {
    if Wanted(c, db, req, a) && DayIsRead(c, req, faults, a) then multiset(db.rows)[a.row] else 0
  }

  lemma WantedOnDay(c: Clock, db: Database, req: Request, d: Discovery, zone: string, dayOffset: int, a: Active)
    requires d == Discovery(RoutesForStop(db, req.stopID), Locations(db, req)) && a.row in db.rows
    requires -1 <= dayOffset <= 1 && a.zone == zone && a.date == DateAt(c, req, zone, dayOffset)
    ensures multiset(DayRows(c, db, req, d, zone, dayOffset))[a]
            == if Wanted(c, db, req, a) then multiset(db.rows)[a.row] else 0
  {
    DayCount(c, db, req, d, zone, dayOffset, a);
    if a.row.stopID == req.stopID { GroupOfRow(db, req, d, zone, a.row); }
  }

  lemma ReadDayCount(c: Clock, db: Database, req: Request, d: Discovery, zone: string, dayOffset: int,
                     faults: Faults, a: Active)
    requires d == Discovery(RoutesForStop(db, req.stopID), Locations(db, req)) && a.row in db.rows
    requires -1 <= dayOffset <= 1
    ensures multiset(OrEmpty(Day(c, db, req, d, zone, dayOffset, faults)))[a]
            == if a.zone == zone && a.date == DateAt(c, req, zone, dayOffset) then WantedCount(c, db, req, faults, a)
               else 0
  {
    var rows := DayRows(c, db, req, d, zone, dayOffset);
    if a.zone == zone && a.date == DateAt(c, req, zone, dayOffset) {
      WantedOnDay(c, db, req, d, zone, dayOffset, a);
      assert a.date - c.dateOf(a.zone, req.queryTime) == dayOffset;
    } else {
      DayCount(c, db, req, d, zone, dayOffset, a);
      assert multiset(rows)[a] == 0;
    }
    if (zone, dayOffset) in faults.services || (zone, dayOffset) in faults.windows {
      assert OrEmpty(Day(c, db, req, d, zone, dayOffset, faults)) == [];
    } else {
      assert OrEmpty(Day(c, db, req, d, zone, dayOffset, faults)) == rows;
    }
  }

  /** A group fails when its context is cancelled before one of its days, or the services of its
      current day cannot be read. */
  predicate GroupFails(faults: Faults, zone: string) {
    || (zone, -1) in faults.cancelled || (zone, 0) in faults.cancelled || (zone, 1) in faults.cancelled
    || (zone, 0) in faults.services
  }

  lemma GroupCount(c: Clock, db: Database, req: Request, d: Discovery, zone: string, faults: Faults, a: Active)
    requires d == Discovery(RoutesForStop(db, req.stopID), Locations(db, req)) && a.row in db.rows
    ensures var rows := GroupWindow(c, db, req, d, zone, faults);
      && (rows.None? <==> GroupFails(faults, zone))
      && (rows.Some? ==>
          multiset(rows.value)[a] == if a.zone == zone then WantedCount(c, db, req, faults, a) else 0)
  {
    ReadDayCount(c, db, req, d, zone, -1, faults, a);
    ReadDayCount(c, db, req, d, zone, 0, faults, a);
    ReadDayCount(c, db, req, d, zone, 1, faults, a);
    var before, today, after := OrEmpty(Day(c, db, req, d, zone, -1, faults)),
        OrEmpty(Day(c, db, req, d, zone, 0, faults)), OrEmpty(Day(c, db, req, d, zone, 1, faults));
    assert multiset(before + today + after)[a] == multiset(before)[a] + multiset(today)[a] + multiset(after)[a];
  }

  /** The group fails if its zone does; otherwise it contributes n copies of a when it is a's zone, and none if not. */
  ghost predicate GroupHolds(windowOf: string -> Option<seq<Active>>, zone: string, faults: Faults, a: Active, n: nat) {
    var rows := windowOf(zone);
    && (rows.None? <==> GroupFails(faults, zone))
    && (rows.Some? ==> multiset(rows.value)[a] == if a.zone == zone then n else 0)
  }

  lemma {:induction false} AllGroupsCount(windowOf: string -> Option<seq<Active>>, zones: seq<string>, faults: Faults,
                                          a: Active, n: nat)
    requires Distinct(zones)
    requires forall i :: 0 <= i < |zones| ==> GroupHolds(windowOf, zones[i], faults, a, n)
    ensures var rows := AllGroups(windowOf, zones);
      && (rows.None? <==> exists zone :: zone in zones && GroupFails(faults, zone))
      && (rows.Some? ==> multiset(rows.value)[a] == if a.zone in zones then n else 0)
  {
    if zones != [] {
      var last := |zones| - 1;
      AllGroupsCount(windowOf, zones[..last], faults, a, n);
      assert GroupHolds(windowOf, zones[last], faults, a, n);
      assert zones == zones[..last] + [zones[last]];
    }
  }

  lemma RowZoneIsLocated(db: Database, req: Request, r: Row)
    requires r in db.rows && r.stopID == req.stopID && ZoneOfRow(db, req, r).Some?
    ensures ZoneOfRow(db, req, r).value in Locations(db, req).Values
  {
    assert Locations(db, req)[req.agencyID] == req.zone;
    if r.routeID in db.routeAgency {
      assert r.routeID in RoutesForStop(db, req.stopID);
      var a := db.routeAgency[r.routeID];
      assert a in ServingAgencies(db, req);
      assert Locations(db, req)[a] == ZoneOfRow(db, req, r).value;
    }
  }

  /** The zone has a group: it is the request's, or that of an agency with a route at the stop. */
  ghost predicate HasGroup(db: Database, req: Request, zone: string) {
    zone == req.zone || exists r :: r in db.rows && r.stopID == req.stopID && ZoneOfRow(db, req, r) == Some(zone)
  }

  lemma GroupZones(db: Database, req: Request, zone: string)
    ensures zone in Locations(db, req).Values <==> HasGroup(db, req, zone)
  {
    var locations := Locations(db, req);
    assert locations[req.agencyID] == req.zone;
    if a :| a in locations && locations[a] == zone && a != req.agencyID {
      var routeID :| routeID in RoutesForStop(db, req.stopID) && RoutesForStop(db, req.stopID)[routeID] == a;
      var r :| r in db.rows && r.stopID == req.stopID && r.routeID == routeID;
      assert ZoneOfRow(db, req, r) == Some(zone);
    }
    if r :| r in db.rows && r.stopID == req.stopID && ZoneOfRow(db, req, r) == Some(zone) {
      RowZoneIsLocated(db, req, r);
    }
  }

  /** Whatever fails, the request fails exactly when discovery does, or some group's context is
      cancelled or its services of today cannot be read. Otherwise a stored stop time is collected
      once for each date on which it is due in its own agency's zone and whose queries succeed, and on
      no other date or zone. */
  lemma CollectedExactlyOnce(c: Clock, db: Database, req: Request, faults: Faults, a: Active)
    requires a.row in db.rows
    ensures var r := Collected(c, db, req, faults);
      && (r.None? <==> DiscoveryFails(db, req, faults)
                       || exists zone :: HasGroup(db, req, zone) && GroupFails(faults, zone))
      && (r.Some? ==>
          multiset(r.value)[a]
          == if Wanted(c, db, req, a) && DayIsRead(c, req, faults, a) then multiset(db.rows)[a.row] else 0)
  {
    var d := Discovery(RoutesForStop(db, req.stopID), Locations(db, req));
    var zones, windowOf := SortedMembers(d.locations.Values), WindowOf(c, db, req, d, faults);
    AscendingDistinct(zones);
    var n := WantedCount(c, db, req, faults, a);
    forall i | 0 <= i < |zones| ensures GroupHolds(windowOf, zones[i], faults, a, n) {
      GroupCount(c, db, req, d, zones[i], faults, a);
    }
    AllGroupsCount(windowOf, zones, faults, a, n);
    forall zone ensures zone in zones <==> HasGroup(db, req, zone) { GroupZones(db, req, zone); }
    if Wanted(c, db, req, a) { RowZoneIsLocated(db, req, a.row); }
  }

  /** Without a fault the request only fails in discovery. */
  lemma CollectedWithoutFaults(c: Clock, db: Database, req: Request, a: Active)
    requires !DiscoveryFails(db, req, NO_FAULTS) && a.row in db.rows
    ensures var r := Collected(c, db, req, NO_FAULTS);
      r.Some? && multiset(r.value)[a] == if Wanted(c, db, req, a) then multiset(db.rows)[a.row] else 0
  {
    CollectedExactlyOnce(c, db, req, NO_FAULTS, a);
    assert forall zone :: !GroupFails(NO_FAULTS, zone);
  }

  /* ---------- Many stops in one pass ---------- */

  /** Which agency owns each stop of a request, and in which zone; some stops only have the fallback. */
  datatype StopAgencyIndex = StopAgencyIndex(
    byStopID: map<string, string>, locations: map<string, string>, fallbackAgencyID: string, fallbackZone: string)
  {
    function AgencyIDFor(stopID: string): string {
      if stopID in byStopID && byStopID[stopID] != "" then byStopID[stopID] else fallbackAgencyID
    }

    function LocationFor(stopID: string): string {
      var a := AgencyIDFor(stopID);
      if a in locations then locations[a] else fallbackZone
    }
  }

  datatype AgencyGroup = AgencyGroup(agencyID: string, zone: string, stopIDs: set<string>)

  /** The same request for one stop alone. */
  function SingleRequest(index: StopAgencyIndex, w: Window, stopID: string): Request {
    Request(stopID, index.AgencyIDFor(stopID), index.LocationFor(stopID), w.queryTime, w.before, w.after)
  }

  function GroupRequest(g: AgencyGroup, w: Window): Request {
    Request("", g.agencyID, g.zone, w.queryTime, w.before, w.after)
  }

  /** Each stop is in the group of its agency, each agency has one group, and groups carry its zone. */
  ghost predicate GroupsStops(groups: seq<AgencyGroup>, stops: seq<string>, index: StopAgencyIndex) {
    && (forall i, j :: 0 <= i < j < |groups| ==> groups[i].agencyID != groups[j].agencyID)
    && (forall i, s :: 0 <= i < |groups| && s in groups[i].stopIDs ==>
          s in stops && index.AgencyIDFor(s) == groups[i].agencyID && index.LocationFor(s) == groups[i].zone)
    && (forall s :: s in stops ==> exists i :: 0 <= i < |groups| && s in groups[i].stopIDs)
    && (forall i :: 0 <= i < |groups| ==> groups[i].stopIDs != {})
  }

  lemma JoinsGroup(groups: seq<AgencyGroup>, stops: seq<string>, index: StopAgencyIndex, s: string, k: nat)
    requires GroupsStops(groups, stops, index) && k < |groups| && groups[k].agencyID == index.AgencyIDFor(s)
    ensures GroupsStops(groups[k := groups[k].(stopIDs := groups[k].stopIDs + {s})], stops + [s], index)
  {
    var next := groups[k := groups[k].(stopIDs := groups[k].stopIDs + {s})];
    var t :| t in groups[k].stopIDs;
    assert index.LocationFor(t) == index.LocationFor(s);
    forall x | x in stops + [s] ensures exists i :: 0 <= i < |next| && x in next[i].stopIDs {
      if x == s {
        assert x in next[k].stopIDs;
      } else {
        var i :| 0 <= i < |groups| && x in groups[i].stopIDs;
        assert x in next[i].stopIDs;
      }
    }
  }

  lemma OpensGroup(groups: seq<AgencyGroup>, stops: seq<string>, index: StopAgencyIndex, s: string)
    requires GroupsStops(groups, stops, index)
    requires forall i :: 0 <= i < |groups| ==> groups[i].agencyID != index.AgencyIDFor(s)
    ensures GroupsStops(groups + [AgencyGroup(index.AgencyIDFor(s), index.LocationFor(s), {s})], stops + [s], index)
  {
    var next := groups + [AgencyGroup(index.AgencyIDFor(s), index.LocationFor(s), {s})];
    forall x | x in stops + [s] ensures exists i :: 0 <= i < |next| && x in next[i].stopIDs {
      if x == s {
        assert x in next[|groups|].stopIDs;
      } else {
        var i :| 0 <= i < |groups| && x in groups[i].stopIDs;
        assert x in next[i].stopIDs;
      }
    }
  }

  /** The position of each agency's group. */
  ghost predicate IndexesGroups(groupIndex: map<string, nat>, groups: seq<AgencyGroup>) {
    && (forall a :: a in groupIndex ==> groupIndex[a] < |groups| && groups[groupIndex[a]].agencyID == a)
    && forall i :: 0 <= i < |groups| ==> groups[i].agencyID in groupIndex
  }

  method GroupStopsByAgency(stops: seq<string>, index: StopAgencyIndex) returns (groups: seq<AgencyGroup>)
    ensures GroupsStops(groups, stops, index)
  {
    groups := [];
    var groupIndex: map<string, nat> := map[];
    for n := 0 to |stops|
      invariant GroupsStops(groups, stops[..n], index)
      invariant IndexesGroups(groupIndex, groups)
    {
      var s := stops[n];
      var agencyID := index.AgencyIDFor(s);
      assert stops[..n + 1] == stops[..n] + [s];
      if agencyID in groupIndex {
        var k := groupIndex[agencyID];
        JoinsGroup(groups, stops[..n], index, s, k);
        groups := groups[k := groups[k].(stopIDs := groups[k].stopIDs + {s})];
      } else {
        OpensGroup(groups, stops[..n], index, s);
        groupIndex := groupIndex[agencyID := |groups|];
        groups := groups + [AgencyGroup(agencyID, index.LocationFor(s), {s})];
      }
    }
    assert stops[..|stops|] == stops;
  }

  /** Rows of an active service, without regard to the route's agency. */
  function Runs(active: set<string>): Row -> bool {
    (r: Row) => r.serviceID in active
  }

  function GroupDayRows(c: Clock, db: Database, w: Window, g: AgencyGroup, dayOffset: int): seq<Active> {
    var req := GroupRequest(g, w);
    var date := DateAt(c, req, g.zone, dayOffset);
    if Until(c, req, g.zone, date) < 0 then []
    else
      Map(On(date, g.zone),
          Filter(Runs(db.active(date)),
                 Filter(WindowRows(g.stopIDs, From(c, req, g.zone, date), Until(c, req, g.zone, date)), db.rows)))
  }

  /** The first n of the three days, from yesterday on. */
  function FirstDays(c: Clock, db: Database, w: Window, g: AgencyGroup, n: nat): seq<Active> {
    if n == 0 then [] else FirstDays(c, db, w, g, n - 1) + GroupDayRows(c, db, w, g, n - 2)
  }

  function GroupRows(c: Clock, db: Database, w: Window, g: AgencyGroup): seq<Active> {
    FirstDays(c, db, w, g, 3)
  }

  function RowsOf(c: Clock, db: Database, w: Window): AgencyGroup -> seq<Active> {
    g => GroupRows(c, db, w, g)
  }

  /** Groups in first-seen order, days in order within a group. */
  function BatchedRows(rowsOf: AgencyGroup -> seq<Active>, groups: seq<AgencyGroup>): seq<Active> {
    Flatten(Map(rowsOf, groups))
  }

  lemma BatchedNext(rowsOf: AgencyGroup -> seq<Active>, groups: seq<AgencyGroup>, i: nat)
    requires i < |groups|
    ensures BatchedRows(rowsOf, groups[..i + 1]) == BatchedRows(rowsOf, groups[..i]) + rowsOf(groups[i])
  {
    assert Map(rowsOf, groups[..i + 1]) == Map(rowsOf, groups[..i]) + [rowsOf(groups[i])];
    FlattenSnoc(Map(rowsOf, groups[..i]), rowsOf(groups[i]));
  }

  datatype Services = Fatal | Skipped | Known(ids: set<string>)

  /** Active services by date, shared by the groups. */
  ghost predicate Remembers(activeByDate: map<int, set<string>>, db: Database) {
    forall d :: d in activeByDate ==> activeByDate[d] == db.active(d)
  }

  method ActiveServicesForDate(db: Database, agencyID: string, date: int, dayOffset: int,
                               activeByDate: map<int, set<string>>,
                               failing: set<(string, int)>) returns (r: Services, activeByDate': map<int, set<string>>)
    requires Remembers(activeByDate, db)
    ensures Remembers(activeByDate', db)
    ensures r.Known? ==> r.ids == db.active(date)
    ensures !r.Known? ==> date !in activeByDate && (agencyID, dayOffset) in failing
    ensures r.Fatal? <==> !r.Known? && dayOffset == 0
  {
    activeByDate' := activeByDate;
    if date in activeByDate { return Known(activeByDate[date]), activeByDate; }
    if (agencyID, dayOffset) in failing {
      return (if dayOffset == 0 then Fatal else Skipped), activeByDate;
    }
    r, activeByDate' := Known(db.active(date)), activeByDate[date := db.active(date)];
  }

  lemma NoServicesNoGroupRows(c: Clock, db: Database, w: Window, g: AgencyGroup, dayOffset: int)
    requires db.active(DateAt(c, GroupRequest(g, w), g.zone, dayOffset)) == {}
    ensures GroupDayRows(c, db, w, g, dayOffset) == []
  {
    var req, date := GroupRequest(g, w), DateAt(c, GroupRequest(g, w), g.zone, dayOffset);
    var window := WindowRows(g.stopIDs, From(c, req, g.zone, date), Until(c, req, g.zone, date));
    FilterNone(Runs(db.active(date)), Filter(window, db.rows));
  }

  /** One group's day: its rows, or nothing when a query fails; today's services are required, and a
      cancelled context ends the request. */
  method BatchedStopTimesForDay(c: Clock, db: Database, w: Window, g: AgencyGroup, dayOffset: int,
                                activeByDate: map<int, set<string>>, faults: Faults)
    returns (r: Option<seq<Active>>, activeByDate': map<int, set<string>>)
    requires Remembers(activeByDate, db)
    ensures Remembers(activeByDate', db)
    ensures (g.agencyID, dayOffset) in faults.cancelled ==> r.None?
    ensures r.None? ==> (g.agencyID, dayOffset) in faults.cancelled
                        || (dayOffset == 0 && (g.agencyID, 0) in faults.services)
    ensures r.Some? ==> r.value == GroupDayRows(c, db, w, g, dayOffset)
                        || (r.value == [] && (g.agencyID, dayOffset) in faults.services + faults.windows)
  {
    if (g.agencyID, dayOffset) in faults.cancelled { return None, activeByDate; }
    var date := c.dateOf(g.zone, w.queryTime) + dayOffset;
    var start := c.startOf(g.zone, date);
    var services;
    services, activeByDate' := ActiveServicesForDate(db, g.agencyID, date, dayOffset, activeByDate, faults.services);
    if services.Fatal? { return None, activeByDate'; }
    if services.Skipped? { return Some([]), activeByDate'; }
    if services.ids == {} {
      NoServicesNoGroupRows(c, db, w, g, dayOffset);
      return Some([]), activeByDate';
    }
    var from, until := w.queryTime - w.before - start, w.queryTime + w.after - start;
    if until < 0 { return Some([]), activeByDate'; }
    if (g.agencyID, dayOffset) in faults.windows { return Some([]), activeByDate'; }
    var found := Filter(WindowRows(g.stopIDs, from, until), db.rows);
    var rows := KeepRows(found, Runs(services.ids), date, g.zone);
    r := Some(rows);
  }

  predicate MayFail(g: AgencyGroup, faults: Faults) {
    !faults.LiveFor(g.agencyID, 3) || (g.agencyID, 0) in faults.services
  }

  method BatchedGroup(c: Clock, db: Database, w: Window, g: AgencyGroup, activeByDate: map<int, set<string>>,
                      faults: Faults)
    returns (r: Option<seq<Active>>, activeByDate': map<int, set<string>>)
    requires Remembers(activeByDate, db)
    ensures Remembers(activeByDate', db)
    ensures r.None? ==> MayFail(g, faults)
    ensures r.Some? ==> faults.LiveFor(g.agencyID, 3)
    ensures r.Some? ==> multiset(r.value) <= multiset(GroupRows(c, db, w, g))
    ensures r.Some? && faults == NO_FAULTS ==> r.value == GroupRows(c, db, w, g)
  {
    var rows: seq<Active> := [];
    activeByDate' := activeByDate;
    for n := 0 to 3
      invariant Remembers(activeByDate', db)
      invariant faults.LiveFor(g.agencyID, n)
      invariant multiset(rows) <= multiset(FirstDays(c, db, w, g, n))
      invariant faults == NO_FAULTS ==> rows == FirstDays(c, db, w, g, n)
    {
      var day;
      day, activeByDate' := BatchedStopTimesForDay(c, db, w, g, n - 1, activeByDate', faults);
      if day.None? { return None, activeByDate'; }
      rows := rows + day.value;
    }
    r := Some(rows);
  }

  lemma AppendsPart(a: seq<Active>, b: seq<Active>, wholeA: seq<Active>, wholeB: seq<Active>)
    requires multiset(a) <= multiset(wholeA) && multiset(b) <= multiset(wholeB)
    ensures multiset(a + b) <= multiset(wholeA + wholeB)
  {
  }

  /** What has been collected from the first n groups. */
  ghost predicate BatchedSoFar(all: seq<Active>, rowsOf: AgencyGroup -> seq<Active>, groups: seq<AgencyGroup>, n: nat,
                               faults: Faults)
    requires n <= |groups|
  {
    && multiset(all) <= multiset(BatchedRows(rowsOf, groups[..n]))
    && (faults == NO_FAULTS ==> all == BatchedRows(rowsOf, groups[..n]))
    && forall j :: 0 <= j < n ==> faults.LiveFor(groups[j].agencyID, 3)
  }

  lemma BatchedStep(all: seq<Active>, rows: seq<Active>, rowsOf: AgencyGroup -> seq<Active>, groups: seq<AgencyGroup>,
                    n: nat, faults: Faults)
    requires n < |groups| && BatchedSoFar(all, rowsOf, groups, n, faults) && faults.LiveFor(groups[n].agencyID, 3)
    requires multiset(rows) <= multiset(rowsOf(groups[n])) && (faults == NO_FAULTS ==> rows == rowsOf(groups[n]))
    ensures BatchedSoFar(all + rows, rowsOf, groups, n + 1, faults)
  {
    BatchedNext(rowsOf, groups, n);
    AppendsPart(all, rows, BatchedRows(rowsOf, groups[..n]), rowsOf(groups[n]));
  }

  /** The batched pass. A failing query yields a subset of the rows, and is fatal only for some group's
      current day; a cancellation in any group is fatal. */
  method LoadBatchedStopTimes(c: Clock, db: Database, w: Window, groups: seq<AgencyGroup>, faults: Faults)
    returns (r: Option<seq<Active>>)
    ensures r.None? ==> exists i :: 0 <= i < |groups| && MayFail(groups[i], faults)
    ensures r.Some? ==> forall i :: 0 <= i < |groups| ==> faults.LiveFor(groups[i].agencyID, 3)
    ensures r.Some? ==> multiset(r.value) <= multiset(BatchedRows(RowsOf(c, db, w), groups))
    ensures faults == NO_FAULTS ==> r == Some(BatchedRows(RowsOf(c, db, w), groups))
  {
    var all: seq<Active>, activeByDate: map<int, set<string>> := [], map[];
    ghost var rowsOf := RowsOf(c, db, w);
    assert groups[..0] == [] && groups[..|groups|] == groups;
    for i := 0 to |groups|
      invariant Remembers(activeByDate, db)
      invariant BatchedSoFar(all, rowsOf, groups, i, faults)
    {
      var rows;
      rows, activeByDate := BatchedGroup(c, db, w, groups[i], activeByDate, faults);
      if rows.None? {
        assert MayFail(groups[i], faults);
        return None;
      }
      BatchedStep(all, rows.value, rowsOf, groups, i, faults);
      all := all + rows.value;
    }
    r := Some(all);
  }

  /** The zone of the agency that owns the stop, the fallback agency for a stop without one, and the
      fallback zone for an agency without one. */
  predicate IsZoneOfStop(index: StopAgencyIndex, stopID: string, zone: string) {
    var owned := stopID in index.byStopID && index.byStopID[stopID] != "";
    if owned && index.byStopID[stopID] in index.locations then zone == index.locations[index.byStopID[stopID]]
    else if !owned && index.fallbackAgencyID in index.locations then zone == index.locations[index.fallbackAgencyID]
    else zone == index.fallbackZone
  }

  /** What the batched pass wants of a stop: judged in the zone of the stop's own agency. */
  predicate BatchWanted(c: Clock, db: Database, w: Window, index: StopAgencyIndex, a: Active) {
    IsZoneOfStop(index, a.row.stopID, a.zone) && Due(c, db, w, a.row, a.date, a.zone)
  }

  lemma GroupDayCount(c: Clock, db: Database, w: Window, g: AgencyGroup, dayOffset: int, a: Active)
    ensures var req, date := GroupRequest(g, w), DateAt(c, GroupRequest(g, w), g.zone, dayOffset);
      multiset(GroupDayRows(c, db, w, g, dayOffset))[a]
      == if a.date == date && a.zone == g.zone && a.row.stopID in g.stopIDs && DueOn(c, db, w, a.row, date, g.zone)
         then multiset(db.rows)[a.row] else 0
  {
    var req := GroupRequest(g, w);
    var date := DateAt(c, req, g.zone, dayOffset);
    InWindowMeans(c, req, a.row, date, g.zone);
    if Until(c, req, g.zone, date) >= 0 {
      var window := WindowRows(g.stopIDs, From(c, req, g.zone, date), Until(c, req, g.zone, date));
      FilterCount(window, db.rows, a.row);
      FilterCount(Runs(db.active(date)), Filter(window, db.rows), a.row);
      MapCount(date, g.zone, Filter(Runs(db.active(date)), Filter(window, db.rows)), a);
    }
  }

  lemma CountOfThree<T>(a: seq<T>, b: seq<T>, c: seq<T>, x: T)
    ensures multiset([] + a + b + c)[x] == multiset(a)[x] + multiset(b)[x] + multiset(c)[x]
  {
    assert [] + a == a;
  }

  lemma ZoneOfStop(index: StopAgencyIndex, stopID: string, zone: string)
    ensures IsZoneOfStop(index, stopID, zone) <==> zone == index.LocationFor(stopID)
  {
  }

  lemma GroupRowsCount(c: Clock, db: Database, w: Window, g: AgencyGroup, index: StopAgencyIndex, a: Active)
    requires forall s :: s in g.stopIDs ==> index.LocationFor(s) == g.zone
    ensures multiset(GroupRows(c, db, w, g))[a]
            == if a.row.stopID in g.stopIDs && BatchWanted(c, db, w, index, a) then multiset(db.rows)[a.row] else 0
  {
    GroupDayCount(c, db, w, g, -1, a);
    GroupDayCount(c, db, w, g, 0, a);
    GroupDayCount(c, db, w, g, 1, a);
    assert FirstDays(c, db, w, g, 0) == [];
    assert FirstDays(c, db, w, g, 1) == [] + GroupDayRows(c, db, w, g, -1);
    assert FirstDays(c, db, w, g, 2) == FirstDays(c, db, w, g, 1) + GroupDayRows(c, db, w, g, 0);
    CountOfThree(GroupDayRows(c, db, w, g, -1), GroupDayRows(c, db, w, g, 0), GroupDayRows(c, db, w, g, 1), a);
    ZoneOfStop(index, a.row.stopID, a.zone);
  }

  function GroupAgencies(groups: seq<AgencyGroup>): seq<string> {
    seq(|groups|, i requires 0 <= i < |groups| => groups[i].agencyID)
  }

  lemma AgencyHasGroup(groups: seq<AgencyGroup>, stops: seq<string>, index: StopAgencyIndex, stop: string)
    requires GroupsStops(groups, stops, index) && stop in stops
    ensures index.AgencyIDFor(stop) in GroupAgencies(groups)
  {
    var i :| 0 <= i < |groups| && stop in groups[i].stopIDs;
    assert GroupAgencies(groups)[i] == index.AgencyIDFor(stop);
  }

  /** How often the batched pass should collect the row. */
  ghost function BatchCount(c: Clock, db: Database, w: Window, stops: seq<string>, index: StopAgencyIndex,
                            a: Active): nat
  {
    if a.row.stopID in stops && BatchWanted(c, db, w, index, a) then multiset(db.rows)[a.row] else 0
  }

  lemma GroupShare(c: Clock, db: Database, w: Window, stops: seq<string>, index: StopAgencyIndex,
                   groups: seq<AgencyGroup>,
                   a: Active, i: nat)
    requires GroupsStops(groups, stops, index) && i < |groups|
    ensures multiset(GroupRows(c, db, w, groups[i]))[a]
            == if groups[i].agencyID == index.AgencyIDFor(a.row.stopID)
               then BatchCount(c, db, w, stops, index, a) else 0
  {
    GroupRowsCount(c, db, w, groups[i], index, a);
  }

  /** Without a failing query the batched pass collects each stop time of a requested stop once for
      each date on which it is due in the zone of the stop's agency. */
  lemma BatchedExactlyOnce(c: Clock, db: Database, w: Window, stops: seq<string>, index: StopAgencyIndex,
                           groups: seq<AgencyGroup>, a: Active)
    requires GroupsStops(groups, stops, index)
    ensures multiset(BatchedRows(RowsOf(c, db, w), groups))[a]
            == if a.row.stopID in stops && BatchWanted(c, db, w, index, a) then multiset(db.rows)[a.row] else 0
  {
    var agencyID, n := index.AgencyIDFor(a.row.stopID), BatchCount(c, db, w, stops, index, a);
    var parts, keys := Map(RowsOf(c, db, w), groups), GroupAgencies(groups);
    forall i | 0 <= i < |parts| ensures multiset(parts[i])[a] == if keys[i] == agencyID then n else 0 {
      GroupShare(c, db, w, stops, index, groups, a, i);
    }
    CountInParts(parts, keys, a, agencyID, n);
    if a.row.stopID in stops { AgencyHasGroup(groups, stops, index, a.row.stopID); }
  }

  /** Every stop time at the stop belongs to an agency in the zone of the stop's own agency. */
  ghost predicate SharesZone(db: Database, req: Request) {
    forall r :: r in db.rows && r.stopID == req.stopID ==> ZoneOfRow(db, req, r) == Some(req.zone)
  }

  /** When all serving agencies exist and share the stop's zone, the batched pass selects for the stop
      exactly the rows the single-stop pass selects. */
  lemma BatchedEqualsSingle(c: Clock, db: Database, w: Window, stops: seq<string>, index: StopAgencyIndex,
                            groups: seq<AgencyGroup>, a: Active)
    requires GroupsStops(groups, stops, index) && a.row.stopID in stops && a.row in db.rows
    requires !DiscoveryFails(db, SingleRequest(index, w, a.row.stopID), NO_FAULTS)
    requires SharesZone(db, SingleRequest(index, w, a.row.stopID))
    ensures var single := Collected(c, db, SingleRequest(index, w, a.row.stopID), NO_FAULTS);
      single.Some? && multiset(BatchedRows(RowsOf(c, db, w), groups))[a] == multiset(single.value)[a]
  {
    CollectedWithoutFaults(c, db, SingleRequest(index, w, a.row.stopID), a);
    BatchedExactlyOnce(c, db, w, stops, index, groups, a);
  }

  ghost predicate SameCount(c: Clock, db: Database, w: Window, index: StopAgencyIndex, groups: seq<AgencyGroup>,
                            a: Active)
  {
    var single := Collected(c, db, SingleRequest(index, w, a.row.stopID), NO_FAULTS);
    single.Some? && multiset(BatchedRows(RowsOf(c, db, w), groups))[a] == multiset(single.value)[a]
  }

  lemma SameCountIff(c: Clock, db: Database, w: Window, stops: seq<string>, index: StopAgencyIndex,
                     groups: seq<AgencyGroup>, a: Active)
    requires GroupsStops(groups, stops, index) && a.row.stopID in stops && a.row in db.rows
    requires !DiscoveryFails(db, SingleRequest(index, w, a.row.stopID), NO_FAULTS)
    ensures var req := SingleRequest(index, w, a.row.stopID);
      SameCount(c, db, w, index, groups, a)
      <==> (Due(c, db, w, a.row, a.date, a.zone) ==>
            (ZoneOfRow(db, req, a.row) == Some(a.zone) <==> req.zone == a.zone))
  {
    CollectedWithoutFaults(c, db, SingleRequest(index, w, a.row.stopID), a);
    BatchedExactlyOnce(c, db, w, stops, index, groups, a);
    assert multiset(db.rows)[a.row] > 0;
  }

  /** Every row of the stop that is due, on some date, in its own agency's zone or in the stop's zone
      has an agency in the stop's zone. */
  ghost predicate DueRowsShareZone(c: Clock, db: Database, w: Window, req: Request) {
    forall r, date, zone {:trigger Due(c, db, w, r, date, zone)} ::
      r in db.rows && r.stopID == req.stopID && Due(c, db, w, r, date, zone) && zone in OwnZones(db, req, r) ==>
        ZoneOfRow(db, req, r) == Some(req.zone)
  }

  function OwnZones(db: Database, req: Request, r: Row): set<string> {
    var own := ZoneOfRow(db, req, r);
    {req.zone} + if own.Some? then {own.value} else {}
  }

  /** In general the two passes agree on all stop times and days of a stop exactly when its rows that
      are due, in their own agency's zone or in the stop's, have an agency in the stop's zone. */
  lemma PassesAgreeExactly(c: Clock, db: Database, w: Window, stops: seq<string>, index: StopAgencyIndex,
                           groups: seq<AgencyGroup>, stopID: string)
    requires GroupsStops(groups, stops, index) && stopID in stops
    requires !DiscoveryFails(db, SingleRequest(index, w, stopID), NO_FAULTS)
    ensures (forall a: Active :: a.row in db.rows && a.row.stopID == stopID ==> SameCount(c, db, w, index, groups, a))
            <==> DueRowsShareZone(c, db, w, SingleRequest(index, w, stopID))
  {
    var req := SingleRequest(index, w, stopID);
    if DueRowsShareZone(c, db, w, req) {
      forall a: Active | a.row in db.rows && a.row.stopID == stopID ensures SameCount(c, db, w, index, groups, a) {
        SameCountIff(c, db, w, stops, index, groups, a);
      }
    } else {
      var r, date, zone :| r in db.rows && r.stopID == req.stopID && Due(c, db, w, r, date, zone)
                           && zone in OwnZones(db, req, r)
                           && ZoneOfRow(db, req, r) != Some(req.zone);
      SameCountIff(c, db, w, stops, index, groups, Active(r, date, zone));
    }
  }

  /* ---------- Where the passes differ ---------- */

  const ROW_AT_X := Row("t", "x", 1, 0, 0, "r", "s")

  /** Route "r" of agency "b", in zone "B", calls at stop "x". */
  function TwoZones(): Database {
    Database([ROW_AT_X], map["r" := "b"], map["a" := Some("A"), "b" := Some("B")], date => {"s"})
  }

  /** But the stop is attributed to agency "a", in zone "A". */
  function OwnedByA(): StopAgencyIndex {
    StopAgencyIndex(map["x" := "a"], map["a" := "A"], "", "")
  }

  function DayZero(): Clock {
    Clock((zone, instant) => 0, (zone, date) => 0)
  }

  lemma TwoZonesRequest()
    ensures SingleRequest(OwnedByA(), Window(0, 10, 10), "x") == Request("x", "a", "A", 0, 10, 10)
  {
  }

  lemma TwoZonesRoutes()
    ensures RoutesForStop(TwoZones(), "x") == map["r" := "b"]
  {
    assert ROW_AT_X in TwoZones().rows;
  }

  lemma TwoZonesReadable()
    ensures !DiscoveryFails(TwoZones(), Request("x", "a", "A", 0, 10, 10), NO_FAULTS)
  {
    var db, req := TwoZones(), Request("x", "a", "A", 0, 10, 10);
    TwoZonesRoutes();
    assert !NO_FAULTS.routes;
    forall agency | agency in ServingAgencies(db, req) && agency != req.agencyID
      ensures !Unreadable(db, NO_FAULTS, agency)
    {
      assert agency in RoutesForStop(db, "x").Values;
      assert agency == "b";
      AgencyBIsReadable();
    }
  }

  lemma AgencyBIsReadable()
    ensures !Unreadable(TwoZones(), NO_FAULTS, "b")
  {
    assert TwoZones().agencies["b"] == Some("B");
  }

  lemma RowIsInZoneB()
    ensures ZoneOfRow(TwoZones(), Request("x", "a", "A", 0, 10, 10), ROW_AT_X) == Some("B")
  {
    assert "a"[0] != "b"[0];
  }

  lemma RowIsDue()
    ensures Due(DayZero(), TwoZones(), Window(0, 10, 10), ROW_AT_X, 0, "B")
  {
  }

  /** The single-stop pass collects the row in its agency's zone, the batched pass in the stop's zone. */
  lemma PassesCanDiffer()
    ensures var groups := [AgencyGroup("a", "A", {"x"})];
      && GroupsStops(groups, ["x"], OwnedByA())
      && !SameCount(DayZero(), TwoZones(), Window(0, 10, 10), OwnedByA(), groups, Active(ROW_AT_X, 0, "B"))
  {
    TwoZonesRequest();
    TwoZonesReadable();
    RowIsInZoneB();
    RowIsDue();
    assert "A"[0] != "B"[0];
    assert ROW_AT_X in TwoZones().rows;
    var groups := [AgencyGroup("a", "A", {"x"})];
    assert groups[0].stopIDs == {"x"};
    SameCountIff(DayZero(), TwoZones(), Window(0, 10, 10), ["x"], OwnedByA(), groups, Active(ROW_AT_X, 0, "B"));
  }
}
