/** What an import stores, told in the feed's own records: each row field by field, each exception by
    the date lists of its service, and which feeds pass (gtfsdb/helpers.go, gtfsdb/schema.sql). */
module ImportedRows {
  import opened Collections
  import opened GtfsFeed
  import opened BlockIndex
  import opened BlockTables
  import opened StaticImport
  import opened ServiceCalendar

  /* ---------- The base tables, field by field ---------- */

  /** A table knows the keys of its rows and holds the last row of each. */
  lemma {:induction false} PutRow<K, V>(keyOf: V -> K, rows: seq<V>, k: K)
    ensures k in Put(keyOf, map[], rows) <==> exists i :: 0 <= i < |rows| && keyOf(rows[i]) == k
    ensures k in Put(keyOf, map[], rows) ==>
              exists i :: 0 <= i < |rows| && keyOf(rows[i]) == k && Put(keyOf, map[], rows)[k] == rows[i]
                          && forall j :: i < j < |rows| ==> keyOf(rows[j]) != k
  {
    PutKeys(keyOf, rows, k);
    if rows != [] {
      var last := |rows| - 1;
      PutRow(keyOf, rows[..last], k);
      if keyOf(rows[last]) == k {
        assert Put(keyOf, map[], rows)[k] == rows[last];
      } else if k in Put(keyOf, map[], rows) {
        var i :| 0 <= i < last && keyOf(rows[..last][i]) == k && Put(keyOf, map[], rows[..last])[k] == rows[..last][i]
                 && forall j :: i < j < last ==> keyOf(rows[..last][j]) != k;
        assert rows[i] == rows[..last][i];
        assert forall j :: i < j < last ==> rows[..last][j] == rows[j];
      }
    }
  }

  /** The i-th agency is the one stored under its ID. */
  ghost predicate LastAgency(f: Feed, i: int) {
    0 <= i < |f.agencies| && forall j :: i < j < |f.agencies| ==> f.agencies[j].id != f.agencies[i].id
  }

  lemma AgencyStored(t: Tables, f: Feed, id: string)
    requires DerivedFrom(t, f)
    ensures id in t.agencies <==> exists i :: LastAgency(f, i) && f.agencies[i].id == id
    ensures id in t.agencies ==>
              exists i :: LastAgency(f, i) && f.agencies[i].id == id && t.agencies[id] == f.agencies[i]
  {
    PutRow(AgencyKey(), f.agencies, id);
    assert forall i :: 0 <= i < |f.agencies| ==> AgencyKey()(f.agencies[i]) == f.agencies[i].id;
  }

  ghost predicate LastRoute(f: Feed, i: int) {
    0 <= i < |f.routes| && forall j :: i < j < |f.routes| ==> f.routes[j].id != f.routes[i].id
  }

  /** A route is stored with its own agency, or with the feed's only agency when it names none. */
  lemma RouteStored(t: Tables, f: Feed, id: string)
    requires DerivedFrom(t, f)
    ensures id in t.routes <==> exists i :: LastRoute(f, i) && f.routes[i].id == id
    ensures id in t.routes ==>
              exists i :: LastRoute(f, i) && f.routes[i].id == id
                          && t.routes[id].id == id && t.routes[id].body == f.routes[i].body
                          && t.routes[id].agencyID == OwnAgency(f, f.routes[i])
  {
    PutRow(RouteKey(), RouteRows(f), id);
    assert forall i :: 0 <= i < |f.routes| ==> RouteKey()(RouteRows(f)[i]) == f.routes[i].id;
    assert forall i :: 0 <= i < |f.routes| ==> RouteRows(f)[i].agencyID == OwnAgency(f, f.routes[i]);
  }

  function OwnAgency(f: Feed, r: Route): string {
    if r.agencyID == "" && |f.agencies| == 1 then f.agencies[0].id else r.agencyID
  }

  ghost predicate LastService(f: Feed, i: int) {
    0 <= i < |f.services| && forall j :: i < j < |f.services| ==> f.services[j].id != f.services[i].id
  }

  lemma CalendarRowStored(f: Feed, id: string)
    ensures id in CalendarTable(f) <==> exists i :: LastService(f, i) && f.services[i].id == id
    ensures id in CalendarTable(f) ==>
              exists i :: LastService(f, i) && f.services[i].id == id
                          && CalendarTable(f)[id] == CalendarRowOf()(f.services[i])
  {
    var rows := CalendarRows(f);
    PutRow(CalendarKey(), rows, id);
    assert forall i :: 0 <= i < |f.services| ==>
                         rows[i] == CalendarRowOf()(f.services[i]) && CalendarKey()(rows[i]) == f.services[i].id;
    if id in CalendarTable(f) {
      var i :| 0 <= i < |rows| && CalendarKey()(rows[i]) == id && CalendarTable(f)[id] == rows[i]
               && forall j :: i < j < |rows| ==> CalendarKey()(rows[j]) != id;
      assert LastService(f, i);
    }
  }

  lemma ServiceStored(t: Tables, f: Feed, id: string)
    requires DerivedFrom(t, f)
    ensures id in t.calendar <==> exists i :: LastService(f, i) && f.services[i].id == id
    ensures id in t.calendar ==>
              exists i :: LastService(f, i) && f.services[i].id == id
                          && t.calendar[id].id == id && t.calendar[id].days == f.services[i].days
                          && t.calendar[id].startDate == f.services[i].startDate
                          && t.calendar[id].endDate == f.services[i].endDate
  {
    CalendarRowStored(f, id);
  }

  ghost predicate LastTrip(f: Feed, i: int) {
    0 <= i < |f.trips| && forall j :: i < j < |f.trips| ==> f.trips[j].id != f.trips[i].id
  }

  lemma TripRowStored(f: Feed, id: string)
    ensures id in TripTable(f) <==> exists i :: LastTrip(f, i) && f.trips[i].id == id
    ensures id in TripTable(f) ==>
              exists i :: LastTrip(f, i) && f.trips[i].id == id && TripTable(f)[id] == TripRowOf()(f.trips[i])
  {
    var rows := TripRows(f);
    PutRow(TripRowKey(), rows, id);
    assert forall i :: 0 <= i < |f.trips| ==>
                         rows[i] == TripRowOf()(f.trips[i]) && TripRowKey()(rows[i]) == f.trips[i].id;
    if id in TripTable(f) {
      var i :| 0 <= i < |rows| && TripRowKey()(rows[i]) == id && TripTable(f)[id] == rows[i]
               && forall j :: i < j < |rows| ==> TripRowKey()(rows[j]) != id;
      assert LastTrip(f, i);
    }
  }

  lemma TripStored(t: Tables, f: Feed, id: string)
    requires DerivedFrom(t, f)
    ensures id in t.trips <==> exists i :: LastTrip(f, i) && f.trips[i].id == id
    ensures id in t.trips ==>
              exists i :: LastTrip(f, i) && f.trips[i].id == id
                          && t.trips[id].id == id && t.trips[id].routeID == f.trips[i].routeID
                          && t.trips[id].serviceID == f.trips[i].serviceID
                          && t.trips[id].blockID == f.trips[i].blockID && t.trips[id].body == f.trips[i].body
  {
    TripRowStored(f, id);
    assert t.trips == UpdateTripTimeBounds(TripTable(f), StopTimeTable(f));
  }

  lemma StopStored(t: Tables, f: Feed, id: string)
    requires DerivedFrom(t, f)
    ensures id in t.stops <==> exists i: nat :: IsStored(f.stops, i) && f.stops[i].id == id
    ensures id in t.stops ==> exists i: nat :: IsStored(f.stops, i) && f.stops[i].id == id && t.stops[id] == f.stops[i]
  {
    StopIsInTable(f.stops, id);
    if HasStop(f.stops, id) {
      var i := LastStop(f.stops, id);
      StoredStop(f.stops, i);
    }
    forall i: nat | IsStored(f.stops, i) && f.stops[i].id == id ensures id in t.stops { StoredStop(f.stops, i); }
  }

  lemma DistinctRowStored<K, V(!new)>(keyOf: V -> K, rows: seq<V>, row: V)
    requires DistinctKeys(keyOf, rows) && row in rows
    ensures keyOf(row) in Put(keyOf, map[], rows) && Put(keyOf, map[], rows)[keyOf(row)] == row
  {
    var i :| 0 <= i < |rows| && rows[i] == row;
    PutFinds(keyOf, rows, i);
  }

  /** The stored stop times are those of the feed, each under its trip and sequence number, with the
      stop and the two times it has there. */
  lemma StopTimeStored(t: Tables, f: Feed, row: StopTimeRow)
    requires DerivedFrom(t, f)
    ensures (row.tripID, row.sequence) in t.stopTimes && t.stopTimes[(row.tripID, row.sequence)] == row
            <==> exists trip, st :: trip in f.trips && st in trip.stopTimes && HoldsStopTime(row, trip.id, st)
  {
    var rows, k := StopTimeRows(f), (row.tripID, row.sequence);
    RowOfTrip(f, row);
    PutKeys(StopTimeKey(), rows, k);
    if row in rows { DistinctRowStored(StopTimeKey(), rows, row); }
    assert forall trip, st :: trip in f.trips && st in trip.stopTimes ==>
        (HoldsStopTime(row, trip.id, st) <==> row == StopTimeRowOf(trip.id)(st));
  }

  /* ---------- Service days, by the date lists of the services ---------- */

  /** A removed date is stored with type 2, whether or not it is also added; any other added date with
      type 1; and no other date of the service is stored. */
  lemma ExceptionStored(t: Tables, f: Feed, s: Service, d: int)
    requires DerivedFrom(t, f) && DistinctServices(f.services) && s in f.services
    ensures d in s.removedDates ==>
              (s.id, d) in t.calendarDates && t.calendarDates[(s.id, d)] == ExceptionRow(s.id, d, 2)
    ensures d in s.addedDates && d !in s.removedDates ==>
              (s.id, d) in t.calendarDates && t.calendarDates[(s.id, d)] == ExceptionRow(s.id, d, 1)
    ensures (s.id, d) in t.calendarDates ==> d in s.addedDates || d in s.removedDates
  {
    ExceptionsHoldDates(f.services, s, d);
  }

  /** With distinct IDs each service has its own calendar row. */
  lemma OwnCalendarRow(t: Tables, f: Feed, s: Service)
    requires DerivedFrom(t, f) && DistinctServices(f.services) && s in f.services
    ensures s.id in t.calendar && t.calendar[s.id] == CalendarRow(s.id, s.days, s.startDate, s.endDate)
  {
    EveryServiceHasCalendarRow(t, f, s);
    ServiceStored(t, f, s.id);
    var i :| LastService(f, i) && f.services[i].id == s.id
             && t.calendar[s.id].days == f.services[i].days && t.calendar[s.id].startDate == f.services[i].startDate
             && t.calendar[s.id].endDate == f.services[i].endDate && t.calendar[s.id].id == s.id;
    assert f.services[i] == s;
  }

  /** After an import a service runs on a date exactly when the feed says so: not on a removed date,
      on an added one, and otherwise by its weekdays within its range. The reference, the
      active-services query and the schedule query all answer this. */
  lemma ServiceRunsAsTheFeedSays(t: Tables, f: Feed, s: Service, d: int)
    requires DerivedFrom(t, f) && DistinctServices(f.services) && s in f.services
    ensures var runs := d !in s.removedDates
                        && (d in s.addedDates || (s.startDate <= d <= s.endDate && (d + 3) % 7 in s.days));
      && (RunsOn(t.calendar, t.calendarDates, s.id, d) <==> runs)
      && (s.id in ActiveServiceIDs(t.calendar, t.calendarDates, d) <==> runs)
      && (ScheduleKeeps(t.calendar, t.calendarDates, s.id, d) <==> runs)
  {
    ExceptionStored(t, f, s, d);
    OwnCalendarRow(t, f, s);
    ImportMakesCheckTotal(t, f, s, d);
    QueriesAgree(t.calendar, t.calendarDates, s.id, d);
  }

  /** A day that counts for the expiry: some service's range ends on it, or adds it without removing it. */
  ghost predicate EndsOrAdds(f: Feed, d: int) {
    exists s :: s in f.services && (s.endDate == d || (d in s.addedDates && d !in s.removedDates))
  }

  lemma ExceptionHasService(t: Tables, f: Feed, k: (string, int)) returns (s: Service)
    requires DerivedFrom(t, f) && DistinctServices(f.services) && k in t.calendarDates
    ensures s in f.services && s.id == k.0 && HoldsDates(t.calendarDates, s, k.1)
  {
    if forall s :: s in f.services ==> s.id != k.0 { NoServiceNoException(f.services, k); }
    s :| s in f.services && s.id == k.0;
    ExceptionsHoldDates(f.services, s, k.1);
  }

  lemma CountedDayIsOfFeed(t: Tables, f: Feed, d: int)
    requires DerivedFrom(t, f) && DistinctServices(f.services) && d in ServiceDays(t.calendar, t.calendarDates)
    ensures EndsOrAdds(f, d)
  {
    if id :| id in t.calendar && t.calendar[id].endDate == d {
      ServiceStored(t, f, id);
      var i :| LastService(f, i) && f.services[i].id == id && t.calendar[id].endDate == f.services[i].endDate;
      assert f.services[i] in f.services;
    } else {
      var k :| k in t.calendarDates && t.calendarDates[k].exceptionType == 1 && t.calendarDates[k].date == d;
      var s := ExceptionHasService(t, f, k);
      assert s in f.services;
    }
  }

  lemma FeedDayIsCounted(t: Tables, f: Feed, s: Service, d: int)
    requires DerivedFrom(t, f) && DistinctServices(f.services) && s in f.services
    requires s.endDate == d || (d in s.addedDates && d !in s.removedDates)
    ensures d in ServiceDays(t.calendar, t.calendarDates)
  {
    OwnCalendarRow(t, f, s);
    ExceptionStored(t, f, s, d);
    if s.endDate == d {
      assert t.calendar[s.id].endDate == d;
    } else {
      assert t.calendarDates[(s.id, d)].date == d;
    }
  }

  lemma CountedDays(t: Tables, f: Feed, d: int)
    requires DerivedFrom(t, f) && DistinctServices(f.services)
    ensures d in ServiceDays(t.calendar, t.calendarDates) <==> EndsOrAdds(f, d)
  {
    if d in ServiceDays(t.calendar, t.calendarDates) { CountedDayIsOfFeed(t, f, d); }
    if s :| s in f.services && (s.endDate == d || (d in s.addedDates && d !in s.removedDates)) {
      FeedDayIsCounted(t, f, s, d);
    }
  }

  ghost predicate DaysOfFeed(days: set<int>, f: Feed) {
    forall d :: d in days <==> EndsOrAdds(f, d)
  }

  lemma AllCountedDays(t: Tables, f: Feed)
    requires DerivedFrom(t, f) && DistinctServices(f.services)
    ensures DaysOfFeed(ServiceDays(t.calendar, t.calendarDates), f)
  {
    forall d ensures d in ServiceDays(t.calendar, t.calendarDates) <==> EndsOrAdds(f, d) { CountedDays(t, f, d); }
  }

  /** 23:59:59 of the last day that ends or adds, and nothing when there is no such day. */
  ghost predicate IsExpiry(expiresAt: Option<int>, f: Feed) {
    if expiresAt.None? then forall d :: !EndsOrAdds(f, d)
    else exists d :: EndsOrAdds(f, d) && expiresAt.value == d * 86400 + 86399
                     && forall e :: EndsOrAdds(f, e) ==> e <= d
  }

  lemma ExpiryAsTheFeedSays(t: Tables, f: Feed)
    requires DerivedFrom(t, f) && DistinctServices(f.services)
    ensures t.metadata.Some? && IsExpiry(t.metadata.value.expiresAt, f)
  {
    ExpiryMatches(t, f);
    AllCountedDays(t, f);
    LastDayIsExpiry(ServiceDays(t.calendar, t.calendarDates), t.metadata.value.expiresAt, f);
  }

  lemma LastDayIsExpiry(days: set<int>, expires: Option<int>, f: Feed)
    requires DaysOfFeed(days, f) && IsLastSecondOf(expires, days)
    ensures IsExpiry(expires, f)
  {
    if expires.Some? {
      var d :| d in days && expires.value == (d + 1) * DAY - 1 && forall e :: e in days ==> e <= d;
      assert EndsOrAdds(f, d);
    }
  }

  /* ---------- Which feeds pass ---------- */

  ghost predicate HasAgency(f: Feed, id: string) { exists a :: a in f.agencies && a.id == id }

  ghost predicate HasRoute(f: Feed, id: string) { exists r :: r in f.routes && r.id == id }

  ghost predicate HasService(f: Feed, id: string) { exists s :: s in f.services && s.id == id }

  /** The trip and sequence number of every stop time of the feed. */
  function CallKeys(f: Feed): seq<(string, int)> {
    Flatten(Map((trip: ScheduledTrip) => Map((st: StopTime) => (trip.id, st.sequence), trip.stopTimes), f.trips))
  }

  /** The feed names only agencies, routes, services and stops it has, its ranges and calls run
      forward, and no trip has two calls with one sequence number. */
  ghost predicate FeedPasses(f: Feed) {
    && (forall r :: r in f.routes ==> HasAgency(f, OwnAgency(f, r)))
    && (forall s :: s in f.services ==> s.startDate <= s.endDate)
    && (forall trip :: trip in f.trips ==> HasRoute(f, trip.routeID) && HasService(f, trip.serviceID))
    && (forall trip, st :: trip in f.trips && st in trip.stopTimes ==>
          HasStop(f.stops, st.stopID) && st.sequence >= 0 && st.arrival <= st.departure)
    && Distinct(CallKeys(f))
  }

  lemma AllPassMap<S, T>(passes: T -> bool, rowOf: S -> T, items: seq<S>)
    ensures AllPass(passes, Map(rowOf, items)) <==> forall x :: x in items ==> passes(rowOf(x))
  {
    var rows := Map(rowOf, items);
    if AllPass(passes, rows) {
      forall x | x in items ensures passes(rowOf(x)) {
        var i :| 0 <= i < |items| && items[i] == x;
        assert passes(rows[i]);
      }
    } else {
      var i :| 0 <= i < |rows| && !passes(rows[i]);
      assert items[i] in items;
    }
  }

  lemma InTable<S, V>(keyOf: V -> string, rowOf: S -> V, idOf: S -> string, items: seq<S>, id: string)
    requires forall x :: x in items ==> keyOf(rowOf(x)) == idOf(x)
    ensures id in Put(keyOf, map[], Map(rowOf, items)) <==> exists x :: x in items && idOf(x) == id
  {
    PutKeys(keyOf, Map(rowOf, items), id);
    if x :| x in items && idOf(x) == id {
      var i :| 0 <= i < |items| && items[i] == x;
      assert keyOf(Map(rowOf, items)[i]) == id;
    }
  }

  lemma TableKeys(f: Feed, id: string)
    ensures id in AgencyTable(f) <==> HasAgency(f, id)
    ensures id in RouteTable(f) <==> HasRoute(f, id)
    ensures id in CalendarTable(f) <==> HasService(f, id)
    ensures id in TripTable(f) <==> exists trip :: trip in f.trips && trip.id == id
    ensures id in StopTable(f) <==> HasStop(f.stops, id)
  {
    PutKeys(AgencyKey(), f.agencies, id);
    InTable(RouteKey(), RouteRow(f.agencies), (r: Route) => r.id, f.routes, id);
    InTable(CalendarKey(), CalendarRowOf(), (s: Service) => s.id, f.services, id);
    InTable(TripRowKey(), TripRowOf(), (trip: ScheduledTrip) => trip.id, f.trips, id);
    StopIsInTable(f.stops, id);
  }

  lemma {:induction false} MapFlatten<S, T>(g: S -> T, parts: seq<seq<S>>)
    ensures Map(g, Flatten(parts)) == Flatten(Map((part: seq<S>) => Map(g, part), parts))
  {
    var each := (part: seq<S>) => Map(g, part);
    if parts != [] {
      MapFlatten(g, parts[1..]);
      assert Map(each, parts)[1..] == Map(each, parts[1..]);
      assert Map(g, parts[0] + Flatten(parts[1..])) == Map(g, parts[0]) + Map(g, Flatten(parts[1..]));
    }
  }

  lemma CallKeysAreRowKeys(f: Feed)
    ensures Map(StopTimeKey(), StopTimeRows(f)) == CallKeys(f)
  {
    var parts := Map(StopTimeRowsOf(), f.trips);
    MapFlatten(StopTimeKey(), parts);
    var keysOf := (trip: ScheduledTrip) => Map((st: StopTime) => (trip.id, st.sequence), trip.stopTimes);
    var each := (part: seq<StopTimeRow>) => Map(StopTimeKey(), part);
    forall i | 0 <= i < |f.trips| ensures each(parts[i]) == keysOf(f.trips[i]) {
      assert |each(parts[i])| == |keysOf(f.trips[i])|;
    }
    assert Map(each, parts) == Map(keysOf, f.trips);
  }

  lemma DistinctCalls(f: Feed)
    ensures DistinctKeys(StopTimeKey(), StopTimeRows(f)) <==> Distinct(CallKeys(f))
  {
    CallKeysAreRowKeys(f);
    var rows := StopTimeRows(f);
    assert forall i :: 0 <= i < |rows| ==> StopTimeKey()(rows[i]) == CallKeys(f)[i];
  }

  lemma CallsPass(f: Feed)
    ensures AllPass(StopTimePasses(TripTable(f), StopTable(f)), StopTimeRows(f)) <==>
              forall trip, st :: trip in f.trips && st in trip.stopTimes ==>
                HasStop(f.stops, st.stopID) && st.sequence >= 0 && st.arrival <= st.departure
  {
    var passes, rows := StopTimePasses(TripTable(f), StopTable(f)), StopTimeRows(f);
    if AllPass(passes, rows) {
      forall trip, st | trip in f.trips && st in trip.stopTimes
        ensures HasStop(f.stops, st.stopID) && st.sequence >= 0 && st.arrival <= st.departure
      {
        var row := StopTimeRowOf(trip.id)(st);
        RowOfTrip(f, row);
        var i :| 0 <= i < |rows| && rows[i] == row;
        assert passes(rows[i]);
        TableKeys(f, st.stopID);
      }
    } else {
      var i :| 0 <= i < |rows| && !passes(rows[i]);
      assert rows[i] in rows;
      RowOfTrip(f, rows[i]);
      var trip, st :| trip in f.trips && st in trip.stopTimes && rows[i] == StopTimeRowOf(trip.id)(st);
      TableKeys(f, trip.id);
      TableKeys(f, st.stopID);
    }
  }

  lemma RoutesPass(f: Feed)
    ensures AllPass(RoutePasses(AgencyTable(f)), RouteRows(f)) <==>
              forall r :: r in f.routes ==> HasAgency(f, OwnAgency(f, r))
  {
    AllPassMap(RoutePasses(AgencyTable(f)), RouteRow(f.agencies), f.routes);
    forall id ensures id in AgencyTable(f) <==> HasAgency(f, id) { TableKeys(f, id); }
    assert forall r :: r in f.routes ==> RouteRow(f.agencies)(r).agencyID == OwnAgency(f, r);
  }

  lemma ServicesPass(f: Feed)
    ensures AllPass(CalendarPasses(), CalendarRows(f)) <==> forall s :: s in f.services ==> s.startDate <= s.endDate
  {
    AllPassMap(CalendarPasses(), CalendarRowOf(), f.services);
  }

  lemma TripsPass(f: Feed)
    ensures AllPass(TripPasses(RouteTable(f), CalendarTable(f)), TripRows(f)) <==>
              forall trip :: trip in f.trips ==> HasRoute(f, trip.routeID) && HasService(f, trip.serviceID)
  {
    AllPassMap(TripPasses(RouteTable(f), CalendarTable(f)), TripRowOf(), f.trips);
    forall trip | trip in f.trips
      ensures trip.routeID in RouteTable(f) <==> HasRoute(f, trip.routeID)
      ensures trip.serviceID in CalendarTable(f) <==> HasService(f, trip.serviceID)
    {
      TableKeys(f, trip.routeID);
      TableKeys(f, trip.serviceID);
    }
  }

  lemma ExceptionsPass(f: Feed)
    ensures AllPass(ExceptionPasses(CalendarTable(f)), ExceptionRows(f))
  {
    var rows := ExceptionRows(f);
    forall i | 0 <= i < |rows| ensures rows[i].serviceID in CalendarTable(f) {
      assert rows[i] in rows;
      var s := ExceptionOfService(f.services, rows[i]);
      TableKeys(f, s.id);
    }
  }

  lemma {:induction false} ExceptionOfService(services: seq<Service>, e: ExceptionRow) returns (s: Service)
    requires e in Flatten(Map(ExceptionRowsOf(), services))
    ensures s in services && e.serviceID == s.id
  {
    var parts := Map(ExceptionRowsOf(), services);
    if e in parts[0] {
      s := services[0];
    } else {
      assert Map(ExceptionRowsOf(), services[1..]) == parts[1..];
      s := ExceptionOfService(services[1..], e);
    }
  }

  /** An undisturbed import of a new feed succeeds exactly when the feed's own records pass, no two
      block groups get one index key, and every stored stop's parent is stored. */
  lemma ImportSucceedsWhenFeedPasses(t: Tables, f: Feed, t': Tables, r: Result)
    requires !UpToDate(t, f) && ImportStep(t, f, {}, t', r)
    ensures r == Imported <==> FeedPasses(f) && !JoinedKeysCollide(f.trips) && ParentsStored(f.stops)
    ensures r != Imported ==> r == Failed && t' == t
  {
    RoutesPass(f);
    ServicesPass(f);
    TripsPass(f);
    CallsPass(f);
    DistinctCalls(f);
    ExceptionsPass(f);
    ParentsPresentIff(f);
    CollisionInTrips(f.trips);
  }
}
