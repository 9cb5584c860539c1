/** Which services run on a date: the check written in Go, the active-services query, the schedule
    join, the feed end date and the future-service query (internal/gtfs/gtfs_manager.go,
    gtfsdb/query.sql.go). Tables are those of an import; dates are day numbers. */
module ServiceCalendar {
  import opened Collections
  import opened GtfsFeed
  import opened StaticImport

  /** Day 0, the first of January 1970, was a Thursday. */
  function Weekday(date: int): DayOfWeek {
    (date + 3) % 7
  }

  /** The constraints of the exceptions table: keyed by service and date, of type 1 or 2. */
  ghost predicate KeyedDates(dates: map<(string, int), ExceptionRow>) {
    forall k :: k in dates ==> dates[k].serviceID == k.0 && dates[k].date == k.1 && 1 <= dates[k].exceptionType <= 2
  }

  predicate HasException(dates: map<(string, int), ExceptionRow>, serviceID: string, date: int, exceptionType: int) {
    (serviceID, date) in dates && dates[(serviceID, date)].exceptionType == exceptionType
  }

  /** The weekly pattern covers the date. */
  predicate RunsByPattern(calendar: map<string, CalendarRow>, serviceID: string, date: int) {
    serviceID in calendar && calendar[serviceID].startDate <= date <= calendar[serviceID].endDate
    && Weekday(date) in calendar[serviceID].days
  }

  /** What the GTFS Schedule Reference says of calendar.txt and calendar_dates.txt: an exception for
      the date decides, and otherwise the weekly pattern does. */
  predicate RunsOn(calendar: map<string, CalendarRow>, dates: map<(string, int), ExceptionRow>, serviceID: string,
                   date: int)
  {
    if (serviceID, date) in dates then dates[(serviceID, date)].exceptionType == 1
    else RunsByPattern(calendar, serviceID, date)
  }

  /* ---------- The queries ---------- */

  /** The active-services query: the pattern without the removed services, with the added ones. */
  function ActiveServiceIDs(calendar: map<string, CalendarRow>, dates: map<(string, int), ExceptionRow>,
                            date: int): set<string>
  {
    var base := set id | id in calendar && RunsByPattern(calendar, id, date);
    var removed := set k | k in dates && k.1 == date && dates[k].exceptionType == 2 :: k.0;
    var added := set k | k in dates && k.1 == date && dates[k].exceptionType == 1 :: k.0;
    (base - removed) + added
  }

  /** The schedule query's outer joins keep a trip's stop times under this condition. */
  predicate ScheduleKeeps(calendar: map<string, CalendarRow>, dates: map<(string, int), ExceptionRow>,
                          serviceID: string, date: int)
  {
    var base := RunsByPattern(calendar, serviceID, date);
    var removed, added := HasException(dates, serviceID, date, 2), HasException(dates, serviceID, date, 1);
    (base && !removed) || added
  }

  /** On every service and date the two queries and the reference agree. */
  lemma QueriesAgree(calendar: map<string, CalendarRow>, dates: map<(string, int), ExceptionRow>, serviceID: string,
                     date: int)
    requires KeyedDates(dates)
    ensures serviceID in ActiveServiceIDs(calendar, dates, date) <==> RunsOn(calendar, dates, serviceID, date)
    ensures ScheduleKeeps(calendar, dates, serviceID, date) <==> RunsOn(calendar, dates, serviceID, date)
  {
    var k := (serviceID, date);
    if k in dates {
      assert dates[k].exceptionType == 1 || dates[k].exceptionType == 2;
    }
  }

  /* ---------- The check in Go ---------- */

  datatype Check = NoCalendar | Answer(active: bool)

  /** The rows of the exceptions query for one service. */
  ghost predicate ListsExceptions(rows: seq<ExceptionRow>, dates: map<(string, int), ExceptionRow>, serviceID: string) {
    && (forall i :: 0 <= i < |rows| ==> rows[i].serviceID == serviceID && (serviceID, rows[i].date) in dates
                                        && dates[(serviceID, rows[i].date)] == rows[i])
    && forall k :: k in dates && k.0 == serviceID ==> exists i :: 0 <= i < |rows| && rows[i] == dates[k]
  }

  /** The first exception for the date decides; then the calendar row. It fails exactly on a service
      with neither, and says yes exactly when the query lists the service. */
  method IsServiceActiveOnDate(calendar: map<string, CalendarRow>, exceptions: seq<ExceptionRow>, serviceID: string,
                               date: int,
                               ghost dates: map<(string, int), ExceptionRow>) returns (r: Check)
    requires KeyedDates(dates) && ListsExceptions(exceptions, dates, serviceID)
    ensures r == NoCalendar <==> (serviceID, date) !in dates && serviceID !in calendar
    ensures r.Answer? ==> (r.active <==> RunsOn(calendar, dates, serviceID, date))
    ensures serviceID in ActiveServiceIDs(calendar, dates, date) <==> r == Answer(true)
  {
    QueriesAgree(calendar, dates, serviceID, date);
    for i := 0 to |exceptions|
      invariant forall j :: 0 <= j < i ==> exceptions[j].date != date
    {
      var e := exceptions[i];
      if e.date == date {
        return Answer(e.exceptionType == 1);
      }
    }
    assert (serviceID, date) !in dates;
    if serviceID !in calendar { return NoCalendar; }
    var row := calendar[serviceID];
    if date < row.startDate || date > row.endDate { return Answer(false); }
    r := Answer(Weekday(date) in row.days);
  }

  /** After an import every service of the feed has a calendar row and the exceptions are keyed, so
      for those services the check never fails. */
  lemma ImportMakesCheckTotal(t: Tables, f: Feed, s: Service, date: int)
    requires DerivedFrom(t, f) && s in f.services
    ensures KeyedDates(t.calendarDates)
    ensures (s.id, date) in t.calendarDates || s.id in t.calendar
  {
    EveryServiceHasCalendarRow(t, f, s);
    forall k | k in t.calendarDates
      ensures t.calendarDates[k].serviceID == k.0 && t.calendarDates[k].date == k.1
              && 1 <= t.calendarDates[k].exceptionType <= 2
    {
      PutKeys(ExceptionKey(), ExceptionRows(f), k);
      ExceptionRowFrom(f.services, t.calendarDates[k]);
    }
  }

  lemma {:induction false} ExceptionRowFrom(services: seq<Service>, e: ExceptionRow)
    requires e in Flatten(Map(ExceptionRowsOf(), services))
    ensures 1 <= e.exceptionType <= 2
  {
    var parts := Map(ExceptionRowsOf(), services);
    assert parts[0] == ExceptionRowsOf()(services[0]);
    if e !in parts[0] {
      assert Map(ExceptionRowsOf(), services[1..]) == parts[1..];
      ExceptionRowFrom(services[1..], e);
    }
  }

  /* ---------- The feed end date and the future-service query ---------- */

  /** No service runs after the feed end date, nor at all when there is none. */
  lemma NoServiceAfterFeedEnd(calendar: map<string, CalendarRow>, dates: map<(string, int), ExceptionRow>,
                              serviceID: string, date: int)
    requires KeyedDates(dates) && RunsOn(calendar, dates, serviceID, date)
    ensures var end := FeedEndDate(calendar, dates); end.Some? && date <= end.value
  {
    var days := ServiceDays(calendar, dates);
    if (serviceID, date) in dates {
      assert dates[(serviceID, date)].date in days;
    } else {
      assert calendar[serviceID].endDate in days;
    }
  }

  /** So the stored expiry is never before the last second of a day with service. */
  lemma ExpiryCoversService(t: Tables, f: Feed, s: Service, date: int)
    requires DerivedFrom(t, f) && s in f.services && RunsOn(t.calendar, t.calendarDates, s.id, date)
    ensures t.metadata.value.expiresAt.Some? && (date + 1) * DAY - 1 <= t.metadata.value.expiresAt.value
  {
    ImportMakesCheckTotal(t, f, s, date);
    NoServiceAfterFeedEnd(t.calendar, t.calendarDates, s.id, date);
    ExpiryMatches(t, f);
  }

  predicate RouteUses(trips: map<string, TripRow>, routeID: string, serviceID: string) {
    exists id :: id in trips && trips[id].routeID == routeID && trips[id].serviceID == serviceID
  }

  /** The future-service query: an added date, or a calendar with some weekday, overlapping the time
      after the reference date up to the horizon. */
  predicate RouteHasFutureService(t: Tables, routeID: string, refDate: int, horizon: int) {
    || (exists k :: k in t.calendarDates && RouteUses(t.trips, routeID, k.0) && t.calendarDates[k].exceptionType == 1
                    && refDate < k.1 <= horizon)
    || exists id :: id in t.calendar && Counted(t, routeID, id, refDate, horizon)
  }

  predicate CalendarCounts(row: CalendarRow, refDate: int, horizon: int) {
    refDate < row.endDate && row.startDate <= horizon && row.days != {}
  }

  /** The calendar row makes the query say yes. */
  predicate Counted(t: Tables, routeID: string, id: string, refDate: int, horizon: int) {
    id in t.calendar && RouteUses(t.trips, routeID, id) && CalendarCounts(t.calendar[id], refDate, horizon)
  }

  /** The query never misses: a route with a trip running on some date after the reference date and
      within the horizon has future service. */
  lemma FutureServiceIsNeverMissed(t: Tables, routeID: string, refDate: int, horizon: int, tripID: string, date: int)
    requires tripID in t.trips && t.trips[tripID].routeID == routeID && refDate < date <= horizon
    requires RunsOn(t.calendar, t.calendarDates, t.trips[tripID].serviceID, date)
    ensures RouteHasFutureService(t, routeID, refDate, horizon)
  {
    var s := t.trips[tripID].serviceID;
    assert RouteUses(t.trips, routeID, s);
    if (s, date) in t.calendarDates {
      assert t.calendarDates[(s, date)].exceptionType == 1;
    } else {
      assert Weekday(date) in t.calendar[s].days;
      assert Counted(t, routeID, s, refDate, horizon);
    }
  }

  function Max(a: int, b: int): int { if a < b then b else a }
  function Min(a: int, b: int): int { if a < b then a else b }

  /** The days of the calendar row that the query's window covers. */
  function Overlap(row: CalendarRow, refDate: int, horizon: int): (int, int) {
    (Max(refDate + 1, row.startDate), Min(horizon, row.endDate))
  }

  /** The overlap is a week or more, so it contains every weekday. */
  predicate LongOverlap(row: CalendarRow, refDate: int, horizon: int) {
    var days := Overlap(row, refDate, horizon);
    days.1 - days.0 >= 6
  }

  /** No date of the overlap is removed. */
  ghost predicate NoneRemoved(t: Tables, id: string, refDate: int, horizon: int)
    requires id in t.calendar
  {
    var days := Overlap(t.calendar[id], refDate, horizon);
    forall date :: days.0 <= date <= days.1 ==> !HasException(t.calendarDates, id, date, 2)
  }

  lemma WeekdayReached(from: int, day: DayOfWeek) returns (date: int)
    ensures from <= date <= from + 6 && Weekday(date) == day
  {
    date := from + (day - Weekday(from)) % 7;
  }

  /** Some trip of the route really runs in the window. */
  ghost predicate RunsWithin(t: Tables, routeID: string, refDate: int, horizon: int) {
    exists tripID, date :: tripID in t.trips && t.trips[tripID].routeID == routeID && refDate < date <= horizon
                           && RunsOn(t.calendar, t.calendarDates, t.trips[tripID].serviceID, date)
  }

  /** A yes of the query, where short overlaps and removed dates occur only if they are admitted. */
  ghost predicate Admitted(t: Tables, routeID: string, refDate: int, horizon: int, shortOverlap: bool, removals: bool) {
    && KeyedDates(t.calendarDates) && RouteHasFutureService(t, routeID, refDate, horizon)
    && (shortOverlap || forall id :: Counted(t, routeID, id, refDate, horizon) ==>
                          LongOverlap(t.calendar[id], refDate, horizon))
    && (removals || forall id :: Counted(t, routeID, id, refDate, horizon) ==> NoneRemoved(t, id, refDate, horizon))
  }

  /** A yes means service, for all tables, exactly when both short overlaps and removed dates are ruled
      out among the calendar rows that count. */
  lemma FutureServiceCondition(shortOverlap: bool, removals: bool)
    ensures !shortOverlap && !removals <==>
              forall t, routeID, refDate, horizon :: Admitted(t, routeID, refDate, horizon, shortOverlap, removals) ==>
                RunsWithin(t, routeID, refDate, horizon)
  {
    if shortOverlap {
      WrongWeekdaysCount();
      assert Admitted(ShortTables(), "r", 0, 100, shortOverlap, removals);
    } else if removals {
      RemovedDatesCount();
    } else {
      forall t, routeID, refDate, horizon | Admitted(t, routeID, refDate, horizon, false, false)
        ensures RunsWithin(t, routeID, refDate, horizon)
      {
        FutureServiceIsReal(t, routeID, refDate, horizon);
      }
    }
  }

  lemma FutureServiceIsReal(t: Tables, routeID: string, refDate: int, horizon: int)
    requires Admitted(t, routeID, refDate, horizon, false, false)
    ensures RunsWithin(t, routeID, refDate, horizon)
  {
    if k :| k in t.calendarDates && RouteUses(t.trips, routeID, k.0) && t.calendarDates[k].exceptionType == 1
            && refDate < k.1 <= horizon {
      var tripID :| tripID in t.trips && t.trips[tripID].routeID == routeID && t.trips[tripID].serviceID == k.0;
      assert RunsOn(t.calendar, t.calendarDates, k.0, k.1);
    } else {
      var id :| Counted(t, routeID, id, refDate, horizon);
      FullWeekRuns(t, routeID, refDate, horizon, id);
    }
  }

  lemma FullWeekRuns(t: Tables, routeID: string, refDate: int, horizon: int, id: string)
    requires KeyedDates(t.calendarDates) && Counted(t, routeID, id, refDate, horizon)
    requires LongOverlap(t.calendar[id], refDate, horizon) && NoneRemoved(t, id, refDate, horizon)
    ensures RunsWithin(t, routeID, refDate, horizon)
  {
    var day :| day in t.calendar[id].days;
    var date := WeekdayReached(Overlap(t.calendar[id], refDate, horizon).0, day);
    var tripID :| tripID in t.trips && t.trips[tripID].routeID == routeID && t.trips[tripID].serviceID == id;
    assert !HasException(t.calendarDates, id, date, 2);
    assert RunsOn(t.calendar, t.calendarDates, t.trips[tripID].serviceID, date);
  }

  /** One trip of route "r" on a service that runs on Mondays, up to the given day. */
  function MondayTables(endDate: int, dates: map<(string, int), ExceptionRow>): Tables {
    EMPTY.(calendar := map["s" := CalendarRow("s", {0}, 0, endDate)], calendarDates := dates,
           trips := map["t" := TripRow("t", "r", "s", "", "", None, None)])
  }

  function ShortTables(): Tables {
    MondayTables(1, map[])
  }

  /** The one Monday of the week is removed. */
  function RemovedTables(): Tables {
    MondayTables(7, map[("s", 4) := ExceptionRow("s", 4, 2)])
  }

  lemma MondayServiceCounts(endDate: int, dates: map<(string, int), ExceptionRow>, horizon: int)
    requires endDate > 0 && horizon >= 0
    ensures Counted(MondayTables(endDate, dates), "r", "s", 0, horizon)
    ensures RouteHasFutureService(MondayTables(endDate, dates), "r", 0, horizon)
    ensures forall id :: Counted(MondayTables(endDate, dates), "r", id, 0, horizon) ==> id == "s"
  {
    var t := MondayTables(endDate, dates);
    assert RouteUses(t.trips, "r", "s") by { assert "t" in t.trips; }
    assert 0 in t.calendar["s"].days;
  }

  /** A calendar overlapping the window on the wrong weekdays counts. */
  lemma WrongWeekdaysCount()
    ensures Admitted(ShortTables(), "r", 0, 100, true, false) && !RunsWithin(ShortTables(), "r", 0, 100)
  {
    MondayServiceCounts(1, map[], 100);
    forall date | 0 < date <= 100 ensures !RunsOn(ShortTables().calendar, map[], "s", date) {
      assert Weekday(1) == 4;
    }
  }

  /** A calendar counts although all its dates in the window are removed. */
  lemma RemovedDatesCount()
    ensures Admitted(RemovedTables(), "r", 0, 7, false, true) && !RunsWithin(RemovedTables(), "r", 0, 7)
  {
    var t := RemovedTables();
    MondayServiceCounts(7, t.calendarDates, 7);
    forall date | 0 < date <= 7 ensures !RunsOn(t.calendar, t.calendarDates, "s", date) {
      assert date != 4 ==> Weekday(date) != 0;
    }
  }
}
