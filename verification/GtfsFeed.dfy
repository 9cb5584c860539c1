/** The parsed static feed that an import stores (gtfsdb/helpers.go). Dates are day numbers, times
    are nanoseconds since the start of the service day, and `body` stands for the columns that are
    only copied. */
module GtfsFeed {

  datatype Agency = Agency(id: string, timezone: string, body: string)

  datatype Route = Route(id: string, agencyID: string, body: string)

  /** `parent` is empty when the stop has no parent station. */
  datatype Stop = Stop(id: string, hasCoordinates: bool, parent: string, body: string)

  /** 0 for Monday to 6 for Sunday. */
  type DayOfWeek = d: int | 0 <= d < 7

  /** `days` holds the weekdays the service runs on. */
  datatype Service = Service(
    id: string, days: set<DayOfWeek>, startDate: int, endDate: int, addedDates: seq<int>, removedDates: seq<int>)

  datatype StopTime = StopTime(stopID: string, sequence: int, arrival: int, departure: int)

  datatype ScheduledTrip = ScheduledTrip(
    id: string, routeID: string, serviceID: string, blockID: string, stopTimes: seq<StopTime>, body: string)

  datatype Feed = Feed(
    hash: string, source: string,
    agencies: seq<Agency>, routes: seq<Route>, stops: seq<Stop>, services: seq<Service>, trips: seq<ScheduledTrip>)
}
