/** Which visit of a stop a request means, when a trip may call there more than once
    (internal/restapi/arrival_and_departure_for_stop_handler.go). */
module VisitMatching {
  import opened Collections

  datatype StopTime = StopTime(stopID: string, arrival: int, departure: int)

  function Abs(x: int): int { if x < 0 then -x else x }

  /** How far a visit is from the query time: the nearer of its arrival and departure. */
  function TimeDistance(st: StopTime, queryOffset: int): int {
    var a, b := Abs(queryOffset - st.arrival), Abs(queryOffset - st.departure);
    if a <= b then a else b
  }

  predicate CallsAt(stopTimes: seq<StopTime>, stopID: string, i: int) {
    0 <= i < |stopTimes| && stopTimes[i].stopID == stopID
  }

  /** What a visit's distance is measured from. */
  datatype Wanted = ByTime(queryOffset: int) | ByPosition(position: int)

  function Distance(stopTimes: seq<StopTime>, w: Wanted, i: int): int {
    match w
    case ByTime(q) => if 0 <= i < |stopTimes| then TimeDistance(stopTimes[i], q) else 0
    case ByPosition(k) => Abs(i - k)
  }

  /** The first visit of the stop that is nearest to what is wanted. */
  ghost predicate IsNearest(stopTimes: seq<StopTime>, stopID: string, w: Wanted, i: int) {
    && CallsAt(stopTimes, stopID, i)
    && forall j :: CallsAt(stopTimes, stopID, j) ==>
         || Distance(stopTimes, w, i) < Distance(stopTimes, w, j)
         || (Distance(stopTimes, w, i) == Distance(stopTimes, w, j) && i <= j)
  }

  ghost predicate NeverCalls(stopTimes: seq<StopTime>, stopID: string) {
    forall j :: 0 <= j < |stopTimes| ==> stopTimes[j].stopID != stopID
  }

  method FindClosestStopTime(stopTimes: seq<StopTime>, stopID: string, queryOffset: int) returns (r: Option<nat>)
    ensures r.None? <==> NeverCalls(stopTimes, stopID)
    ensures r.Some? ==> IsNearest(stopTimes, stopID, ByTime(queryOffset), r.value)
  {
    r := None;
    var bestDelta := 0;
    for i := 0 to |stopTimes|
      invariant r.None? ==> forall j :: 0 <= j < i ==> stopTimes[j].stopID != stopID
      invariant r.Some? ==> r.value < i && stopTimes[r.value].stopID == stopID
                            && bestDelta == TimeDistance(stopTimes[r.value], queryOffset)
      invariant r.Some? ==> forall j :: 0 <= j < i && stopTimes[j].stopID == stopID ==>
                  bestDelta <= TimeDistance(stopTimes[j], queryOffset)
                  && (TimeDistance(stopTimes[j], queryOffset) == bestDelta ==> r.value <= j)
    {
      var st := stopTimes[i];
      if st.stopID != stopID { continue; }
      var a, b := Abs(queryOffset - st.arrival), Abs(queryOffset - st.departure);
      var delta := if a <= b then a else b;
      if r.None? || delta < bestDelta {
        r, bestDelta := Some(i), delta;
      }
    }
  }

  /** Clamping the requested position to the trip keeps the order of distances. */
  lemma ClampKeepsNearest(stopTimes: seq<StopTime>, stopID: string, requested: nat, i: int)
    requires stopTimes != []
    ensures var clamped := if requested <= |stopTimes| - 1 then requested else |stopTimes| - 1;
      IsNearest(stopTimes, stopID, ByPosition(clamped), i) <==> IsNearest(stopTimes, stopID, ByPosition(requested), i)
  {
    var clamped := if requested <= |stopTimes| - 1 then requested else |stopTimes| - 1;
    if clamped != requested {
      forall j | CallsAt(stopTimes, stopID, j)
        ensures Distance(stopTimes, ByPosition(requested), j)
                == Distance(stopTimes, ByPosition(clamped), j) + (requested - clamped) { }
    }
  }

  method FindStopTimeByPosition(stopTimes: seq<StopTime>, stopID: string, requested: nat) returns (r: Option<nat>)
    ensures r.None? <==> NeverCalls(stopTimes, stopID)
    ensures r.Some? ==> IsNearest(stopTimes, stopID, ByPosition(requested), r.value)
  {
    var n := |stopTimes|;
    if n == 0 { return None; }
    var idx := if requested <= n - 1 then requested else n - 1;
    if stopTimes[idx].stopID == stopID {
      assert IsNearest(stopTimes, stopID, ByPosition(idx), idx);
      ClampKeepsNearest(stopTimes, stopID, requested, idx);
      return Some(idx);
    }
    var bestDist := 0;
    r := None;
    for i := 0 to n
      invariant r.None? ==> forall j :: 0 <= j < i ==> stopTimes[j].stopID != stopID
      invariant r.Some? ==> r.value < i && stopTimes[r.value].stopID == stopID && bestDist == Abs(r.value - idx)
      invariant r.Some? ==> forall j :: 0 <= j < i && stopTimes[j].stopID == stopID ==>
                  bestDist <= Abs(j - idx) && (Abs(j - idx) == bestDist ==> r.value <= j)
    {
      if stopTimes[i].stopID != stopID { continue; }
      var dist := Abs(i - idx);
      if r.None? || dist < bestDist {
        r, bestDist := Some(i), dist;
      }
    }
    if r.Some? {
      assert IsNearest(stopTimes, stopID, ByPosition(idx), r.value);
      ClampKeepsNearest(stopTimes, stopID, requested, r.value);
    }
  }

  /** By position when one is given, however far out of range; by time otherwise. Either way the
      visit found is the first nearest one, and none is found only when the stop never occurs. */
  method FindStopTimeForTripStop(stopTimes: seq<StopTime>, stopID: string, requestedIndex: Option<int>,
                                 queryOffset: int)
    returns (r: Option<nat>)
    ensures r.None? <==> NeverCalls(stopTimes, stopID)
    ensures r.Some? ==>
              IsNearest(stopTimes, stopID,
                        if requestedIndex.Some? && requestedIndex.value >= 0 then ByPosition(requestedIndex.value)
                        else ByTime(queryOffset), r.value)
  {
    if requestedIndex.None? || requestedIndex.value < 0 {
      r := FindClosestStopTime(stopTimes, stopID, queryOffset);
    } else {
      r := FindStopTimeByPosition(stopTimes, stopID, requestedIndex.value);
    }
  }

  /** The visit arrives or departs at most d from the query time. */
  predicate CallsWithin(st: StopTime, queryOffset: int, d: int) {
    -d <= queryOffset - st.arrival <= d || -d <= queryOffset - st.departure <= d
  }

  lemma CallsWithinDistance(st: StopTime, queryOffset: int, d: int)
    ensures CallsWithin(st, queryOffset, d) <==> TimeDistance(st, queryOffset) <= d
  {
  }

  /** Nearest by time, in the visits' own times: however close some visit of the stop comes to the query
      time, this one comes as close, and closer than every visit before it. */
  lemma NearestInTime(stopTimes: seq<StopTime>, stopID: string, queryOffset: int, i: int)
    requires IsNearest(stopTimes, stopID, ByTime(queryOffset), i)
    ensures 0 <= i < |stopTimes| && stopTimes[i].stopID == stopID
    ensures forall j, d :: 0 <= j < |stopTimes| && stopTimes[j].stopID == stopID ==>
              CallsWithin(stopTimes[j], queryOffset, d) ==> CallsWithin(stopTimes[i], queryOffset, d)
    ensures forall j :: 0 <= j < i && stopTimes[j].stopID == stopID ==>
              exists d :: CallsWithin(stopTimes[i], queryOffset, d) && !CallsWithin(stopTimes[j], queryOffset, d)
  {
    forall j, d | 0 <= j < |stopTimes| && stopTimes[j].stopID == stopID && CallsWithin(stopTimes[j], queryOffset, d)
      ensures CallsWithin(stopTimes[i], queryOffset, d)
    {
      assert CallsAt(stopTimes, stopID, j);
      CallsWithinDistance(stopTimes[i], queryOffset, d);
      CallsWithinDistance(stopTimes[j], queryOffset, d);
    }
    forall j | 0 <= j < i && stopTimes[j].stopID == stopID
      ensures exists d :: CallsWithin(stopTimes[i], queryOffset, d) && !CallsWithin(stopTimes[j], queryOffset, d)
    {
      assert CallsAt(stopTimes, stopID, j);
      var d := TimeDistance(stopTimes[i], queryOffset);
      CallsWithinDistance(stopTimes[i], queryOffset, d);
      CallsWithinDistance(stopTimes[j], queryOffset, d);
    }
  }

  /** Nearest by position: no visit of the stop lies strictly closer to the position on either side,
      and none before it as close. */
  lemma NearestInPosition(stopTimes: seq<StopTime>, stopID: string, position: int, i: int)
    requires IsNearest(stopTimes, stopID, ByPosition(position), i)
    ensures 0 <= i < |stopTimes| && stopTimes[i].stopID == stopID
    ensures forall j :: 0 <= j < |stopTimes| && stopTimes[j].stopID == stopID ==>
              if i <= position then !(i < j < 2 * position - i) else !(2 * position - i <= j < i)
  {
    forall j | 0 <= j < |stopTimes| && stopTimes[j].stopID == stopID
      ensures if i <= position then !(i < j < 2 * position - i) else !(2 * position - i <= j < i)
    {
      assert CallsAt(stopTimes, stopID, j);
    }
  }

  /** The nearest visit is unique, so the specification determines the answer. */
  lemma NearestIsUnique(stopTimes: seq<StopTime>, stopID: string, w: Wanted, i: int, j: int)
    requires IsNearest(stopTimes, stopID, w, i) && IsNearest(stopTimes, stopID, w, j)
    ensures i == j
  {
    assert CallsAt(stopTimes, stopID, i) && CallsAt(stopTimes, stopID, j);
  }
}
